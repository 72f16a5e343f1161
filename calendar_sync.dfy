/**
 * The outer loops of the sync: `tickCounters`, the per-order try/except of `loopOrders`,
 * and the walk over week windows in the main block. The Qualer fetch of a window's work
 * orders, the Outlook index, today's date and the event lookup are inputs; times are
 * counted in microseconds, the resolution of Python's `datetime`.
 */
module CalendarSync {
  import opened Wrappers
  import opened PyValues
  import opened DateTimeResolver
  import opened Outlook
  import opened QualerOrders
  import opened ExceptionReport

  /** The four lists the sync keeps: failures as (label, exception), and order numbers per outcome. */
  datatype Totals = Totals(exceptions: seq<(Value, Exc)>, created: seq<int>, deleted: seq<int>, updated: seq<int>)

  /** How many entries the four lists hold together. */
  function Size(t: Totals): nat {
    |t.exceptions| + |t.created| + |t.deleted| + |t.updated|
  }

  /** `cSync.skipped_events` names an attribute `__init__` never creates. */
  const NoSkippedEvents: Exc := Raised("'CalendarSync' object has no attribute 'skipped_events'")

  /** The handler reads `CustomOrderNumber` before any iteration has assigned it. */
  const UnboundLabel: Exc :=
    Raised("cannot access local variable 'CustomOrderNumber' where it is not associated with a value")

  /** `tickCounters` on a processed order: the lists after the call, or the exception it raised. */
  function Tally(t: Totals, number: int, status: Value): (r: Result<Totals, Exc>)
    ensures r.Err? <==> status == VStr("Skipped")
    ensures r.Err? ==> r.error == NoSkippedEvents
    ensures r.Ok? ==> r.value.exceptions == t.exceptions
    ensures r.Ok? ==> r.value.deleted == if status == VStr("Cancelled") then t.deleted + [number] else t.deleted
    ensures r.Ok? ==> r.value.updated == if status == VStr("Updated") then t.updated + [number] else t.updated
    ensures r.Ok? ==> r.value.created == if status == VStr("Created") then t.created + [number] else t.created
  {
    if status == VStr("Past") then Ok(t)
    else if status == VStr("Skipped") then Err(NoSkippedEvents)
    else if status == VStr("Cancelled") then Ok(t.(deleted := t.deleted + [number]))
    else if status == VStr("Updated") then Ok(t.(updated := t.updated + [number]))
    else if status == VStr("Created") then Ok(t.(created := t.created + [number]))
    else Ok(t)
  }

  /** A Cancelled, Updated or Created order adds one number to one list; anything else adds none. */
  lemma TallyCountsOnce(t: Totals, number: int, status: Value)
    requires Tally(t, number, status).Ok?
    ensures var counted := status in {VStr("Cancelled"), VStr("Updated"), VStr("Created")};
      Size(Tally(t, number, status).value) == Size(t) + (if counted then 1 else 0)
  {
  }

  /** `work_order["CustomOrderNumber"][6:]`, the label a failure is recorded under. */
  function LabelOf(workOrder: Mapping): (r: Result<Value, Exc>)
    ensures CustomOrderNumber !in workOrder ==> r == Err(KeyError(CustomOrderNumber))
    ensures CustomOrderNumber in workOrder ==> r == SliceFrom(workOrder[CustomOrderNumber], 6)
  {
    if CustomOrderNumber in workOrder then SliceFrom(workOrder[CustomOrderNumber], 6)
    else Err(KeyError(CustomOrderNumber))
  }

  /** `QualerOrder(work_order)` followed by `process_order`. */
  function Handle(workOrder: Mapping, index: seq<IndexEntry>, today: int, lookup: string -> Fetched): (r: Result<Outcome, Exc>)
    ensures !HasRequiredKeys(workOrder) ==> r == Err(MissingKeysError(workOrder))
    ensures HasRequiredKeys(workOrder) ==>
      var c := Combine(workOrder, Times(None, None, false));
      && (c.error.Some? ==> r == Err(c.error.value))
      && (c.error.None? ==> HasRequiredKeys(c.order) && r == Process(c.order, index, today, lookup))
  {
    if !HasRequiredKeys(workOrder) then Err(MissingKeysError(workOrder))
    else
      var c := Combine(workOrder, Times(None, None, false));
      if c.error.Some? then Err(c.error.value) else Process(c.order, index, today, lookup)
  }

  /** The failure list with one more `[label, message]` entry. */
  function Record(t: Totals, tag: Value, e: Exc): (r: Totals)
    ensures r.exceptions == t.exceptions + [(tag, e)]
    ensures r.created == t.created && r.deleted == t.deleted && r.updated == t.updated
  {
    t.(exceptions := t.exceptions + [(tag, e)])
  }

  /**
   * Where `loopOrders` stands between two orders: the lists, the value its local
   * `CustomOrderNumber` last received (None before the first assignment), and the
   * exception that escaped the loop, after which nothing more happens.
   */
  datatype Progress = Progress(totals: Totals, tag: Option<Value>, aborted: Option<Exc>)

  /** One iteration of the `for work_order` loop. */
  function Step(p: Progress, workOrder: Mapping, index: seq<IndexEntry>, today: int, lookup: string -> Fetched): (r: Progress)
    ensures p.aborted.Some? ==> r == p
  {
    if p.aborted.Some? then p
    else match LabelOf(workOrder)
      case Err(e) =>
        if p.tag.None? then p.(aborted := Some(UnboundLabel))
        else p.(totals := Record(p.totals, p.tag.value, e))
      case Ok(tag) => Progress(Account(p.totals, tag, workOrder, index, today, lookup), Some(tag), None)
  }

  /** The body of the `try` for an order with a label: its outcome is counted, or its exception recorded. */
  function Account(t: Totals, tag: Value, workOrder: Mapping, index: seq<IndexEntry>, today: int, lookup: string -> Fetched): Totals {
    match Handle(workOrder, index, today, lookup)
    case Err(e) => Record(t, tag, e)
    case Ok(o) =>
      match Tally(t, o.number, StatusValue(o.decision))
      case Err(e) => Record(t, tag, e)
      case Ok(t') => t'
  }

  /** The loop over a window's work orders, one `Step` per order, from the left. */
  function Batch(p: Progress, workOrders: seq<Mapping>, index: seq<IndexEntry>, today: int, lookup: string -> Fetched): Progress
    decreases |workOrders|
  {
    if workOrders == [] then p
    else Step(Batch(p, workOrders[..|workOrders| - 1], index, today, lookup), workOrders[|workOrders| - 1], index, today, lookup)
  }

  /** `t'` is `t` with exactly one more failure entry. */
  predicate OneFailure(t: Totals, t': Totals) {
    && |t'.exceptions| == |t.exceptions| + 1 && t'.exceptions[..|t.exceptions|] == t.exceptions
    && t'.created == t.created && t'.deleted == t.deleted && t'.updated == t.updated
  }

  /** `t'` is `t` with at most one more order number, in one of the three outcome lists. */
  predicate AtMostOneOutcome(t: Totals, t': Totals) {
    && t'.exceptions == t.exceptions
    && ((t'.created == t.created && t'.deleted == t.deleted && t'.updated == t.updated)
        || (|t'.created| == |t.created| + 1 && t'.created[..|t.created|] == t.created && t'.deleted == t.deleted && t'.updated == t.updated)
        || (|t'.deleted| == |t.deleted| + 1 && t'.deleted[..|t.deleted|] == t.deleted && t'.created == t.created && t'.updated == t.updated)
        || (|t'.updated| == |t.updated| + 1 && t'.updated[..|t.updated|] == t.updated && t'.created == t.created && t'.deleted == t.deleted))
  }

  /**
   * Each order either adds exactly one failure entry or at most one outcome, and the loop
   * goes on; only a failure before any label was assigned ends it.
   */
  lemma StepAccounts(p: Progress, workOrder: Mapping, index: seq<IndexEntry>, today: int, lookup: string -> Fetched)
    requires p.aborted.None?
    ensures var r := Step(p, workOrder, index, today, lookup);
      && (r.aborted.Some? <==> LabelOf(workOrder).Err? && p.tag.None?)
      && (r.aborted.Some? ==> r.aborted == Some(UnboundLabel) && r.totals == p.totals)
      && (r.aborted.None? ==> OneFailure(p.totals, r.totals) || AtMostOneOutcome(p.totals, r.totals))
  {
    var r := Step(p, workOrder, index, today, lookup);
    match LabelOf(workOrder)
    case Err(e) =>
      if p.tag.Some? {
        assert OneFailure(p.totals, r.totals);
      }
    case Ok(tag) =>
      match Handle(workOrder, index, today, lookup)
      case Err(e) =>
        assert OneFailure(p.totals, r.totals);
      case Ok(o) =>
        match Tally(p.totals, o.number, StatusValue(o.decision))
        case Err(e) =>
          assert OneFailure(p.totals, r.totals);
        case Ok(t') =>
          var t := p.totals;
          var status := StatusValue(o.decision);
          if status == VStr("Cancelled") {
            assert t'.deleted[..|t.deleted|] == t.deleted;
          } else if status == VStr("Updated") {
            assert t'.updated[..|t.updated|] == t.updated;
          } else if status == VStr("Created") {
            assert t'.created[..|t.created|] == t.created;
          }
  }

  /** A Skipped order is counted as a failure: the append to the missing list raises. */
  lemma SkippedIsRecordedAsFailure(p: Progress, workOrder: Mapping, index: seq<IndexEntry>, today: int, lookup: string -> Fetched)
    requires p.aborted.None? && LabelOf(workOrder).Ok?
    requires Handle(workOrder, index, today, lookup).Ok? && Handle(workOrder, index, today, lookup).value.decision == Skipped
    ensures Step(p, workOrder, index, today, lookup).totals.exceptions ==
            p.totals.exceptions + [(LabelOf(workOrder).value, NoSkippedEvents)]
  {
  }

  /** After the loop has been left, later orders change nothing. */
  lemma {:induction false} BatchStaysAborted(p: Progress, done: seq<Mapping>, rest: seq<Mapping>,
                                             index: seq<IndexEntry>, today: int, lookup: string -> Fetched)
    requires Batch(p, done, index, today, lookup).aborted.Some?
    ensures Batch(p, done + rest, index, today, lookup) == Batch(p, done, index, today, lookup)
    decreases |rest|
  {
    if rest != [] {
      var n := |rest| - 1;
      var all := done + rest;
      assert all[..|all| - 1] == done + rest[..n];
      BatchStaysAborted(p, done, rest[..n], index, today, lookup);
      assert Batch(p, all, index, today, lookup) == Step(Batch(p, done + rest[..n], index, today, lookup), all[|all| - 1], index, today, lookup);
    } else {
      assert done + rest == done;
    }
  }

  /** The loop appends at most one entry per order: the four lists grow by no more than the batch. */
  lemma {:induction false} BatchGrowth(p: Progress, workOrders: seq<Mapping>, index: seq<IndexEntry>, today: int, lookup: string -> Fetched)
    ensures var r := Batch(p, workOrders, index, today, lookup);
      && Size(p.totals) <= Size(r.totals) <= Size(p.totals) + |workOrders|
      && |p.totals.exceptions| <= |r.totals.exceptions|
      && r.totals.exceptions[..|p.totals.exceptions|] == p.totals.exceptions
    decreases |workOrders|
  {
    if workOrders != [] {
      var q := Batch(p, workOrders[..|workOrders| - 1], index, today, lookup);
      BatchGrowth(p, workOrders[..|workOrders| - 1], index, today, lookup);
      if q.aborted.None? {
        StepAccounts(q, workOrders[|workOrders| - 1], index, today, lookup);
        var r := Step(q, workOrders[|workOrders| - 1], index, today, lookup);
        assert r.totals.exceptions[..|q.totals.exceptions|] == q.totals.exceptions;
        assert q.totals.exceptions[..|p.totals.exceptions|] == p.totals.exceptions;
        assert r.totals.exceptions[..|p.totals.exceptions|] == r.totals.exceptions[..|q.totals.exceptions|][..|p.totals.exceptions|];
      }
    }
  }

  /** Microseconds in a day and in a week. */
  const Day: int := 86_400_000_000
  const Week: int := 604_800_000_000

  function Min(a: int, b: int): int {
    if a <= b then a else b
  }

  /** The windows the main loop hands to `loopOrders`, from `weekStart` on: a week each, the last cut at `stop`. */
  function Windows(weekStart: int, stop: int): seq<(int, int)>
    decreases if weekStart <= stop then stop - weekStart + 1 else 0
  {
    if weekStart > stop then [] else [(weekStart, Min(weekStart + Week, stop))] + Windows(weekStart + Week, stop)
  }

  /** `(stop_date - start_date).days // 7 + 1`, with Python's flooring `.days` and `//`. */
  function TotalWeeks(start: int, stop: int): int {
    (stop - start) / Day / 7 + 1
  }

  /** Window `k` starts `k` weeks after the first, no later than `stop`, and ends a week later or at `stop`. */
  lemma {:induction false} WindowAt(weekStart: int, stop: int, k: nat)
    requires k < |Windows(weekStart, stop)|
    ensures Windows(weekStart, stop)[k] == (weekStart + k * Week, Min(weekStart + (k + 1) * Week, stop))
    ensures weekStart + k * Week <= stop
    decreases k
  {
    if k > 0 {
      WindowAt(weekStart + Week, stop, k - 1);
      assert Windows(weekStart, stop)[k] == Windows(weekStart + Week, stop)[k - 1];
      assert weekStart + Week + (k - 1) * Week == weekStart + k * Week;
      assert weekStart + Week + k * Week == weekStart + (k + 1) * Week;
    }
  }

  /** Every window lies at or before `stop` and spans at most a week. */
  lemma WindowShape(weekStart: int, stop: int)
    ensures var w := Windows(weekStart, stop);
      forall k :: 0 <= k < |w| ==>
        && w[k].0 == weekStart + k * Week && w[k].0 <= stop
        && w[k].1 == Min(weekStart + (k + 1) * Week, stop) && w[k].1 <= stop && w[k].1 <= w[k].0 + Week
  {
    var w := Windows(weekStart, stop);
    forall k | 0 <= k < |w|
      ensures w[k].0 == weekStart + k * Week && w[k].0 <= stop
      ensures w[k].1 == Min(weekStart + (k + 1) * Week, stop) && w[k].1 <= stop && w[k].1 <= w[k].0 + Week
    {
      WindowAt(weekStart, stop, k);
      assert weekStart + (k + 1) * Week == weekStart + k * Week + Week;
    }
  }

  /** Taking the first window of the rest off onto the windows walked so far. */
  lemma WindowsAppend(done: seq<(int, int)>, weekStart: int, stop: int)
    requires weekStart <= stop
    ensures done + Windows(weekStart, stop) == (done + [(weekStart, Min(weekStart + Week, stop))]) + Windows(weekStart + Week, stop)
  {
    var w := (weekStart, Min(weekStart + Week, stop));
    assert Windows(weekStart, stop) == [w] + Windows(weekStart + Week, stop);
    assert done + ([w] + Windows(weekStart + Week, stop)) == (done + [w]) + Windows(weekStart + Week, stop);
  }

  /** The loop runs `total_weeks` times, and not at all when the stop precedes the start. */
  lemma {:induction false} WindowCount(weekStart: int, stop: int)
    ensures |Windows(weekStart, stop)| == if weekStart > stop then 0 else TotalWeeks(weekStart, stop)
    decreases if weekStart <= stop then stop - weekStart + 1 else 0
  {
    if weekStart <= stop {
      WindowCount(weekStart + Week, stop);
      WeeksOfDays(stop - weekStart);
      if weekStart + Week <= stop {
        WeeksOfDays(stop - weekStart - Week);
      }
    }
  }

  /** Counting whole days, then whole weeks of days, counts whole weeks. */
  lemma WeeksOfDays(x: int)
    requires x >= 0
    ensures x / Day / 7 == x / Week
  {
    var d := x / Day;
    var w := d / 7;
    assert x == d * Day + x % Day;
    assert d == w * 7 + d % 7;
    assert x == w * Week + ((d % 7) * Day + x % Day);
  }

  /** When the stop precedes the start, `total_weeks` is not positive: no window is walked either way. */
  lemma NoWeeksBeforeStart(start: int, stop: int)
    requires stop < start
    ensures TotalWeeks(start, stop) <= 0 && Windows(start, stop) == []
  {
  }

  /** The walk over windows: one `loopOrders` per window until one raises. */
  function Sweep(p: Totals, windows: seq<(int, int)>, fetch: (int, int) -> seq<Mapping>,
                 index: seq<IndexEntry>, today: int, lookup: string -> Fetched): (r: Progress)
    ensures r.tag.None?
    decreases |windows|
  {
    if windows == [] then Progress(p, None, None)
    else
      var q := Sweep(p, windows[..|windows| - 1], fetch, index, today, lookup);
      var w := windows[|windows| - 1];
      if q.aborted.Some? then q
      else
        var b := Batch(Progress(q.totals, None, None), fetch(w.0, w.1), index, today, lookup);
        Progress(b.totals, None, b.aborted)
  }

  /** Walking one more window: nothing after an abort, else that window's `loopOrders` from a fresh label. */
  lemma SweepSnoc(p: Totals, done: seq<(int, int)>, w: (int, int), fetch: (int, int) -> seq<Mapping>,
                  index: seq<IndexEntry>, today: int, lookup: string -> Fetched)
    ensures var q := Sweep(p, done, fetch, index, today, lookup);
      var b := Batch(Progress(q.totals, None, None), fetch(w.0, w.1), index, today, lookup);
      Sweep(p, done + [w], fetch, index, today, lookup) == if q.aborted.Some? then q else Progress(b.totals, None, b.aborted)
  {
    assert (done + [w])[..|done|] == done;
  }

  /** After a window has raised, later windows change nothing. */
  lemma {:induction false} SweepStaysAborted(p: Totals, done: seq<(int, int)>, rest: seq<(int, int)>,
                                             fetch: (int, int) -> seq<Mapping>, index: seq<IndexEntry>, today: int,
                                             lookup: string -> Fetched)
    requires Sweep(p, done, fetch, index, today, lookup).aborted.Some?
    ensures Sweep(p, done + rest, fetch, index, today, lookup) == Sweep(p, done, fetch, index, today, lookup)
    decreases |rest|
  {
    if rest != [] {
      var n := |rest| - 1;
      var all := done + rest;
      assert all[..|all| - 1] == done + rest[..n];
      SweepStaysAborted(p, done, rest[..n], fetch, index, today, lookup);
    } else {
      assert done + rest == done;
    }
  }

  /** A walk whose first windows have raised ends where they left it. */
  lemma AbortedWalk(p: Totals, windows: seq<(int, int)>, done: seq<(int, int)>, rest: seq<(int, int)>,
                    fetch: (int, int) -> seq<Mapping>, index: seq<IndexEntry>, today: int, lookup: string -> Fetched)
    requires windows == done + rest
    requires Sweep(p, done, fetch, index, today, lookup).aborted.Some?
    ensures Sweep(p, windows, fetch, index, today, lookup) == Sweep(p, done, fetch, index, today, lookup)
  {
    SweepStaysAborted(p, done, rest, fetch, index, today, lookup);
  }

  /** The sync object: the failure list and the three outcome lists (there is no skipped list). */
  class CalendarSync {
    var exceptions: seq<(Value, Exc)>
    var createdEvents: seq<int>
    var deletedEvents: seq<int>
    var updatedEvents: seq<int>

    function Counters(): Totals
      reads this
    {
      Totals(exceptions, createdEvents, deletedEvents, updatedEvents)
    }

    /** Lines 21-24: every list starts empty. */
    constructor()
      ensures Counters() == Totals([], [], [], [])
    {
      exceptions := [];
      createdEvents := [];
      deletedEvents := [];
      updatedEvents := [];
    }

    /** `tickCounters(order)`: True for `Past`; a `Skipped` order raises before anything is appended. */
    method TickCounters(order: QualerOrder) returns (r: Result<bool, Exc>)
      requires order.customOrderNumber.Some?
      modifies this
      ensures var t := Tally(old(Counters()), order.customOrderNumber.value, order.status);
        && (r.Err? <==> t.Err?)
        && (r.Err? ==> r.error == t.error && Counters() == old(Counters()))
        && (r.Ok? ==> Counters() == t.value && (r.value <==> order.status == VStr("Past")))
    {
      var number := order.customOrderNumber.value;
      if order.status == VStr("Past") {
        return Ok(true);
      }
      if order.status == VStr("Skipped") {
        return Err(NoSkippedEvents);
      } else if order.status == VStr("Cancelled") {
        deletedEvents := deletedEvents + [number];
      } else if order.status == VStr("Updated") {
        updatedEvents := updatedEvents + [number];
      } else if order.status == VStr("Created") {
        createdEvents := createdEvents + [number];
      }
      return Ok(false);
    }

    /**
     * `finalLogging`: the failure groups and the failure counts it logs, one entry per
     * distinct exception in the order the exception first occurred.
     */
    method FinalLogging() returns (groups: seq<(Exc, seq<Value>)>, counts: seq<(Exc, nat)>)
      ensures |groups| == |counts| == |Distinct(exceptions)|
      ensures forall i :: 0 <= i < |groups| ==> groups[i] == (Distinct(exceptions)[i], Group(exceptions, Distinct(exceptions)[i]))
      ensures forall i :: 0 <= i < |counts| ==> counts[i] == (Distinct(exceptions)[i], Count(exceptions, Distinct(exceptions)[i]))
    {
      var keys, byException := GroupOrdersByException(exceptions);
      var countKeys, byCount := CountExceptions(exceptions);
      groups := seq(|keys|, i requires 0 <= i < |keys| => (keys[i], byException[keys[i]]));
      counts := seq(|countKeys|, i requires 0 <= i < |countKeys| => (countKeys[i], byCount[countKeys[i]]));
    }

    /**
     * `loopOrders` over the work orders of one window: every exception an order raises is
     * recorded under the label last assigned, and the loop goes on; an exception raised
     * by the handler itself leaves the loop.
     */
    method LoopOrders(workOrders: seq<Mapping>, index: seq<IndexEntry>, today: int, lookup: string -> Fetched)
      returns (error: Option<Exc>)
      modifies this
      ensures var p := Batch(Progress(old(Counters()), None, None), workOrders, index, today, lookup);
        Counters() == p.totals && error == p.aborted
    {
      ghost var start := Progress(Counters(), None, None);
      assert start == Progress(old(Counters()), None, None);
      var tag: Option<Value> := None;
      for i := 0 to |workOrders|
        invariant Batch(start, workOrders[..i], index, today, lookup) == Progress(Counters(), tag, None)
      {
        assert workOrders[..i + 1][..i] == workOrders[..i];
        assert Batch(start, workOrders[..i + 1], index, today, lookup)
            == Step(Progress(Counters(), tag, None), workOrders[i], index, today, lookup);
        var aborted;
        tag, aborted := StepOrder(workOrders[i], tag, index, today, lookup);
        if aborted.Some? {
          assert workOrders == workOrders[..i + 1] + workOrders[i + 1..];
          BatchStaysAborted(start, workOrders[..i + 1], workOrders[i + 1..], index, today, lookup);
          return aborted;
        }
      }
      assert workOrders[..|workOrders|] == workOrders;
      return None;
    }

    /**
     * One pass of the loop in `loopOrders`: the label is read first, and an order whose
     * label cannot be read is recorded under the previous one.
     */
    method StepOrder(workOrder: Mapping, tag: Option<Value>, index: seq<IndexEntry>, today: int, lookup: string -> Fetched)
      returns (tag': Option<Value>, aborted: Option<Exc>)
      modifies this
      ensures Step(Progress(old(Counters()), tag, None), workOrder, index, today, lookup) == Progress(Counters(), tag', aborted)
    {
      var sliced := LabelOf(workOrder);
      if sliced.Err? {
        if tag.None? {
          return tag, Some(UnboundLabel);
        }
        exceptions := exceptions + [(tag.value, sliced.error)];
        return tag, None;
      }
      AccountOrder(sliced.value, workOrder, index, today, lookup);
      return Some(sliced.value), None;
    }

    /** One order of `loopOrders` once its label is read: build it, process it, count it. */
    method AccountOrder(tag: Value, workOrder: Mapping, index: seq<IndexEntry>, today: int, lookup: string -> Fetched)
      modifies this
      ensures Counters() == Account(old(Counters()), tag, workOrder, index, today, lookup)
    {
      var created := QualerOrder.Create(workOrder);
      if created.Err? {
        exceptions := exceptions + [(tag, created.error)];
        return;
      }
      var order := created.value;
      var outcome := order.ProcessOrder(index, today, lookup);
      if outcome.Err? {
        exceptions := exceptions + [(tag, outcome.error)];
        return;
      }
      order.status := StatusValue(outcome.value.decision);
      var ticked := TickCounters(order);
      if ticked.Err? {
        exceptions := exceptions + [(tag, ticked.error)];
      }
    }

    /** One window of the week walk: its work orders are fetched and looped over. */
    method SyncWindow(ghost initial: Totals, ghost done: seq<(int, int)>, weekStart: int, weekEnd: int,
                      fetch: (int, int) -> seq<Mapping>, index: seq<IndexEntry>, today: int, lookup: string -> Fetched)
      returns (error: Option<Exc>)
      requires Sweep(initial, done, fetch, index, today, lookup) == Progress(Counters(), None, None)
      modifies this
      ensures Sweep(initial, done + [(weekStart, weekEnd)], fetch, index, today, lookup) == Progress(Counters(), None, error)
    {
      SweepSnoc(initial, done, (weekStart, weekEnd), fetch, index, today, lookup);
      var workOrders := fetch(weekStart, weekEnd);
      error := LoopOrders(workOrders, index, today, lookup);
    }

    /**
     * The main block's week walk from `start` to `stop`: each window is a week, the last one
     * cut at `stop`, and the walk ends after the window whose start passes `stop`, or when
     * `loopOrders` raises.
     */
    method Run(start: int, stop: int, fetch: (int, int) -> seq<Mapping>,
               index: seq<IndexEntry>, today: int, lookup: string -> Fetched) returns (error: Option<Exc>)
      modifies this
      ensures var p := Sweep(old(Counters()), Windows(start, stop), fetch, index, today, lookup);
        Counters() == p.totals && error == p.aborted
    {
      ghost var initial := Counters();
      ghost var done: seq<(int, int)> := [];
      var weekStart := start;
      var weekEnd := start + Week;
      assert Windows(start, stop) == done + Windows(weekStart, stop);
      while weekStart <= stop
        invariant Windows(start, stop) == done + Windows(weekStart, stop)
        invariant Min(weekEnd, stop) == Min(weekStart + Week, stop)
        invariant Sweep(initial, done, fetch, index, today, lookup) == Progress(Counters(), None, None)
        decreases stop - weekStart
      {
        if weekEnd > stop {
          weekEnd := stop;
        }
        WindowsAppend(done, weekStart, stop);
        var e := SyncWindow(initial, done, weekStart, weekEnd, fetch, index, today, lookup);
        done := done + [(weekStart, weekEnd)];
        if e.Some? {
          AbortedWalk(initial, Windows(start, stop), done, Windows(weekStart + Week, stop), fetch, index, today, lookup);
          return e;
        }
        weekStart := weekStart + Week;
        weekEnd := Min(weekStart + Week, stop);
      }
      assert Windows(start, stop) == done;
      return None;
    }
  }
}
