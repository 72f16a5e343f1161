/**
 * `QualerOrder`: a work order that has passed the required-key check and had its request
 * dates resolved, and `process_order`, which decides what the calendar needs for it
 * (nothing, a deletion, an update or a creation). The Outlook index, today's date and the
 * event lookup are inputs; with `is_live` left False the chosen action is only logged.
 */
module QualerOrders {
  import opened Wrappers
  import opened PyText
  import opened PyValues
  import opened DateTimes
  import opened DateTimeResolver
  import opened EventDiffer
  import opened Outlook

  const CustomOrderNumber: string := "CustomOrderNumber"
  const OrderStatus: string := "OrderStatus"

  /** The keys the constructor insists on, in the order its message lists them. */
  const RequiredKeys: seq<string> := [ServiceOrderId, CustomOrderNumber, OrderStatus]

  predicate HasRequiredKeys(order: Mapping) {
    ServiceOrderId in order && CustomOrderNumber in order && OrderStatus in order
  }

  /** The keys among `keys` that `order` lacks, in list order. */
  function Missing(order: Mapping, keys: seq<string>): (r: seq<string>)
    ensures forall k :: k in r <==> k in keys && k !in order
    ensures |r| <= |keys|
  {
    if keys == [] then []
    else if keys[0] in order then Missing(order, keys[1..])
    else [keys[0]] + Missing(order, keys[1..])
  }

  /** The AssertionError of the constructor, naming every missing required key. */
  function MissingKeysError(order: Mapping): Exc {
    Raised("Missing required keys: " + Join(Missing(order, RequiredKeys), ", "))
  }

  /** The value `process_order` returns, which becomes the order's status. */
  datatype Decision = Past | Cancelled | Skipped | Updated | Created | NoDecision

  /** The status value a decision is stored as; `NoDecision` is the `None` returned. */
  function StatusValue(d: Decision): (v: Value)
    ensures v == VNull <==> d == NoDecision
    ensures v != VNull ==> v.VStr?
  {
    match d
    case Past => VStr("Past")
    case Cancelled => VStr("Cancelled")
    case Skipped => VStr("Skipped")
    case Updated => VStr("Updated")
    case Created => VStr("Created")
    case NoDecision => VNull
  }

  /** The calendar request `process_order` would make when live. */
  datatype Action = NoAction | DeleteEvent(id: string) | UpdateEvent(id: string, attendeesOnly: bool) | CreateEvent

  /** `outlook.event.lookup(event_id)`: the event, or the exception the lookup raised. */
  datatype Fetched = Found(event: Mapping) | FetchFailed(error: Exc)

  /** What `process_order` produced: the parsed order number, the index hit, the decision and the action. */
  datatype Outcome = Outcome(number: int, eventId: Option<string>, decision: Decision, action: Action)

  /** `if event_id:` on the value `check_outlook_event` returns (`False` or an id string). */
  predicate IdTruthy(eventId: Option<string>) {
    eventId.Some? && eventId.value != ""
  }

  /** `int(order["CustomOrderNumber"][6:])`. */
  function OrderNumber(order: Mapping): (r: Result<int, Exc>)
    requires CustomOrderNumber in order
    ensures IsStrAt(order, CustomOrderNumber) ==> r == IntOf(VStr(DropPrefix(order[CustomOrderNumber].s, 6)))
  {
    var digits :- SliceFrom(order[CustomOrderNumber], 6);
    IntOf(digits)
  }

  /** RequestToDate is set, parses, and is not before today. */
  predicate Live(order: Mapping, today: int) {
    !IsNoneAt(order, ToDate) && ParseAt(order, ToDate).Ok? && ParseAt(order, ToDate).value.day >= today
  }

  /** RequestToDate is set, parses, and is before today. */
  predicate Expired(order: Mapping, today: int) {
    !IsNoneAt(order, ToDate) && ParseAt(order, ToDate).Ok? && ParseAt(order, ToDate).value.day < today
  }

  /** Each decision comes with the one action it calls for, on the id the index returned. */
  predicate ActionFits(d: Decision, a: Action, eventId: Option<string>) {
    match d
    case Cancelled => IdTruthy(eventId) && a == DeleteEvent(eventId.value)
    case Updated => IdTruthy(eventId) && a.UpdateEvent? && a.id == eventId.value
    case Created => !IdTruthy(eventId) && a == CreateEvent
    case _ => a == NoAction
  }

  /**
   * Lines 161-185 once the index has answered: a missing RequestToDate gives no decision,
   * a past one gives `Past`; a cancelled order is deleted if it is on the calendar and
   * skipped otherwise; an active order on the calendar is updated when `diff` finds a
   * difference and skipped when not; an active order not on the calendar is created.
   */
  function Decide(order: Mapping, eventId: Option<string>, today: int, lookup: string -> Fetched): (r: Result<(Decision, Action), Exc>)
    requires OrderStatus in order
    ensures IsNoneAt(order, ToDate) <==> r == Ok((NoDecision, NoAction))
    ensures !IsNoneAt(order, ToDate) && ParseAt(order, ToDate).Err? ==> r == Err(ParseAt(order, ToDate).error)
    ensures r.Ok? ==> ActionFits(r.value.0, r.value.1, eventId)
    ensures (r.Ok? && r.value.0 == Past) <==> Expired(order, today)
    ensures (r.Ok? && r.value.0 == Cancelled) <==> Live(order, today) && order[OrderStatus] == VStr("Cancelled") && IdTruthy(eventId)
    ensures (r.Ok? && r.value.0 == Created) <==> Live(order, today) && order[OrderStatus] != VStr("Cancelled") && !IdTruthy(eventId)
    ensures Live(order, today) && order[OrderStatus] == VStr("Cancelled") && !IdTruthy(eventId) ==> r == Ok((Skipped, NoAction))
    ensures Live(order, today) && order[OrderStatus] != VStr("Cancelled") && IdTruthy(eventId) && lookup(eventId.value).FetchFailed? ==>
      r == Err(lookup(eventId.value).error)
    ensures Live(order, today) && order[OrderStatus] != VStr("Cancelled") && IdTruthy(eventId) && lookup(eventId.value).Found?
            && Diff(lookup(eventId.value).event, order).Err? ==>
      r == Err(Diff(lookup(eventId.value).event, order).error)
    ensures r.Ok? && r.value.0 == Updated ==>
      && Live(order, today) && order[OrderStatus] != VStr("Cancelled")
      && lookup(eventId.value).Found? && Diff(lookup(eventId.value).event, order).Ok?
      && Diff(lookup(eventId.value).event, order).value != []
      && (r.value.1.attendeesOnly <==> Diff(lookup(eventId.value).event, order).value == ["attendees"])
    ensures r.Ok? && r.value.0 == Skipped ==>
      && Live(order, today)
      && (order[OrderStatus] == VStr("Cancelled") ==> !IdTruthy(eventId))
      && (order[OrderStatus] != VStr("Cancelled") ==>
            IdTruthy(eventId) && lookup(eventId.value).Found? && Diff(lookup(eventId.value).event, order) == Ok([]))
  {
    if IsNoneAt(order, ToDate) then Ok((NoDecision, NoAction))
    else
      var toDate :- ParseAt(order, ToDate);
      if toDate.day < today then Ok((Past, NoAction))
      else if order[OrderStatus] == VStr("Cancelled") then
        if IdTruthy(eventId) then Ok((Cancelled, DeleteEvent(eventId.value))) else Ok((Skipped, NoAction))
      else if IdTruthy(eventId) then
        match lookup(eventId.value)
        case FetchFailed(e) => Err(e)
        case Found(event) =>
          var keys :- Diff(event, order);
          if keys != [] then Ok((Updated, UpdateEvent(eventId.value, keys == ["attendees"])))
          else Ok((Skipped, NoAction))
      else Ok((Created, CreateEvent))
  }

  /** `process_order` on an order mapping that holds the required keys. */
  function Process(order: Mapping, index: seq<IndexEntry>, today: int, lookup: string -> Fetched): (r: Result<Outcome, Exc>)
    requires HasRequiredKeys(order)
    ensures OrderNumber(order).Err? ==> r == Err(OrderNumber(order).error)
    ensures r.Ok? ==>
      && OrderNumber(order) == Ok(r.value.number)
      && r.value.eventId == FirstMatch(order[ServiceOrderId], order[CustomOrderNumber], index)
      && Decide(order, r.value.eventId, today, lookup) == Ok((r.value.decision, r.value.action))
    ensures OrderNumber(order).Ok? ==>
      var d := Decide(order, FirstMatch(order[ServiceOrderId], order[CustomOrderNumber], index), today, lookup);
      d.Err? ==> r == Err(d.error)
    ensures r.Ok? <==>
      OrderNumber(order).Ok? && Decide(order, FirstMatch(order[ServiceOrderId], order[CustomOrderNumber], index), today, lookup).Ok?
  {
    var number :- OrderNumber(order);
    var eventId := FirstMatch(order[ServiceOrderId], order[CustomOrderNumber], index);
    var d :- Decide(order, eventId, today, lookup);
    Ok(Outcome(number, eventId, d.0, d.1))
  }

  /** A RequestToDate before today makes the decision `Past` whatever the status, index or event say. */
  lemma PastRegardlessOfStatus(order: Mapping, status: Value, index: seq<IndexEntry>, today: int,
                               lookup: string -> Fetched, lookup': string -> Fetched)
    requires HasRequiredKeys(order) && Expired(order, today) && OrderNumber(order).Ok?
    ensures Process(order, index, today, lookup).Ok?
    ensures Process(order, index, today, lookup).value.decision == Past
    ensures Process(order[OrderStatus := status], [], today, lookup') ==
            Ok(Process(order, index, today, lookup).value.(eventId := None))
  {
    var o := order[OrderStatus := status];
    assert OrderNumber(o) == OrderNumber(order);
    assert ParseAt(o, ToDate) == ParseAt(order, ToDate);
  }

  /** An active order found in the index is updated exactly when `diff` is non-empty, attendees-only exactly for `['attendees']`. */
  lemma ActiveIndexedOrder(order: Mapping, index: seq<IndexEntry>, today: int, lookup: string -> Fetched)
    requires HasRequiredKeys(order) && OrderNumber(order).Ok? && Live(order, today)
    requires order[OrderStatus] != VStr("Cancelled")
    requires var id := FirstMatch(order[ServiceOrderId], order[CustomOrderNumber], index);
      IdTruthy(id) && lookup(id.value).Found? && Diff(lookup(id.value).event, order).Ok?
    ensures var id := FirstMatch(order[ServiceOrderId], order[CustomOrderNumber], index);
      var keys := Diff(lookup(id.value).event, order).value;
      var r := Process(order, index, today, lookup);
      && r.Ok?
      && (keys != [] ==> r.value.decision == Updated && r.value.action == UpdateEvent(id.value, keys == ["attendees"]))
      && (keys == [] ==> r.value.decision == Skipped && r.value.action == NoAction)
  {
  }

  /** A work order as a dictionary plus the attributes the sync attaches to it. */
  class QualerOrder {
    /** The dictionary contents, which the resolver may write a date into. */
    var order: Mapping
    var id: Value
    var number: Value
    var status: Value
    var startTime: Option<DateTime>
    var endTime: Option<DateTime>
    var isAllDay: bool
    /** Set by `process_order` once the number parses. */
    var customOrderNumber: Option<int>

    /** The three attributes the resolver works on. */
    function Resolved(): Times
      reads this
    {
      Times(startTime, endTime, isAllDay)
    }

    /** Lines 143-153 after the required-key check: the attributes come from the dictionary. */
    constructor(workOrder: Mapping)
      requires HasRequiredKeys(workOrder)
      ensures order == workOrder
      ensures id == workOrder[ServiceOrderId] && number == workOrder[CustomOrderNumber] && status == workOrder[OrderStatus]
      ensures startTime == None && endTime == None && !isAllDay && customOrderNumber == None
    {
      order := workOrder;
      id := workOrder[ServiceOrderId];
      number := workOrder[CustomOrderNumber];
      status := workOrder[OrderStatus];
      startTime := None;
      endTime := None;
      isAllDay := false;
      customOrderNumber := None;
    }

    /** `QualerOrder(work_order)`: the key check, the attributes, then the date resolution. */
    static method Create(workOrder: Mapping) returns (r: Result<QualerOrder, Exc>)
      ensures !HasRequiredKeys(workOrder) ==> r == Err(MissingKeysError(workOrder))
      ensures HasRequiredKeys(workOrder) ==>
        var c := Combine(workOrder, Times(None, None, false));
        && (c.error.Some? <==> r.Err?)
        && (c.error.Some? ==> r.error == c.error.value)
        && (r.Ok? ==>
              && fresh(r.value)
              && r.value.order == c.order && r.value.Resolved() == c.times
              && r.value.id == workOrder[ServiceOrderId] && r.value.number == workOrder[CustomOrderNumber]
              && r.value.status == workOrder[OrderStatus] && r.value.customOrderNumber == None
              && HasRequiredKeys(r.value.order))
    {
      if !HasRequiredKeys(workOrder) {
        return Err(MissingKeysError(workOrder));
      }
      var o := new QualerOrder(workOrder);
      var error := o.CombineDateAndTime();
      if error.Some? {
        return Err(error.value);
      }
      return Ok(o);
    }

    /**
     * `combine_date_and_time`, step by step: the attributes it assigns before raising
     * keep their new values, and the error it raises is returned.
     */
    method CombineDateAndTime() returns (error: Option<Exc>)
      modifies this
      ensures Combined(order, Resolved(), error) == Combine(old(order), old(Resolved()))
      ensures id == old(id) && number == old(number) && status == old(status)
      ensures customOrderNumber == old(customOrderNumber)
    {
      if AllStrings(order) {
        error := CombineExactly();
      } else if SomeDateString(order) {
        var filled := FillDates(order);
        if filled.Err? {
          return Some(filled.error);
        }
        order := filled.value;
        if IsNoneAt(order, FromTime) && IsNoneAt(order, ToTime) {
          error := CombineAllDay();
        } else {
          error := CombineWithDefaults();
        }
      } else {
        error := Some(Raised(MissingValuesMessage(order)));
      }
    }

    /** Lines 97-107. */
    method CombineExactly() returns (error: Option<Exc>)
      modifies this
      ensures Combined(order, Resolved(), error) == CombineExact(old(order), old(Resolved()))
      ensures id == old(id) && number == old(number) && status == old(status)
      ensures customOrderNumber == old(customOrderNumber)
    {
      ghost var t := Resolved();
      var fromDate := ParseAt(order, FromDate);
      if fromDate.Err? { return Some(fromDate.error); }
      var fromTime := ParseAt(order, FromTime);
      if fromTime.Err? { return Some(fromTime.error); }
      var start := DateTime(fromDate.value.day, fromTime.value.secs);
      startTime := Some(start);
      var toDate := ParseAt(order, ToDate);
      if toDate.Err? { return Some(toDate.error); }
      var toTime := ParseAt(order, ToTime);
      if toTime.Err? { return Some(toTime.error); }
      var end := DateTime(toDate.value.day, toTime.value.secs);
      endTime := Some(end);
      assert Resolved() == t.(start := Some(start), end := Some(end));
      if Before(end, start) {
        if end.secs < Noon {
          endTime := Some(DateTime(end.day, end.secs + Noon));
          if ServiceOrderId !in order {
            return Some(NoServiceOrderId());
          }
        } else {
          return Some(EndsBeforeStart(order));
        }
      }
      return None;
    }

    /** Lines 119-123. */
    method CombineAllDay() returns (error: Option<Exc>)
      modifies this
      ensures Combined(order, Resolved(), error) == DateTimeResolver.CombineAllDay(old(order), old(Resolved()))
      ensures id == old(id) && number == old(number) && status == old(status)
      ensures customOrderNumber == old(customOrderNumber)
    {
      if ServiceOrderId !in order { return Some(NoServiceOrderId()); }
      var fromDate := ParseAt(order, FromDate);
      if fromDate.Err? { return Some(fromDate.error); }
      startTime := Some(DateTime(fromDate.value.day, 0));
      var toDate := ParseAt(order, ToDate);
      if toDate.Err? { return Some(toDate.error); }
      if toDate.value.day >= MaxOrdinal { return Some(DateOutOfRange); }
      endTime := Some(DateTime(toDate.value.day + 1, 0));
      isAllDay := true;
      return None;
    }

    /** Lines 125-136. */
    method CombineWithDefaults() returns (error: Option<Exc>)
      modifies this
      ensures Combined(order, Resolved(), error) == CombineDefaults(old(order), old(Resolved()))
      ensures id == old(id) && number == old(number) && status == old(status)
      ensures customOrderNumber == old(customOrderNumber)
    {
      var startSecs := TimeOrDefault(order, FromTime, DefaultStart);
      if startSecs.Err? { return Some(startSecs.error); }
      var endSecs := TimeOrDefault(order, ToTime, DefaultEnd);
      if endSecs.Err? { return Some(endSecs.error); }
      var fromDate := ParseAt(order, FromDate);
      if fromDate.Err? { return Some(fromDate.error); }
      startTime := Some(DateTime(fromDate.value.day, startSecs.value));
      var toDate := ParseAt(order, ToDate);
      if toDate.Err? { return Some(toDate.error); }
      endTime := Some(DateTime(toDate.value.day, endSecs.value));
      return None;
    }

    /**
     * `process_order(outlook)`: parses and stores the order number, asks the index, then
     * decides. Only the stored number changes.
     */
    method ProcessOrder(index: seq<IndexEntry>, today: int, lookup: string -> Fetched) returns (r: Result<Outcome, Exc>)
      requires HasRequiredKeys(order)
      modifies this
      ensures order == old(order) && Resolved() == old(Resolved())
      ensures r == Process(order, index, today, lookup)
      ensures customOrderNumber == if OrderNumber(order).Ok? then Some(OrderNumber(order).value) else old(customOrderNumber)
      ensures id == old(id) && number == old(number) && status == old(status)
    {
      var digits := SliceFrom(order[CustomOrderNumber], 6);
      if digits.Err? { return Err(digits.error); }
      var number := IntOf(digits.value);
      if number.Err? { return Err(number.error); }
      customOrderNumber := Some(number.value);
      var eventId := CheckOutlookEvent(order[ServiceOrderId], order[CustomOrderNumber], index);
      var decision := Decide(order, eventId, today, lookup);
      if decision.Err? { return Err(decision.error); }
      return Ok(Outcome(number.value, eventId, decision.value.0, decision.value.1));
    }
  }
}
