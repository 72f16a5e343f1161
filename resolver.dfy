/**
 * `DateTimeUtils.combine_date_and_time`: how the four optional request fields of a
 * work order become the event's start, end and all-day flag, including the copying of a
 * lone date, the all-day case, the 07:00/17:00 defaults, the AM-to-PM correction and the
 * two ways the resolution fails.
 */
module DateTimeResolver {
  import opened Wrappers
  import opened PyText
  import opened PyValues
  import opened DateTimes
  import opened QualerSite

  const FromTime: string := "RequestFromTime"
  const ToTime: string := "RequestToTime"
  const FromDate: string := "RequestFromDate"
  const ToDate: string := "RequestToDate"

  /** The request fields, in the order the error message lists them. */
  const RequestFields: seq<string> := [FromTime, ToTime, FromDate, ToDate]

  const DefaultStart: int := 7 * 3600
  const DefaultEnd: int := 17 * 3600

  /** The three attributes the resolver sets on the order. */
  datatype Times = Times(start: Option<DateTime>, end: Option<DateTime>, isAllDay: bool)

  /**
   * The state the resolver leaves behind: the order mapping (which it may have written a
   * date into), the three attributes, and the exception it raised, if any. Attributes
   * assigned before the exception keep their new values.
   */
  datatype Combined = Combined(order: Mapping, times: Times, error: Option<Exc>)

  const StrptimeArgumentText: string := "strptime() argument 1 must be str, not "

  /** `parse_datetime(v)`: `strptime` refuses anything but a string with a TypeError. */
  function ParseValue(v: Value): (r: Result<DateTime, Exc>)
    ensures r.Ok? <==> v.VStr? && Parse(v.s).Some?
    ensures r.Ok? ==> r.value == Parse(v.s).value
    ensures v.VStr? && r.Err? ==> r.error == ValueError("parse_datetime", v.s)
  {
    match v
    case VStr(s) => if Parse(s).Some? then Ok(Parse(s).value) else Err(ValueError("parse_datetime", s))
    case VNull => Err(Raised(StrptimeArgumentText + "None"))
    case _ => Err(Raised(StrptimeArgumentText + TypeName(v)))
  }

  /** `parse_datetime(order[k])`: an absent key raises KeyError first. */
  function ParseAt(order: Mapping, k: string): (r: Result<DateTime, Exc>)
    ensures k !in order ==> r == Err(KeyError(k))
    ensures k in order ==> r == ParseValue(order[k])
  {
    if k in order then ParseValue(order[k]) else Err(KeyError(k))
  }

  /** `order[k]` is a string that parses to `d`. */
  predicate ParsedAt(order: Mapping, k: string, d: DateTime) {
    k in order && order[k].VStr? && Parse(order[k].s) == Some(d)
  }

  /** All four request fields are strings (the first branch). */
  predicate AllStrings(order: Mapping) {
    IsStrAt(order, FromTime) && IsStrAt(order, ToTime) && IsStrAt(order, FromDate) && IsStrAt(order, ToDate)
  }

  /** At least one date field is a string (the second branch). */
  predicate SomeDateString(order: Mapping) {
    IsStrAt(order, FromDate) || IsStrAt(order, ToDate)
  }

  /** The fields among `fields` whose values are falsy or absent, in list order. */
  function Falsy(order: Mapping, fields: seq<string>): (r: seq<string>)
    ensures forall k :: k in r <==> k in fields && !TruthyAt(order, k)
    ensures |r| <= |fields|
  {
    if fields == [] then []
    else if TruthyAt(order, fields[0]) then Falsy(order, fields[1..])
    else [fields[0]] + Falsy(order, fields[1..])
  }

  /** The falsy-field list of `[k]`: the field if it is falsy, else nothing. */
  function IfFalsy(order: Mapping, k: string): seq<string> {
    if TruthyAt(order, k) then [] else [k]
  }

  /** The fields a missing value is reported for, in the fixed order. */
  lemma FalsyRequestFields(order: Mapping)
    ensures Falsy(order, RequestFields) ==
      IfFalsy(order, FromTime) + (IfFalsy(order, ToTime) + (IfFalsy(order, FromDate) + IfFalsy(order, ToDate)))
  {
    FalsyFour(order, FromTime, ToTime, FromDate, ToDate);
  }

  /** `Falsy` over four fields, one at a time from the front. */
  lemma FalsyFour(order: Mapping, a: string, b: string, c: string, d: string)
    ensures Falsy(order, [a, b, c, d]) == IfFalsy(order, a) + (IfFalsy(order, b) + (IfFalsy(order, c) + IfFalsy(order, d)))
  {
    assert [a, b, c, d] == [a] + [b, c, d];
    assert [b, c, d] == [b] + [c, d];
    assert [c, d] == [c] + [d];
    assert [d] == [d] + [];
    FalsyCons(order, d, []);
    assert Falsy(order, [d]) == IfFalsy(order, d) + [];
    assert IfFalsy(order, d) + [] == IfFalsy(order, d);
    FalsyCons(order, c, [d]);
    FalsyCons(order, b, [c, d]);
    FalsyCons(order, a, [b, c, d]);
  }

  /** `Falsy` takes the fields one at a time, from the front. */
  lemma FalsyCons(order: Mapping, k: string, rest: seq<string>)
    ensures Falsy(order, [k] + rest) == IfFalsy(order, k) + Falsy(order, rest)
  {
    assert ([k] + rest)[1..] == rest;
  }

  /** The message of the third branch: every falsy request field, in the fixed order. */
  function MissingValuesMessage(order: Mapping): string {
    "Order is missing values: " + Join(Falsy(order, RequestFields), ", ") + "."
  }

  const ServiceOrderId: string := "ServiceOrderId"
  const ConcatText: string := "can only concatenate str (not \""
  const ConcatTextEnd: string := "\") to str"

  /** The text the order's service id is appended to when the end cannot be corrected. */
  const EndsBeforeStartText: string := "Order ends before it starts. Make manual corrections on Qualer: " + InfoUrl

  /**
   * The exception raised when the corrected end is still impossible: the message is
   * concatenated with `order["ServiceOrderId"]`, which fails unless that is a string.
   */
  function EndsBeforeStart(order: Mapping): (e: Exc)
    ensures ServiceOrderId !in order ==> e == KeyError(ServiceOrderId)
    ensures IsStrAt(order, ServiceOrderId) ==>
      e == Raised(EndsBeforeStartText + order[ServiceOrderId].s)
  {
    match Get(order, ServiceOrderId)
    case None => KeyError(ServiceOrderId)
    case Some(VStr(s)) => Raised(EndsBeforeStartText + s)
    case Some(v) => Raised(ConcatText + TypeName(v) + ConcatTextEnd)
  }

  /**
   * Lines 112-117: unless both dates are strings, a truthy date is copied over a falsy one.
   * Reading `order["RequestToDate"]` when the from-date is falsy raises if it is absent.
   */
  function FillDates(order: Mapping): (r: Result<Mapping, Exc>)
    ensures IsStrAt(order, FromDate) && IsStrAt(order, ToDate) ==> r == Ok(order)
    ensures !(IsStrAt(order, FromDate) && IsStrAt(order, ToDate)) ==>
      && (TruthyAt(order, FromDate) && !TruthyAt(order, ToDate) ==> r == Ok(order[ToDate := order[FromDate]]))
      && (!TruthyAt(order, FromDate) && TruthyAt(order, ToDate) ==> r == Ok(order[FromDate := order[ToDate]]))
      && (!TruthyAt(order, FromDate) && ToDate !in order ==> r == Err(KeyError(ToDate)))
      && (TruthyAt(order, FromDate) == TruthyAt(order, ToDate) && ToDate in order ==> r == Ok(order))
    ensures r.Ok? ==> Extends(order, r.value)
  {
    if IsStrAt(order, FromDate) && IsStrAt(order, ToDate) then Ok(order)
    else if TruthyAt(order, FromDate) && !TruthyAt(order, ToDate) then Ok(order[ToDate := order[FromDate]])
    else if !TruthyAt(order, FromDate) then
      if ToDate !in order then Err(KeyError(ToDate))
      else if Truthy(order[ToDate]) then Ok(order[FromDate := order[ToDate]])
      else Ok(order)
    else Ok(order)
  }

  /** `o` has every key of `order`, and the same value there except for the two dates. */
  predicate Extends(order: Mapping, o: Mapping) {
    && order.Keys <= o.Keys
    && forall k :: k in order && k != FromDate && k != ToDate ==> o[k] == order[k]
  }

  /** The KeyError of reading `order["ServiceOrderId"]` for a log line (lines 105 and 120). */
  function NoServiceOrderId(): Exc {
    KeyError(ServiceOrderId)
  }

  /**
   * Lines 97-107: every field is a string; dates and times are combined pairwise. The
   * log line of the AM-to-PM correction reads the service id after the end has moved.
   */
  function CombineExact(order: Mapping, t: Times): (r: Combined)
    ensures r.order == order && r.times.isAllDay == t.isAllDay
    ensures r.error.None? ==> Settled(r.times)
  {
    match ParseAt(order, FromDate)
    case Err(e) => Combined(order, t, Some(e))
    case Ok(fd) =>
      match ParseAt(order, FromTime)
      case Err(e) => Combined(order, t, Some(e))
      case Ok(ft) =>
        var start := DateTime(fd.day, ft.secs);
        match ParseAt(order, ToDate)
        case Err(e) => Combined(order, t.(start := Some(start)), Some(e))
        case Ok(td) =>
          match ParseAt(order, ToTime)
          case Err(e) => Combined(order, t.(start := Some(start)), Some(e))
          case Ok(tt) =>
            var end := DateTime(td.day, tt.secs);
            if !Before(end, start) then Combined(order, t.(start := Some(start), end := Some(end)), None)
            else if end.secs < Noon then
              var corrected := t.(start := Some(start), end := Some(DateTime(end.day, end.secs + Noon)));
              if ServiceOrderId in order then Combined(order, corrected, None)
              else Combined(order, corrected, Some(NoServiceOrderId()))
            else Combined(order, t.(start := Some(start), end := Some(end)), Some(EndsBeforeStart(order)))
  }

  /** The OverflowError of `date + timedelta(days=1)` past 9999-12-31. */
  const DateOutOfRange: Exc := Raised("date value out of range")

  /**
   * Lines 119-123: no time at all, so the event covers whole days. The warning of line
   * 120 reads the service id before anything is parsed.
   */
  function CombineAllDay(order: Mapping, t: Times): (r: Combined)
    ensures r.order == order
    ensures r.error.None? ==> Settled(r.times) && r.times.isAllDay
    ensures r.error.Some? ==> r.times.isAllDay == t.isAllDay
    ensures ServiceOrderId !in order ==> r == Combined(order, t, Some(NoServiceOrderId()))
  {
    if ServiceOrderId !in order then Combined(order, t, Some(NoServiceOrderId()))
    else match ParseAt(order, FromDate)
    case Err(e) => Combined(order, t, Some(e))
    case Ok(fd) =>
      var start := DateTime(fd.day, 0);
      match ParseAt(order, ToDate)
      case Err(e) => Combined(order, t.(start := Some(start)), Some(e))
      case Ok(td) =>
        if td.day >= MaxOrdinal then Combined(order, t.(start := Some(start)), Some(DateOutOfRange))
        else Combined(order, Times(Some(start), Some(DateTime(td.day + 1, 0)), true), None)
  }

  /** Both ends are set, each with a time of day within the day. */
  predicate Settled(t: Times) {
    && t.start.Some? && t.end.Some?
    && 0 <= t.start.value.secs < SecondsPerDay && 0 <= t.end.value.secs < SecondsPerDay
  }

  /** The time of day a request time field gives: its parsed time if truthy, else the default. */
  function TimeOrDefault(order: Mapping, k: string, default: int): (r: Result<int, Exc>)
    requires 0 <= default < SecondsPerDay
    ensures r.Ok? ==> 0 <= r.value < SecondsPerDay
    ensures !TruthyAt(order, k) ==> r == Ok(default)
    ensures TruthyAt(order, k) ==> r == (match ParseValue(order[k]) case Ok(d) => Ok(d.secs) case Err(e) => Err(e))
  {
    if TruthyAt(order, k) then
      match ParseValue(order[k])
      case Ok(d) => Ok(d.secs)
      case Err(e) => Err(e)
    else Ok(default)
  }

  /** Lines 125-136: a missing time falls back to 07:00 or 17:00. */
  function CombineDefaults(order: Mapping, t: Times): (r: Combined)
    ensures r.order == order && r.times.isAllDay == t.isAllDay
    ensures r.error.None? ==> Settled(r.times)
  {
    match TimeOrDefault(order, FromTime, DefaultStart)
    case Err(e) => Combined(order, t, Some(e))
    case Ok(st) =>
      match TimeOrDefault(order, ToTime, DefaultEnd)
      case Err(e) => Combined(order, t, Some(e))
      case Ok(et) =>
        match ParseAt(order, FromDate)
        case Err(e) => Combined(order, t, Some(e))
        case Ok(fd) =>
          var start := DateTime(fd.day, st);
          match ParseAt(order, ToDate)
          case Err(e) => Combined(order, t.(start := Some(start)), Some(e))
          case Ok(td) => Combined(order, t.(start := Some(start), end := Some(DateTime(td.day, et))), None)
  }

  /** `combine_date_and_time` on an order whose three attributes are `t`. */
  function Combine(order: Mapping, t: Times): (r: Combined)
    ensures r.error.None? ==> Settled(r.times)
    ensures Extends(order, r.order)
    ensures r.times.isAllDay != t.isAllDay ==> r.times.isAllDay && r.error.None?
    ensures !AllStrings(order) && !SomeDateString(order) ==> r == Combined(order, t, Some(Raised(MissingValuesMessage(order))))
  {
    if AllStrings(order) then CombineExact(order, t)
    else if SomeDateString(order) then
      match FillDates(order)
      case Err(e) => Combined(order, t, Some(e))
      case Ok(o) =>
        if IsNoneAt(o, FromTime) && IsNoneAt(o, ToTime) then CombineAllDay(o, t) else CombineDefaults(o, t)
    else Combined(order, t, Some(Raised(MissingValuesMessage(order))))
  }

  /**
   * All four fields present and parsed: start is the from-date at the from-time, end the
   * to-date at the to-time, the all-day flag is left as it was; an end before the start
   * moves 12 hours later on the same day when it is before noon, and is not checked
   * again (but the log line that follows raises without a service id); otherwise the
   * order is refused.
   */
  lemma ExactResolution(order: Mapping, t: Times, fd: DateTime, ft: DateTime, td: DateTime, tt: DateTime)
    requires ParsedAt(order, FromDate, fd) && ParsedAt(order, FromTime, ft)
    requires ParsedAt(order, ToDate, td) && ParsedAt(order, ToTime, tt)
    ensures var r := Combine(order, t);
      var start := DateTime(fd.day, ft.secs);
      var end := DateTime(td.day, tt.secs);
      && r.order == order
      && r.times.start == Some(start)
      && r.times.isAllDay == t.isAllDay
      && (!Before(end, start) ==> r.error == None && r.times.end == Some(end))
      && (Before(end, start) && tt.secs < Noon ==>
            && r.times.end == Some(DateTime(td.day, tt.secs + Noon)) && tt.secs + Noon < SecondsPerDay
            && r.error == if ServiceOrderId in order then None else Some(NoServiceOrderId()))
      && (Before(end, start) && Noon <= tt.secs ==> r.error == Some(EndsBeforeStart(order)))
  {
    assert AllStrings(order);
    assert Combine(order, t) == CombineExact(order, t);
    assert ParseAt(order, FromDate) == Ok(fd) && ParseAt(order, FromTime) == Ok(ft);
    assert ParseAt(order, ToDate) == Ok(td) && ParseAt(order, ToTime) == Ok(tt);
  }

  /**
   * The AM-to-PM correction is applied once and never re-checked: an end a day before
   * the start at 09:00 becomes 21:00 of that earlier day, and the order is accepted
   * whenever it has a service id for the log line.
   */
  lemma CorrectionNotRechecked(order: Mapping, t: Times, fd: DateTime, ft: DateTime, td: DateTime, tt: DateTime)
    requires ParsedAt(order, FromDate, fd) && ParsedAt(order, FromTime, ft)
    requires ParsedAt(order, ToDate, td) && ParsedAt(order, ToTime, tt)
    requires td.day < fd.day && tt.secs < Noon
    ensures var r := Combine(order, t);
      && (r.error == None <==> ServiceOrderId in order)
      && r.times.end.Some? && Before(r.times.end.value, r.times.start.value)
  {
    ExactResolution(order, t, fd, ft, td, tt);
  }

  /**
   * Second branch: the mapping the remaining steps read is the one with a lone date
   * copied over the other; two date strings are left alone even when one is empty.
   */
  lemma LoneDateCopied(order: Mapping, t: Times)
    requires !AllStrings(order) && SomeDateString(order)
    ensures IsStrAt(order, FromDate) && IsStrAt(order, ToDate) ==> Combine(order, t).order == order
    ensures var r := Combine(order, t);
      !(IsStrAt(order, FromDate) && IsStrAt(order, ToDate)) ==>
      && (TruthyAt(order, FromDate) && !TruthyAt(order, ToDate) ==>
            r.order == order[ToDate := order[FromDate]] && r.order[ToDate] == r.order[FromDate])
      && (!TruthyAt(order, FromDate) && TruthyAt(order, ToDate) ==>
            r.order == order[FromDate := order[ToDate]] && r.order[ToDate] == r.order[FromDate])
  {
  }

  /**
   * Second branch, both times None: without a service id the warning raises first;
   * otherwise the event is all-day from the from-date at 00:00 to the day after the
   * to-date at 00:00, and a to-date of 9999-12-31 has no next day.
   */
  lemma AllDayResolution(order: Mapping, t: Times, fd: DateTime, td: DateTime)
    requires !AllStrings(order) && SomeDateString(order)
    requires FillDates(order).Ok?
    requires var o := FillDates(order).value;
      IsNoneAt(o, FromTime) && IsNoneAt(o, ToTime) && ParsedAt(o, FromDate, fd) && ParsedAt(o, ToDate, td)
    ensures var r := Combine(order, t);
      && (ServiceOrderId !in order ==> r == Combined(FillDates(order).value, t, Some(NoServiceOrderId())))
      && (ServiceOrderId in order && td.day < MaxOrdinal ==>
            r == Combined(FillDates(order).value, Times(Some(DateTime(fd.day, 0)), Some(DateTime(td.day + 1, 0)), true), None))
      && (ServiceOrderId in order && td.day >= MaxOrdinal ==> r.error == Some(DateOutOfRange) && r.times.isAllDay == t.isAllDay)
  {
  }

  /**
   * Second branch, some time present: a missing (falsy) from-time is 07:00, a missing
   * to-time 17:00, and the event is not made all-day.
   */
  lemma DefaultTimesResolution(order: Mapping, t: Times, fd: DateTime, td: DateTime)
    requires !AllStrings(order) && SomeDateString(order)
    requires FillDates(order).Ok?
    requires var o := FillDates(order).value;
      !(IsNoneAt(o, FromTime) && IsNoneAt(o, ToTime)) && ParsedAt(o, FromDate, fd) && ParsedAt(o, ToDate, td)
    requires var o := FillDates(order).value;
      !TruthyAt(o, FromTime) || ParseValue(o[FromTime]).Ok?
    requires var o := FillDates(order).value;
      !TruthyAt(o, ToTime) || ParseValue(o[ToTime]).Ok?
    ensures var r := Combine(order, t);
      var o := FillDates(order).value;
      && r.error == None
      && r.order == o
      && r.times.isAllDay == t.isAllDay
      && r.times.start == Some(DateTime(fd.day, if TruthyAt(o, FromTime) then ParseValue(o[FromTime]).value.secs else DefaultStart))
      && r.times.end == Some(DateTime(td.day, if TruthyAt(o, ToTime) then ParseValue(o[ToTime]).value.secs else DefaultEnd))
  {
  }

  /**
   * Third branch: with no date string the order is refused, naming exactly the falsy
   * request fields, in the order RequestFromTime, RequestToTime, RequestFromDate, RequestToDate.
   */
  lemma MissingValuesResolution(order: Mapping, t: Times)
    requires !IsStrAt(order, FromDate) && !IsStrAt(order, ToDate)
    ensures var r := Combine(order, t);
      && r == Combined(order, t, Some(Raised("Order is missing values: " + Join(Falsy(order, RequestFields), ", ") + ".")))
      && (forall k :: k in Falsy(order, RequestFields) <==> k in RequestFields && !TruthyAt(order, k))
  {
  }
}
