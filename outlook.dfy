/**
 * The Outlook side of the engine that involves no request: the index of existing events
 * (`extract_event_details`), the lookup of an order in it (`check_outlook_event`), the
 * formatting of a Graph API error (`outlook_error_handler`) and the choice of the update
 * payload (`update_outlook_event`).
 */
module Outlook {
  import opened Wrappers
  import opened PyText
  import opened PyValues
  import opened QualerSite

  /**
   * An event as listed by the calendar: its id, its body preview and the `href`
   * attributes of the `<a>` tags of its HTML body in document order (None for a tag
   * without one). `hrefs` is None when the body cannot be read or parsed.
   */
  datatype ListedEvent = ListedEvent(id: string, bodyPreview: string, hrefs: Option<seq<Option<string>>>)

  /** One `[service_order_id, custom_order_number, event_id]` triple of the index. */
  datatype IndexEntry = IndexEntry(serviceOrderId: Option<string>, customOrderNumber: Option<string>, eventId: string)

  const OrderNumberPrefix: string := "56561-"

  /** The pattern `56561-\d{6}` matches at position `i` of `s`. */
  predicate OrderNumberAt(s: string, i: int) {
    && 0 <= i && i + 12 <= |s|
    && s[i..i + 6] == OrderNumberPrefix
    && forall k :: i + 6 <= k < i + 12 ==> IsDigit(s[k])
  }

  /** The pattern matches nowhere at or after position `i`. */
  predicate NoOrderNumberFrom(s: string, i: int) {
    forall j :: i <= j <= |s| ==> !OrderNumberAt(s, j)
  }

  /** `re.search` from position `i` on. */
  function FindFrom(s: string, i: nat): Option<string>
    requires i <= |s|
    decreases |s| - i
  {
    if i + 12 > |s| then None
    else if OrderNumberAt(s, i) then Some(s[i..i + 12])
    else FindFrom(s, i + 1)
  }

  /** `re.search(r"56561-\d{6}", s).group(0)`, or None when there is no match. */
  function FindOrderNumber(s: string): Option<string> {
    FindFrom(s, 0)
  }

  /** The search from `i` finds the first match at or after `i`, and nothing when there is none. */
  lemma {:induction false} FindFromLeftmost(s: string, i: nat)
    requires i <= |s|
    ensures FindFrom(s, i).None? <==> NoOrderNumberFrom(s, i)
    ensures FindFrom(s, i).Some? ==>
      exists j :: i <= j && OrderNumberAt(s, j) && FindFrom(s, i).value == s[j..j + 12] && (forall k :: i <= k < j ==> !OrderNumberAt(s, k))
    decreases |s| - i
  {
    if i + 12 <= |s| && !OrderNumberAt(s, i) {
      FindFromLeftmost(s, i + 1);
      if FindFrom(s, i).Some? {
        var j :| i + 1 <= j && OrderNumberAt(s, j) && FindFrom(s, i).value == s[j..j + 12]
          && (forall k :: i + 1 <= k < j ==> !OrderNumberAt(s, k));
        assert forall k :: i <= k < j ==> !OrderNumberAt(s, k);
      }
    }
  }

  /** The custom order number found is the leftmost match of the pattern, if there is one. */
  lemma FindOrderNumberLeftmost(s: string)
    ensures FindOrderNumber(s).None? <==> NoOrderNumberFrom(s, 0)
    ensures FindOrderNumber(s).Some? ==>
      exists j :: OrderNumberAt(s, j) && FindOrderNumber(s).value == s[j..j + 12] && (forall k :: 0 <= k < j ==> !OrderNumberAt(s, k))
  {
    FindFromLeftmost(s, 0);
  }

  /** `h.split('/')[-1]`: what follows the last slash, or all of `h` when it has none. */
  function LastSegment(h: string): (r: string)
    ensures |r| <= |h| && r == h[|h| - |r|..]
    ensures '/' !in r
    ensures |r| < |h| ==> h[|h| - |r| - 1] == '/'
  {
    if h == [] then []
    else if h[|h| - 1] == '/' then []
    else LastSegment(h[..|h| - 1]) + [h[|h| - 1]]
  }

  /** The index of the first href that carries the service order link. */
  function FirstOrderLink(hrefs: seq<string>): (r: Option<nat>)
    ensures r.None? <==> forall i :: 0 <= i < |hrefs| ==> !StartsWith(hrefs[i], InfoUrl)
    ensures r.Some? ==> r.value < |hrefs| && StartsWith(hrefs[r.value], InfoUrl)
    ensures r.Some? ==> forall i :: 0 <= i < r.value ==> !StartsWith(hrefs[i], InfoUrl)
  {
    if hrefs == [] then None
    else if StartsWith(hrefs[0], InfoUrl) then Some(0)
    else match FirstOrderLink(hrefs[1..])
      case None => None
      case Some(i) => Some(i + 1)
  }

  /** Every `<a>` tag has an `href`. */
  predicate AllPresent(hs: seq<Option<string>>) {
    forall i :: 0 <= i < |hs| ==> hs[i].Some?
  }

  /** Tag `i` is the first whose `href` starts with the service order link. */
  predicate FirstLinkAt(hs: seq<Option<string>>, i: int)
    requires AllPresent(hs)
  {
    && 0 <= i < |hs| && StartsWith(hs[i].value, InfoUrl)
    && forall j :: 0 <= j < i ==> !StartsWith(hs[j].value, InfoUrl)
  }

  /**
   * The `try` block of lines 63-69: the filter calls `href.startswith` on every tag, so a
   * tag without `href` raises; no matching tag makes `[0]` raise; either way the id is None.
   * Otherwise the id is the last path segment of the first matching href.
   */
  function ServiceOrderIdOf(hrefs: Option<seq<Option<string>>>): Option<string> {
    match hrefs
    case None => None
    case Some(hs) =>
      if !AllPresent(hs) then None
      else
        var present := Present(hs);
        match FirstOrderLink(present)
        case None => None
        case Some(i) => Some(LastSegment(present[i]))
  }

  /** What `ServiceOrderIdOf` promises, case by case. */
  lemma ServiceOrderIdCases(hrefs: Option<seq<Option<string>>>)
    ensures hrefs.None? ==> ServiceOrderIdOf(hrefs).None?
    ensures hrefs.Some? && !AllPresent(hrefs.value) ==> ServiceOrderIdOf(hrefs).None?
    ensures var r := ServiceOrderIdOf(hrefs);
      hrefs.Some? && AllPresent(hrefs.value) ==>
      && (r.None? <==> forall i :: 0 <= i < |hrefs.value| ==> !StartsWith(hrefs.value[i].value, InfoUrl))
      && (r.Some? ==> exists i :: FirstLinkAt(hrefs.value, i) && r.value == LastSegment(hrefs.value[i].value))
  {
    if hrefs.Some? && AllPresent(hrefs.value) {
      var present := Present(hrefs.value);
      match FirstOrderLink(present)
      case None =>
      case Some(i) =>
        assert FirstLinkAt(hrefs.value, i);
    }
  }

  /** The hrefs of the tags that have one, in order. */
  function Present(hs: seq<Option<string>>): (r: seq<string>)
    ensures |r| <= |hs|
    ensures AllPresent(hs) ==> |r| == |hs| && forall i :: 0 <= i < |hs| ==> r[i] == hs[i].value
  {
    if hs == [] then []
    else if hs[0].Some? then [hs[0].value] + Present(hs[1..])
    else Present(hs[1..])
  }

  /** The triple `extract_event_details` builds for one event. */
  function Entry(e: ListedEvent): IndexEntry {
    IndexEntry(ServiceOrderIdOf(e.hrefs), FindOrderNumber(e.bodyPreview), e.id)
  }

  /** `extract_event_details`: one triple per listed event, in the order listed. */
  method ExtractEventDetails(events: seq<ListedEvent>) returns (existing: seq<IndexEntry>)
    ensures |existing| == |events|
    ensures forall i :: 0 <= i < |events| ==> existing[i] == Entry(events[i])
  {
    existing := [];
    for i := 0 to |events|
      invariant |existing| == i
      invariant forall j :: 0 <= j < i ==> existing[j] == Entry(events[j])
    {
      var event := events[i];
      var customOrderNumber := FindOrderNumber(event.bodyPreview);
      var serviceOrderId := ServiceOrderIdOf(event.hrefs);
      existing := existing + [IndexEntry(serviceOrderId, customOrderNumber, event.id)];
    }
  }

  /** `ServiceOrderId == event[0] or CustomOrderNumber == event[1]`. */
  predicate Matches(serviceOrderId: Value, customOrderNumber: Value, e: IndexEntry) {
    SameValue(serviceOrderId, e.serviceOrderId) || SameValue(customOrderNumber, e.customOrderNumber)
  }

  /** Entry `i` matches and no entry before it does. */
  predicate IsFirstMatch(serviceOrderId: Value, customOrderNumber: Value, index: seq<IndexEntry>, i: int) {
    && 0 <= i < |index| && Matches(serviceOrderId, customOrderNumber, index[i])
    && forall j :: 0 <= j < i ==> !Matches(serviceOrderId, customOrderNumber, index[j])
  }

  /** The event id of the earliest matching entry; None stands for the `False` returned otherwise. */
  function FirstMatch(serviceOrderId: Value, customOrderNumber: Value, index: seq<IndexEntry>): (r: Option<string>)
    ensures r.None? <==> forall i :: 0 <= i < |index| ==> !Matches(serviceOrderId, customOrderNumber, index[i])
    ensures r.Some? ==> exists i :: IsFirstMatch(serviceOrderId, customOrderNumber, index, i) && r.value == index[i].eventId
  {
    if index == [] then None
    else if Matches(serviceOrderId, customOrderNumber, index[0]) then Some(index[0].eventId)
    else
      var r := FirstMatch(serviceOrderId, customOrderNumber, index[1..]);
      assert r.Some? ==> exists i :: IsFirstMatch(serviceOrderId, customOrderNumber, index, i) && r.value == index[i].eventId by {
        if r.Some? {
          var i :| IsFirstMatch(serviceOrderId, customOrderNumber, index[1..], i) && r.value == index[1..][i].eventId;
          assert forall j :: 0 < j <= i ==> index[j] == index[1..][j - 1];
          assert IsFirstMatch(serviceOrderId, customOrderNumber, index, i + 1);
        }
      }
      r
  }

  /** `check_outlook_event`: scan the index and stop at the first entry that matches. */
  method CheckOutlookEvent(serviceOrderId: Value, customOrderNumber: Value, idArray: seq<IndexEntry>)
    returns (eventId: Option<string>)
    ensures eventId == FirstMatch(serviceOrderId, customOrderNumber, idArray)
  {
    eventId := None;
    var i := 0;
    while i < |idArray|
      invariant 0 <= i <= |idArray|
      invariant eventId == None
      invariant FirstMatch(serviceOrderId, customOrderNumber, idArray) == FirstMatch(serviceOrderId, customOrderNumber, idArray[i..])
    {
      assert idArray[i..][1..] == idArray[i + 1..];
      if Matches(serviceOrderId, customOrderNumber, idArray[i]) {
        eventId := Some(idArray[i].eventId);
        break;
      }
      i := i + 1;
    }
  }

  /** Once an entry matches, the entries after it cannot change the result. */
  lemma {:induction false} FirstMatchIgnoresLater(serviceOrderId: Value, customOrderNumber: Value,
                                                  before: seq<IndexEntry>, after: seq<IndexEntry>)
    requires exists i :: 0 <= i < |before| && Matches(serviceOrderId, customOrderNumber, before[i])
    ensures FirstMatch(serviceOrderId, customOrderNumber, before + after) == FirstMatch(serviceOrderId, customOrderNumber, before)
  {
    assert (before + after)[0] == before[0];
    if !Matches(serviceOrderId, customOrderNumber, before[0]) {
      var i :| 0 <= i < |before| && Matches(serviceOrderId, customOrderNumber, before[i]);
      assert i > 0 && before[1..][i - 1] == before[i];
      FirstMatchIgnoresLater(serviceOrderId, customOrderNumber, before[1..], after);
      assert (before + after)[1..] == before[1..] + after;
    }
  }

  /** `outlook_error_handler(error)`: the code and the message of a Graph API error on two lines. */
  function ErrorText(error: map<string, string>): (r: Result<string, Exc>)
    ensures "code" !in error ==> r == Err(KeyError("code"))
    ensures "code" in error && "message" !in error ==> r == Err(KeyError("message"))
    ensures r.Ok? <==> "code" in error && "message" in error
  {
    if "code" !in error then Err(KeyError("code"))
    else if "message" !in error then Err(KeyError("message"))
    else Ok("Error: " + error["code"] + "\nMessage: " + error["message"])
  }

  /** Reads an error text back: the code up to the first line break, then the message. */
  function ReadErrorText(t: string): Option<(string, string)> {
    if !StartsWith(t, "Error: ") then None
    else
      var rest := t[7..];
      if '\n' !in rest then None
      else
        var n := LineBreak(rest);
        var tail := rest[n + 1..];
        if StartsWith(tail, "Message: ") then Some((rest[..n], tail[9..])) else None
  }

  /** The position of the first line break of `s`. */
  function LineBreak(s: string): (n: nat)
    requires '\n' in s
    ensures n < |s| && s[n] == '\n' && '\n' !in s[..n]
  {
    if s[0] == '\n' then 0 else 1 + LineBreak(s[1..])
  }

  /** The error text keeps the code and the message apart: a code without line breaks reads back. */
  lemma ErrorTextReadsBack(code: string, message: string)
    requires '\n' !in code
    ensures ReadErrorText(ErrorText(map["code" := code, "message" := message]).value) == Some((code, message))
  {
    var t := "Error: " + code + "\nMessage: " + message;
    assert t[..7] == "Error: ";
    var rest := t[7..];
    assert rest == code + "\nMessage: " + message;
    assert rest[|code|] == '\n';
    var n := LineBreak(rest);
    assert rest[..n] == code;
    assert rest[n + 1..] == "Message: " + message;
  }

  /**
   * The body `update_outlook_event` sends: only the attendees (through a JSON round trip,
   * which leaves a JSON value unchanged) or the whole event.
   */
  function UpdatePayload(event: Mapping, attendeesOnly: bool): (r: Result<Mapping, Exc>)
    ensures !attendeesOnly ==> r == Ok(event)
    ensures attendeesOnly && "attendees" !in event ==> r == Err(KeyError("attendees"))
    ensures attendeesOnly && r.Ok? ==> r.value.Keys == {"attendees"} && r.value["attendees"] == event["attendees"]
  {
    if !attendeesOnly then Ok(event)
    else if "attendees" in event then Ok(map["attendees" := event["attendees"]])
    else Err(KeyError("attendees"))
  }
}
