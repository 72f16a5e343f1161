/**
 * `QualerOrder.__dict__` and `extractAddressStr`: the Outlook event a work order is
 * mapped to. The HTML body (which needs a file and an asset count from the Qualer API)
 * and the attendee list (which needs the order's assignments) are inputs.
 */
module EventMapper {
  import opened Wrappers
  import opened PyText
  import opened PyValues
  import opened DateTimes

  const TimeZone: string := "America/Chicago"

  const AddressKeys: seq<string> := ["Address1", "City", "StateProvinceAbbreviation", "ZipPostalCode"]

  datatype Body = Body(contentType: string, content: string)

  /** A `start` or `end` member; the date-time is kept as a value, not as its `strftime` text. */
  datatype When = When(dateTime: DateTime, timeZone: string)

  datatype Location = Location(displayName: string, locationType: string)

  /** The event JSON the order is mapped to, one field per key. */
  datatype OutlookEvent = OutlookEvent(
    subject: Value,
    bodyPreview: Value,
    allowNewTimeProposals: bool,
    isAllDay: bool,
    categories: seq<Value>,
    showAs: string,
    responseRequested: bool,
    isReminderOn: bool,
    isCancelled: bool,
    body: Body,
    start: When,
    end: When,
    location: Location,
    attendees: seq<Value>)

  /** `str(v)` for a scalar: None for a list or a dict, whose `repr` is not modelled. */
  function Str(v: Value): (r: Option<string>)
    ensures r.None? <==> v.VList? || v.VDict?
    ensures v.VInt? ==> PyInt(r.value) == Some(v.i)
    ensures v.VStr? ==> r == Some(v.s)
  {
    match v
    case VNull => Some("None")
    case VBool(b) => Some(if b then "True" else "False")
    case VInt(i) => PyIntShowInt(i); Some(ShowInt(i))
    case VStr(s) => Some(s)
    case _ => None
  }

  predicate Scalar(v: Value) {
    Str(v).Some?
  }

  /** The shipping address has no list or dict among the four fields the display name uses. */
  predicate ScalarAddress(order: Mapping) {
    "ShippingAddress" in order && order["ShippingAddress"].VDict? ==>
      forall k :: k in AddressKeys && k in order["ShippingAddress"].entries ==> Scalar(order["ShippingAddress"].entries[k])
  }

  /** The first address field that is missing, if any. */
  function MissingAddressKey(address: Mapping, keys: seq<string>): (r: Option<string>)
    ensures r.None? <==> forall k :: k in keys ==> k in address
    ensures r.Some? ==> r.value in keys && r.value !in address
  {
    if keys == [] then None
    else if keys[0] !in address then Some(keys[0])
    else MissingAddressKey(address, keys[1..])
  }

  /** `extractAddressStr`: "Address1, City, ST Zip". */
  function AddressDisplay(order: Mapping): (r: Result<string, Exc>)
    requires ScalarAddress(order)
    ensures "ShippingAddress" !in order ==> r == Err(KeyError("ShippingAddress"))
    ensures r.Ok? <==> "ShippingAddress" in order && order["ShippingAddress"].VDict?
                       && forall k :: k in AddressKeys ==> k in order["ShippingAddress"].entries
    ensures r.Ok? ==>
      var a := order["ShippingAddress"].entries;
      r.value == Str(a["Address1"]).value + ", " + Str(a["City"]).value + ", "
                 + Str(a["StateProvinceAbbreviation"]).value + " " + Str(a["ZipPostalCode"]).value
  {
    if "ShippingAddress" !in order then Err(KeyError("ShippingAddress"))
    else match order["ShippingAddress"]
      case VDict(a) =>
        (match MissingAddressKey(a, AddressKeys)
         case Some(k) => Err(KeyError(k))
         case None =>
           Ok(Str(a["Address1"]).value + ", " + Str(a["City"]).value + ", "
              + Str(a["StateProvinceAbbreviation"]).value + " " + Str(a["ZipPostalCode"]).value))
      case v => Err(SubscriptError(v))
  }

  /** `"tentative" if status == "Scheduling" else "busy" if status == "Processing" else "free"`. */
  function ShowAs(status: Value): (r: string)
    ensures r == "tentative" <==> status == VStr("Scheduling")
    ensures r == "busy" <==> status == VStr("Processing")
    ensures r == "free" <==> status != VStr("Scheduling") && status != VStr("Processing")
  {
    if status == VStr("Scheduling") then "tentative" else if status == VStr("Processing") then "busy" else "free"
  }

  const NoStrftime: Exc := Raised("'NoneType' object has no attribute 'strftime'")

  /**
   * `order.__dict__()`, the keys evaluated in the order written: the subject first, then
   * the start and end (unset when the resolver never assigned them), then the address.
   */
  function Project(order: Mapping, number: Value, status: Value, isAllDay: bool,
                   start: Option<DateTime>, end: Option<DateTime>,
                   bodyContent: string, attendees: seq<Value>): (r: Result<OutlookEvent, Exc>)
    requires ScalarAddress(order)
    ensures "ClientCompanyName" !in order ==> r == Err(KeyError("ClientCompanyName"))
    ensures "ClientCompanyName" in order && start.None? ==> r == Err(NoStrftime)
    ensures r.Ok? <==> "ClientCompanyName" in order && start.Some? && end.Some? && AddressDisplay(order).Ok?
    ensures r.Ok? ==>
      && r.value.subject == order["ClientCompanyName"]
      && r.value.bodyPreview == number
      && r.value.isAllDay == isAllDay
      && r.value.showAs == ShowAs(status)
      && (r.value.isCancelled <==> status == VStr("Cancelled"))
      && !r.value.allowNewTimeProposals && !r.value.responseRequested && !r.value.isReminderOn
      && r.value.categories == []
      && r.value.body == Body("html", bodyContent)
      && r.value.start == When(start.value, TimeZone) && r.value.end == When(end.value, TimeZone)
      && r.value.location == Location(AddressDisplay(order).value, "default")
      && r.value.attendees == attendees
  {
    if "ClientCompanyName" !in order then Err(KeyError("ClientCompanyName"))
    else if start.None? || end.None? then Err(NoStrftime)
    else match AddressDisplay(order)
      case Err(e) => Err(e)
      case Ok(display) =>
        Ok(OutlookEvent(
          subject := order["ClientCompanyName"],
          bodyPreview := number,
          allowNewTimeProposals := false,
          isAllDay := isAllDay,
          categories := [],
          showAs := ShowAs(status),
          responseRequested := false,
          isReminderOn := false,
          isCancelled := status == VStr("Cancelled"),
          body := Body("html", bodyContent),
          start := When(start.value, TimeZone),
          end := When(end.value, TimeZone),
          location := Location(display, "default"),
          attendees := attendees))
  }
}
