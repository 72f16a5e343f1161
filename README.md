# Qualer → Outlook calendar sync, modelled in Dafny

The sync walks week-sized windows from the last logged run up to now. For each window it
fetches the Qualer work orders, and for each order it:

- resolves the request dates and times into a start, an end and an all-day flag;
- looks the order up in an index built from the Outlook calendar;
- decides whether the calendar event should be created, updated, deleted, skipped or left
  as past;
- counts the outcome, or records the exception the order raised under its order number.

At the end it logs the failures twice: grouped by message, and counted by message.

This project models that core:

- the date/time resolver `DateTimeUtils.combine_date_and_time` and `parse_datetime`;
- the order object `QualerOrder`: its constructor, `process_order`, `__dict__` and
  `extractAddressStr`;
- the field differ `diff`;
- the sync object `CalendarSync` (`tickCounters`, `finalLogging`) and the per-order loop of
  `loopOrders`;
- the week walk of the main block;
- from `app/outlook.py` only: the event index (`extract_event_details`,
  `check_outlook_event`), the error formatter and the update payload;
- from `app/exceptions.py`: the failure aggregation (`count_exceptions`,
  `group_orders_by_exception`) and the last-line step of `get_last_log_time`.

Python values are modelled explicitly:

- JSON values (`PyValues.Value`), with dictionaries as `map<string, Value>`.
- Exceptions (`PyValues.Exc`): a `ValueError` is identified by the call and argument that
  raised it, which stands in for its traceback text. Every other exception is its `str(e)`
  text.
- Datetimes are a proleptic-Gregorian day ordinal plus seconds since midnight. The week walk
  counts microseconds.

Several behaviours of the code that a reader might not expect are kept as written:

- `process_order` gives an order without a RequestToDate no status at all (`None`), not
  `Skipped`. Within the sync no order reaches that branch, because the resolver succeeds only
  after RequestToDate has parsed; the status appears only when `process_order` is called on
  its own.
- Without a ServiceOrderId, the log lines of the AM-to-PM correction and of the all-day
  branch raise its `KeyError`, the first after the end has already moved.
- The "missing values" message names only the falsy request fields, not all four.
- `diff` compares the fetched event with the raw work-order mapping, not with a projected
  event.
- A `Skipped` outcome raises, because `skipped_events` was never created, and is recorded as
  a failure.
- An order whose label cannot be read before any label was assigned raises out of the
  exception handler itself. That ends the loop and the whole run, so not every per-order
  error is contained.

Files:

- `wrappers.dfy`: Option and Result.
- `pytext.dfy`: `str.strip`, `int()` on text, `str(int)`, slicing.
- `pyvalues.dfy`: JSON values, truthiness, `dict.get`, subscripting and `int()` on values,
  exception texts.
- `datetimes.dfy`: the `%Y-%m-%dT%H:%M:%S` parser and renderer, day ordinals.
- `resolver.dfy`: `combine_date_and_time` as a specification.
- `orders.dfy`: the `QualerOrder` class, the decision function, and the imperative resolver
  steps.
- `differ.dfy`: `diff`.
- `projection.dfy`: `__dict__` and the address display.
- `outlook.dfy`: the index, matching, the error text and the update payload.
- `qualer_site.dfy`: the service-order URL.
- `exceptions.dfy`: the failure aggregation and reading back the log's last line.
- `calendar_sync.dfy`: the outcome lists, `loopOrders` and the week walk.

## Model

| member | source | states |
|---|---|---|
| PyText.Strip | app/exceptions.py:58 | the result is the slice of the input between its leading and trailing whitespace, and neither end of it is whitespace |
| PyText.NoEdgeSpaceStrip | app/exceptions.py:58 | a string that neither starts nor ends with whitespace is unchanged by `strip()` |
| PyText.DropPrefix | calendar_sync.py:79 | `s[6:]`: the input is the first n characters followed by the result; a string shorter than n gives "" |
| PyText.ShowNat | calendar_sync.py:240 | `str(n)` of a number, as the f-string renders it, is a nonempty string of decimal digits |
| PyText.PyIntShowInt | calendar_sync.py:159 | `int(str(i)) == i` for every integer |
| PyText.PyIntNegative | calendar_sync.py:159 | `int("-" + str(n)) == -n` for positive n |
| PyValues.Get | calendar_sync.py:97 | `order.get(k)` is present exactly when the key is, and is then the key's value |
| PyValues.SliceFrom | calendar_sync.py:79 | slicing succeeds exactly on strings and lists; a string loses its first n characters; a list keeps its elements from position n on, in order |
| PyValues.IntOf | calendar_sync.py:159 | `int(v)`: a string converts exactly when it is a decimal literal, otherwise a ValueError naming the text; bools and ints convert to their number; anything else is a non-ValueError |
| PyValues.EqReflexive | calendar_sync.py:264 | Python `==` on JSON values is reflexive |
| DateTimes.Scan | calendar_sync.py:255-257 | the six fields are read exactly when the text has the fixed 19-character layout |
| DateTimes.Parse | calendar_sync.py:255-257 | parsing succeeds exactly when the layout matches and the fields name an existing date and time; the time of day is within the day |
| DateTimes.Render | calendar_sync.py:257 | the rendered stamp is 19 characters long |
| DateTimes.ScanRender | calendar_sync.py:257 | scanning a rendered stamp gives the stamp back |
| DateTimes.RenderScan | calendar_sync.py:257 | rendering a scanned text with `T` gives the text back |
| DateTimes.ParseRender | calendar_sync.py:257 | `parse_datetime` of the rendering of a valid datetime is that datetime |
| DateTimes.OrdinalOrder | calendar_sync.py:101 | comparing day ordinals then times orders datetimes as Python does (lexicographically by fields), and distinct dates have distinct ordinals |
| DateTimes.OrdinalRange | calendar_sync.py:122 | every valid date lies between ordinal 1 and the ordinal of 9999-12-31, which only that date has |
| DateTimes.OrdinalBounds | calendar_sync.py:122 | the same bounds for any year, month and day in range |
| DateTimeResolver.ParseValue | calendar_sync.py:255-257 | succeeds exactly on a string that parses, with its parse; a string that does not parse is a ValueError naming it; a non-string is a TypeError |
| DateTimeResolver.ParseAt | calendar_sync.py:98 | `parse_datetime(order[k])`: KeyError on an absent key, otherwise parsing the value |
| DateTimeResolver.Falsy | calendar_sync.py:138 | the listed fields whose value is falsy or absent, exactly |
| DateTimeResolver.FalsyRequestFields | calendar_sync.py:138 | the falsy request fields come in the order RequestFromTime, RequestToTime, RequestFromDate, RequestToDate |
| DateTimeResolver.EndsBeforeStart | calendar_sync.py:107 | the refusal ends with the order's service id when that is a string, and is a KeyError when the id is absent |
| DateTimeResolver.FillDates | calendar_sync.py:112-117 | two date strings are left alone; otherwise a truthy from-date is copied over a falsy to-date or vice versa; reading an absent to-date raises; no other key changes |
| DateTimeResolver.CombineExact | calendar_sync.py:97-107 | the mapping and the all-day flag are unchanged; on success both ends are set with a time of day within the day |
| DateTimeResolver.CombineAllDay | calendar_sync.py:119-123 | without a service id it raises that `KeyError` and changes nothing; on success both ends are set and the event is all-day; on failure the flag is unchanged |
| DateTimeResolver.TimeOrDefault | calendar_sync.py:129-133 | a falsy time field gives the default; a truthy one gives its parsed time of day or the parse error |
| DateTimeResolver.CombineDefaults | calendar_sync.py:125-136 | the mapping and the all-day flag are unchanged; on success both ends are set |
| DateTimeResolver.Combine | calendar_sync.py:93-139 | on success both ends are set; only the two dates of the mapping can change; the flag changes only to all-day on success; with no date string it raises the missing-values message |
| DateTimeResolver.ExactResolution | calendar_sync.py:97-107 | with all four fields: start is from-date at from-time and end is to-date at to-time; an end before the start is moved 12 hours later when its time is before noon (staying within the day), after which the log line raises the `KeyError` of a missing service id; it is refused otherwise |
| DateTimeResolver.CorrectionNotRechecked | calendar_sync.py:101-105 | the corrected end is not checked again: an end one day early at 09:00 still precedes the start, and is accepted exactly when the service id is there for the log line |
| DateTimeResolver.LoneDateCopied | calendar_sync.py:110-117 | in the second branch a lone truthy date is copied to the other date field, and two date strings are left as they are |
| DateTimeResolver.AllDayResolution | calendar_sync.py:119-123 | with both times None: without a service id the warning raises its `KeyError` first and nothing is set; otherwise the event is all-day, from the from-date at 00:00 to the day after the to-date at 00:00, and a to-date of 9999-12-31 overflows |
| DateTimeResolver.DefaultTimesResolution | calendar_sync.py:125-136 | with some time present, a falsy from-time becomes 07:00 and a falsy to-time 17:00, and the all-day flag is unchanged |
| DateTimeResolver.MissingValuesResolution | calendar_sync.py:137-139 | with no date string the order is refused with "Order is missing values: " followed by exactly the falsy request fields in fixed order |
| QualerOrders.Missing | calendar_sync.py:146 | exactly the required keys the order lacks |
| QualerOrders.StatusValue | calendar_sync.py:157-185 | the table from the five decisions to the status strings "Past", "Cancelled", "Skipped", "Updated" and "Created"; the stored status is None exactly when `process_order` returned None, and a string otherwise |
| QualerOrders.OrderNumber | calendar_sync.py:159 | `int(order["CustomOrderNumber"][6:])` on a string number |
| QualerOrders.Decide | calendar_sync.py:161-185 | no decision exactly when there is no RequestToDate; an unparsable one raises; `Past` exactly when it is before today; `Cancelled` exactly for a live cancelled order on the calendar; `Created` exactly for a live active order not on the calendar; `Updated` only when `diff` is non-empty, with attendees-only exactly for `['attendees']`; a live cancelled order not on the calendar is `Skipped`, as is an active one whose diff is empty; a failed lookup, or a diff against an event that lacks an allowlisted key, raises its error; each decision comes with its one action |
| QualerOrders.Process | calendar_sync.py:157-185 | the number parses first (its error is raised); the index hit is the first matching entry; the call succeeds exactly when the number parses and `Decide` succeeds, with `Decide`'s decision and action, and otherwise raises `Decide`'s error |
| QualerOrders.PastRegardlessOfStatus | calendar_sync.py:164-166 | an expired order is `Past` whatever its status, the index or the event lookup |
| QualerOrders.ActiveIndexedOrder | calendar_sync.py:175-182 | an active order on the calendar is `Updated` exactly when `diff` is non-empty, with attendees-only exactly for `['attendees']`, and `Skipped` otherwise |
| QualerOrders.QualerOrder.constructor | calendar_sync.py:147-154 | id, number and status come from the mapping; no times are set; not all-day |
| QualerOrders.QualerOrder.Create | calendar_sync.py:143-155 | missing required keys raise the message naming them; otherwise the new order holds the resolver's mapping and attributes, or the resolver's exception is raised |
| QualerOrders.QualerOrder.CombineDateAndTime | calendar_sync.py:93-139 | the new mapping, attributes and raised error are those `Combine` specifies, including the attributes assigned before a raise; nothing else changes |
| QualerOrders.QualerOrder.CombineExactly | calendar_sync.py:97-107 | the new state is `CombineExact`'s |
| QualerOrders.QualerOrder.CombineAllDay | calendar_sync.py:119-123 | the new state is `DateTimeResolver.CombineAllDay`'s |
| QualerOrders.QualerOrder.CombineWithDefaults | calendar_sync.py:125-136 | the new state is `CombineDefaults`'s |
| QualerOrders.QualerOrder.ProcessOrder | calendar_sync.py:157-185 | the result is `Process`'s; the order number is stored when it parses; nothing else changes |
| EventMapper.MissingAddressKey | calendar_sync.py:240 | none exactly when every address field is present; otherwise a missing one |
| EventMapper.AddressDisplay | calendar_sync.py:237-240 | "Address1, City, ST Zip" exactly when the shipping address is a dict with the four fields; KeyError when it is absent |
| EventMapper.ShowAs | calendar_sync.py:198 | "tentative" exactly for Scheduling, "busy" exactly for Processing, "free" exactly otherwise |
| EventMapper.Project | calendar_sync.py:190-219 | KeyError without ClientCompanyName; strftime on None without a start; otherwise every field as the mapping prescribes: `isCancelled` exactly for Cancelled, the three flags False, no categories, both time zones America/Chicago, the address display as location |
| EventMapper.Str | calendar_sync.py:240 | `str(v)` exists exactly for a value that is not a list or a dict; a string is itself, and the text of an integer reads back with `int()` |
| EventDiffer.DiffOver | calendar_sync.py:264 | succeeds exactly when the first event has every key, else the KeyError of the first key it lacks; the result holds exactly the keys whose values differ |
| EventDiffer.Diff | calendar_sync.py:260-264 | exactly the allowlisted keys where `event1[k] != event2.get(k)`; never `body`; empty when nothing differs |
| EventDiffer.DiffInOrder | calendar_sync.py:263-264 | the differing keys come in allowlist order |
| EventDiffer.DiffReflexive | calendar_sync.py:260-264 | an event compared with itself has no differing key |
| EventDiffer.DiffAgainstForeignMapping | calendar_sync.py:177 | against a raw work order holding none of the allowlisted keys, every key whose event value is not None differs |
| Outlook.FindFromLeftmost | app/outlook.py:52-57 | the search finds the leftmost match of `56561-\d{6}` at or after the start, and nothing exactly when there is none |
| Outlook.FindOrderNumberLeftmost | app/outlook.py:52-61 | the custom order number is the leftmost match in the body preview, or None when there is none |
| Outlook.LastSegment | app/outlook.py:67 | `h.split('/')[-1]`: a suffix with no slash, preceded by a slash unless it is all of `h` |
| Outlook.FirstOrderLink | app/outlook.py:66-67 | the first href starting with the service order URL, none exactly when no href does |
| Outlook.ServiceOrderIdCases | app/outlook.py:63-69 | an unreadable body or a tag without href gives None; otherwise the last segment of the first matching href, None exactly when none matches |
| Outlook.Present | app/outlook.py:66 | the hrefs of the tags, in order, when every tag has one |
| Outlook.ExtractEventDetails | app/outlook.py:50-73 | one triple per event, in order: service order id, custom order number, event id |
| Outlook.FirstMatch | app/outlook.py:77-83 | None exactly when no entry matches on either key; otherwise the id of the earliest matching entry |
| Outlook.CheckOutlookEvent | app/outlook.py:77-83 | returns `FirstMatch` of the index |
| Outlook.FirstMatchIgnoresLater | app/outlook.py:79-82 | once an entry matches, later entries do not change the result |
| Outlook.ErrorText | app/outlook.py:42-46 | KeyError for a missing code, then for a missing message; a text exactly when both are present |
| Outlook.ErrorTextReadsBack | app/outlook.py:45 | a code without line breaks and the message can be read back from the text |
| Outlook.UpdatePayload | app/outlook.py:148 | the whole event, or with attendees only a mapping whose only key is `attendees`, holding the event's attendees |
| ExceptionReport.Distinct | app/exceptions.py:26-29 | the distinct messages in first-occurrence order, without duplicates |
| ExceptionReport.Labels | app/exceptions.py:37 | the labels of all failures, in order |
| ExceptionReport.CountExceptions | app/exceptions.py:16-30 | the keys are exactly the distinct messages in first-occurrence order, each counted by the number of failures carrying it |
| ExceptionReport.GroupOrdersByException | app/exceptions.py:33-42 | the keys are exactly the distinct messages in first-occurrence order, each mapped to the labels carrying it in input order |
| ExceptionReport.DistinctMembers | app/exceptions.py:26-29 | a message is a key exactly when its count is positive, exactly when some failure carries it |
| ExceptionReport.GroupSize | app/exceptions.py:16-42 | each group holds as many labels as its message's count |
| ExceptionReport.GroupMembers | app/exceptions.py:37-42 | each label of a group comes from a failure with that message |
| ExceptionReport.CountsAddUp | app/exceptions.py:21-30 | the counts add up to the number of failures |
| ExceptionReport.GroupsPartition | app/exceptions.py:37-42 | the groups taken together are a permutation of all recorded labels |
| ExceptionReport.FirstField | app/exceptions.py:59 | `s.split(' - ')[0]`: the prefix before the first separator, or all of `s` |
| ExceptionReport.SeparatorFrom | app/exceptions.py:59 | the first separator position at or after a start |
| ExceptionReport.LastLogTime | app/exceptions.py:57-61 | an empty file raises "Log file is empty"; otherwise the first field of the stripped last line |
| ExceptionReport.FirstFieldOf | app/exceptions.py:59 | a timestamp with no " -" inside is the first field of a line the format writes |
| ExceptionReport.StripLogLine | app/exceptions.py:58 | stripping a written log line keeps its timestamp and first separator |
| ExceptionReport.LastLogTimeReadsBack | app/exceptions.py:57-59 | after a record whose level and message hold no line break, the time read back is that record's timestamp |
| ExceptionReport.MultiLineRecordReadsBack | app/exceptions.py:57-59 | one example of a multi-line last record: a file that ends with the count line of a `ValueError` traceback reads back "(Count: 1)", not a timestamp |
| CalendarSync.Tally | calendar_sync.py:42-53 | Skipped raises the missing `skipped_events` attribute; Cancelled, Updated and Created append the number only to deleted, updated and created; no other list changes |
| CalendarSync.TallyCountsOnce | calendar_sync.py:48-53 | the lists grow by one for Cancelled, Updated and Created, and by none otherwise |
| CalendarSync.CalendarSync.constructor | calendar_sync.py:21-24 | all four lists start empty |
| CalendarSync.CalendarSync.TickCounters | calendar_sync.py:42-53 | the new lists are `Tally`'s; the result is True exactly for Past; a raise leaves the lists unchanged |
| CalendarSync.LabelOf | calendar_sync.py:79 | KeyError without CustomOrderNumber, otherwise its `[6:]` slice |
| CalendarSync.Handle | calendar_sync.py:80-81 | the missing-keys error first, then the resolver's error, otherwise `process_order` on the resolved mapping |
| CalendarSync.Record | calendar_sync.py:86-88 | exactly one more failure entry at the end; the outcome lists are unchanged |
| CalendarSync.StepAccounts | calendar_sync.py:77-88 | each order adds exactly one failure or at most one outcome, and the loop goes on; it is left exactly when the label cannot be read before any label was assigned, with the lists unchanged |
| CalendarSync.SkippedIsRecordedAsFailure | calendar_sync.py:45-46 | a Skipped order is recorded as a failure under its label, with the attribute error the generic handler catches |
| CalendarSync.BatchStaysAborted | calendar_sync.py:77-88 | after the loop has been left, later orders change nothing |
| CalendarSync.BatchGrowth | calendar_sync.py:77-88 | the lists grow by at most one entry per order, and earlier failures stay in place |
| CalendarSync.CalendarSync.LoopOrders | calendar_sync.py:77-88 | the new lists and the escaping exception are those of the orders taken one at a time from the left |
| CalendarSync.CalendarSync.StepOrder | calendar_sync.py:78-88 | one pass of the loop, as `Step` specifies |
| CalendarSync.CalendarSync.AccountOrder | calendar_sync.py:80-88 | building, processing and counting one labelled order, or recording its exception |
| CalendarSync.CalendarSync.FinalLogging | calendar_sync.py:55-63 | one group and one count per distinct message, in first-occurrence order |
| CalendarSync.WindowAt | calendar_sync.py:273-288 | window k starts k weeks after the start, no later than the stop, and ends a week later or at the stop |
| CalendarSync.WindowShape | calendar_sync.py:279-288 | each window starts a week after the previous one; every end is at most the stop and at most a week after its start |
| CalendarSync.WindowCount | calendar_sync.py:276-279 | the loop body runs `(stop - start).days // 7 + 1` times, and not at all when the stop precedes the start |
| CalendarSync.NoWeeksBeforeStart | calendar_sync.py:276-279 | a stop before the start gives a non-positive `total_weeks` and no window |
| CalendarSync.SweepSnoc | calendar_sync.py:279-285 | one more window adds that window's loop, unless an earlier one raised |
| CalendarSync.SweepStaysAborted | calendar_sync.py:285 | an exception out of `loopOrders` ends the walk: later windows change nothing |
| CalendarSync.CalendarSync.SyncWindow | calendar_sync.py:285 | one window: its fetched work orders, looped over |
| CalendarSync.CalendarSync.Run | calendar_sync.py:273-288 | the new lists and the escaping exception are those of the windows from start to stop, a week each, taken in order |

## Left out

- HTTP and authentication are not modelled: the access token, headers, the create, update, delete and list requests of `app/outlook.py`, and all of `app/qualer_api.py`. Where the sync needs that data it is an input: `fetch` for a window's work orders, `lookup` for `outlook.event.lookup`, and the index for the listed events.
- app/qualer_api.py is not part of this model.
- `Outlook` (imported at calendar_sync.py:8) is not defined in `app/outlook.py`. `outlook.check` is modelled as `check_outlook_event` over the index, and `outlook.event.lookup` as the `lookup` parameter.
- `gatherAssignees`, `read_body` and `body` need the Qualer API and a file. The attendee list and the body content are inputs of `EventMapper.Project`.
- HTML parsing is abstracted: an event's body is the list of `href` values of its `<a>` tags, in document order (None for a tag without one, or for a body that cannot be read).
- `getLastLog` (the file read, its `strptime` of the log time and its `SystemExit` paths) is not modelled; `LastLogTime` takes the file's lines.
- Logging, tqdm progress bars and `os.chdir` are not modelled. The only thing logging decides is what `finalLogging` reports, which `FinalLogging` returns.
- FinalLogging: does not return the three "Successfully …" info lines, which only echo the outcome lists.
- The wall clock is a parameter: `today` is the day ordinal of `dt.now().date()`, and the stop of the week walk is given in microseconds.
- `strftime` rendering of the event's start and end (the `%f` field) is not modelled: the event holds the datetime itself.
- A `ValueError` traceback is represented by the call and argument that raised it, not by its text. Python groups and counts ValueErrors by the `traceback.format_exc()` text, which holds the raising line and the message but not the argument. So `CountExceptions` and `GroupOrdersByException` can merge or split ValueErrors differently from `count_exceptions` and `group_orders_by_exception`: two impossible dates that fail with the same message at calendar_sync.py:98 are one key in Python and two here, and one bad RequestFromDate that fails at calendar_sync.py:98 and at calendar_sync.py:121 is two keys in Python and one here.
- EventMapper.Project: requires that the address fields are not lists or dicts, because their `repr` is not modelled.
- EventMapper.AddressDisplay: requires the same, for the same reason.
- DateTimes.Parse: accepts only the fixed-width form with ASCII digits; the shorter fields and the Unicode digits `strptime` also accepts are not modelled.
- Exception texts follow Python 3.11 (for example the unbound-local message, and the "unhashable type: 'slice'" text of slicing a dict, where Python 3.12 raises a `KeyError` instead).
- QualerOrders.Decide: with `is_live` left False (as calendar_sync.py:81 calls it), the chosen action is returned rather than performed. This model has no log line for it.
- PyValues.IntOf: accepts only ASCII decimal digits; `int()` also converts the other Unicode decimal digits (`int("٣") == 3`), which the model turns into a ValueError.
- Outlook.FindFromLeftmost: `\d` in `56561-\d{6}` also matches non-ASCII decimal digits, which the model does not take for digits, so such a number is not found.
- Outlook.FindOrderNumberLeftmost: the same ASCII-only reading of `\d`.
- ExceptionReport.LastLogTimeReadsBack: states the read-back only for one-line records. A record with a line break in its message spans several lines of the file. `getLastLog` then reads the first field of its last line, as `MultiLineRecordReadsBack` shows for the count line of a ValueError traceback (calendar_sync.py:63 and :86). A record written by `logging.exception` outside a handler (app/exceptions.py:46) also ends in a "NoneType: None" line. Which record is written last depends on the logging that is not modelled.
- Outlook.ErrorText: takes the error's `code` and `message` as strings. `outlook_error_handler` (app/outlook.py:43-45) formats whatever JSON values they hold through an f-string (a numeric code gives "Error: 400"), and its argument is the response's `.get('error', {})` (app/outlook.py:99, 129 and 133), so the value types are not guaranteed.
- ListedEvent fixes an event's `id` and `bodyPreview` as strings. In Python a missing one raises `KeyError` out of `extract_event_details` (app/outlook.py:54-56), a `bodyPreview` that is not a string makes `re.search` raise, and an `id` that is not a string is kept as it is. The listing is an input here.
- JSON values are modelled without floats: a Qualer or Outlook number with a fraction cannot be represented, so `diff`, slicing and `int()` are not modelled on one.
- Concurrency does not arise in this core, and no arithmetic of the core is in floating point.
