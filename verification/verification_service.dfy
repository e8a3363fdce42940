/** The verification-results service: a validated batch of HIV verification
    results is turned, item by item, into OpenSRP events. Each item's latest
    service metadata is looked up, an event is built and sent, and the batch
    is summarised by counts and per-item error entries. The metadata query
    and the HTTP sender are parameters; either may throw. */
module VerificationService {
  import opened Wrappers
  import opened JavaText
  import opened Records
  import opened Validation
  import EnvConfig
  import OpenSrpUrl

  const EVENT_TYPE: string := "HIV Verification Test Results"
  const DEFAULT_ENTITY_TYPE: string := "ec_client"
  const CLIENT_DATABASE_VERSION: int := 17
  const CLIENT_APPLICATION_VERSION: int := 2

  const NO_METADATA: string := "No cbhts_services record found for clientCode and hfrCode"
  const SEND_FAILED: string := "Failed to send event to OpenSRP"
  const UNEXPECTED: string := "Unexpected processing error"
  const MISSING_DESTINATION: string := "Missing OpenSRP destination URL. Set OPENSRP_SERVER_EVENT_URL or OPENSRP_SERVER_URL."
  const DATABASE_FAILED: string := "Failed to query OpenSRP database"

  // ------------------------------------------------------------------ events

  /** The value of an observation: the build-time clock, or a text value. */
  datatype ObsValue = Clock | Text(text: Option<string>)

  datatype Obs = Obs(
    fieldType: string,
    fieldDataType: string,
    fieldCode: string,
    parentCode: string,
    value: ObsValue,
    formSubmissionField: string)

  /** The OpenSRP event for one item. Event and submission ids and the event
      and creation dates come from UUIDs and the clock and are not modelled. */
  datatype Event = Event(
    eventType: string,
    entityType: string,
    providerId: Option<string>,
    locationId: Option<string>,
    team: Option<string>,
    teamId: Option<string>,
    baseEntityId: Option<string>,
    kind: string,
    clientApplicationVersion: int,
    clientDatabaseVersion: int,
    duration: int,
    hfrCode: Option<string>,
    observations: seq<Obs>)

  /** `firstNonBlank`: the first text unless it is blank. */
  function FirstNonBlank(first: Option<string>, second: string): string {
    if HasText(first) then first.value else second
  }

  /** A text observation whose field code is also its form field. */
  function TextObs(fieldCode: string, value: Option<string>): Obs {
    Obs("concept", "text", fieldCode, "", Text(value), fieldCode)
  }

  const START_OBS: Obs := Obs("concept", "start", "163137AAAAAAAAAAAAAAAAAAAAAAAAAAAAAA", "", Clock, "start")
  const END_OBS: Obs := Obs("concept", "end", "163138AAAAAAAAAAAAAAAAAAAAAAAAAAAAAA", "", Clock, "end")

  /** The result code as reported to OpenSRP: trimmed, upper-cased, then
      lower-cased. */
  function ReportedResult(code: string): string {
    ToLower(ResultToken(code))
  }

  /** The observations of the event, in the order they are added, given the
      result as reported. */
  function Observations(item: VerificationResultItem, result: string): seq<Obs> {
    [START_OBS, END_OBS,
     TextObs("verification_date", item.verificationDate),
     TextObs("hiv_final_verification_result_code", Some(result))]
    + CtcObs(item.ctcId)
    + [TextObs("visit_id", item.visitId)]
  }

  /** The CTC id is reported only when it has text. */
  function CtcObs(ctcId: Option<string>): seq<Obs> {
    if HasText(ctcId) then [TextObs("ctc_id", ctcId)] else []
  }

  /** `buildVerificationEvent`. Its caller has validated the item, so the
      result code is present. */
  function BuildEvent(hfrCode: Option<string>, item: VerificationResultItem, metadata: ServiceMetadataRow): (e: Event)
    requires item.hivFinalVerificationResultCode.Some?
    ensures e.entityType == if HasText(metadata.entityType) then metadata.entityType.value else DEFAULT_ENTITY_TYPE
    ensures e.baseEntityId == metadata.baseEntityId && e.providerId == metadata.providerId
    ensures e.hfrCode == hfrCode
  {
    Event(EVENT_TYPE, FirstNonBlank(metadata.entityType, DEFAULT_ENTITY_TYPE),
          metadata.providerId, metadata.locationId, metadata.team, metadata.teamId, metadata.baseEntityId,
          "Event", CLIENT_APPLICATION_VERSION, CLIENT_DATABASE_VERSION, 0, hfrCode,
          Observations(item, ReportedResult(item.hivFinalVerificationResultCode.value)))
  }

  /** The event reports start, end, verification date and result, then the
      CTC id exactly when the item has one, then the visit id. */
  lemma EventObservationOrder(item: VerificationResultItem, result: string)
    ensures var obs := Observations(item, result);
      && |obs| == (if HasText(item.ctcId) then 6 else 5)
      && obs[0] == START_OBS && obs[1] == END_OBS
      && obs[2] == TextObs("verification_date", item.verificationDate)
      && obs[3] == TextObs("hiv_final_verification_result_code", Some(result))
      && (HasText(item.ctcId) ==> obs[4] == TextObs("ctc_id", item.ctcId))
      && obs[|obs| - 1] == TextObs("visit_id", item.visitId)
  {
  }

  /** The reported result, upper-cased again, is the token the validator
      checked; so an accepted item reports one of the allowed results. */
  lemma ReportedResultMatchesToken(code: string)
    ensures ToUpper(ReportedResult(code)) == ResultToken(code)
    ensures ResultToken(code) in ALLOWED_RESULTS ==> ToUpper(ReportedResult(code)) in ALLOWED_RESULTS
  {
    ToUpperOfLower(ResultToken(code));
    UpperIdempotent(Trim(code));
  }

  lemma UpperIdempotent(s: string)
    ensures ToUpper(ToUpper(s)) == ToUpper(s)
  {
    ToUpperAt(s);
    ToUpperAt(ToUpper(s));
  }

  // ---------------------------------------------------------------- sending

  /** `isSuccessfulSend`: the sender's answer has text mentioning
      "successful" in any case. */
  predicate IsSuccessfulSend(result: Option<string>) {
    HasText(result) && Contains(ToLower(result.value), "successful")
  }

  /** Whether a send counted as successful does not depend on the case of the
      answer. */
  lemma SuccessfulSendIgnoresCase(s: string)
    ensures IsSuccessfulSend(Some(ToUpper(s))) == IsSuccessfulSend(Some(s))
  {
    ToLowerOfUpper(s);
    UpperKeepsText(s);
  }

  /** Upper-casing leaves blank text blank and text with content non-blank. */
  lemma UpperKeepsText(s: string)
    ensures HasText(Some(ToUpper(s))) == HasText(Some(s))
  {
    ToUpperAt(s);
    assert forall k :: 0 <= k < |s| ==> (IsTrimmable(ToUpper(s)[k]) <==> IsTrimmable(s[k]));
    TrimShape(s);
    TrimShape(ToUpper(s));
  }

  // -------------------------------------------------------------- processing

  /** The outcome of a call into code outside the model: a value, or a thrown
      exception with its (possibly null) message. */
  datatype Attempt<T> = Done(value: T) | Threw(message: Option<string>)

  /** Where events go: the resolved event URL and the credentials. */
  datatype Destination = Destination(url: Option<string>, username: Option<string>, password: Option<string>)

  /** The OpenSRP side of a run: whether a connection opens, the metadata
      query by facility and client code, and the event sender. */
  datatype OpenSrp = OpenSrp(
    destination: Destination,
    connects: bool,
    metadata: (Option<string>, Option<string>) -> Attempt<Option<ServiceMetadataRow>>,
    send: (seq<Event>, Destination) -> Attempt<Option<string>>)

  /** One entry of the response's `errors` list. */
  datatype ErrorItem = ErrorItem(itemIndex: int, clientCode: Option<string>, visitId: Option<string>, message: string)

  /** The response: counts and the per-item errors. */
  datatype Summary = Summary(processedCount: int, successCount: int, failureCount: int, errors: seq<ErrorItem>)

  /** What `process` throws: a `ValidationException` with the messages, or
      an `IllegalStateException`. */
  datatype ProcessError = Rejected(messages: seq<string>) | MissingDestination | DatabaseUnavailable {
    function Message(): seq<string> {
      match this
      case Rejected(messages) => messages
      case MissingDestination => [MISSING_DESTINATION]
      case DatabaseUnavailable => [DATABASE_FAILED]
    }
  }

  /** `errorItem`: the 1-based position of the item, its client code and
      visit id, and the message. */
  function ErrorFor(index: nat, item: VerificationResultItem, message: string): ErrorItem {
    ErrorItem(index + 1, item.clientCode, item.visitId, message)
  }

  /** What happens to the item at `index`: `None` when its event was sent
      successfully, otherwise the error entry recorded for it. */
  function ItemOutcome(osrp: OpenSrp, hfrCode: Option<string>, index: nat, item: VerificationResultItem): (r: Option<ErrorItem>)
    requires item.hivFinalVerificationResultCode.Some?
    ensures r.Some? ==> r.value.itemIndex == index + 1 && r.value.clientCode == item.clientCode && r.value.visitId == item.visitId
  {
    match osrp.metadata(hfrCode, item.clientCode)
    case Threw(m) => Some(ErrorFor(index, item, FirstNonBlank(m, UNEXPECTED)))
    case Done(None) => Some(ErrorFor(index, item, NO_METADATA))
    case Done(Some(row)) =>
      match osrp.send([BuildEvent(hfrCode, item, row)], osrp.destination)
      case Threw(m) => Some(ErrorFor(index, item, FirstNonBlank(m, UNEXPECTED)))
      case Done(answer) =>
        if IsSuccessfulSend(answer) then None
        else Some(ErrorFor(index, item, FirstNonBlank(answer, SEND_FAILED)))
  }

  /** Every item is present and carries a result code, as validation ensures. */
  predicate Sendable(items: seq<Option<VerificationResultItem>>) {
    forall i :: 0 <= i < |items| ==> items[i].Some? && items[i].value.hivFinalVerificationResultCode.Some?
  }

  /** The per-item step as a value; `Some` is an error entry. */
  type Outcome = (nat, VerificationResultItem) -> Option<ErrorItem>

  function OutcomeOf(osrp: OpenSrp, hfrCode: Option<string>): Outcome {
    (index: nat, item: VerificationResultItem) =>
      if item.hivFinalVerificationResultCode.Some? then ItemOutcome(osrp, hfrCode, index, item)
      else Some(ErrorFor(index, item, UNEXPECTED))
  }

  /** Error entries name the item they are about. */
  ghost predicate NamesItems(outcome: Outcome) {
    forall index: nat, item: VerificationResultItem {:trigger outcome(index, item)} ::
      outcome(index, item).Some? ==>
        && outcome(index, item).value.itemIndex == index + 1
        && outcome(index, item).value.clientCode == item.clientCode
        && outcome(index, item).value.visitId == item.visitId
  }

  lemma OutcomeNamesItems(osrp: OpenSrp, hfrCode: Option<string>)
    ensures NamesItems(OutcomeOf(osrp, hfrCode))
  {
  }

  datatype Tally = Tally(successes: nat, errors: seq<ErrorItem>)

  /** Reference definition of the loop: the items' outcomes in order. */
  function Report(outcome: Outcome, items: seq<Option<VerificationResultItem>>): Tally
    requires forall i :: 0 <= i < |items| ==> items[i].Some?
  {
    if items == [] then Tally(0, [])
    else
      var prior := Report(outcome, items[..|items| - 1]);
      var i := |items| - 1;
      match outcome(i, items[i].value)
      case None => Tally(prior.successes + 1, prior.errors)
      case Some(e) => Tally(prior.successes, prior.errors + [e])
  }

  /** Each item is either one success or exactly one error entry; the entries
      follow item order and name their item. */
  lemma {:induction false} ReportAccounts(outcome: Outcome, items: seq<Option<VerificationResultItem>>)
    requires forall i :: 0 <= i < |items| ==> items[i].Some?
    requires NamesItems(outcome)
    ensures var t := Report(outcome, items);
      && t.successes + |t.errors| == |items|
      && (forall k :: 0 <= k < |t.errors| ==>
            1 <= t.errors[k].itemIndex <= |items|
            && t.errors[k].clientCode == items[t.errors[k].itemIndex - 1].value.clientCode
            && t.errors[k].visitId == items[t.errors[k].itemIndex - 1].value.visitId)
      && (forall k, l :: 0 <= k < l < |t.errors| ==> t.errors[k].itemIndex < t.errors[l].itemIndex)
  {
    if items != [] {
      var prefix := items[..|items| - 1];
      ReportAccounts(outcome, prefix);
      assert forall i :: 0 <= i < |prefix| ==> prefix[i] == items[i];
      var last := |items| - 1;
      var o := outcome(last, items[last].value);
      if o.Some? {
        assert o.value.itemIndex == |items|;
      }
    }
  }

  /** Some error entry is about the item at 1-based position `n`. */
  predicate HasEntry(errors: seq<ErrorItem>, n: int) {
    exists k :: 0 <= k < |errors| && errors[k].itemIndex == n
  }

  lemma HasEntryAppend(errors: seq<ErrorItem>, e: ErrorItem, n: int)
    ensures HasEntry(errors + [e], n) <==> HasEntry(errors, n) || e.itemIndex == n
  {
    var all := errors + [e];
    if HasEntry(errors, n) {
      var k :| 0 <= k < |errors| && errors[k].itemIndex == n;
      assert all[k] == errors[k];
    }
    if e.itemIndex == n {
      assert all[|errors|] == e;
    }
  }

  /** An item has an error entry exactly when its outcome is not a success. */
  lemma {:induction false} ReportErrorIff(outcome: Outcome, items: seq<Option<VerificationResultItem>>, i: nat)
    requires forall i :: 0 <= i < |items| ==> items[i].Some?
    requires NamesItems(outcome) && i < |items|
    ensures HasEntry(Report(outcome, items).errors, i + 1) <==> outcome(i, items[i].value).Some?
  {
    var prefix := items[..|items| - 1];
    ReportAccounts(outcome, prefix);
    var p := Report(outcome, prefix).errors;
    var last := |items| - 1;
    var o := outcome(last, items[last].value);
    if o.Some? {
      HasEntryAppend(p, o.value, i + 1);
    }
    if i < last {
      ReportErrorIff(outcome, prefix, i);
      assert prefix[i] == items[i];
    }
  }

  /** `process`: validate, require a destination, open a connection, then
      send each item's event and summarise. */
  method Process(osrp: OpenSrp, request: Option<VerificationResultsRequest>) returns (r: Result<Summary, ProcessError>)
    ensures var problems := ValidateVerificationResults(request);
      problems != [] ==> r == Err(Rejected(problems))
    ensures ValidateVerificationResults(request) == [] && IsBlank(osrp.destination.url) ==> r == Err(MissingDestination)
    ensures ValidateVerificationResults(request) == [] && HasText(osrp.destination.url) && !osrp.connects ==> r == Err(DatabaseUnavailable)
    ensures r.Ok? ==> ValidateVerificationResults(request) == [] && HasText(osrp.destination.url) && osrp.connects
    ensures r.Ok? ==>
      && request.Some? && request.value.data.Some? && Sendable(request.value.data.value)
      && var items := request.value.data.value;
         && r.value.processedCount == |items|
         && r.value.successCount + |r.value.errors| == |items|
         && r.value.failureCount == |r.value.errors|
         && var t := Report(OutcomeOf(osrp, request.value.hfrCode), items);
            r.value.successCount == t.successes && r.value.errors == t.errors
  {
    var problems := ValidateVerificationResults(request);
    if problems != [] {
      return Err(Rejected(problems));
    }
    VerificationResultsAccepted(request);
    if IsBlank(osrp.destination.url) {
      return Err(MissingDestination);
    }
    if !osrp.connects {
      return Err(DatabaseUnavailable);
    }
    var outcome := OutcomeOf(osrp, request.value.hfrCode);
    var items := request.value.data.value;
    assert Sendable(items);
    var tally := Summarize(outcome, items);
    OutcomeNamesItems(osrp, request.value.hfrCode);
    ReportAccounts(outcome, items);
    r := Ok(Summary(|items|, tally.successes, |items| - tally.successes, tally.errors));
  }

  /** The loop of `process`: one step per item, counting successes and
      collecting error entries in item order. */
  method Summarize(outcome: Outcome, items: seq<Option<VerificationResultItem>>) returns (t: Tally)
    requires forall i :: 0 <= i < |items| ==> items[i].Some?
    ensures t == Report(outcome, items)
  {
    var successes: nat := 0;
    var errors: seq<ErrorItem> := [];
    var i := 0;
    while i < |items|
      invariant 0 <= i <= |items|
      invariant Tally(successes, errors) == Report(outcome, items[..i])
    {
      assert items[..i + 1][..i] == items[..i];
      var o := outcome(i, items[i].value);
      if o.Some? {
        errors := errors + [o.value];
      } else {
        successes := successes + 1;
      }
      i := i + 1;
    }
    assert items[..i] == items;
    t := Tally(successes, errors);
  }

  // ----------------------------------------------------- destination address

  /** `resolveOpenSrpEventUrl`: a configured event URL is used as given;
      otherwise the server URL, normalised and pointed at the event path;
      otherwise none. */
  function ResolveEventUrl(env: EnvConfig.Environment): (r: Result<Option<string>, EnvConfig.ConfigError>)
  {
    var eventUrl :- EnvConfig.GetFirstOrDefault(env, None, [OpenSrpUrl.EVENT_URL_KEY]);
    if HasText(eventUrl) then Ok(eventUrl)
    else
      var serverUrl :- EnvConfig.GetFirstOrDefault(env, None, [OpenSrpUrl.SERVER_URL_KEY]);
      if IsBlank(serverUrl) then Ok(None)
      else Ok(Some(OpenSrpUrl.EventUrlOf(serverUrl.value)))
  }

  /** A configured event URL wins, verbatim. */
  lemma ResolvePrefersEventUrl(env: EnvConfig.Environment, eventUrl: string)
    requires EnvConfig.Get(env, OpenSrpUrl.EVENT_URL_KEY) == Ok(Some(eventUrl))
    ensures ResolveEventUrl(env) == Ok(Some(eventUrl))
  {
    EnvConfig.GetOrDefaultIsFirstOfOne(env, OpenSrpUrl.EVENT_URL_KEY, None);
    EnvConfig.GetIsSanitized(env, OpenSrpUrl.EVENT_URL_KEY);
    TrimShape(eventUrl);
  }

  /** Without an event URL, the server URL is pointed at the event path, so the
      resolved URL addresses OpenSRP's event endpoint. */
  lemma ResolveFromServerUrl(env: EnvConfig.Environment, serverUrl: string)
    requires EnvConfig.Get(env, OpenSrpUrl.EVENT_URL_KEY) == Ok(None)
    requires EnvConfig.Get(env, OpenSrpUrl.SERVER_URL_KEY) == Ok(Some(serverUrl))
    ensures ResolveEventUrl(env) == Ok(Some(OpenSrpUrl.EventUrlOf(serverUrl)))
    ensures OpenSrpUrl.AddressesEvents(OpenSrpUrl.EventUrlOf(serverUrl))
  {
    EnvConfig.GetOrDefaultIsFirstOfOne(env, OpenSrpUrl.EVENT_URL_KEY, None);
    EnvConfig.GetOrDefaultIsFirstOfOne(env, OpenSrpUrl.SERVER_URL_KEY, None);
    EnvConfig.GetIsSanitized(env, OpenSrpUrl.SERVER_URL_KEY);
    TrimShape(serverUrl);
  }

  /** With neither key set there is no destination, and `process` refuses to
      run. */
  lemma ResolveWithoutKeys(env: EnvConfig.Environment)
    requires EnvConfig.Get(env, OpenSrpUrl.EVENT_URL_KEY) == Ok(None)
    requires EnvConfig.Get(env, OpenSrpUrl.SERVER_URL_KEY) == Ok(None)
    ensures ResolveEventUrl(env) == Ok(None)
  {
    EnvConfig.GetOrDefaultIsFirstOfOne(env, OpenSrpUrl.EVENT_URL_KEY, None);
    EnvConfig.GetOrDefaultIsFirstOfOne(env, OpenSrpUrl.SERVER_URL_KEY, None);
  }

  /** The destination the default constructor assembles from configuration. */
  function ConfiguredDestination(env: EnvConfig.Environment): Result<Destination, EnvConfig.ConfigError> {
    var url :- ResolveEventUrl(env);
    var username :- EnvConfig.GetFirstOrDefault(env, None, [OpenSrpUrl.USERNAME_KEY]);
    var password :- EnvConfig.GetFirstOrDefault(env, None, [OpenSrpUrl.PASSWORD_KEY]);
    Ok(Destination(url, username, password))
  }
}
