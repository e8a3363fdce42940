/** The two request validators. Each returns the list of problems it finds,
    in a fixed order; an empty list means the request is accepted. */
module Validation {
  import opened Wrappers
  import opened JavaText
  import opened JavaNum
  import opened Records
  import DateParsing
  import Calendar

  const BODY_REQUIRED := "Request body is required"
  const HFR_REQUIRED := "hfrCode is required"

  /** `[message]` when the check fails, nothing otherwise. */
  function Check(failed: bool, message: string): seq<string> {
    if failed then [message] else []
  }

  predicate NoDuplicates(xs: seq<string>) {
    forall i, j :: 0 <= i < j < |xs| ==> xs[i] != xs[j]
  }

  // ------------------------------------------------------ data requests

  /** The problems a data request can have, in the order they are checked. */
  datatype RequestProblem =
    | HfrMissing
    | StartMissing
    | EndMissing
    | StartAfterEnd
    | PageIndexMissing
    | PageIndexTooSmall
    | PageSizeMissing
    | PageSizeTooSmall

  function ProblemMessage(p: RequestProblem): string {
    match p
    case HfrMissing => HFR_REQUIRED
    case StartMissing => "startDate is required"
    case EndMissing => "endDate is required"
    case StartAfterEnd => "startDate must be less than or equal to endDate"
    case PageIndexMissing => "pageIndex is required"
    case PageIndexTooSmall => "pageIndex must be greater than or equal to 1"
    case PageSizeMissing => "pageSize is required"
    case PageSizeTooSmall => "pageSize must be greater than or equal to 1"
  }

  /** Different problems read differently, and none reads like a missing body. */
  lemma ProblemMessagesDistinct(p: RequestProblem, p': RequestProblem)
    ensures ProblemMessage(p) == ProblemMessage(p') ==> p == p'
    ensures ProblemMessage(p) != BODY_REQUIRED
  {
  }

  function Messages(ps: seq<RequestProblem>): (r: seq<string>)
    ensures |r| == |ps| && forall k :: 0 <= k < |ps| ==> r[k] == ProblemMessage(ps[k])
  {
    seq(|ps|, k requires 0 <= k < |ps| => ProblemMessage(ps[k]))
  }

  /** `[p]` when the check fails, nothing otherwise. */
  function Flag(failed: bool, p: RequestProblem): seq<RequestProblem> {
    if failed then [p] else []
  }

  /** A required page number: missing, or below one. */
  function PageProblems(value: Option<Int32>, missing: RequestProblem, tooSmall: RequestProblem): seq<RequestProblem> {
    if value.None? then [missing] else Flag(value.value < 1, tooSmall)
  }

  /** The checks of `IntegrationRequestValidator.validate`, in order, once
      the facility code's blankness is known. */
  function Checks(hfrBlank: bool, start: Option<Long>, end: Option<Long>, pageIndex: Option<Int32>, pageSize: Option<Int32>)
    : seq<RequestProblem>
  {
    Flag(hfrBlank, HfrMissing)
    + Flag(start.None?, StartMissing)
    + Flag(end.None?, EndMissing)
    + Flag(start.Some? && end.Some? && start.value > end.value, StartAfterEnd)
    + PageProblems(pageIndex, PageIndexMissing, PageIndexTooSmall)
    + PageProblems(pageSize, PageSizeMissing, PageSizeTooSmall)
  }

  function RequestProblems(q: IntegrationRequest): seq<RequestProblem> {
    Checks(IsBlank(q.hfrCode), q.startDate, q.endDate, q.pageIndex, q.pageSize)
  }

  /** `IntegrationRequestValidator.validate`; a missing body is `None`. */
  function ValidateIntegrationRequest(request: Option<IntegrationRequest>): (r: seq<string>)
    ensures request.None? ==> r == [BODY_REQUIRED]
  {
    match request
    case None => [BODY_REQUIRED]
    case Some(q) => Messages(RequestProblems(q))
  }

  /** The condition under which each problem is reported. */
  predicate Fails(p: RequestProblem, hfrBlank: bool, start: Option<Long>, end: Option<Long>, pageIndex: Option<Int32>, pageSize: Option<Int32>) {
    match p
    case HfrMissing => hfrBlank
    case StartMissing => start.None?
    case EndMissing => end.None?
    case StartAfterEnd => start.Some? && end.Some? && start.value > end.value
    case PageIndexMissing => pageIndex.None?
    case PageIndexTooSmall => pageIndex.Some? && pageIndex.value < 1
    case PageSizeMissing => pageSize.None?
    case PageSizeTooSmall => pageSize.Some? && pageSize.value < 1
  }

  predicate Applies(p: RequestProblem, q: IntegrationRequest) {
    Fails(p, IsBlank(q.hfrCode), q.startDate, q.endDate, q.pageIndex, q.pageSize)
  }

  /** The checks report exactly the problems that apply. */
  lemma ChecksExactly(hfrBlank: bool, start: Option<Long>, end: Option<Long>, pageIndex: Option<Int32>, pageSize: Option<Int32>, p: RequestProblem)
    ensures p in Checks(hfrBlank, start, end, pageIndex, pageSize) <==> Fails(p, hfrBlank, start, end, pageIndex, pageSize)
  {
  }

  /** The checks report nothing exactly when none of them fails. */
  lemma ChecksNone(hfrBlank: bool, start: Option<Long>, end: Option<Long>, pageIndex: Option<Int32>, pageSize: Option<Int32>)
    ensures Checks(hfrBlank, start, end, pageIndex, pageSize) == [] <==>
      && !hfrBlank
      && start.Some? && end.Some? && start.value <= end.value
      && pageIndex.Some? && pageIndex.value >= 1
      && pageSize.Some? && pageSize.value >= 1
  {
  }

  /** The checks report each problem at most once, and at most five. */
  lemma ChecksOnce(hfrBlank: bool, start: Option<Long>, end: Option<Long>, pageIndex: Option<Int32>, pageSize: Option<Int32>)
    ensures var ps := Checks(hfrBlank, start, end, pageIndex, pageSize);
      |ps| <= 5 && forall i, j :: 0 <= i < j < |ps| ==> ps[i] != ps[j]
  {
  }

  /** What a servable data request is: a facility code with text, a window
      whose start is not after its end, and a page index and size of at
      least one. */
  predicate IsServableRequest(q: IntegrationRequest) {
    && HasText(q.hfrCode)
    && q.startDate.Some? && q.endDate.Some? && q.startDate.value <= q.endDate.value
    && q.pageIndex.Some? && q.pageIndex.value >= 1
    && q.pageSize.Some? && q.pageSize.value >= 1
  }

  /** The validator accepts exactly the servable requests. */
  lemma IntegrationRequestAccepted(request: Option<IntegrationRequest>)
    ensures ValidateIntegrationRequest(request) == [] <==> request.Some? && IsServableRequest(request.value)
  {
    if request.Some? {
      var q := request.value;
      ChecksNone(IsBlank(q.hfrCode), q.startDate, q.endDate, q.pageIndex, q.pageSize);
    }
  }

  /** Each message is reported exactly when its condition holds, and never
      the missing-body message. A window with a missing end is only
      "required", never "out of order"; a page number is either missing or
      too small, never both. */
  lemma IntegrationRequestMessages(q: IntegrationRequest, p: RequestProblem)
    ensures ProblemMessage(p) in ValidateIntegrationRequest(Some(q)) <==> Applies(p, q)
    ensures BODY_REQUIRED !in ValidateIntegrationRequest(Some(q))
  {
    var ps := RequestProblems(q);
    var r := Messages(ps);
    ChecksExactly(IsBlank(q.hfrCode), q.startDate, q.endDate, q.pageIndex, q.pageSize, p);
    if ProblemMessage(p) in r {
      var k :| 0 <= k < |r| && r[k] == ProblemMessage(p);
      ProblemMessagesDistinct(ps[k], p);
    }
    if BODY_REQUIRED in r {
      var k :| 0 <= k < |r| && r[k] == BODY_REQUIRED;
      ProblemMessagesDistinct(ps[k], ps[k]);
    }
  }

  /** No message is reported twice, and there are at most five of them. */
  lemma IntegrationMessagesOnce(q: IntegrationRequest)
    ensures NoDuplicates(ValidateIntegrationRequest(Some(q)))
    ensures |ValidateIntegrationRequest(Some(q))| <= 5
  {
    var ps := RequestProblems(q);
    var r := Messages(ps);
    ChecksOnce(IsBlank(q.hfrCode), q.startDate, q.endDate, q.pageIndex, q.pageSize);
    forall i, j | 0 <= i < j < |r|
      ensures r[i] != r[j]
    {
      ProblemMessagesDistinct(ps[i], ps[j]);
    }
  }

  // ------------------------------------------- verification-result requests

  const DATA_REQUIRED := "data is required"
  const ITEM_REQUIRED := " is required"
  const CLIENT_CODE_REQUIRED := ".clientCode is required"
  const DATE_REQUIRED := ".verificationDate is required"
  const DATE_FORMAT := ".verificationDate must use yyyy-MM-dd format"
  const RESULT_REQUIRED := ".hivFinalVerificationResultCode is required"
  const RESULT_UNKNOWN := ".hivFinalVerificationResultCode must be one of: POSITIVE, NEGATIVE, INCONCLUSIVE"
  const VISIT_REQUIRED := ".visitId is required"

  const ALLOWED_RESULTS: set<string> := {"POSITIVE", "NEGATIVE", "INCONCLUSIVE"}

  /** A result code as it is compared: trimmed and upper-cased. */
  function ResultToken(code: string): string {
    ToUpper(Trim(code))
  }

  /** `isIsoLocalDate`: `LocalDate.parse` accepts the text. */
  predicate IsIsoLocalDate(s: string) {
    DateParsing.ParseIsoLocalDate(s).Some?
  }

  /** `"data[" + index + "]"`. */
  function FieldPrefix(index: nat): string {
    "data[" + NatToString(index) + "]"
  }

  /** What is wrong with one item, as message tails after its prefix. */
  function ItemProblems(item: Option<VerificationResultItem>): seq<string> {
    match item
    case None => [ITEM_REQUIRED]
    case Some(v) =>
      Check(IsBlank(v.clientCode), CLIENT_CODE_REQUIRED)
      + (if IsBlank(v.verificationDate) then [DATE_REQUIRED]
         else Check(!IsIsoLocalDate(v.verificationDate.value), DATE_FORMAT))
      + (if IsBlank(v.hivFinalVerificationResultCode) then [RESULT_REQUIRED]
         else Check(ResultToken(v.hivFinalVerificationResultCode.value) !in ALLOWED_RESULTS, RESULT_UNKNOWN))
      + Check(IsBlank(v.visitId), VISIT_REQUIRED)
  }

  /** Every tail prefixed with the item's field name. */
  function Prefixed(prefix: string, tails: seq<string>): (r: seq<string>)
    ensures |r| == |tails| && forall k :: 0 <= k < |tails| ==> r[k] == prefix + tails[k]
  {
    seq(|tails|, k requires 0 <= k < |tails| => prefix + tails[k])
  }

  /** The messages for the item at `index`. */
  function ItemErrors(index: nat, item: Option<VerificationResultItem>): seq<string> {
    Prefixed(FieldPrefix(index), ItemProblems(item))
  }

  /** `f` applied to each element with its position, counted from `from`,
      and the results concatenated. */
  function ConcatIndexed<T>(items: seq<T>, from: nat, f: (nat, T) -> seq<string>): seq<string>
    decreases |items|
  {
    if items == [] then [] else f(from, items[0]) + ConcatIndexed(items[1..], from + 1, f)
  }

  lemma {:induction false} ConcatIndexedLocate<T>(items: seq<T>, from: nat, f: (nat, T) -> seq<string>, m: string)
    ensures m in ConcatIndexed(items, from, f) <==> exists i :: 0 <= i < |items| && m in f(from + i, items[i])
    decreases |items|
  {
    if items != [] {
      var rest := items[1..];
      var head, tail := f(from, items[0]), ConcatIndexed(rest, from + 1, f);
      assert ConcatIndexed(items, from, f) == head + tail;
      ConcatIndexedLocate(rest, from + 1, f, m);
      if m in tail {
        var i :| 0 <= i < |rest| && m in f(from + 1 + i, rest[i]);
        assert items[i + 1] == rest[i] && from + (i + 1) == from + 1 + i;
        assert m in f(from + (i + 1), items[i + 1]);
      } else if m in head {
        assert m in f(from + 0, items[0]);
      } else {
        forall i | 0 <= i < |items|
          ensures m !in f(from + i, items[i])
        {
          if i > 0 {
            assert items[i] == rest[i - 1] && from + i == from + 1 + (i - 1);
          }
        }
      }
    }
  }

  lemma {:induction false} ConcatIndexedEmpty<T>(items: seq<T>, from: nat, f: (nat, T) -> seq<string>)
    ensures ConcatIndexed(items, from, f) == [] <==> forall i :: 0 <= i < |items| ==> f(from + i, items[i]) == []
    decreases |items|
  {
    if items != [] {
      var rest := items[1..];
      ConcatIndexedEmpty(rest, from + 1, f);
      if forall i :: 0 <= i < |items| ==> f(from + i, items[i]) == [] {
        forall i | 0 <= i < |rest|
          ensures f(from + 1 + i, rest[i]) == []
        {
          assert f(from + (i + 1), items[i + 1]) == [];
        }
      }
      if ConcatIndexed(items, from, f) == [] {
        forall i | 0 <= i < |items|
          ensures f(from + i, items[i]) == []
        {
          if i > 0 {
            assert items[i] == rest[i - 1];
          }
        }
      }
    }
  }

  /** The loop over `data`, starting at position `from`. */
  function ItemsErrors(items: seq<Option<VerificationResultItem>>, from: nat): seq<string> {
    ConcatIndexed(items, from, ItemErrors)
  }

  /** `VerificationResultsRequestValidator.validate`; a missing body is `None`. */
  function ValidateVerificationResults(request: Option<VerificationResultsRequest>): (r: seq<string>)
    ensures request.None? ==> r == [BODY_REQUIRED]
    ensures request.Some? && (request.value.data.None? || request.value.data.value == []) ==>
      r == Check(IsBlank(request.value.hfrCode), HFR_REQUIRED) + [DATA_REQUIRED]
  {
    match request
    case None => [BODY_REQUIRED]
    case Some(q) =>
      Check(IsBlank(q.hfrCode), HFR_REQUIRED)
      + (if q.data.None? || q.data.value == [] then [DATA_REQUIRED] else ItemsErrors(q.data.value, 0))
  }

  /** What an acceptable item is: present, with a client code, a visit id,
      an ISO date and one of the three result codes in any case and
      spacing. The CTC id is optional and never checked. */
  predicate IsAcceptableItem(item: Option<VerificationResultItem>) {
    && item.Some?
    && HasText(item.value.clientCode)
    && HasText(item.value.verificationDate) && IsIsoLocalDate(item.value.verificationDate.value)
    && HasText(item.value.hivFinalVerificationResultCode)
    && ResultToken(item.value.hivFinalVerificationResultCode.value) in ALLOWED_RESULTS
    && HasText(item.value.visitId)
  }

  lemma ItemAccepted(index: nat, item: Option<VerificationResultItem>)
    ensures ItemErrors(index, item) == [] <==> IsAcceptableItem(item)
  {
  }

  /** Each message of an item names the item's position. */
  lemma ItemErrorsNamePosition(index: nat, item: Option<VerificationResultItem>)
    ensures forall m :: m in ItemErrors(index, item) ==> StartsWith(m, FieldPrefix(index))
  {
    var e := ItemErrors(index, item);
    forall m | m in e
      ensures StartsWith(m, FieldPrefix(index))
    {
      var k :| 0 <= k < |e| && e[k] == m;
      assert m[..|FieldPrefix(index)|] == FieldPrefix(index);
    }
  }

  /** Distinct positions have distinct field names. */
  lemma FieldPrefixInjective(i: nat, j: nat)
    requires FieldPrefix(i) == FieldPrefix(j)
    ensures i == j
  {
    var a, b := NatToString(i), NatToString(j);
    assert a == FieldPrefix(i)[5..|FieldPrefix(i)| - 1];
    assert b == FieldPrefix(j)[5..|FieldPrefix(j)| - 1];
  }

  /** A message comes from the loop exactly when it is one of some item's
      messages, that item being at its own position. */
  lemma ItemsErrorsLocate(items: seq<Option<VerificationResultItem>>, from: nat, m: string)
    ensures m in ItemsErrors(items, from) <==> exists i :: 0 <= i < |items| && m in ItemErrors(from + i, items[i])
  {
    ConcatIndexedLocate(items, from, ItemErrors, m);
  }

  /** The loop reports nothing exactly when every item is acceptable. */
  lemma ItemsAccepted(items: seq<Option<VerificationResultItem>>, from: nat)
    ensures ItemsErrors(items, from) == [] <==> forall i :: 0 <= i < |items| ==> IsAcceptableItem(items[i])
  {
    ConcatIndexedEmpty(items, from, ItemErrors);
    forall i | 0 <= i < |items|
      ensures ItemErrors(from + i, items[i]) == [] <==> IsAcceptableItem(items[i])
    {
      ItemAccepted(from + i, items[i]);
    }
  }

  /** What an acceptable verification-results request is. */
  predicate IsAcceptableResults(q: VerificationResultsRequest) {
    && HasText(q.hfrCode)
    && q.data.Some? && q.data.value != []
    && forall i :: 0 <= i < |q.data.value| ==> IsAcceptableItem(q.data.value[i])
  }

  /** The validator accepts exactly the acceptable requests. */
  lemma VerificationResultsAccepted(request: Option<VerificationResultsRequest>)
    ensures ValidateVerificationResults(request) == [] <==> request.Some? && IsAcceptableResults(request.value)
  {
    if request.Some? && request.value.data.Some? && request.value.data.value != [] {
      ItemsAccepted(request.value.data.value, 0);
    }
  }

  /** The CTC id never changes what an item is reported for. */
  lemma CtcIdUnchecked(index: nat, item: VerificationResultItem, ctcId: Option<string>)
    ensures ItemErrors(index, Some(item.(ctcId := ctcId))) == ItemErrors(index, Some(item))
  {
    var other := item.(ctcId := ctcId);
    SameCheckedFields(other, item);
  }

  /** Items that agree on the checked fields have the same problems. */
  lemma SameCheckedFields(a: VerificationResultItem, b: VerificationResultItem)
    requires a.clientCode == b.clientCode && a.verificationDate == b.verificationDate
    requires a.hivFinalVerificationResultCode == b.hivFinalVerificationResultCode && a.visitId == b.visitId
    ensures ItemProblems(Some(a)) == ItemProblems(Some(b))
  {
  }

  /** An ISO `toString` date always passes the date check. */
  lemma FormattedDateAccepted(d: Calendar.Date)
    requires Calendar.ValidDate(d) && 0 <= d.year <= 9999
    ensures IsIsoLocalDate(Calendar.FormatDate(d))
  {
    DateParsing.IsoDateRoundTrip(d);
  }
}
