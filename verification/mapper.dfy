/** `IntegrationDataMapper.mapServiceRow`: one CBHTS service visit and its
    test rows turned into the CTC service item, section by section. */
module Mapper {
  import opened Wrappers
  import opened JavaText
  import opened JavaNum
  import opened Normalization
  import opened Catalog
  import opened Records
  import opened DateParsing
  import opened FieldValues

  /** `catalog.mapToIntegrationValue(section, raw, aliases, default)`. Its body
      is not part of this model: the mapper is parameterised by it. */
  type Lookup = (string, Option<string>, map<string, string>, Option<string>) -> Option<string>

  /** A lookup that never answers a non-null default with null. */
  ghost predicate KeepsDefault(lookup: Lookup) {
    forall section: string, raw: Option<string>, aliases: map<string, string>, fallback: Option<string> ::
      fallback.Some? ==> lookup(section, raw, aliases, fallback).Some?
  }

  // ------------------------------------------------------------ output records

  datatype Counsellor = Counsellor(counsellorId: Option<string>, counsellorName: Option<string>)

  datatype Identification = Identification(idType: string, idCode: Option<string>)

  datatype ClientName = ClientName(firstName: Option<string>, middleName: Option<string>, lastName: Option<string>)

  datatype Demographics = Demographics(
    sexCode: Option<string>,
    dateOfBirth: Option<string>,
    maritalStatusCode: Option<string>,
    pregnancyStatusCode: string,
    smsConsent: bool)

  datatype Residence = Residence(
    region: Option<string>,
    district: Option<string>,
    council: Option<string>,
    ward: Option<string>,
    villageStreet: Option<string>,
    hamlet: Option<string>)

  datatype Classification = Classification(
    previousTestClientType: Option<string>,
    clientType: Option<string>,
    attendanceCode: Option<string>,
    relationshipIndexClient: string,
    eligibleForTesting: bool)

  datatype TestingHistory = TestingHistory(testingTypePrevious: Option<string>, previousTestResult: Option<string>)

  datatype CurrentTesting = CurrentTesting(
    testingType: Option<string>,
    counsellingTypeCode: Option<string>,
    tbScreeningDetails: Option<string>,
    postTestCounsellingAndResultsGiven: bool,
    disclosure: seq<string>)

  datatype SelfTestItem = SelfTestItem(
    selfTestKitCode: Option<string>,
    selfTestBatchNo: Option<string>,
    selfTestExpiryDate: Option<string>,
    selfTestKitName: Option<string>,
    selfTestingResults: Option<string>)

  datatype ReagentItem = ReagentItem(
    reagentBatch: Option<string>,
    reagentExpiry: Option<string>,
    reagentTest: Option<string>,
    testType: Option<string>,
    reagentResult: Option<string>,
    syphilisResult: Option<string>)

  datatype Prevention = Prevention(condomGiven: bool, condomsIssuedMale: Option<Int32>, condomsIssuedFemale: Option<Int32>)

  datatype Referral = Referral(referredToCode: string, toFacility: Option<string>)

  datatype ServiceItem = ServiceItem(
    htcApproach: string,
    visitDate: Option<string>,
    counsellor: Counsellor,
    clientCode: Option<string>,
    cellPhoneNumber: Option<string>,
    clientIdentification: Identification,
    clientName: ClientName,
    demographics: Demographics,
    residence: Residence,
    clientClassification: Classification,
    testingHistory: TestingHistory,
    currentTesting: CurrentTesting,
    selfTesting: seq<SelfTestItem>,
    reagentTesting: seq<ReagentItem>,
    preventionServices: Prevention,
    referralAndOutcome: seq<Referral>,
    remarks: string,
    createdAt: Long)

  // ------------------------------------------------------------ traversal

  /** Each element mapped in order; the first failure aborts, as a throw
      from inside a Java `for` loop does. */
  function MapEach<A, B, E>(xs: seq<A>, f: A -> Result<B, E>): (r: Result<seq<B>, E>)
    ensures r.Ok? <==> forall i :: 0 <= i < |xs| ==> f(xs[i]).Ok?
    ensures r.Ok? ==> |r.value| == |xs| && forall i :: 0 <= i < |xs| ==> f(xs[i]) == Ok(r.value[i])
    ensures r.Err? ==> exists i :: 0 <= i < |xs| && f(xs[i]) == Err(r.error) && forall j :: 0 <= j < i ==> f(xs[j]).Ok?
  {
    if xs == [] then Ok([])
    else
      var y :- f(xs[0]);
      var ys :- MapEach(xs[1..], f);
      assert forall i :: 1 <= i < |xs| ==> xs[i] == xs[1..][i - 1];
      Ok([y] + ys)
  }

  // ------------------------------------------------------------ header fields

  /** `mapTestingApproach`: CBHTS for a blank approach, otherwise the
      normalised value (the form-option check leads to the same value on both
      of its branches). */
  function MapTestingApproach(cat: Catalog, raw: Option<string>): (r: string)
    ensures r == (if IsBlank(raw) then "CBHTS" else Normalize(raw))
  {
    if IsBlank(raw) then "CBHTS"
    else
      var normalized := Normalize(raw);
      if IsKnownFormOption(cat, Some("hts_testing_approach"), raw) then normalized else normalized
  }

  function MapCounsellor(row: ServiceRow): Counsellor {
    Counsellor(row.providerId, FirstNonBlank([row.counsellorName, row.providerId]))
  }

  /** `mapClientIdentification`: national ID, voter ID, driving licence,
      passport, whichever first has text, else the OpenSRP entity ID. */
  function MapClientIdentification(row: ServiceRow): (r: Identification)
    ensures r.idType != "OPENSRP_ID" ==> HasText(r.idCode)
  {
    if HasText(row.nationalId) then Identification("NIDA", row.nationalId)
    else if HasText(row.voterId) then Identification("VOTER_ID", row.voterId)
    else if HasText(row.driverLicense) then Identification("DRIVER_LICENSE", row.driverLicense)
    else if HasText(row.passport) then Identification("PASSPORT", row.passport)
    else Identification("OPENSRP_ID", row.baseEntityId)
  }

  /** The identity documents in the order they are tried. */
  function IdCandidates(row: ServiceRow): seq<Identification> {
    [Identification("NIDA", row.nationalId), Identification("VOTER_ID", row.voterId),
     Identification("DRIVER_LICENSE", row.driverLicense), Identification("PASSPORT", row.passport)]
  }

  /** The first candidate whose code has text, else `otherwise`. */
  function FirstIdentified(candidates: seq<Identification>, otherwise: Identification): (r: Identification)
    ensures r == otherwise || r in candidates
  {
    if candidates == [] then otherwise
    else if HasText(candidates[0].idCode) then candidates[0]
    else FirstIdentified(candidates[1..], otherwise)
  }

  lemma FirstIdentifiedStep(candidates: seq<Identification>, otherwise: Identification)
    requires candidates != []
    ensures FirstIdentified(candidates, otherwise)
      == if HasText(candidates[0].idCode) then candidates[0] else FirstIdentified(candidates[1..], otherwise)
  {
  }

  /** The chain of checks is the first-with-text search over the documents in
      priority order, falling back to the OpenSRP entity ID. */
  lemma IdentificationIsFirstWithText(row: ServiceRow)
    ensures MapClientIdentification(row)
      == FirstIdentified(IdCandidates(row), Identification("OPENSRP_ID", row.baseEntityId))
  {
    var o := Identification("OPENSRP_ID", row.baseEntityId);
    var c3 := [Identification("PASSPORT", row.passport)];
    var c2 := [Identification("DRIVER_LICENSE", row.driverLicense)] + c3;
    var c1 := [Identification("VOTER_ID", row.voterId)] + c2;
    var c0 := [Identification("NIDA", row.nationalId)] + c1;
    assert IdCandidates(row) == c0;
    FirstIdentifiedStep(c3, o);
    assert c3[1..] == [];
    FirstIdentifiedStep(c2, o);
    FirstIdentifiedStep(c1, o);
    FirstIdentifiedStep(c0, o);
  }

  /** `mapPregnancyStatusBySex`: not applicable to a male client, unknown
      otherwise. The recorded pregnancy status is not consulted. */
  function PregnancyStatusBySex(sex: Option<string>): (r: string)
    ensures r == "NOT_APPLICABLE" <==> Normalize(sex) == "MALE" || Normalize(sex) == "M"
    ensures r != "NOT_APPLICABLE" ==> r == "UNKNOWN"
  {
    var normalized := Normalize(sex);
    if normalized == "MALE" || normalized == "M" then NOT_APPLICABLE else "UNKNOWN"
  }

  /** `mapDemographics`, given the already normalised birth date. */
  function MapDemographics(lookup: Lookup, tables: AliasTables, row: ServiceRow, dateOfBirth: Option<string>): Demographics {
    Demographics(
      row.sex,
      dateOfBirth,
      lookup("MaritalStatusCode", row.maritalStatus, tables.marital, Some(NOT_APPLICABLE)),
      PregnancyStatusBySex(row.sex),
      HasText(row.phoneNumber))
  }

  /** `mapResidence`. The query binds the household village code into
      `healthFacility`, so the village street is that code when it has text. */
  function MapResidence(row: ServiceRow): Residence {
    Residence(row.region, row.district, row.districtCouncil, row.ward,
              FirstNonBlank([row.healthFacility, row.village]), row.village)
  }

  /** `relationshipIndexClient`: a sexual partner exactly for index contacts. */
  function RelationshipOf(clientType: Option<string>): (r: string)
    ensures r == "SEXUAL_PARTNER" <==> clientType == Some("INDEX_CONTACT")
    ensures r != "SEXUAL_PARTNER" ==> r == NOT_APPLICABLE
  {
    if clientType == Some("INDEX_CONTACT") then "SEXUAL_PARTNER" else NOT_APPLICABLE
  }

  function MapClientClassification(cat: Catalog, lookup: Lookup, tables: AliasTables, row: ServiceRow): Classification {
    var clientType := lookup("ClientType", row.htsClientType, tables.clientType, Some(NOT_APPLICABLE));
    Classification(
      lookup("PreviousTestClientType", row.htsPreviousHivstClientType, tables.previousClientType, Some(NOT_APPLICABLE)),
      clientType,
      lookup("AttendanceCode", row.htsVisitType, tables.attendance, Some(NOT_APPLICABLE)),
      RelationshipOf(clientType),
      !ToBoolean(cat, row.htsHasTheClientRecentlyTestedWithHivst))
  }

  function MapTestingHistory(lookup: Lookup, tables: AliasTables, row: ServiceRow): TestingHistory {
    TestingHistory(
      lookup("TestingTypePrevious", row.htsPreviousHivstTestType, tables.testingType, Some(NOT_APPLICABLE)),
      lookup("PreviousTestResult", row.htsPreviousHivstTestResults, tables.hivResult, Some(NOT_APPLICABLE)))
  }

  // ------------------------------------------------------------ current testing

  /** The testing-type source: a verification test when the normalised client
      type has text and mentions VERIFICATION. */
  function TestingTypeSource(clientType: Option<string>): (r: string)
    ensures r == "verification_test" || r == "initial_test"
  {
    if HasText(clientType) && Contains(Normalize(clientType), "VERIFICATION") then "verification_test"
    else "initial_test"
  }

  lemma EmptyContainsNothingLonger(t: string)
    requires t != []
    ensures !Contains("", t)
  {
  }

  /** The text check is redundant: a verification test exactly when the
      normalised client type mentions VERIFICATION. */
  lemma TestingTypeSourceIff(clientType: Option<string>)
    ensures TestingTypeSource(clientType) == "verification_test" <==> Contains(Normalize(clientType), "VERIFICATION")
  {
    if !HasText(clientType) {
      BlankNormalizesEmpty(clientType);
      EmptyContainsNothingLonger("VERIFICATION");
    }
  }

  /** The disclosure code of one piece of the results-disclosure answer. */
  function Disclosure(lookup: Lookup, tables: AliasTables, piece: string): Option<string> {
    lookup("PostTestCounsellingAndResultsGiven", Some(piece), tables.disclosure, Some(NOT_APPLICABLE))
  }

  /** The disclosure codes of the pieces, in order, null codes skipped. */
  function DisclosureCodes(lookup: Lookup, tables: AliasTables, pieces: seq<string>): (r: seq<string>)
    ensures |r| <= |pieces|
    ensures forall c :: c in r ==> exists p :: p in pieces && Disclosure(lookup, tables, p) == Some(c)
  {
    if pieces == [] then []
    else
      var rest := DisclosureCodes(lookup, tables, pieces[1..]);
      match Disclosure(lookup, tables, pieces[0])
      case Some(code) => [code] + rest
      case None => rest
  }

  /** When every piece has a code, no piece is dropped: one code per piece, in order. */
  lemma {:induction false} DisclosureCodesAll(lookup: Lookup, tables: AliasTables, pieces: seq<string>)
    requires forall i :: 0 <= i < |pieces| ==> Disclosure(lookup, tables, pieces[i]).Some?
    ensures |DisclosureCodes(lookup, tables, pieces)| == |pieces|
    ensures forall i :: 0 <= i < |pieces| ==> Some(DisclosureCodes(lookup, tables, pieces)[i]) == Disclosure(lookup, tables, pieces[i])
  {
    if pieces != [] {
      var tail := pieces[1..];
      assert forall i :: 0 <= i < |tail| ==> tail[i] == pieces[i + 1];
      DisclosureCodesAll(lookup, tables, tail);
      var code := Disclosure(lookup, tables, pieces[0]);
      var rest := DisclosureCodes(lookup, tables, tail);
      assert DisclosureCodes(lookup, tables, pieces) == [code.value] + rest;
      forall i | 1 <= i < |pieces|
        ensures Some(([code.value] + rest)[i]) == Disclosure(lookup, tables, pieces[i])
      {
        assert pieces[i] == tail[i - 1];
      }
    }
  }

  /** A lookup that keeps its default drops no disclosure: one code per piece, in order. */
  lemma DisclosureCodesComplete(lookup: Lookup, tables: AliasTables, pieces: seq<string>)
    requires KeepsDefault(lookup)
    ensures |DisclosureCodes(lookup, tables, pieces)| == |pieces|
    ensures forall i :: 0 <= i < |pieces| ==> Some(DisclosureCodes(lookup, tables, pieces)[i]) == Disclosure(lookup, tables, pieces[i])
  {
    forall i | 0 <= i < |pieces| ensures Disclosure(lookup, tables, pieces[i]).Some? {
      var p := pieces[i];
      assert lookup("PostTestCounsellingAndResultsGiven", Some(p), tables.disclosure, Some(NOT_APPLICABLE)).Some?;
    }
    DisclosureCodesAll(lookup, tables, pieces);
  }

  function MapCurrentTesting(cat: Catalog, lookup: Lookup, tables: AliasTables, row: ServiceRow): CurrentTesting {
    CurrentTesting(
      lookup("TestingType", Some(TestingTypeSource(row.htsClientType)), tables.testingType, Some(NOT_APPLICABLE)),
      lookup("CounsellingTypeCode", row.htsTypeOfCounsellingProvided, tables.counselling, Some(NOT_APPLICABLE)),
      lookup("TBScreeningDetails", row.htsClientsTbScreeningOutcome, tables.tbScreening, Some(NOT_APPLICABLE)),
      ToBoolean(cat, row.htsHasPostTestCounsellingBeenProvided),
      DisclosureCodes(lookup, tables, SplitValues(row.htsHivResultsDisclosure)))
  }

  // ------------------------------------------------------------ test rows

  /** The elements `x` of `xs` with `p(x) == keep`, in order. */
  function Select<T>(xs: seq<T>, p: T -> bool, keep: bool): (r: seq<T>)
    ensures forall i :: 0 <= i < |r| ==> p(r[i]) == keep
  {
    if xs == [] then []
    else if p(xs[0]) == keep then [xs[0]] + Select(xs[1..], p, keep)
    else Select(xs[1..], p, keep)
  }

  /** Every element lands in exactly one of the two selections: together
      they hold each element as often as the input does. */
  lemma {:induction false} SelectPartition<T>(xs: seq<T>, p: T -> bool)
    ensures multiset(Select(xs, p, true)) + multiset(Select(xs, p, false)) == multiset(xs)
    ensures |Select(xs, p, true)| + |Select(xs, p, false)| == |xs|
  {
    if xs != [] {
      SelectPartition(xs[1..], p);
      assert xs == [xs[0]] + xs[1..];
    }
  }

  lemma {:induction false} SelectFrom<T>(xs: seq<T>, p: T -> bool, keep: bool, i: nat)
    requires i < |Select(xs, p, keep)|
    ensures Select(xs, p, keep)[i] in xs
  {
    if p(xs[0]) != keep || i > 0 {
      SelectFrom(xs[1..], p, keep, if p(xs[0]) == keep then i - 1 else i);
    }
  }

  lemma {:induction false} SelectKeeps<T>(xs: seq<T>, p: T -> bool, k: nat)
    requires k < |xs|
    ensures xs[k] in Select(xs, p, p(xs[k]))
  {
    if k > 0 {
      SelectKeeps(xs[1..], p, k - 1);
    }
  }

  /** The self-test rows, in order. */
  function SelfTestRows(tests: seq<TestRow>): seq<TestRow> {
    Select(tests, IsSelfTest, true)
  }

  /** The reagent (non-self-test) rows, in order. */
  function ReagentRows(tests: seq<TestRow>): seq<TestRow> {
    Select(tests, IsSelfTest, false)
  }

  function SelfTestItemOf(lookup: Lookup, tables: AliasTables, t: TestRow): Result<SelfTestItem, DateError> {
    var expiry :- NormalizeDate(t.testKitExpireDate);
    Ok(SelfTestItem(
      MapKitName(t.typeOfTestKitUsed),
      t.testKitBatchNumber,
      expiry,
      PrettifyName(t.typeOfTestKitUsed),
      lookup("PreviousTestResult", t.testResult, tables.hivResult, Some(NOT_APPLICABLE))))
  }

  function ReagentItemOf(lookup: Lookup, tables: AliasTables, t: TestRow): Result<ReagentItem, DateError> {
    var expiry :- NormalizeDate(t.testKitExpireDate);
    Ok(ReagentItem(
      t.testKitBatchNumber,
      expiry,
      MapKitName(t.typeOfTestKitUsed),
      MapTestType(t.testType),
      lookup("ReagentResultFirst", t.testResult, tables.hivResult, Some(NOT_APPLICABLE)),
      MapSyphilisResult(t.syphilisTestResults)))
  }

  /** `mapSelfTesting`: one item per self-test row, in order. */
  function MapSelfTesting(lookup: Lookup, tables: AliasTables, tests: seq<TestRow>): Result<seq<SelfTestItem>, DateError> {
    MapEach(SelfTestRows(tests), t => SelfTestItemOf(lookup, tables, t))
  }

  /** `mapReagentTesting`: one item per reagent row, in order. */
  function MapReagentTesting(lookup: Lookup, tables: AliasTables, tests: seq<TestRow>): Result<seq<ReagentItem>, DateError> {
    MapEach(ReagentRows(tests), t => ReagentItemOf(lookup, tables, t))
  }

  // ------------------------------------------------------------ prevention, referral

  function MapPreventionServices(cat: Catalog, row: ServiceRow): Prevention {
    Prevention(ToBoolean(cat, row.htsWereCondomsDistributed),
               row.htsNumberOfMaleCondomsProvided, row.htsNumberOfFemaleCondomsProvided)
  }

  /** The referral code of the first preventive service the lookup (with no
      default) knows. */
  function FirstReferralCode(lookup: Lookup, tables: AliasTables, pieces: seq<string>): (r: Option<string>)
    ensures r.None? <==> forall i :: 0 <= i < |pieces| ==> lookup("ReferredToCode", Some(pieces[i]), tables.referredTo, None).None?
    ensures r.Some? ==> exists i :: (0 <= i < |pieces| && lookup("ReferredToCode", Some(pieces[i]), tables.referredTo, None) == r
      && forall j :: 0 <= j < i ==> lookup("ReferredToCode", Some(pieces[j]), tables.referredTo, None).None?)
  {
    if pieces == [] then None
    else
      var code := lookup("ReferredToCode", Some(pieces[0]), tables.referredTo, None);
      if code.Some? then code
      else
        var r := FirstReferralCode(lookup, tables, pieces[1..]);
        assert forall i :: 1 <= i < |pieces| ==> pieces[i] == pieces[1..][i - 1];
        r
  }

  /** `mapReferralAndOutcome`: a single referral to the visit's facility,
      with the first known referral code or NOT_APPLICABLE. */
  function MapReferralAndOutcome(lookup: Lookup, tables: AliasTables, row: ServiceRow): (r: seq<Referral>)
    ensures |r| == 1 && r[0].toFacility == row.hfrCode
    ensures var code := FirstReferralCode(lookup, tables, SplitValues(row.htsPreventiveServices));
      r[0].referredToCode == code.GetOr(NOT_APPLICABLE)
  {
    var code := FirstReferralCode(lookup, tables, SplitValues(row.htsPreventiveServices));
    [Referral(if code.Some? then code.value else NOT_APPLICABLE, row.hfrCode)]
  }

  // ------------------------------------------------------------ remarks

  const REMARKS_PREFIX: string := "Generated from cbhts_services event "

  /** Java string concatenation: a null event ID is written "null". */
  function Remarks(eventId: Option<string>): (r: string)
    ensures StartsWith(r, REMARKS_PREFIX)
  {
    REMARKS_PREFIX + (if eventId.Some? then eventId.value else "null")
  }

  /** The event ID read back out of the remarks. */
  function RemarksEventId(remarks: string): string
    requires StartsWith(remarks, REMARKS_PREFIX)
  {
    remarks[|REMARKS_PREFIX|..]
  }

  lemma RemarksRoundTrip(eventId: Option<string>)
    ensures RemarksEventId(Remarks(eventId)) == eventId.GetOr("null")
  {
  }

  // ------------------------------------------------------------ the whole item

  /** The parts of the item that come from dates, each of which can fail. */
  datatype DatedParts = DatedParts(
    visitDate: Option<string>,
    dateOfBirth: Option<string>,
    selfTesting: seq<SelfTestItem>,
    reagentTesting: seq<ReagentItem>)

  /** The date normalisations in the order `mapServiceRow` performs them: the
      visit date, the birth date, the self-test expiry dates, the reagent
      expiry dates. The first that fails decides the error. */
  function MapDatedParts(lookup: Lookup, tables: AliasTables, row: ServiceRow, tests: seq<TestRow>): (r: Result<DatedParts, DateError>)
    ensures r.Ok? <==> && NormalizeDate(FirstNonBlank([row.htsVisitDate, row.visitDate])).Ok?
                       && NormalizeDate(row.birthDate).Ok?
                       && MapSelfTesting(lookup, tables, tests).Ok?
                       && MapReagentTesting(lookup, tables, tests).Ok?
    ensures r.Ok? ==> && r.value.selfTesting == MapSelfTesting(lookup, tables, tests).value
                      && r.value.reagentTesting == MapReagentTesting(lookup, tables, tests).value
  {
    var visitDate :- NormalizeDate(FirstNonBlank([row.htsVisitDate, row.visitDate]));
    var dateOfBirth :- NormalizeDate(row.birthDate);
    var selfTesting :- MapSelfTesting(lookup, tables, tests);
    var reagentTesting :- MapReagentTesting(lookup, tables, tests);
    Ok(DatedParts(visitDate, dateOfBirth, selfTesting, reagentTesting))
  }

  function Assemble(cat: Catalog, lookup: Lookup, tables: AliasTables, row: ServiceRow, d: DatedParts): ServiceItem {
    ServiceItem(
      MapTestingApproach(cat, row.htsTestingApproach),
      d.visitDate,
      MapCounsellor(row),
      FirstNonBlank([row.uniqueId, row.baseEntityId]),
      NormalizePhoneNumber(row.phoneNumber),
      MapClientIdentification(row),
      ClientName(row.firstName, row.middleName, row.lastName),
      MapDemographics(lookup, tables, row, d.dateOfBirth),
      MapResidence(row),
      MapClientClassification(cat, lookup, tables, row),
      MapTestingHistory(lookup, tables, row),
      MapCurrentTesting(cat, lookup, tables, row),
      d.selfTesting,
      d.reagentTesting,
      MapPreventionServices(cat, row),
      MapReferralAndOutcome(lookup, tables, row),
      Remarks(row.eventId),
      ToEpochSeconds(row.dateCreated))
  }

  /** `mapServiceRow`. A null test list counts as empty. */
  function MapServiceRow(cat: Catalog, lookup: Lookup, tables: AliasTables, row: ServiceRow, tests: Option<seq<TestRow>>): Result<ServiceItem, DateError> {
    var d :- MapDatedParts(lookup, tables, row, tests.GetOr([]));
    Ok(Assemble(cat, lookup, tables, row, d))
  }

  // ------------------------------------------------------------ properties

  /** The date fields a row and its tests carry all normalise. */
  predicate DatesNormalize(row: ServiceRow, tests: seq<TestRow>) {
    && NormalizeDate(FirstNonBlank([row.htsVisitDate, row.visitDate])).Ok?
    && NormalizeDate(row.birthDate).Ok?
    && forall i :: 0 <= i < |tests| ==> NormalizeDate(tests[i].testKitExpireDate).Ok?
  }

  /** Every test's kit expiry date normalises. */
  predicate ExpiriesNormalize(tests: seq<TestRow>) {
    forall i :: 0 <= i < |tests| ==> NormalizeDate(tests[i].testKitExpireDate).Ok?
  }

  /** The test lists map without error exactly when every test's kit expiry
      date normalises. */
  lemma TestListsSucceed(lookup: Lookup, tables: AliasTables, tests: seq<TestRow>)
    ensures MapSelfTesting(lookup, tables, tests).Ok? && MapReagentTesting(lookup, tables, tests).Ok?
      <==> forall i :: 0 <= i < |tests| ==> NormalizeDate(tests[i].testKitExpireDate).Ok?
  {
    if ExpiriesNormalize(tests) {
      SelfTestsMap(lookup, tables, tests);
      ReagentsMap(lookup, tables, tests);
    } else if MapSelfTesting(lookup, tables, tests).Ok? && MapReagentTesting(lookup, tables, tests).Ok? {
      forall k | 0 <= k < |tests|
        ensures NormalizeDate(tests[k].testKitExpireDate).Ok?
      {
        ExpiryNormalizes(lookup, tables, tests, k);
      }
    }
  }

  lemma SelfTestsMap(lookup: Lookup, tables: AliasTables, tests: seq<TestRow>)
    requires ExpiriesNormalize(tests)
    ensures MapSelfTesting(lookup, tables, tests).Ok?
  {
    var self := SelfTestRows(tests);
    forall i | 0 <= i < |self|
      ensures SelfTestItemOf(lookup, tables, self[i]).Ok?
    {
      SelectFrom(tests, IsSelfTest, true, i);
    }
  }

  lemma ReagentsMap(lookup: Lookup, tables: AliasTables, tests: seq<TestRow>)
    requires ExpiriesNormalize(tests)
    ensures MapReagentTesting(lookup, tables, tests).Ok?
  {
    var reagent := ReagentRows(tests);
    forall i | 0 <= i < |reagent|
      ensures ReagentItemOf(lookup, tables, reagent[i]).Ok?
    {
      SelectFrom(tests, IsSelfTest, false, i);
    }
  }

  /** When both lists map, the k-th test's kit expiry date normalised. */
  lemma ExpiryNormalizes(lookup: Lookup, tables: AliasTables, tests: seq<TestRow>, k: nat)
    requires MapSelfTesting(lookup, tables, tests).Ok? && MapReagentTesting(lookup, tables, tests).Ok?
    requires k < |tests|
    ensures NormalizeDate(tests[k].testKitExpireDate).Ok?
  {
    SelectKeeps(tests, IsSelfTest, k);
    if IsSelfTest(tests[k]) {
      var self := SelfTestRows(tests);
      var i :| 0 <= i < |self| && self[i] == tests[k];
      assert SelfTestItemOf(lookup, tables, self[i]).Ok?;
    } else {
      var reagent := ReagentRows(tests);
      var i :| 0 <= i < |reagent| && reagent[i] == tests[k];
      assert ReagentItemOf(lookup, tables, reagent[i]).Ok?;
    }
  }

  /** A service row maps without error exactly when its visit date, its
      birth date and every test's kit expiry date can be normalised. */
  lemma MapServiceRowSucceeds(cat: Catalog, lookup: Lookup, tables: AliasTables, row: ServiceRow, tests: seq<TestRow>)
    ensures MapServiceRow(cat, lookup, tables, row, Some(tests)).Ok? <==> DatesNormalize(row, tests)
  {
    TestListsSucceed(lookup, tables, tests);
    assert MapServiceRow(cat, lookup, tables, row, Some(tests)).Ok? <==> MapDatedParts(lookup, tables, row, tests).Ok?;
  }

  /** The item's test lists are those of the test-list mappers. */
  lemma ItemTestLists(cat: Catalog, lookup: Lookup, tables: AliasTables, row: ServiceRow, tests: Option<seq<TestRow>>)
    requires MapServiceRow(cat, lookup, tables, row, tests).Ok?
    ensures MapSelfTesting(lookup, tables, tests.GetOr([])).Ok? && MapReagentTesting(lookup, tables, tests.GetOr([])).Ok?
    ensures var item := MapServiceRow(cat, lookup, tables, row, tests).value;
      && item.selfTesting == MapSelfTesting(lookup, tables, tests.GetOr([])).value
      && item.reagentTesting == MapReagentTesting(lookup, tables, tests.GetOr([])).value
  {
  }

  lemma TestListLengths(lookup: Lookup, tables: AliasTables, tests: seq<TestRow>)
    requires MapSelfTesting(lookup, tables, tests).Ok? && MapReagentTesting(lookup, tables, tests).Ok?
    ensures |MapSelfTesting(lookup, tables, tests).value| + |MapReagentTesting(lookup, tables, tests).value| == |tests|
  {
    SelectPartition(tests, IsSelfTest);
  }

  /** Every test row becomes exactly one item: the self-test and reagent
      lists together are as long as the test list, and a null list gives
      none. */
  lemma TestItemsCover(cat: Catalog, lookup: Lookup, tables: AliasTables, row: ServiceRow, tests: Option<seq<TestRow>>)
    requires MapServiceRow(cat, lookup, tables, row, tests).Ok?
    ensures var item := MapServiceRow(cat, lookup, tables, row, tests).value;
      |item.selfTesting| + |item.reagentTesting| == |tests.GetOr([])|
    ensures tests.None? ==> var item := MapServiceRow(cat, lookup, tables, row, tests).value;
      item.selfTesting == [] && item.reagentTesting == []
  {
    ItemTestLists(cat, lookup, tables, row, tests);
    TestListLengths(lookup, tables, tests.GetOr([]));
  }

  /** The i-th self-test item describes the i-th self-test row: its kit code,
      batch, kit name and expiry date come from that row. */
  lemma SelfTestItemsInOrder(cat: Catalog, lookup: Lookup, tables: AliasTables, row: ServiceRow, tests: seq<TestRow>, i: nat)
    requires MapServiceRow(cat, lookup, tables, row, Some(tests)).Ok?
    requires i < |MapServiceRow(cat, lookup, tables, row, Some(tests)).value.selfTesting|
    ensures i < |SelfTestRows(tests)|
    ensures var item := MapServiceRow(cat, lookup, tables, row, Some(tests)).value.selfTesting[i];
      var t := SelfTestRows(tests)[i];
      && item.selfTestKitCode == MapKitName(t.typeOfTestKitUsed)
      && item.selfTestBatchNo == t.testKitBatchNumber
      && item.selfTestKitName == PrettifyName(t.typeOfTestKitUsed)
      && Ok(item.selfTestExpiryDate) == NormalizeDate(t.testKitExpireDate)
  {
    ItemTestLists(cat, lookup, tables, row, Some(tests));
    SelfTestItemAt(lookup, tables, tests, i);
  }

  /** The i-th self-test item is the i-th self-test row's item. */
  lemma SelfTestItemAt(lookup: Lookup, tables: AliasTables, tests: seq<TestRow>, i: nat)
    requires MapSelfTesting(lookup, tables, tests).Ok? && i < |MapSelfTesting(lookup, tables, tests).value|
    ensures i < |SelfTestRows(tests)|
    ensures var item := MapSelfTesting(lookup, tables, tests).value[i];
      var t := SelfTestRows(tests)[i];
      && item.selfTestKitCode == MapKitName(t.typeOfTestKitUsed)
      && item.selfTestBatchNo == t.testKitBatchNumber
      && item.selfTestKitName == PrettifyName(t.typeOfTestKitUsed)
      && Ok(item.selfTestExpiryDate) == NormalizeDate(t.testKitExpireDate)
  {
    var items := MapSelfTesting(lookup, tables, tests).value;
    assert SelfTestItemOf(lookup, tables, SelfTestRows(tests)[i]) == Ok(items[i]);
  }

  /** The SMS consent flag is set exactly when a phone number is sent. */
  lemma SmsConsentMatchesPhone(cat: Catalog, lookup: Lookup, tables: AliasTables, row: ServiceRow, tests: Option<seq<TestRow>>)
    requires MapServiceRow(cat, lookup, tables, row, tests).Ok?
    ensures var item := MapServiceRow(cat, lookup, tables, row, tests).value;
      item.demographics.smsConsent <==> item.cellPhoneNumber.Some?
  {
    var d := MapDatedParts(lookup, tables, row, tests.GetOr([])).value;
    assert MapServiceRow(cat, lookup, tables, row, tests).value == Assemble(cat, lookup, tables, row, d);
  }

  /** A client is eligible for testing unless the recent-self-test answer is
      one of the true tokens. */
  lemma EligibleUnlessRecentlySelfTested(cat: Catalog, lookup: Lookup, tables: AliasTables, row: ServiceRow)
    ensures MapClientClassification(cat, lookup, tables, row).eligibleForTesting
      <==> Normalize(row.htsHasTheClientRecentlyTestedWithHivst) !in TRUE_TOKENS
  {
    ToBooleanTokens(cat, row.htsHasTheClientRecentlyTestedWithHivst);
  }

  /** The testing type is looked up for a verification test exactly when the
      client type mentions VERIFICATION. */
  lemma TestingTypeFollowsClientType(cat: Catalog, lookup: Lookup, tables: AliasTables, row: ServiceRow)
    ensures MapCurrentTesting(cat, lookup, tables, row).testingType ==
      lookup("TestingType",
             Some(if Contains(Normalize(row.htsClientType), "VERIFICATION") then "verification_test" else "initial_test"),
             tables.testingType, Some(NOT_APPLICABLE))
  {
    TestingTypeSourceIff(row.htsClientType);
  }

  /** The row with the fields the mapper never reads replaced. */
  function WithUnreadFields(row: ServiceRow, group: Option<string>, point: Option<string>,
                            finalResult: Option<string>, pregnancy: Option<string>): ServiceRow {
    row.(htsVisitGroup := group, htsTestingPoint := point, finalHivTestResult := finalResult, pregnancyStatus := pregnancy)
  }

  lemma AssembleIgnores(cat: Catalog, lookup: Lookup, tables: AliasTables, row: ServiceRow, row': ServiceRow, d: DatedParts)
    requires row' == WithUnreadFields(row, row'.htsVisitGroup, row'.htsTestingPoint, row'.finalHivTestResult, row'.pregnancyStatus)
    ensures Assemble(cat, lookup, tables, row, d) == Assemble(cat, lookup, tables, row', d)
  {
    ClientSectionsIgnore(lookup, tables, row, row', d.dateOfBirth);
    TestingSectionsIgnore(cat, lookup, tables, row, row');
  }

  lemma ClientSectionsIgnore(lookup: Lookup, tables: AliasTables, row: ServiceRow, row': ServiceRow, dateOfBirth: Option<string>)
    requires row' == WithUnreadFields(row, row'.htsVisitGroup, row'.htsTestingPoint, row'.finalHivTestResult, row'.pregnancyStatus)
    ensures MapCounsellor(row) == MapCounsellor(row')
    ensures MapClientIdentification(row) == MapClientIdentification(row')
    ensures MapDemographics(lookup, tables, row, dateOfBirth) == MapDemographics(lookup, tables, row', dateOfBirth)
    ensures MapResidence(row) == MapResidence(row')
  {
    CounsellorResidenceIgnore(row, row');
    IdentificationIgnores(row, row');
    DemographicsIgnore(lookup, tables, row, row', dateOfBirth);
  }
  lemma CounsellorResidenceIgnore(row: ServiceRow, row': ServiceRow)
    requires row' == WithUnreadFields(row, row'.htsVisitGroup, row'.htsTestingPoint, row'.finalHivTestResult, row'.pregnancyStatus)
    ensures MapCounsellor(row) == MapCounsellor(row')
    ensures MapResidence(row) == MapResidence(row')
  {
  }
  lemma IdentificationIgnores(row: ServiceRow, row': ServiceRow)
    requires row' == WithUnreadFields(row, row'.htsVisitGroup, row'.htsTestingPoint, row'.finalHivTestResult, row'.pregnancyStatus)
    ensures MapClientIdentification(row) == MapClientIdentification(row')
  {
  }
  lemma DemographicsIgnore(lookup: Lookup, tables: AliasTables, row: ServiceRow, row': ServiceRow, dateOfBirth: Option<string>)
    requires row' == WithUnreadFields(row, row'.htsVisitGroup, row'.htsTestingPoint, row'.finalHivTestResult, row'.pregnancyStatus)
    ensures MapDemographics(lookup, tables, row, dateOfBirth) == MapDemographics(lookup, tables, row', dateOfBirth)
  {
  }

  lemma TestingSectionsIgnore(cat: Catalog, lookup: Lookup, tables: AliasTables, row: ServiceRow, row': ServiceRow)
    requires row' == WithUnreadFields(row, row'.htsVisitGroup, row'.htsTestingPoint, row'.finalHivTestResult, row'.pregnancyStatus)
    ensures MapClientClassification(cat, lookup, tables, row) == MapClientClassification(cat, lookup, tables, row')
    ensures MapTestingHistory(lookup, tables, row) == MapTestingHistory(lookup, tables, row')
    ensures MapCurrentTesting(cat, lookup, tables, row) == MapCurrentTesting(cat, lookup, tables, row')
    ensures MapPreventionServices(cat, row) == MapPreventionServices(cat, row')
    ensures MapReferralAndOutcome(lookup, tables, row) == MapReferralAndOutcome(lookup, tables, row')
  {
  }

  /** Fields the mapper never reads: the visit group, the testing point, the
      final HIV result and the recorded pregnancy status. */
  lemma IgnoredFields(cat: Catalog, lookup: Lookup, tables: AliasTables, row: ServiceRow, tests: Option<seq<TestRow>>,
                      group: Option<string>, point: Option<string>, finalResult: Option<string>, pregnancy: Option<string>)
    ensures MapServiceRow(cat, lookup, tables, row, tests)
      == MapServiceRow(cat, lookup, tables, WithUnreadFields(row, group, point, finalResult, pregnancy), tests)
  {
    var row' := WithUnreadFields(row, group, point, finalResult, pregnancy);
    var ts := tests.GetOr([]);
    assert MapDatedParts(lookup, tables, row, ts) == MapDatedParts(lookup, tables, row', ts);
    if MapDatedParts(lookup, tables, row, ts).Ok? {
      AssembleIgnores(cat, lookup, tables, row, row', MapDatedParts(lookup, tables, row, ts).value);
    }
  }
}
