/** The records the service passes around: the rows its queries return and
    the two request bodies it accepts. Java `null` is `None`. */
module Records {
  import opened Wrappers
  import opened JavaNum

  /** One `cbhts_services` visit joined with its client, provider location and
      household village, in the query's column order. Two columns are bound
      by position into fields named otherwise: the provider's council code
      lands in `districtCouncil` and the household village code in
      `healthFacility`. */
  datatype ServiceRow = ServiceRow(
    eventId: Option<string>,
    baseEntityId: Option<string>,
    htsVisitGroup: Option<string>,
    visitDate: Option<string>,
    htsVisitDate: Option<string>,
    dateCreated: Long,
    providerId: Option<string>,
    htsTestingApproach: Option<string>,
    htsVisitType: Option<string>,
    htsHasTheClientRecentlyTestedWithHivst: Option<string>,
    htsPreviousHivstClientType: Option<string>,
    htsPreviousHivstTestType: Option<string>,
    htsPreviousHivstTestResults: Option<string>,
    htsClientType: Option<string>,
    htsTestingPoint: Option<string>,
    htsTypeOfCounsellingProvided: Option<string>,
    htsClientsTbScreeningOutcome: Option<string>,
    htsHasPostTestCounsellingBeenProvided: Option<string>,
    htsHivResultsDisclosure: Option<string>,
    htsWereCondomsDistributed: Option<string>,
    htsNumberOfMaleCondomsProvided: Option<Int32>,
    htsNumberOfFemaleCondomsProvided: Option<Int32>,
    htsPreventiveServices: Option<string>,
    finalHivTestResult: Option<string>,
    uniqueId: Option<string>,
    firstName: Option<string>,
    middleName: Option<string>,
    lastName: Option<string>,
    phoneNumber: Option<string>,
    nationalId: Option<string>,
    voterId: Option<string>,
    driverLicense: Option<string>,
    passport: Option<string>,
    sex: Option<string>,
    birthDate: Option<string>,
    maritalStatus: Option<string>,
    pregnancyStatus: Option<string>,
    hfrCode: Option<string>,
    region: Option<string>,
    district: Option<string>,
    districtCouncil: Option<string>,
    ward: Option<string>,
    healthFacility: Option<string>,
    village: Option<string>,
    counsellorName: Option<string>)

  /** One `cbhts_tests` row. */
  datatype TestRow = TestRow(
    eventId: Option<string>,
    htsVisitGroup: Option<string>,
    baseEntityId: Option<string>,
    typeOfTestKitUsed: Option<string>,
    testKitBatchNumber: Option<string>,
    testKitExpireDate: Option<string>,
    testResult: Option<string>,
    syphilisTestResults: Option<string>,
    testType: Option<string>,
    dateCreated: Long)

  /** One HIV self-test result joined with the kit issue it belongs to. */
  datatype HivstSelfTestRow = HivstSelfTestRow(
    resultEventId: Option<string>,
    resultEventDate: Option<string>,
    baseEntityId: Option<string>,
    kitFor: Option<string>,
    resultKitCode: Option<string>,
    hivstResult: Option<string>,
    resultDate: Option<string>,
    registerToHts: Option<string>,
    issueEventId: Option<string>,
    issueEventDate: Option<string>,
    kitBatchNumber: Option<string>,
    kitExpiryDate: Option<string>)

  /** The latest visit's provider and team details for a client code. */
  datatype ServiceMetadataRow = ServiceMetadataRow(
    baseEntityId: Option<string>,
    providerId: Option<string>,
    team: Option<string>,
    teamId: Option<string>,
    locationId: Option<string>,
    entityType: Option<string>)

  /** The body of a data request: a facility, a window of epoch seconds and a page. */
  datatype IntegrationRequest = IntegrationRequest(
    hfrCode: Option<string>,
    startDate: Option<Long>,
    endDate: Option<Long>,
    pageIndex: Option<Int32>,
    pageSize: Option<Int32>)

  /** One verification result reported back for a client. */
  datatype VerificationResultItem = VerificationResultItem(
    clientCode: Option<string>,
    verificationDate: Option<string>,
    hivFinalVerificationResultCode: Option<string>,
    ctcId: Option<string>,
    visitId: Option<string>)

  /** The body of a verification-results request; an item of `data` may be null. */
  datatype VerificationResultsRequest = VerificationResultsRequest(
    hfrCode: Option<string>,
    data: Option<seq<Option<VerificationResultItem>>>)
}
