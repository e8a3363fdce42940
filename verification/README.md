# CBHTS to CTC integration core, in Dafny

This project models the core of the UCS/CTC integration service. The
service reads community-based HIV testing (CBHTS) visits from the OpenSRP
database and serves them, page by page, as CTC integration items. It also
accepts verification results from CTC and posts each one back to OpenSRP
as an event. The model is a set of pure functions over immutable
datatypes. Java `null` is `Option`, Java `long` and `int` are the subset
types `JavaNum.Long` and `JavaNum.Int32`, and a thrown exception is the
error side of a `Result`.

Modules, following the Java classes:

- `Wrappers`, `JavaText`, `JavaNum`: `Option`/`Result`, and the parts of
  `String`, `Long.parseLong`, `Integer.parseInt`, `Math.multiplyExact`,
  `Math.abs`, integer division and `int` wrap-around the code relies on.
- `Normalization`: `MappingReferenceCatalog.normalize`, the canonical token
  form every lookup uses.
- `Catalog`, `CsvMappings`, `FormOptions`: the reference catalog, the CSV
  loader that fills it and the form walker that records form options;
  `mapToCode` and `isKnownFormOption`.
- `FieldValues`: the mapper's value helpers (alias tables, `firstNonBlank`,
  `toBoolean`, `splitValues`, the kit, test-type and syphilis maps, phone
  numbers, display names).
- `Calendar`, `DateParsing`: `normalizeDate` with its epoch, ISO and
  pattern formatters, and `toEpochSeconds`.
- `Records`: the request, row and item records.
- `Mapper`: `IntegrationDataMapper.mapServiceRow` and its section mappers.
- `Repository`: `OpenSrpIntegrationRepository`: statement text (as far as
  its bind markers), bound values, keys and the grouping of result rows.
- `Validation`: the two request validators.
- `IntegrationService`: `OpenSrpIntegrationService.fetch`. The database is
  the `Database` value: whether a connection opens, which statements fail,
  and the rows each query returns.
- `VerificationService`: `OpenSrpVerificationResultsService.process`,
  event building and the resolution of the event URL. The OpenSRP side is
  the `OpenSrp` value: the metadata query and the event sender.
- `EnvConfig`, `OpenSrpUrl`, `Routes`: configuration lookup with
  `sanitize`, the two spellings of the OpenSRP URL, and the parts of
  `UcsCtcIntegrationRoutes` that read configuration and choose an HTTP
  status.

A Dafny string is a sequence of Unicode scalar values; a Java string is a
sequence of UTF-16 code units. Every `substring` in the core cuts next to
an ASCII character, and `parseCsvLine` compares each `charAt` with `"` and
`,` only and copies the rest, so the two views agree there.
`length()` and `compareTo`, where they differ, are modelled on the UTF-16
encoding (`JavaText.Utf16`).

## Model

| member | source | states |
|---|---|---|
| Normalization.NormalizeIsCanonical | src/main/java/com/abt/integration/mapping/MappingReferenceCatalog.java:107-117 | `normalize(null)` is ""; every other result is a canonical token: only `A-Z`, `0-9` and `_`, no underscore at either end and never two in a row |
| Normalization.CanonicalFixed | src/main/java/com/abt/integration/mapping/MappingReferenceCatalog.java:107-117 | a canonical token normalises to itself |
| Normalization.NormalizeIdempotent | src/main/java/com/abt/integration/mapping/MappingReferenceCatalog.java:107-117 | normalising a normalised value changes nothing |
| Normalization.CollapseRunsShape | src/main/java/com/abt/integration/mapping/MappingReferenceCatalog.java:114 | replacing each run of characters outside `[A-Z0-9]` by one `_` leaves token characters and single underscores; the result is empty only for empty input and starts with a token character exactly when the input does |
| Normalization.DropLeadingUnderscores | src/main/java/com/abt/integration/mapping/MappingReferenceCatalog.java:115 | the result is a suffix of the input that does not start with `_` |
| Normalization.DropTrailingUnderscores | src/main/java/com/abt/integration/mapping/MappingReferenceCatalog.java:116 | the result is a prefix of the input that does not end with `_` |
| Catalog.MapToCode | src/main/java/com/abt/integration/mapping/MappingReferenceCatalog.java:53-92 | blank raw value or unknown section gives the fallback; otherwise the code stored for the normalised value, then the code its integration value leads to, then the same two lookups for its alias, then the fallback |
| Catalog.AliasesOnlyAddHits | src/main/java/com/abt/integration/mapping/MappingReferenceCatalog.java:64-89 | an alias table never changes an answer found without it |
| Catalog.HitIgnoresFallback | src/main/java/com/abt/integration/mapping/MappingReferenceCatalog.java:53-92 | an answer other than the fallback does not depend on the fallback |
| Catalog.AnswerIsStoredCode | src/main/java/com/abt/integration/mapping/MappingReferenceCatalog.java:53-92 | in a catalog the loader could build, every non-fallback answer is a code value stored in that section under its own normalised form |
| Catalog.StoredCodeMapsToItself | src/main/java/com/abt/integration/mapping/MappingReferenceCatalog.java:64-68 | a stored code maps to itself, whatever the aliases and fallback |
| Catalog.IsKnownFormOption | src/main/java/com/abt/integration/mapping/MappingReferenceCatalog.java:94-105 | true exactly when field and option both have text and the option's normalised form is recorded for the field's normalised key |
| CsvMappings.ParseCsvLine | src/main/java/com/abt/integration/mapping/MappingReferenceCatalog.java:259-284 | a line always splits into at least one column |
| CsvMappings.JoinColumnsIsLineWithoutQuotes | src/main/java/com/abt/integration/mapping/MappingReferenceCatalog.java:259-284 | joining the columns with "," gives the line with every `"` removed |
| CsvMappings.ColumnCount | src/main/java/com/abt/integration/mapping/MappingReferenceCatalog.java:259-284 | there is exactly one more column than there are commas outside quotes |
| CsvMappings.Column | src/main/java/com/abt/integration/mapping/MappingReferenceCatalog.java:286-291 | the column at a valid index, "" for any other index |
| CsvMappings.ClassifyShape | src/main/java/com/abt/integration/mapping/MappingReferenceCatalog.java:133-159 | a data line carries its trimmed second column as a code value and a non-blank integration value that is not the header; a section line names the text before the first ':' or the lone second column |
| CsvMappings.Step | src/main/java/com/abt/integration/mapping/MappingReferenceCatalog.java:139-166 | a section line only changes the current section; other lines keep it; only a data line inside a section changes the stored sections |
| CsvMappings.DataRowCodeLookup | src/main/java/com/abt/integration/mapping/MappingReferenceCatalog.java:161-166 | after a data row inside a section, looking its code up in that section gives the code back |
| CsvMappings.DataRowIntegrationLookup | src/main/java/com/abt/integration/mapping/MappingReferenceCatalog.java:161-166 | after a data row inside a section, its integration value leads to its code unless that value is also a code of the section |
| CsvMappings.DataRowTouchesOnlyCurrentSection | src/main/java/com/abt/integration/mapping/MappingReferenceCatalog.java:161-166 | a data row writes only into the current section |
| CsvMappings.StepWellFormed | src/main/java/com/abt/integration/mapping/MappingReferenceCatalog.java:130-167 | each loader step keeps every section well formed: codes under their own normalised form, integration values leading to stored codes, every stored value a code value |
| CsvMappings.LoadWellFormed | src/main/java/com/abt/integration/mapping/MappingReferenceCatalog.java:119-171 | the catalog loaded from any CSV text is well formed |
| CsvMappings.LoadedCodesComeFromSecondColumns | src/main/java/com/abt/integration/mapping/MappingReferenceCatalog.java:135-166 | a value that is no line's trimmed second column is never stored, as a code or as the answer for an integration value |
| FormOptions.GetTakesLast | src/main/java/com/abt/integration/mapping/MappingReferenceCatalog.java:219-220 | `get(name)` finds a value exactly when the object has a field of that name, and the value is that of the last such field, as a repeated name leaves it in the parsed tree |
| FormOptions.CollectGrows | src/main/java/com/abt/integration/mapping/MappingReferenceCatalog.java:213-242 | walking a form only adds fields and options; nothing recorded before is lost |
| FormOptions.CollectRecords | src/main/java/com/abt/integration/mapping/MappingReferenceCatalog.java:213-242 | every option a form object of the parsed tree declares under a textual `key` ends up recorded for that field, wherever the object sits; a value that a later field of the same name replaces is not in the tree |
| FormOptions.CollectOnlyDeclared | src/main/java/com/abt/integration/mapping/MappingReferenceCatalog.java:213-242 | conversely, the walk records an option for a field only when it was recorded before or some object of the form declares it under a `key` and among its `options` that normalise to the same tokens |
| FormOptions.DuplicateNameKeepsLast | src/main/java/com/abt/integration/mapping/MappingReferenceCatalog.java:233 | an object with a repeated name records what the object holding only the later value records, as `fields()` yields the one value Jackson keeps |
| FormOptions.ReplacedDeclarationIgnored | src/main/java/com/abt/integration/mapping/MappingReferenceCatalog.java:233 | a declaration that a later field of the same name replaces with a number adds nothing |
| FormOptions.CollectAllExactly | src/main/java/com/abt/integration/mapping/MappingReferenceCatalog.java:173-182 | the loaded vocabulary records an option for a field exactly when some loaded form declares it |
| FormOptions.DeclaredOptionIsKnown | src/main/java/com/abt/integration/mapping/MappingReferenceCatalog.java:94-105 | every option declared by a loaded form is a known form option of the catalog when field key and option have text |
| FormOptions.CollectAllCanonical | src/main/java/com/abt/integration/mapping/MappingReferenceCatalog.java:173-182 | every field key and option the loader records is a canonical token |
| FieldValues.TableLastWins | src/main/java/com/abt/integration/mapping/IntegrationDataMapper.java:626-636 | an alias table filled in order keeps, for each key, the entry that no later entry overrides |
| FieldValues.AliasesLastWins | src/main/java/com/abt/integration/mapping/IntegrationDataMapper.java:626-636 | `aliases(...)` maps each pair's normalised alias to its code when no later pair has the same normalised alias |
| FieldValues.AliasesFromPairs | src/main/java/com/abt/integration/mapping/IntegrationDataMapper.java:626-636 | every key of an alias table is a canonical token coming from some pair, mapped to that pair's code |
| FieldValues.FirstNonBlank | src/main/java/com/abt/integration/mapping/IntegrationDataMapper.java:638-649 | null exactly when every value is blank; otherwise the trimmed value at the first position holding text |
| FieldValues.ToBooleanTokens | src/main/java/com/abt/integration/mapping/IntegrationDataMapper.java:575-592 | `toBoolean` is true exactly for the normalised tokens YES, TRUE, 1 and N; the form-option branch never yields true on its own |
| FieldValues.SplitValues | src/main/java/com/abt/integration/mapping/IntegrationDataMapper.java:594-606 | blank text gives no values; otherwise the comma-separated pieces, trimmed, without empty ones, each once, in ascending `compareTo` order |
| JavaText.LexLessIsUnitOrder | src/main/java/com/abt/integration/mapping/IntegrationDataMapper.java:599 | the order of the sorted values is `compareTo`'s: lexicographic on the UTF-16 code units |
| JavaText.SupplementaryBeforeHighBmp | src/main/java/com/abt/integration/mapping/IntegrationDataMapper.java:599 | a character outside the Basic Multilingual Plane sorts before one in U+E000..U+FFFF, as its high surrogate compares lower |
| FieldValues.InsertSorted | src/main/java/com/abt/integration/mapping/IntegrationDataMapper.java:599-603 | adding to a `TreeSet` keeps it strictly ascending and adds exactly the new element |
| FieldValues.SortedSetOf | src/main/java/com/abt/integration/mapping/IntegrationDataMapper.java:599-605 | the `TreeSet` of the pieces: strictly ascending, holding exactly the pieces |
| FieldValues.MapKitName | src/main/java/com/abt/integration/mapping/IntegrationDataMapper.java:434-446 | null exactly for blank input |
| FieldValues.MapTestType | src/main/java/com/abt/integration/mapping/IntegrationDataMapper.java:448-460 | null exactly for blank input |
| FieldValues.MapSyphilisResult | src/main/java/com/abt/integration/mapping/IntegrationDataMapper.java:462-476 | null exactly for blank input |
| FieldValues.TokenMapsIdempotent | src/main/java/com/abt/integration/mapping/IntegrationDataMapper.java:434-476 | the kit, test-type and syphilis maps give canonical tokens, and mapping a non-empty result again changes nothing |
| FieldValues.NormalizePhoneNumber | src/main/java/com/abt/integration/mapping/IntegrationDataMapper.java:489-503 | null exactly for blank input; a result never contains whitespace |
| FieldValues.PhoneSpellingsAgree | src/main/java/com/abt/integration/mapping/IntegrationDataMapper.java:489-503 | the local spelling `0…`, the spelling `+255…` and the spelling `255…` of one number normalise alike |
| FieldValues.LocalPhoneGetsCountryCode | src/main/java/com/abt/integration/mapping/IntegrationDataMapper.java:498-500 | a local number of ten or more digits gets 255 in place of its leading 0 |
| FieldValues.LocalPhoneCountsCodeUnits | src/main/java/com/abt/integration/mapping/IntegrationDataMapper.java:498-500 | the ten-character test counts UTF-16 code units: a 0 and five characters outside the Basic Multilingual Plane is a local number |
| JavaText.Utf16LengthBounds | src/main/java/com/abt/integration/mapping/IntegrationDataMapper.java:498 | `length()` is between one and two code units per character, and equals the character count for text inside the Basic Multilingual Plane |
| FieldValues.PlusPhoneLosesPlus | src/main/java/com/abt/integration/mapping/IntegrationDataMapper.java:495-497 | a leading `+` is dropped |
| FieldValues.InternationalPhoneKept | src/main/java/com/abt/integration/mapping/IntegrationDataMapper.java:489-503 | a number already starting with 255 is kept unchanged |
| FieldValues.PrettifyName | src/main/java/com/abt/integration/mapping/IntegrationDataMapper.java:608-624 | null exactly for blank input |
| FieldValues.PrettifyNameRoundTrip | src/main/java/com/abt/integration/mapping/IntegrationDataMapper.java:608-624 | upper-casing a display name and turning its spaces back into underscores gives the normalised value it came from |
| DateParsing.ToEpochSeconds | src/main/java/com/abt/integration/mapping/IntegrationDataMapper.java:568-573 | values of magnitude above 9,999,999,999 are milliseconds divided by 1000 toward zero, others pass through; the result lies in `Instant`'s range exactly when the input is not `Long.MIN_VALUE` |
| DateParsing.NormalizeDate | src/main/java/com/abt/integration/mapping/IntegrationDataMapper.java:505-566 | null exactly for blank input |
| DateParsing.NormalizeDateOutcomes | src/main/java/com/abt/integration/mapping/IntegrationDataMapper.java:505-566 | null only for blank input; an error only for a signed digit string; otherwise a formatted date or the trimmed input |
| DateParsing.EpochValueDate | src/main/java/com/abt/integration/mapping/IntegrationDataMapper.java:512-517 | a signed digit string outside the `long` range fails, `Long.MIN_VALUE` falls outside `Instant`'s range, and any other value gives the UTC date whose day holds its epoch seconds |
| DateParsing.IsoDateRoundTrip | src/main/java/com/abt/integration/mapping/IntegrationDataMapper.java:519-530 | the ISO parser reads back `LocalDate.toString` for every valid date with a four-digit year |
| DateParsing.IsoDateFormatsBack | src/main/java/com/abt/integration/mapping/IntegrationDataMapper.java:519-530 | text the ISO parser accepts is exactly the parsed date's `toString` |
| DateParsing.FormattedDateIsFixed | src/main/java/com/abt/integration/mapping/IntegrationDataMapper.java:505-566 | `normalizeDate` gives back every date text it produces |
| DateParsing.NormalizeDateIdempotent | src/main/java/com/abt/integration/mapping/IntegrationDataMapper.java:505-566 | normalising a normalised date changes nothing |
| DateParsing.TextGoesToFormatters | src/main/java/com/abt/integration/mapping/IntegrationDataMapper.java:519-565 | trimmed text that is not a signed digit string becomes the date the first accepting formatter reads, formatted, or stays as it is |
| DateParsing.OnlyDayFirstApplies | src/main/java/com/abt/integration/mapping/IntegrationDataMapper.java:519-530 | text without a leading `yyyy-MM-dd` can only be read day-first |
| DateParsing.DayFirstReordered | src/main/java/com/abt/integration/mapping/IntegrationDataMapper.java:519-530 | `dd-MM-yyyy` text becomes `yyyy-MM-dd`, a day past the month's end moving to its last day; text it rejects is kept as it is |
| DateParsing.ResolveSmart | src/main/java/com/abt/integration/mapping/IntegrationDataMapper.java:521 | `ofPattern` dates need a year of at least 1, month 1-12 and day 1-31; a day past the month's end becomes its last day |
| DateParsing.DateTimeCutToDate | src/main/java/com/abt/integration/mapping/IntegrationDataMapper.java:532-544 | a local date-time separated by a space or `T` is cut to its date |
| DateParsing.ParseDateText | src/main/java/com/abt/integration/mapping/IntegrationDataMapper.java:519-563 | every accepted shape yields a valid calendar date |
| DateParsing.IsoOffsetNeedsColons | src/main/java/com/abt/integration/mapping/IntegrationDataMapper.java:547 | an `ISO_OFFSET_DATE_TIME` offset longer than its hours is `+HH:mm` or `+HH:mm:ss`, colons included |
| DateParsing.ColonlessOffsetRejected | src/main/java/com/abt/integration/mapping/IntegrationDataMapper.java:547 | `2024-01-01T10:00+0100` is not an ISO offset date-time |
| DateParsing.ParsersNeedLeadingDigit | src/main/java/com/abt/integration/mapping/IntegrationDataMapper.java:519-563 | every accepted text starts with a digit |
| Calendar.CivilFromDays | src/main/java/com/abt/integration/mapping/IntegrationDataMapper.java:514-516 | the date of an epoch day is a valid calendar date |
| Calendar.EpochDayOfCivil | src/main/java/com/abt/integration/mapping/IntegrationDataMapper.java:514-516 | counting the days of the date of epoch day n gives back n |
| Calendar.CivilOfEpochDay | src/main/java/com/abt/integration/mapping/IntegrationDataMapper.java:514-516 | the date of a valid date's epoch day is that date, so the two are inverse bijections |
| Calendar.PadDigits | src/main/java/com/abt/integration/mapping/IntegrationDataMapper.java:516 | a number written at a fixed width is zero-padded digits with that value |
| JavaNum.ParseLong | src/main/java/com/abt/integration/mapping/IntegrationDataMapper.java:513 | `Long.parseLong` on a signed digit string fails exactly outside the `long` range and otherwise gives its value |
| JavaNum.ParseInt | src/main/java/com/abt/util/EnvConfig.java:40 | `Integer.parseInt` on ASCII digits: accepts only a sign or digit start, yields `int` values, reads plain digits as their value and accepts every digit string up to `Integer.MAX_VALUE` |
| JavaNum.MultiplyExact | src/main/java/com/abt/integration/db/OpenSrpIntegrationRepository.java:415-417 | the exact product when it fits in a `long`, an overflow otherwise |
| JavaNum.JavaDiv | src/main/java/com/abt/integration/mapping/IntegrationDataMapper.java:570 | Java's `/` truncates toward zero: the quotient's magnitude is the floor of the magnitudes' quotient and its sign follows the operands |
| JavaNum.JavaAbsLong | src/main/java/com/abt/integration/mapping/IntegrationDataMapper.java:569 | `Math.abs` returns `Long.MIN_VALUE` unchanged and the magnitude of every other value |
| JavaNum.WrapInt | src/main/java/com/abt/integration/db/OpenSrpIntegrationRepository.java:119 | `int` arithmetic keeps the exact value inside the `int` range and agrees with it modulo 2^32 outside |
| Mapper.MapEach | src/main/java/com/abt/integration/mapping/IntegrationDataMapper.java:360-399 | the per-test loops succeed exactly when every test maps, keep length and order, and otherwise fail with the first test's error |
| Mapper.MapClientIdentification | src/main/java/com/abt/integration/mapping/IntegrationDataMapper.java:201-228 | any identifier type other than OPENSRP_ID carries a code with text |
| Mapper.IdentificationIsFirstWithText | src/main/java/com/abt/integration/mapping/IntegrationDataMapper.java:201-228 | the identifier is the first of national ID, voter ID, driving licence and passport that has text, else the OpenSRP entity ID |
| Mapper.PregnancyStatusBySex | src/main/java/com/abt/integration/mapping/IntegrationDataMapper.java:250-260 | NOT_APPLICABLE exactly when the normalised sex is MALE or M, UNKNOWN otherwise |
| Mapper.RelationshipOf | src/main/java/com/abt/integration/mapping/IntegrationDataMapper.java:290-291 | SEXUAL_PARTNER exactly for index contacts, NOT_APPLICABLE otherwise |
| Mapper.TestingTypeSourceIff | src/main/java/com/abt/integration/mapping/IntegrationDataMapper.java:323-328 | a verification test exactly when the normalised client type contains VERIFICATION |
| Mapper.TestingTypeFollowsClientType | src/main/java/com/abt/integration/mapping/IntegrationDataMapper.java:320-330 | the testing type is looked up for `verification_test` exactly when the client type mentions VERIFICATION, else for `initial_test` |
| Mapper.EligibleUnlessRecentlySelfTested | src/main/java/com/abt/integration/mapping/IntegrationDataMapper.java:292-294 | a client is eligible for testing unless the recent-self-test answer is a true token |
| Mapper.DisclosureCodes | src/main/java/com/abt/integration/mapping/IntegrationDataMapper.java:344-353 | at most one disclosure code per piece, each the lookup's answer for some piece |
| Mapper.DisclosureCodesComplete | src/main/java/com/abt/integration/mapping/IntegrationDataMapper.java:344-353 | with a lookup that keeps its default, one code per disclosure piece, in order |
| Mapper.DisclosureCodesAll | src/main/java/com/abt/integration/mapping/IntegrationDataMapper.java:344-353 | when every piece has a code, the codes are one per piece, in the pieces' order |
| Mapper.SelectPartition | src/main/java/com/abt/integration/mapping/IntegrationDataMapper.java:360-399 | the self-test and reagent selections together hold every test row exactly once |
| Mapper.TestListsSucceed | src/main/java/com/abt/integration/mapping/IntegrationDataMapper.java:360-399 | both test lists map exactly when every test's kit expiry date normalises |
| Mapper.TestListLengths | src/main/java/com/abt/integration/mapping/IntegrationDataMapper.java:360-399 | the two mapped lists together have one entry per test row |
| Mapper.ItemTestLists | src/main/java/com/abt/integration/mapping/IntegrationDataMapper.java:155-172 | the item carries the mapped self-test and reagent lists of the tests, a null list read as empty |
| Mapper.FirstReferralCode | src/main/java/com/abt/integration/mapping/IntegrationDataMapper.java:414-424 | no code exactly when the lookup knows none of the preventive services; otherwise the answer for one of them |
| Mapper.MapReferralAndOutcome | src/main/java/com/abt/integration/mapping/IntegrationDataMapper.java:411-432 | one referral to the visit's facility, with the first known referral code or NOT_APPLICABLE |
| Mapper.RemarksRoundTrip | src/main/java/com/abt/integration/mapping/IntegrationDataMapper.java:175 | the remarks name the visit's event id, with a null id written "null" |
| Mapper.MapDatedParts | src/main/java/com/abt/integration/mapping/IntegrationDataMapper.java:153-179 | the dated parts map exactly when the visit date, the birth date and both test lists normalise, and they carry those test lists |
| Mapper.MapServiceRowSucceeds | src/main/java/com/abt/integration/mapping/IntegrationDataMapper.java:153-179 | a service row maps without error exactly when its visit date, its birth date and every test's kit expiry date normalise |
| Mapper.TestItemsCover | src/main/java/com/abt/integration/mapping/IntegrationDataMapper.java:153-172 | the item has one self-test or reagent entry per test row, and none for a null test list |
| Mapper.SelfTestItemsInOrder | src/main/java/com/abt/integration/mapping/IntegrationDataMapper.java:360-378 | the i-th self-test entry takes kit code, batch, kit name and expiry date from the i-th self-test row |
| Mapper.SelfTestItemAt | src/main/java/com/abt/integration/mapping/IntegrationDataMapper.java:360-378 | in the self-test list alone, the i-th entry carries the i-th self-test row's kit code, batch, kit name and normalised expiry date |
| Mapper.SmsConsentMatchesPhone | src/main/java/com/abt/integration/mapping/IntegrationDataMapper.java:161-245 | the SMS consent flag is set exactly when a phone number is sent |
| Mapper.IgnoredFields | src/main/java/com/abt/integration/mapping/IntegrationDataMapper.java:153-179 | the item does not depend on the visit group, testing point, final HIV result or recorded pregnancy status |
| Repository.ParseTestKey | src/main/java/com/abt/integration/db/OpenSrpIntegrationRepository.java:396-405 | a key names the visit group when that has text, otherwise the base entity id, written "null" when missing |
| Repository.KeysAgree | src/main/java/com/abt/integration/db/OpenSrpIntegrationRepository.java:396-405 | two rows share a key exactly when they share a visit group with text, or neither has one and their entity ids print alike |
| Repository.ParseEnrollmentEligibility | src/main/java/com/abt/integration/db/OpenSrpIntegrationRepository.java:428-456 | a client is ineligible exactly when the value has text and its token is NO, FALSE, 0, H or HAPANA |
| Repository.EligibilityIgnoresCase | src/main/java/com/abt/integration/db/OpenSrpIntegrationRepository.java:428-456 | lower-casing the value does not change the answer |
| Repository.CollectedKeys | src/main/java/com/abt/integration/db/OpenSrpIntegrationRepository.java:189-199 | the bound keys are exactly the visits' visit groups and entity ids that have text, each once |
| Repository.DistinctTexts | src/main/java/com/abt/integration/db/OpenSrpIntegrationRepository.java:189-199 | every value with text, once each; nothing else |
| Repository.PlaceholdersShape | src/main/java/com/abt/integration/db/OpenSrpIntegrationRepository.java:407-413 | `placeholders(n)` is `?` and `,` alternating, n markers long |
| Repository.PlaceholdersMarkers | src/main/java/com/abt/integration/db/OpenSrpIntegrationRepository.java:407-413 | `placeholders(n)` carries exactly n bind markers |
| Repository.KeyFilterDisjunction | src/main/java/com/abt/integration/db/OpenSrpIntegrationRepository.java:211-223 | " OR " joins the two key conditions exactly when both visit groups and entity ids are bound |
| Repository.KeyFilterMarkers | src/main/java/com/abt/integration/db/OpenSrpIntegrationRepository.java:211-223 | the key filter carries one marker per bound visit group and entity id |
| Repository.TestsQueryMarkers | src/main/java/com/abt/integration/db/OpenSrpIntegrationRepository.java:205-225 | the tests query has four window markers plus one per bound key |
| Repository.SecondsToMillisRange | src/main/java/com/abt/integration/db/OpenSrpIntegrationRepository.java:415-417 | the conversion gives the millisecond count and fails exactly beyond ±9,223,372,036,854,775 seconds |
| Repository.WindowValues | src/main/java/com/abt/integration/db/OpenSrpIntegrationRepository.java:229-235 | the window binds start, end and their millisecond counts, failing when either count overflows |
| Repository.TestsStatement | src/main/java/com/abt/integration/db/OpenSrpIntegrationRepository.java:189-235 | no statement exactly when no visit has a key; a failure exactly when a key exists and the window overflows |
| Repository.TestsStatementValues | src/main/java/com/abt/integration/db/OpenSrpIntegrationRepository.java:227-242 | the tests query binds as many values as it has markers: the window, each visit group, then each entity id |
| Repository.CountBindsEveryMarker | src/main/java/com/abt/integration/db/OpenSrpIntegrationRepository.java:27-54 | `countServices` binds one value per marker, the facility first |
| Repository.PageOffsetExact | src/main/java/com/abt/integration/db/OpenSrpIntegrationRepository.java:119 | within the `int` range the offset skips the earlier pages exactly, and the next page starts one page further on |
| Repository.PageOffsetWraps | src/main/java/com/abt/integration/db/OpenSrpIntegrationRepository.java:119 | outside it the offset wraps: page 32769 of 65536 rows asks for a negative offset |
| Repository.PageBindsEveryMarker | src/main/java/com/abt/integration/db/OpenSrpIntegrationRepository.java:115-127 | `findServices` binds one value per marker, facility first, page size and offset last |
| Repository.EntityStatementBinds | src/main/java/com/abt/integration/db/OpenSrpIntegrationRepository.java:272-318 | the bulk queries bind each entity id with text once, one per marker |
| Repository.EntityStatement | src/main/java/com/abt/integration/db/OpenSrpIntegrationRepository.java:272-311 | no statement exactly when no visit has an entity id with text |
| Repository.GroupLookup | src/main/java/com/abt/integration/db/OpenSrpIntegrationRepository.java:244-263 | grouping keeps every keyed row once, under its own key, in result order, and a key is present only when some row has it |
| Repository.TestsGroupedByKey | src/main/java/com/abt/integration/db/OpenSrpIntegrationRepository.java:261-262 | every test row lands in the list of its own key and nowhere else |
| Repository.HivstGroupedByEntity | src/main/java/com/abt/integration/db/OpenSrpIntegrationRepository.java:320-342 | self-test rows are grouped by entity id, rows with a blank id dropped |
| Repository.FindTestsForServices | src/main/java/com/abt/integration/db/OpenSrpIntegrationRepository.java:185-268 | an empty map without querying when no visit has a key, the grouped rows otherwise |
| Repository.FindHivstByBaseEntity | src/main/java/com/abt/integration/db/OpenSrpIntegrationRepository.java:270-348 | an empty map without querying when no visit has an entity id, the grouped rows otherwise |
| Repository.FirstEligibilityWins | src/main/java/com/abt/integration/db/OpenSrpIntegrationRepository.java:355-394 | an id is present exactly when it has text and some row carries it, with the first such row's parsed eligibility |
| Repository.FirstEnrollment | src/main/java/com/abt/integration/db/OpenSrpIntegrationRepository.java:381-388 | the first enrollment row for an id, and none exactly when no row carries it |
| Validation.ProblemMessagesDistinct | src/main/java/com/abt/integration/validation/IntegrationRequestValidator.java:18-44 | different problems read differently, and none reads like the missing-body message |
| Validation.ValidateIntegrationRequest | src/main/java/com/abt/integration/validation/IntegrationRequestValidator.java:10-16 | a missing body gives exactly "Request body is required" |
| Validation.ChecksExactly | src/main/java/com/abt/integration/validation/IntegrationRequestValidator.java:18-44 | each check reports its problem exactly when its condition holds |
| Validation.ChecksNone | src/main/java/com/abt/integration/validation/IntegrationRequestValidator.java:18-44 | no problems exactly for a facility code, both dates with start not after end, and page index and size of at least one |
| Validation.IntegrationRequestAccepted | src/main/java/com/abt/integration/validation/IntegrationRequestValidator.java:10-47 | no messages exactly for a present request with a facility code, a start not after its end, and page index and size of at least one |
| Validation.IntegrationRequestMessages | src/main/java/com/abt/integration/validation/IntegrationRequestValidator.java:18-44 | each message appears exactly when its condition holds, and never the missing-body message |
| Validation.IntegrationMessagesOnce | src/main/java/com/abt/integration/validation/IntegrationRequestValidator.java:18-44 | no message is reported twice, and there are at most five |
| Validation.ValidateVerificationResults | src/main/java/com/abt/integration/validation/VerificationResultsRequestValidator.java:15-30 | a missing body, or missing or empty data, ends validation early with those messages |
| Validation.ItemAccepted | src/main/java/com/abt/integration/validation/VerificationResultsRequestValidator.java:32-60 | an item reports nothing exactly when it is present with a client code, a visit id, an ISO date with an unsigned four-digit year and an allowed result code in any case |
| Validation.ItemErrorsNamePosition | src/main/java/com/abt/integration/validation/VerificationResultsRequestValidator.java:34-58 | each message of an item starts with `data[<index>]` |
| Validation.FieldPrefixInjective | src/main/java/com/abt/integration/validation/VerificationResultsRequestValidator.java:34 | distinct positions have distinct prefixes |
| Validation.ItemsErrorsLocate | src/main/java/com/abt/integration/validation/VerificationResultsRequestValidator.java:32-60 | a message comes from the loop exactly when it is one of some item's messages at that item's position |
| Validation.ItemsAccepted | src/main/java/com/abt/integration/validation/VerificationResultsRequestValidator.java:32-60 | the loop reports nothing exactly when every item is acceptable |
| Validation.VerificationResultsAccepted | src/main/java/com/abt/integration/validation/VerificationResultsRequestValidator.java:15-63 | no messages exactly for a request with a facility code and non-empty data whose every item is acceptable |
| Validation.CtcIdUnchecked | src/main/java/com/abt/integration/validation/VerificationResultsRequestValidator.java:32-60 | the CTC id never changes what an item is reported for |
| Validation.FormattedDateAccepted | src/main/java/com/abt/integration/validation/VerificationResultsRequestValidator.java:65-72 | every `LocalDate.toString` text with a four-digit year passes the date check |
| IntegrationService.Count | src/main/java/com/abt/integration/db/OpenSrpIntegrationRepository.java:27-54 | the count fails with an overflow before running exactly when the window overflows; an empty result set counts zero |
| IntegrationService.Page | src/main/java/com/abt/integration/service/OpenSrpIntegrationService.java:50-52 | no query and no visits when the count is zero, otherwise the page `findServices` returns |
| IntegrationService.TestsByKey | src/main/java/com/abt/integration/service/OpenSrpIntegrationService.java:54-56 | no query for an empty page; the tests found for each key are exactly the query's rows with that key |
| IntegrationService.SelfTestsByEntity | src/main/java/com/abt/integration/service/OpenSrpIntegrationService.java:58-60 | no query for an empty page or one without entity ids |
| IntegrationService.MapPage | src/main/java/com/abt/integration/service/OpenSrpIntegrationService.java:62-68 | each visit becomes one item, in order, as mapping it alone gives; a failure reports the first visit that fails to map, all before it having mapped |
| IntegrationService.VisitsAreItems | src/main/java/com/abt/integration/service/OpenSrpIntegrationService.java:54-65 | with the tests grouped by key, mapping a visit from the grouped map uses exactly the test rows that share its key |
| IntegrationService.MapVisit | src/main/java/com/abt/integration/service/OpenSrpIntegrationService.java:62-68 | a visit maps with the tests filed under its own key; a mapping error becomes a fetch error |
| IntegrationService.TestsGrouped | src/main/java/com/abt/integration/service/OpenSrpIntegrationService.java:54-56 | the grouped query rows give each key exactly the tests the database holds for it |
| IntegrationService.Gather | src/main/java/com/abt/integration/service/OpenSrpIntegrationService.java:49-60 | statements run in order and stop at the first failure; the total is the count, no rows and only the count when it is zero, and the tests filed per key |
| IntegrationService.Fetch | src/main/java/com/abt/integration/service/OpenSrpIntegrationService.java:42-79 | rejected requests fail with the validator's messages before any statement; statements run in order, at most once each, none after a failure; a response echoes page number and size and the count, with one item per visit mapped with its own tests |
| OpenSrpUrl.StripTrailingSlashes | src/main/java/com/abt/integration/service/OpenSrpVerificationResultsService.java:251-253 | the result is a prefix of the input, the removed part is all `/`, and it does not end in `/` |
| OpenSrpUrl.EventUrlOf | src/main/java/com/abt/integration/service/OpenSrpVerificationResultsService.java:250-258 | the derived URL always ends with the event path, compared ignoring case |
| OpenSrpUrl.ExtractBaseUrl | src/main/java/com/abt/UcsCtcIntegrationRoutes.java:65-77 | the base is a prefix of the normalised URL, shorter by the event path exactly when the URL ends with it |
| OpenSrpUrl.ExtractBaseUrlIsPrefix | src/main/java/com/abt/UcsCtcIntegrationRoutes.java:65-77 | the base is a prefix of the trimmed URL |
| OpenSrpUrl.ExtractAfterAppend | src/main/java/com/abt/UcsCtcIntegrationRoutes.java:65-77 | removing the event path from a URL built by appending it gives the URL back |
| OpenSrpUrl.ExtractOfEventUrl | src/main/java/com/abt/UcsCtcIntegrationRoutes.java:65-77 | the base derived from the service's event URL equals the base derived from the server URL it came from |
| EnvConfig.Sanitize | src/main/java/com/abt/util/EnvConfig.java:94-104 | null stays null |
| EnvConfig.SanitizeFailsOnLoneQuote | src/main/java/com/abt/util/EnvConfig.java:99-101 | `sanitize` throws exactly on text that trims to a single quote character |
| EnvConfig.SanitizedIsTrimmed | src/main/java/com/abt/util/EnvConfig.java:94-104 | every value it lets through is non-empty and already trimmed |
| EnvConfig.SanitizeBlank | src/main/java/com/abt/util/EnvConfig.java:103 | blank text gives no value |
| EnvConfig.SanitizeKeepsPlainText | src/main/java/com/abt/util/EnvConfig.java:94-104 | trimmed unquoted text is kept as it is |
| EnvConfig.SanitizeUnquotes | src/main/java/com/abt/util/EnvConfig.java:99-103 | quoting a trimmed value with `"` or `'` and sanitising gives the value back, or no value when it is empty |
| EnvConfig.Get | src/main/java/com/abt/util/EnvConfig.java:62-81 | an empty key is an error |
| EnvConfig.GetTriesSourcesInOrder | src/main/java/com/abt/util/EnvConfig.java:62-81 | `get` takes the first of system property, environment variable and `.env` entry that sanitises to a value |
| EnvConfig.PropertyWins | src/main/java/com/abt/util/EnvConfig.java:63-66 | a system property with a value beats the environment and `.env` |
| EnvConfig.GetIsSanitized | src/main/java/com/abt/util/EnvConfig.java:62-81 | every value `get` returns is trimmed and non-empty |
| EnvConfig.FirstPresentShape | src/main/java/com/abt/util/EnvConfig.java:62-81 | the first source whose value sanitises to something wins; no value exactly when every source sanitises to nothing |
| EnvConfig.GetOrDefault | src/main/java/com/abt/util/EnvConfig.java:17-19 | the key's value when it has one, the default otherwise |
| EnvConfig.GetFirstOrDefault | src/main/java/com/abt/util/EnvConfig.java:21-32 | an empty key list gives the default, and a non-null default always yields a value |
| EnvConfig.GetOrDefaultIsFirstOfOne | src/main/java/com/abt/util/EnvConfig.java:17-32 | `getOrDefault(key, d)` and `getFirstOrDefault(d, key)` agree |
| EnvConfig.FirstKeyWins | src/main/java/com/abt/util/EnvConfig.java:25-30 | the first key with a value wins when every earlier key has none |
| EnvConfig.NoKeyGivesDefault | src/main/java/com/abt/util/EnvConfig.java:21-32 | when no key has a value the default comes back |
| EnvConfig.GetIntOrDefault | src/main/java/com/abt/util/EnvConfig.java:34-44 | the default when the key has no value |
| EnvConfig.GetIntReadsDigits | src/main/java/com/abt/util/EnvConfig.java:34-44 | a setting holding the decimal digits of an `int` yields that number |
| EnvConfig.GetIntFallsBack | src/main/java/com/abt/util/EnvConfig.java:39-43 | a setting that does not start with a sign or an ASCII digit falls back to the default |
| VerificationService.BuildEvent | src/main/java/com/abt/integration/service/OpenSrpVerificationResultsService.java:135-167 | the entity type is the metadata's when it has text, else `ec_client`; entity and provider come from the metadata; the facility code is recorded |
| VerificationService.EventObservationOrder | src/main/java/com/abt/integration/service/OpenSrpVerificationResultsService.java:157-164 | start, end, verification date and result, then the CTC id exactly when the item has one, then the visit id |
| VerificationService.ReportedResultMatchesToken | src/main/java/com/abt/integration/service/OpenSrpVerificationResultsService.java:160 | the reported result upper-cased again is the token the validator checked, so an accepted item reports an allowed result |
| VerificationService.SuccessfulSendIgnoresCase | src/main/java/com/abt/integration/service/OpenSrpVerificationResultsService.java:224-226 | whether a send succeeded does not depend on the case of the answer |
| VerificationService.UpperKeepsText | src/main/java/com/abt/integration/service/OpenSrpVerificationResultsService.java:224-226 | upper-casing keeps blank text blank and text with content non-blank |
| VerificationService.ItemOutcome | src/main/java/com/abt/integration/service/OpenSrpVerificationResultsService.java:95-121 | an error entry names the item's 1-based position, client code and visit id |
| VerificationService.OutcomeNamesItems | src/main/java/com/abt/integration/service/OpenSrpVerificationResultsService.java:95-121 | every item's error entry names that item |
| VerificationService.ReportAccounts | src/main/java/com/abt/integration/service/OpenSrpVerificationResultsService.java:89-122 | successes plus error entries equal the number of items; entries follow item order and name their item |
| VerificationService.ReportErrorIff | src/main/java/com/abt/integration/service/OpenSrpVerificationResultsService.java:94-122 | an item has an error entry exactly when its event was not sent successfully |
| VerificationService.Summarize | src/main/java/com/abt/integration/service/OpenSrpVerificationResultsService.java:93-122 | the loop's count and entries equal the per-item reference report |
| VerificationService.Process | src/main/java/com/abt/integration/service/OpenSrpVerificationResultsService.java:79-133 | rejected requests fail with the validator's messages; a blank destination or no connection fails; otherwise processed equals successes plus failures, with the reference report's entries |
| VerificationService.ResolvePrefersEventUrl | src/main/java/com/abt/integration/service/OpenSrpVerificationResultsService.java:239-243 | a configured event URL wins, verbatim |
| VerificationService.ResolveFromServerUrl | src/main/java/com/abt/integration/service/OpenSrpVerificationResultsService.java:245-258 | without an event URL the server URL is normalised and pointed at the event endpoint |
| VerificationService.ResolveWithoutKeys | src/main/java/com/abt/integration/service/OpenSrpVerificationResultsService.java:245-248 | with neither key there is no destination |
| Routes.DefaultBaseUrl | src/main/java/com/abt/UcsCtcIntegrationRoutes.java:48-53 | without either URL key the routes use `http://127.0.0.1:8080` |
| Routes.BaseUrlMatchesEventUrl | src/main/java/com/abt/UcsCtcIntegrationRoutes.java:48-53 | the routes' base is the base of the event URL the verification service posts to |
| Routes.StatusIgnoresCase | src/main/java/com/abt/UcsCtcIntegrationRoutes.java:106-110 | the status does not depend on the case of the description |
| Routes.ErrorAnywhere | src/main/java/com/abt/UcsCtcIntegrationRoutes.java:126-130 | "error" in any case anywhere in the description makes the reply a bad request |

## Left out

- `mapToIntegrationValue` is not part of this model: the catalog file that would define it is not available. The mapper takes the catalog's value lookup as the parameter `lookup` (`Mapper.Lookup`), and `Mapper.DisclosureCodesComplete` assumes only that it never answers a non-null default with null.
- JDBC: connections, statement execution and result sets are not modelled. Statement text is kept only as far as its `?` markers, and each query's rows are part of the `Database` value. The verification service's metadata query and event sender are the function fields of `VerificationService.OpenSrp`.
- The `SELECT` column lists, joins and `ORDER BY` clauses are not modelled; result rows are taken in the order the database returns them.
- `HashSet` iteration order is unspecified in Java. The model binds the visit groups and entity ids in first-occurrence order. Only the order of the bound values depends on this, not which values are bound.
- `findLatestServiceMetadataByClientCode` is the `metadata` function of `VerificationService.OpenSrp`; its SQL is not modelled.
- The column-by-column construction of `ServiceRow`, `TestRow` and `HivstSelfTestRow` from a result set (including `getNullableInteger`) is not modelled; the records hold the values directly.
- `aliases(...)` throws on an odd number of arguments. Every table in the mapper has an even count, so the model takes a sequence of pairs. `PREGNANCY_ALIASES` is never read by the mapper, so the model has no counterpart for it.
- The service passes visits to a three-argument `mapServiceRow`; the self-test rows it fetches do not reach the items. The model fetches and groups them but does not feed them into `Mapper.MapServiceRow`.
- DateParsing.NormalizeDate: only four-digit years with no sign are read. Java's formatters also accept signed or longer years.
- DateParsing.NormalizeDate: SMART resolution of `24:00` to the next day is not modelled; an hour must be below 24.
- UUIDs, event dates, the clock value in the start and end observations, and logging are left out: they are effects outside the logic.
- Observation values are modelled as a single value, as the code always sends one value per observation.
- `getDurationOrDefault` (the actor ask timeout), Akka routing, marshalling and the actors behind the routes are not modelled.
- `loadDotenv` reads a file. The model takes the `.env` entries as a map inside `EnvConfig.Environment`.
- Resource loading (`KNOWN_FORM_FILES`, the CSV file) is not modelled: the loader takes the file's lines and the parsed forms as values.
- VerificationService.BuildEvent: requires a result code. The validator rejects items without one before any event is built; `VerificationService.OutcomeOf` reports the unreachable case as an unexpected error.
- A `null` item inside `data`, after validation, cannot occur; `VerificationService.Process` states its results for requests that pass validation.
- Java's helpful `NullPointerException` messages are not modelled.
- A `null` key array passed to `getFirstOrDefault` is the empty sequence. `System.getProperty("")` throws in Java, which the model reports as `EnvConfig.EmptyKey`.
- Validation.ItemAccepted: `LocalDate.parse` also accepts signed years and years of more than four digits (`+12345-01-01`, `-0001-01-01`); the model reads only unsigned four-digit years, so it reports the date-format message for such text where Java does not.
- JavaNum.ParseInt: reads ASCII digits only. `Integer.parseInt` reads any Unicode decimal digit through `Character.digit` (`"٤٢"` and full-width `"４２"` are 42); the Unicode digit tables are not modelled.
- EnvConfig.GetIntFallsBack: because `JavaNum.ParseInt` reads ASCII digits only, a setting written in non-ASCII decimal digits falls back to the default here, where Java reads its value.
- `toUpperCase`/`toLowerCase`, including the default-locale calls, are modelled on ASCII letters only. Locale-specific mappings such as the Turkish dotless i are not modelled.
