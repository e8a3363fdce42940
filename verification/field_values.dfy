/** The per-field value normalisers of `IntegrationDataMapper`: the alias
    tables, `firstNonBlank`, `toBoolean`, `splitValues`, the kit, test-type and
    syphilis token maps, `isSelfTest`, `normalizePhoneNumber` and
    `prettifyName`. */
module FieldValues {
  import opened Wrappers
  import opened JavaText
  import opened Normalization
  import opened Catalog
  import opened Records

  const NOT_APPLICABLE: string := "NOT_APPLICABLE"

  // ------------------------------------------------------------ alias tables

  /** A table filled from `(key, code)` entries in order: a later entry
      replaces an earlier one with the same key. */
  function Table(entries: seq<(string, string)>): map<string, string> {
    if entries == [] then map[]
    else
      var last := entries[|entries| - 1];
      Table(entries[..|entries| - 1])[last.0 := last.1]
  }

  /** Entry `i` decides its key when no later entry has the same key. */
  lemma {:induction false} TableLastWins(entries: seq<(string, string)>, i: nat)
    requires i < |entries|
    requires forall j :: i < j < |entries| ==> entries[j].0 != entries[i].0
    ensures entries[i].0 in Table(entries) && Table(entries)[entries[i].0] == entries[i].1
  {
    if i < |entries| - 1 {
      var init := entries[..|entries| - 1];
      assert forall j :: i < j < |init| ==> init[j] == entries[j];
      TableLastWins(init, i);
    }
  }

  /** Every key of the table comes from an entry, with that entry's code or a later one's. */
  lemma {:induction false} TableFromEntries(entries: seq<(string, string)>, k: string)
    requires k in Table(entries)
    ensures exists i :: 0 <= i < |entries| && entries[i].0 == k && Table(entries)[k] == entries[i].1
  {
    var n := |entries| - 1;
    if entries[n].0 != k {
      var init := entries[..n];
      TableFromEntries(init, k);
      var i :| 0 <= i < |init| && init[i].0 == k && Table(init)[k] == init[i].1;
      assert entries[i] == init[i];
    }
  }

  /** The normalised alias of a pair. */
  function AliasKey(pair: (string, string)): string {
    Normalize(Some(pair.0))
  }

  /** `aliases(pairs...)`: a table from normalised alias to code, filled in
      order, so a later pair replaces an earlier one with the same normalised
      alias. */
  function Aliases(pairs: seq<(string, string)>): map<string, string> {
    Table(seq(|pairs|, i requires 0 <= i < |pairs| => (AliasKey(pairs[i]), pairs[i].1)))
  }

  /** Pair `i` decides its alias when no later pair has the same normalised alias. */
  lemma AliasesLastWins(pairs: seq<(string, string)>, i: nat)
    requires i < |pairs|
    requires forall j :: i < j < |pairs| ==> AliasKey(pairs[j]) != AliasKey(pairs[i])
    ensures AliasKey(pairs[i]) in Aliases(pairs) && Aliases(pairs)[AliasKey(pairs[i])] == pairs[i].1
  {
    var entries := seq(|pairs|, i requires 0 <= i < |pairs| => (AliasKey(pairs[i]), pairs[i].1));
    TableLastWins(entries, i);
  }

  /** Every alias in the table is the normalised alias of some pair, mapped to
      that pair's code, and so a canonical token. */
  lemma AliasesFromPairs(pairs: seq<(string, string)>, k: string)
    requires k in Aliases(pairs)
    ensures IsCanonical(k)
    ensures exists i :: 0 <= i < |pairs| && AliasKey(pairs[i]) == k && Aliases(pairs)[k] == pairs[i].1
  {
    var entries := seq(|pairs|, i requires 0 <= i < |pairs| => (AliasKey(pairs[i]), pairs[i].1));
    TableFromEntries(entries, k);
    var i :| 0 <= i < |entries| && entries[i].0 == k && Table(entries)[k] == entries[i].1;
    NormalizeIsCanonical(Some(pairs[i].0));
  }

  const MARITAL_ALIASES: map<string, string> := Aliases([
    ("single", "SINGLE"), ("never_married", "SINGLE"), ("married", "MARRIED_MONOGAMOUS"),
    ("polygamous", "MARRIED_POLYGAMOUS"), ("cohabiting", "COHABITING"), ("cohabitation", "COHABITING"),
    ("living_with_partner", "COHABITING"), ("divorced", "SEPARATED_DIVORCED"),
    ("separated", "SEPARATED_DIVORCED"), ("widowed", "WIDOWED"), ("not_applicable", "NOT_APPLICABLE")])

  const CLIENT_TYPE_ALIASES: map<string, string> := Aliases([
    ("normal_client", "GENERAL_CLIENT"), ("general_client", "GENERAL_CLIENT"),
    ("index_contact", "INDEX_CONTACT"), ("social_network_contact", "SOCIAL_NETWORK_CONTACT"),
    ("verification", "VERIFICATION_CLIENT"), ("verification_client", "VERIFICATION_CLIENT")])

  const ATTENDANCE_ALIASES: map<string, string> := Aliases([
    ("new_client", "NEW_CLIENT"), ("returning", "REPEAT_VISIT"), ("repeat_visit", "REPEAT_VISIT"),
    ("verification", "VERIFICATION_VISIT"), ("verification_visit", "VERIFICATION_VISIT")])

  const PREVIOUS_CLIENT_TYPE_ALIASES: map<string, string> := Aliases([
    ("self", "SELF"), ("sexual_partner", "SEXUAL_PARTNER"), ("peer_friend", "PEER_FRIEND")])

  const TESTING_TYPE_ALIASES: map<string, string> := Aliases([
    ("sto", "SELF_TEST_ORAL"), ("stb", "SELF_TEST_BLOOD"), ("st", "SELF_TEST"),
    ("initial_test", "INITIAL_TEST"), ("verification_test", "VERIFICATION_TEST"),
    ("self_test_oral", "SELF_TEST_ORAL"), ("self_test_blood", "SELF_TEST_BLOOD")])

  const COUNSELLING_TYPE_ALIASES: map<string, string> := Aliases([
    ("individual", "INDIVIDUAL"), ("couple", "COUPLE"), ("group", "GROUP"),
    ("with_parent_or_guardian", "CLIENT_WITH_GUARDIAN"), ("family", "FAMILY"),
    ("assisted_self_testing", "ASSISTED_SELF_TESTING"),
    ("unassisted_self_testing", "UNASSISTED_SELF_TESTING"),
    ("onsite_assisted_self_testing", "ONSITE_ASSISTED_SELF_TESTING"),
    ("onsite_unassisted_self_testing", "ONSITE_UNASSISTED_SELF_TESTING"),
    ("offsite_assisted_self_testing", "OFFSITE_ASSISTED_SELF_TESTING"),
    ("offsite_unassisted_self_testing", "OFFSITE_UNASSISTED_SELF_TESTING")])

  const TB_SCREENING_ALIASES: map<string, string> := Aliases([
    ("tb_suspect", "TB_PRESUMPTIVE"), ("screened_negative", "TB_NO_SYMPTOMS"),
    ("on_tb_treatment", "TB_CONFIRMED"), ("not_screened", "NOT_SCREENED")])

  const DISCLOSURE_ALIASES: map<string, string> := Aliases([
    ("husband", "SPOUSE"), ("wife", "SPOUSE"),
    ("partner_who_is_not_wife_or_husband", "NON_SPOUSE_PARTNER"), ("relative", "FAMILY_MEMBER"),
    ("friend", "FRIEND"), ("religious_leader", "RELIGIOUS_LEADER"), ("others", "OTHER"),
    ("not_ready_to_share", "NOT_READY_TO_DISCLOSE"), ("parent_guardian", "PARENT_GUARDIAN")])

  const REFERRED_TO_ALIASES: map<string, string> := Aliases([
    ("prep_services", "PREP_SERVICE"), ("gbv_services", "GBV_SERVICE"), ("none", "NOT_APPLICABLE"),
    ("others", "OTHER_SERVICE"), ("care_and_treatment_clinic", "CTC_CLINIC"),
    ("tuberculosis_clinic", "TB_CLINIC"),
    ("prevention_of_mother_to_child_transmission", "PMTCT_SERVICE"),
    ("sexual_transmitted_infections_clinic", "STI_CLINIC"),
    ("sputum_testing_laboratory", "LABORATORY_SERVICE"), ("pep_services", "PEP_SERVICE"),
    ("voluntary_medical_male_circumcision_vmmc", "VMMC_SERVICE"),
    ("family_planning", "FAMILY_PLANNING_CLINIC"),
    ("adolescent_and_youth_people_friendly_services", "YOUTH_FRIENDLY_SERVICE")])

  const HIV_RESULT_ALIASES: map<string, string> := Aliases([
    ("reactive", "REACTIVE"), ("non_reactive", "NON_REACTIVE"), ("invalid", "INVALID"),
    ("wastage", "WASTAGE"), ("positive", "REACTIVE"), ("negative", "NON_REACTIVE")])

  /** The alias tables the mapper hands to the catalog lookup, one per section. */
  datatype AliasTables = AliasTables(
    marital: map<string, string>,
    clientType: map<string, string>,
    attendance: map<string, string>,
    previousClientType: map<string, string>,
    testingType: map<string, string>,
    counselling: map<string, string>,
    tbScreening: map<string, string>,
    disclosure: map<string, string>,
    referredTo: map<string, string>,
    hivResult: map<string, string>)

  const ALIAS_TABLES: AliasTables := AliasTables(
    MARITAL_ALIASES, CLIENT_TYPE_ALIASES, ATTENDANCE_ALIASES, PREVIOUS_CLIENT_TYPE_ALIASES,
    TESTING_TYPE_ALIASES, COUNSELLING_TYPE_ALIASES, TB_SCREENING_ALIASES, DISCLOSURE_ALIASES,
    REFERRED_TO_ALIASES, HIV_RESULT_ALIASES)

  // ------------------------------------------------------------ first non-blank

  /** The position of the first value with text at or after `from`, or the
      length when there is none. */
  function FirstTextFrom(values: seq<Option<string>>, from: nat): (i: nat)
    requires from <= |values|
    ensures from <= i <= |values|
    ensures i < |values| ==> HasText(values[i])
    ensures forall k :: from <= k < i ==> IsBlank(values[k])
    decreases |values| - from
  {
    if from == |values| || HasText(values[from]) then from
    else
      var i := FirstTextFrom(values, from + 1);
      assert forall k :: from < k < i ==> IsBlank(values[k]);
      i
  }

  /** The position of the first value with text, or the length when there is none. */
  function FirstTextIndex(values: seq<Option<string>>): (i: nat)
    ensures i <= |values|
    ensures i < |values| ==> HasText(values[i])
    ensures forall k :: 0 <= k < i ==> IsBlank(values[k])
  {
    FirstTextFrom(values, 0)
  }

  /** `firstNonBlank(values...)`: the first value with text, trimmed. */
  function FirstNonBlank(values: seq<Option<string>>): (r: Option<string>)
    ensures r.None? <==> forall i :: 0 <= i < |values| ==> IsBlank(values[i])
    ensures r.Some? ==> exists i :: (0 <= i < |values| && HasText(values[i]) && r.value == Trim(values[i].value)
      && forall j :: 0 <= j < i ==> IsBlank(values[j]))
  {
    var i := FirstTextIndex(values);
    if i < |values| then Some(Trim(values[i].value)) else None
  }

  // ------------------------------------------------------------ yes / no

  const TRUE_TOKENS: set<string> := {"YES", "TRUE", "1", "N"}
  const FALSE_TOKENS: set<string> := {"NO", "FALSE", "0", "H"}

  /** `toBoolean`: the true tokens, then the false tokens, then a form-option
      check that also requires the token to be YES. */
  function ToBoolean(cat: Catalog, raw: Option<string>): bool {
    if !HasText(raw) then false
    else
      var n := Normalize(raw);
      if n in TRUE_TOKENS then true
      else if n in FALSE_TOKENS then false
      else IsKnownFormOption(cat, Some("hts_has_post_test_counselling_been_provided"), raw) && n == "YES"
  }

  lemma BlankNormalizesEmpty(raw: Option<string>)
    requires IsBlank(raw)
    ensures Normalize(raw) == ""
  {
  }

  /** `toBoolean` is true exactly for the four true tokens: the form-option
      branch can never give true, and the catalog does not matter. */
  lemma ToBooleanTokens(cat: Catalog, raw: Option<string>)
    ensures ToBoolean(cat, raw) <==> Normalize(raw) in TRUE_TOKENS
  {
    if !HasText(raw) {
      BlankNormalizesEmpty(raw);
    }
  }

  // ------------------------------------------------------------ comma lists

  /** `s.compareTo` order, strictly increasing. */
  predicate StrictlySorted(xs: seq<string>) {
    forall i, j :: 0 <= i < j < |xs| ==> LexLess(xs[i], xs[j])
  }

  /** Adding `x` to a `TreeSet` held as its ascending sequence. */
  function InsertSorted(xs: seq<string>, x: string): (r: seq<string>)
    requires StrictlySorted(xs)
    ensures StrictlySorted(r)
    ensures forall y :: y in r <==> y in xs || y == x
  {
    if xs == [] then [x]
    else if x == xs[0] then xs
    else if LexLess(x, xs[0]) then
      assert forall j :: 0 < j < |xs| ==> LexLess(x, xs[j]) by {
        forall j | 0 < j < |xs| {
          LexLessTransitive(x, xs[0], xs[j]);
        }
      }
      [x] + xs
    else
      LexLessTotal(x, xs[0]);
      var rest := InsertSorted(xs[1..], x);
      assert forall y :: y in rest ==> LexLess(xs[0], y) by {
        forall y | y in rest ensures LexLess(xs[0], y) {
          if y != x {
            var j :| 0 <= j < |xs[1..]| && xs[1..][j] == y;
            assert xs[1..][j] == xs[j + 1];
          }
        }
      }
      [xs[0]] + rest
  }

  /** The pieces of a `TreeSet` filled from `pieces` in order. */
  function SortedSetOf(pieces: seq<string>): (r: seq<string>)
    ensures StrictlySorted(r)
    ensures forall y :: y in r <==> y in pieces
  {
    if pieces == [] then []
    else
      var r := InsertSorted(SortedSetOf(pieces[..|pieces| - 1]), pieces[|pieces| - 1]);
      assert forall y :: y in pieces <==> y in pieces[..|pieces| - 1] || y == pieces[|pieces| - 1] by {
        assert pieces == pieces[..|pieces| - 1] + [pieces[|pieces| - 1]];
      }
      r
  }

  /** The trimmed pieces that are not empty, in order. */
  function NonEmptyTrimmed(parts: seq<string>): (r: seq<string>)
    ensures forall y :: y in r <==> exists p :: p in parts && y == Trim(p) && y != []
  {
    if parts == [] then []
    else
      var rest := NonEmptyTrimmed(parts[1..]);
      assert forall p :: p in parts <==> p == parts[0] || p in parts[1..];
      var t := Trim(parts[0]);
      if t != [] then [t] + rest else rest
  }

  /** `splitValues`: nothing for blank text; otherwise the comma-separated
      pieces, trimmed, without empty ones, deduplicated and in ascending order. */
  function SplitValues(raw: Option<string>): (r: seq<string>)
    ensures StrictlySorted(r)
    ensures IsBlank(raw) ==> r == []
    ensures !IsBlank(raw) ==> forall y :: y in r <==> exists p :: p in Split(raw.value, ',') && y == Trim(p) && y != []
  {
    if IsBlank(raw) then []
    else SortedSetOf(NonEmptyTrimmed(Split(raw.value, ',')))
  }

  // ------------------------------------------------------------ token maps

  /** The `mapKitName` switch on a normalised token. */
  function KitToken(n: string): string {
    if n in {"MULTITEST", "MULTI_TEST", "DUAL", "HIV_SYPHILIS_DUAL", "H_S_DUO"} then "DUAL"
    else if n in {"BIOLINE", "SD_BIOLINE"} then "SD_BIOLINE"
    else if n == "UNIGOLD" then "UNIGOLD"
    else n
  }

  /** `mapKitName`: blank is null, the kit synonyms collapse, anything else
      passes through normalised. */
  function MapKitName(raw: Option<string>): (r: Option<string>)
    ensures r.None? <==> IsBlank(raw)
  {
    if IsBlank(raw) then None else Some(KitToken(Normalize(raw)))
  }

  /** The `mapTestType` switch on a normalised token. */
  function TestTypeToken(n: string): string {
    if n in {"FIRST", "FIRST_HIV_TEST", "FIRST_TEST"} then "FIRST"
    else if n in {"SECOND", "SECOND_HIV_TEST", "SECOND_TEST"} then "SECOND"
    else if n in {"UNIGOLD", "UNIGOLD_HIV_TEST"} then "UNIGOLD"
    else n
  }

  /** `mapTestType`. */
  function MapTestType(raw: Option<string>): (r: Option<string>)
    ensures r.None? <==> IsBlank(raw)
  {
    if IsBlank(raw) then None else Some(TestTypeToken(Normalize(raw)))
  }

  /** The `mapSyphilisResult` rule on a normalised token: POSITIVE is
      checked before NEGATIVE. */
  function SyphilisToken(n: string): string {
    if Contains(n, "POSITIVE") || n == "R" then "POSITIVE"
    else if Contains(n, "NEGATIVE") || n == "NR" then "NEGATIVE"
    else n
  }

  /** `mapSyphilisResult`. */
  function MapSyphilisResult(raw: Option<string>): (r: Option<string>)
    ensures r.None? <==> IsBlank(raw)
  {
    if IsBlank(raw) then None else Some(SyphilisToken(Normalize(raw)))
  }

  /** Each switch sends a canonical token to a canonical token it fixes. */
  lemma KitTokenIdempotent(n: string)
    requires IsCanonical(n)
    ensures IsCanonical(KitToken(n)) && KitToken(KitToken(n)) == KitToken(n)
  {
    var k := KitToken(n);
    if k == "DUAL" {
      assert IsCanonical("DUAL");
    } else if k == "SD_BIOLINE" {
      assert IsCanonical("SD_BIOLINE");
    } else if k == "UNIGOLD" {
      assert IsCanonical("UNIGOLD");
    }
  }

  lemma TestTypeTokenIdempotent(n: string)
    requires IsCanonical(n)
    ensures IsCanonical(TestTypeToken(n)) && TestTypeToken(TestTypeToken(n)) == TestTypeToken(n)
  {
    var t := TestTypeToken(n);
    if t == "FIRST" {
      assert IsCanonical("FIRST");
    } else if t == "SECOND" {
      assert IsCanonical("SECOND");
    } else if t == "UNIGOLD" {
      assert IsCanonical("UNIGOLD");
    }
  }

  lemma SyphilisFixesPositive()
    ensures SyphilisToken("POSITIVE") == "POSITIVE"
  {
    ContainsAt("POSITIVE", "POSITIVE", 0);
  }

  lemma SyphilisFixesNegative()
    ensures SyphilisToken("NEGATIVE") == "NEGATIVE"
  {
    ContainsAt("NEGATIVE", "NEGATIVE", 0);
    ContainsSameLength("NEGATIVE", "POSITIVE");
  }

  lemma SyphilisTokenIdempotent(n: string)
    requires IsCanonical(n)
    ensures IsCanonical(SyphilisToken(n)) && SyphilisToken(SyphilisToken(n)) == SyphilisToken(n)
  {
    var y := SyphilisToken(n);
    if y == "POSITIVE" {
      assert IsCanonical("POSITIVE");
      SyphilisFixesPositive();
    } else if y == "NEGATIVE" {
      assert IsCanonical("NEGATIVE");
      SyphilisFixesNegative();
    }
  }

  /** A canonical token with text normalises to itself. */
  lemma CanonicalHasText(t: string)
    requires IsCanonical(t) && t != []
    ensures HasText(Some(t)) && Normalize(Some(t)) == t
  {
    CanonicalFixed(t);
    assert !IsTrimmable(t[0]);
    TrimShape(t);
    if Trim(t) == [] {
      HasTextIff(t);
    }
  }

  /** The token maps give canonical tokens, and mapping a non-empty result
      again changes nothing. */
  lemma TokenMapsIdempotent(raw: Option<string>)
    ensures MapKitName(raw).Some? ==> IsCanonical(MapKitName(raw).value)
    ensures MapTestType(raw).Some? ==> IsCanonical(MapTestType(raw).value)
    ensures MapSyphilisResult(raw).Some? ==> IsCanonical(MapSyphilisResult(raw).value)
    ensures MapKitName(raw).Some? && MapKitName(raw).value != "" ==> MapKitName(MapKitName(raw)) == MapKitName(raw)
    ensures MapTestType(raw).Some? && MapTestType(raw).value != "" ==> MapTestType(MapTestType(raw)) == MapTestType(raw)
    ensures MapSyphilisResult(raw).Some? && MapSyphilisResult(raw).value != "" ==>
      MapSyphilisResult(MapSyphilisResult(raw)) == MapSyphilisResult(raw)
  {
    if !IsBlank(raw) {
      var n := Normalize(raw);
      NormalizeIsCanonical(raw);
      KitTokenIdempotent(n);
      TestTypeTokenIdempotent(n);
      SyphilisTokenIdempotent(n);
      var k, t, y := KitToken(n), TestTypeToken(n), SyphilisToken(n);
      if k != "" { CanonicalHasText(k); }
      if t != "" { CanonicalHasText(t); }
      if y != "" { CanonicalHasText(y); }
    }
  }

  // ------------------------------------------------------------ self tests

  const SELF_TEST_MARKERS: seq<string> := ["SELF", "HIVST", "STO", "STB", "SELF_TEST"]

  /** `isSelfTest`: the normalised test type contains a self-test marker, or
      the normalised kit type contains SELF. */
  predicate IsSelfTest(t: TestRow) {
    var testType := Normalize(t.testType);
    var kitType := Normalize(t.typeOfTestKitUsed);
    (exists i :: 0 <= i < |SELF_TEST_MARKERS| && Contains(testType, SELF_TEST_MARKERS[i]))
    || Contains(kitType, "SELF")
  }

  // ------------------------------------------------------------ phone numbers

  /** Java's `\s`: space, tab, line feed, vertical tab, form feed, carriage return. */
  predicate IsRegexSpace(c: char) {
    c == ' ' || c == '\t' || c == '\n' || c == '\U{000B}' || c == '\U{000C}' || c == '\r'
  }

  /** `replaceAll("\\s+", "")`. */
  function RemoveSpaces(s: string): (r: string)
    ensures |r| <= |s|
    ensures forall i :: 0 <= i < |r| ==> !IsRegexSpace(r[i])
  {
    if s == [] then []
    else if IsRegexSpace(s[0]) then RemoveSpaces(s[1..])
    else [s[0]] + RemoveSpaces(s[1..])
  }

  /** The rest of `normalizePhoneNumber` once whitespace is gone: one
      leading `+` dropped, then a local number (a leading 0, a `length()` of
      ten UTF-16 code units or more) gets the country code 255 in place of
      the 0. */
  function PhoneDigits(v: string): (r: string)
    ensures (forall i :: 0 <= i < |v| ==> !IsRegexSpace(v[i])) ==> forall i :: 0 <= i < |r| ==> !IsRegexSpace(r[i])
  {
    var value := if |v| > 0 && v[0] == '+' then v[1..] else v;
    if |value| > 0 && value[0] == '0' && Utf16Length(value) >= 10 then "255" + value[1..] else value
  }

  /** `normalizePhoneNumber`: blank is null; otherwise trimmed, whitespace
      removed, then `PhoneDigits`. */
  function NormalizePhoneNumber(raw: Option<string>): (r: Option<string>)
    ensures r.None? <==> IsBlank(raw)
    ensures r.Some? ==> forall i :: 0 <= i < |r.value| ==> !IsRegexSpace(r.value[i])
  {
    if IsBlank(raw) then None else Some(PhoneDigits(RemoveSpaces(Trim(raw.value))))
  }

  lemma {:induction false} DigitsHaveNoSpaces(d: string)
    requires AllDigits(d)
    ensures RemoveSpaces(d) == d
  {
    if d != [] {
      assert AllDigits(d[1..]) by {
        assert forall i :: 0 <= i < |d| - 1 ==> d[1..][i] == d[i + 1];
      }
      DigitsHaveNoSpaces(d[1..]);
      assert d == [d[0]] + d[1..];
    }
  }

  /** Plain text goes through as it is up to `PhoneDigits`. */
  lemma PhoneOfPlain(s: string)
    requires s != [] && !IsTrimmable(s[0]) && !IsTrimmable(s[|s| - 1])
    ensures NormalizePhoneNumber(Some(s)) == Some(PhoneDigits(RemoveSpaces(s)))
  {
    TrimIdentity(s);
    HasTextIff(s);
  }

  /** The local spelling of a number gets the country code. */
  lemma LocalPhoneGetsCountryCode(d: string)
    requires AllDigits(d) && |d| >= 9
    ensures NormalizePhoneNumber(Some("0" + d)) == Some("255" + d)
  {
    var local := "0" + d;
    assert AllDigits(local);
    DigitsHaveNoSpaces(local);
    PhoneOfPlain(local);
    Utf16LengthBounds(local);
    assert local[1..] == d;
  }

  lemma {:induction false} NoSpacesKept(s: string)
    requires forall i :: 0 <= i < |s| ==> !IsRegexSpace(s[i])
    ensures RemoveSpaces(s) == s
  {
    if s != [] {
      assert forall i :: 0 <= i < |s| - 1 ==> s[1..][i] == s[i + 1];
      NoSpacesKept(s[1..]);
      assert s == [s[0]] + s[1..];
    }
  }

  /** The length test counts UTF-16 code units, as `length()` does: a 0
      followed by five characters outside the Basic Multilingual Plane is
      eleven code units long, so it is taken for a local number. */
  lemma LocalPhoneCountsCodeUnits(d: string)
    requires |d| == 5 && forall i :: 0 <= i < |d| ==> d[i] as int > 0xFFFF
    ensures NormalizePhoneNumber(Some("0" + d)) == Some("255" + d)
  {
    var local := "0" + d;
    assert forall i :: 1 <= i < |local| ==> local[i] == d[i - 1];
    NoSpacesKept(local);
    PhoneOfPlain(local);
    Utf16LengthBounds(d);
    assert Utf16(local) == Units('0') + Utf16(d);
    assert local[1..] == d;
  }

  /** The bare international spelling is kept. */
  lemma InternationalPhoneKept(d: string)
    requires AllDigits(d)
    ensures NormalizePhoneNumber(Some("255" + d)) == Some("255" + d)
  {
    var bare := "255" + d;
    assert AllDigits(bare);
    DigitsHaveNoSpaces(bare);
    PhoneOfPlain(bare);
  }

  /** The international spelling with `+` loses the `+`. */
  lemma PlusPhoneLosesPlus(d: string)
    requires AllDigits(d)
    ensures NormalizePhoneNumber(Some("+255" + d)) == Some("255" + d)
  {
    var bare := "255" + d;
    var plus := "+" + bare;
    assert plus == "+255" + d;
    assert AllDigits(bare);
    DigitsHaveNoSpaces(bare);
    assert RemoveSpaces(plus) == "+" + RemoveSpaces(bare);
    PhoneOfPlain(plus);
    assert plus[1..] == bare;
  }

  /** The local spelling, the international spelling with `+` and the bare
      international spelling of a number all come out the same. */
  lemma PhoneSpellingsAgree(d: string)
    requires AllDigits(d) && |d| >= 9
    ensures NormalizePhoneNumber(Some("0" + d)) == NormalizePhoneNumber(Some("+255" + d))
    ensures NormalizePhoneNumber(Some("+255" + d)) == NormalizePhoneNumber(Some("255" + d))
  {
    LocalPhoneGetsCountryCode(d);
    InternationalPhoneKept(d);
    PlusPhoneLosesPlus(d);
  }

  // ------------------------------------------------------------ display names

  /** `part.substring(0, 1).toUpperCase() + part.substring(1)`. */
  function Capitalize(p: string): string
    requires p != []
  {
    [UpperChar(p[0])] + p[1..]
  }

  /** Each non-blank part capitalised, blank parts skipped. */
  function CapitalizeParts(parts: seq<string>): seq<string> {
    if parts == [] then []
    else if IsBlank(Some(parts[0])) then CapitalizeParts(parts[1..])
    else [Capitalize(parts[0])] + CapitalizeParts(parts[1..])
  }

  /** `prettifyName`: blank is null; otherwise the normalised value in lower
      case, split at `_`, each word capitalised, joined by spaces. */
  function PrettifyName(raw: Option<string>): (r: Option<string>)
    ensures r.None? <==> IsBlank(raw)
  {
    if IsBlank(raw) then None
    else Some(Join(CapitalizeParts(Split(ToLower(Normalize(raw)), '_')), " "))
  }

  /** Spaces turned back into underscores. */
  function Underscored(s: string): (r: string)
    ensures |r| == |s|
  {
    if s == [] then [] else [if s[0] == ' ' then '_' else s[0]] + Underscored(s[1..])
  }

  lemma {:induction false} UnderscoredConcat(a: string, b: string)
    ensures Underscored(a + b) == Underscored(a) + Underscored(b)
  {
    if a != [] {
      assert (a + b)[1..] == a[1..] + b;
      UnderscoredConcat(a[1..], b);
      assert Underscored(a + b) == Underscored(a)[..1] + Underscored(a[1..] + b);
    } else {
      assert a + b == b;
    }
  }

  lemma {:induction false} UnderscoredKeeps(s: string)
    requires forall k :: 0 <= k < |s| ==> s[k] != ' '
    ensures Underscored(s) == s
  {
    if s != [] {
      UnderscoredKeeps(s[1..]);
    }
  }

  lemma {:induction false} ToUpperConcat(a: string, b: string)
    ensures ToUpper(a + b) == ToUpper(a) + ToUpper(b)
  {
    if a != [] {
      assert (a + b)[1..] == a[1..] + b;
      ToUpperConcat(a[1..], b);
      assert ToUpper(a + b) == ToUpper(a)[..1] + ToUpper(a[1..] + b);
    } else {
      assert a + b == b;
    }
  }

  lemma LeadingCharHasText(s: string)
    requires s != [] && !IsTrimmable(s[0])
    ensures HasText(Some(s))
  {
    HasTextIff(s);
  }

  /** A word of visible characters, capitalised and upper-cased, is the word
      upper-cased, with no space in it. */
  lemma UpperOfCapitalized(p: string)
    requires p != [] && forall k :: 0 <= k < |p| ==> !IsTrimmable(p[k])
    ensures Underscored(ToUpper(Capitalize(p))) == ToUpper(p)
  {
    var c := Capitalize(p);
    assert c[0] == UpperChar(p[0]) && c[1..] == p[1..];
    assert ToUpper(c) == [UpperChar(c[0])] + ToUpper(p[1..]);
    assert ToUpper(p) == [UpperChar(p[0])] + ToUpper(p[1..]);
    ToUpperAt(p);
    UnderscoredKeeps(ToUpper(p));
  }

  /** Visible words, capitalised and joined by spaces, give back the
      upper-cased words joined by underscores. */
  lemma {:induction false} CapitalizedJoin(parts: seq<string>)
    requires forall i :: 0 <= i < |parts| ==>
      parts[i] != [] && forall k :: 0 <= k < |parts[i]| ==> !IsTrimmable(parts[i][k])
    ensures |CapitalizeParts(parts)| == |parts|
    ensures Underscored(ToUpper(Join(CapitalizeParts(parts), " "))) == ToUpper(Join(parts, "_"))
  {
    if parts != [] {
      var p := parts[0];
      LeadingCharHasText(p);
      CapitalizedJoin(parts[1..]);
      UpperOfCapitalized(p);
      var caps := CapitalizeParts(parts);
      assert caps == [Capitalize(p)] + CapitalizeParts(parts[1..]);
      if |parts| > 1 {
        var c, rest := Capitalize(p), Join(CapitalizeParts(parts[1..]), " ");
        assert Join(caps, " ") == c + " " + rest;
        ToUpperConcat(c + " ", rest);
        ToUpperConcat(c, " ");
        UnderscoredConcat(ToUpper(c) + ToUpper(" "), ToUpper(rest));
        UnderscoredConcat(ToUpper(c), ToUpper(" "));
        assert Join(parts, "_") == p + "_" + Join(parts[1..], "_");
        ToUpperConcat(p + "_", Join(parts[1..], "_"));
        ToUpperConcat(p, "_");
      }
    }
  }

  /** Cutting `_`-separated visible words (none of them empty) gives visible,
      non-empty words. */
  lemma {:induction false} SplitVisibleWords(s: string, current: string)
    requires '_' !in current
    requires forall k :: 0 <= k < |current| ==> !IsTrimmable(current[k])
    requires forall k :: 0 <= k < |s| ==> s[k] == '_' || !IsTrimmable(s[k])
    requires s == [] || s[|s| - 1] != '_'
    requires forall k :: 0 <= k < |s| - 1 ==> !(s[k] == '_' && s[k + 1] == '_')
    requires current == [] ==> s != [] && s[0] != '_'
    ensures forall i :: 0 <= i < |SplitFrom(s, '_', current)| ==>
      var p := SplitFrom(s, '_', current)[i];
      p != [] && forall k :: 0 <= k < |p| ==> !IsTrimmable(p[k])
    decreases |s|
  {
    if s != [] {
      var rest := s[1..];
      assert forall k :: 0 <= k < |rest| ==> rest[k] == s[k + 1];
      if s[0] == '_' {
        SplitVisibleWords(rest, []);
      } else {
        SplitVisibleWords(rest, current + [s[0]]);
      }
    }
  }

  /** A canonical token in lower case has its underscores where the token
      has them and visible characters elsewhere, and upper-cases back to it. */
  lemma LowerUpperCanonical(t: string)
    requires IsCanonical(t)
    ensures ToUpper(ToLower(t)) == t
    ensures forall k :: 0 <= k < |t| ==>
      (ToLower(t)[k] == '_' <==> t[k] == '_') && (t[k] == '_' || !IsTrimmable(ToLower(t)[k]))
  {
    var u := ToLower(t);
    ToLowerAt(t);
    ToUpperAt(u);
    forall k | 0 <= k < |t|
      ensures ToUpper(u)[k] == t[k]
      ensures (u[k] == '_' <==> t[k] == '_') && (t[k] == '_' || !IsTrimmable(u[k]))
    {
      TokenCharCase(t[k]);
    }
  }

  /** A token character lower-cases to a visible character other than `_`
      and upper-cases back. */
  lemma TokenCharCase(c: char)
    requires IsTokenChar(c) || c == '_'
    ensures UpperChar(LowerChar(c)) == c
    ensures (LowerChar(c) == '_' <==> c == '_') && (c == '_' || !IsTrimmable(LowerChar(c)))
  {
  }

  /** The lower-cased words of a non-empty canonical token are visible and
      non-empty. */
  lemma LowerTokenWords(t: string)
    requires IsCanonical(t) && t != []
    ensures var parts := Split(ToLower(t), '_');
      forall i :: 0 <= i < |parts| ==>
        parts[i] != [] && forall k :: 0 <= k < |parts[i]| ==> !IsTrimmable(parts[i][k])
  {
    var u := ToLower(t);
    LowerUpperCanonical(t);
    assert u[0] != '_' && u[|u| - 1] != '_';
    assert forall k :: 0 <= k < |u| - 1 ==> !(u[k] == '_' && u[k + 1] == '_');
    SplitVisibleWords(u, []);
  }

  /** A non-empty canonical token survives the display-name round trip. */
  lemma PrettyTokenRoundTrip(t: string)
    requires IsCanonical(t) && t != []
    ensures Underscored(ToUpper(Join(CapitalizeParts(Split(ToLower(t), '_')), " "))) == t
  {
    var u := ToLower(t);
    LowerUpperCanonical(t);
    LowerTokenWords(t);
    CapitalizedJoin(Split(u, '_'));
    JoinSplit(u, '_');
  }

  /** Upper-casing a display name and turning its spaces back into
      underscores gives the normalised value it was made from. */
  lemma PrettifyNameRoundTrip(raw: Option<string>)
    requires !IsBlank(raw)
    ensures Underscored(ToUpper(PrettifyName(raw).value)) == Normalize(raw)
  {
    var t := Normalize(raw);
    NormalizeIsCanonical(raw);
    if t == [] {
      assert Split(ToLower(t), '_') == [""];
      assert IsBlank(Some(""));
    } else {
      PrettyTokenRoundTrip(t);
    }
  }
}
