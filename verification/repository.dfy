/** The pure parts of `OpenSrpIntegrationRepository`: the keys that correlate
    a visit with its tests, the enrollment-eligibility parser, the text and
    bound values of the queries, and how the ordered rows a query returns are
    grouped. What the database returns is an input sequence, already in the
    query's ORDER BY order; executing SQL is not modelled. */
module Repository {
  import opened Wrappers
  import opened JavaText
  import opened JavaNum
  import opened Records

  // ------------------------------------------------------ correlation keys

  /** Java's string concatenation writes `null` as "null". */
  function TextOrNull(o: Option<string>): string {
    if o.Some? then o.value else "null"
  }

  const VISIT_PREFIX: string := "visit:"
  const ENTITY_PREFIX: string := "entity:"

  /** `testKey`: the visit group when it has text, else the base entity id. */
  function TestKey(visitGroup: Option<string>, baseEntityId: Option<string>): string {
    if HasText(visitGroup) then VISIT_PREFIX + visitGroup.value
    else ENTITY_PREFIX + TextOrNull(baseEntityId)
  }

  /** `serviceKey`: a visit is keyed as its tests are. */
  function ServiceKey(row: ServiceRow): string {
    TestKey(row.htsVisitGroup, row.baseEntityId)
  }

  function KeyOfTest(t: TestRow): string {
    TestKey(t.htsVisitGroup, t.baseEntityId)
  }

  /** What a key says: the column that correlated and its text. */
  datatype Correlation = ByVisit(group: string) | ByEntity(entity: string) | Unrecognised

  function ParseKey(k: string): Correlation {
    if StartsWith(k, VISIT_PREFIX) then ByVisit(k[|VISIT_PREFIX|..])
    else if StartsWith(k, ENTITY_PREFIX) then ByEntity(k[|ENTITY_PREFIX|..])
    else Unrecognised
  }

  /** A key can be read back: it names the visit group when that has text,
      and otherwise the base entity id (null written as "null"). */
  lemma ParseTestKey(visitGroup: Option<string>, baseEntityId: Option<string>)
    ensures ParseKey(TestKey(visitGroup, baseEntityId))
         == if HasText(visitGroup) then ByVisit(visitGroup.value) else ByEntity(TextOrNull(baseEntityId))
  {
    var k := TestKey(visitGroup, baseEntityId);
    if HasText(visitGroup) {
      assert k[..|VISIT_PREFIX|] == VISIT_PREFIX;
    } else {
      assert k[..|ENTITY_PREFIX|] == ENTITY_PREFIX;
      assert k[0] == 'e';
    }
  }

  /** Two rows share a key exactly when both have the same visit group with
      text, or neither has a visit group with text and their base entity ids
      print the same. */
  lemma KeysAgree(g1: Option<string>, e1: Option<string>, g2: Option<string>, e2: Option<string>)
    ensures TestKey(g1, e1) == TestKey(g2, e2) <==>
      if HasText(g1) then HasText(g2) && g1.value == g2.value
      else !HasText(g2) && TextOrNull(e1) == TextOrNull(e2)
  {
    ParseTestKey(g1, e1);
    ParseTestKey(g2, e2);
  }

  // ------------------------------------------------ enrollment eligibility

  /** `String.replace(char, char)`. */
  function ReplaceChar(s: string, from: char, to: char): (r: string)
    ensures |r| == |s|
  {
    seq(|s|, i requires 0 <= i < |s| => if s[i] == from then to else s[i])
  }

  /** The value trimmed, with '-' and ' ' turned into '_', upper-cased. */
  function EligibilityToken(value: string): string {
    ToUpper(ReplaceChar(ReplaceChar(Trim(value), '-', '_'), ' ', '_'))
  }

  const ELIGIBLE_TOKENS: set<string> := {"YES", "TRUE", "1", "N", "Y", "NDIYO"}
  const INELIGIBLE_TOKENS: set<string> := {"NO", "FALSE", "0", "H", "HAPANA"}

  /** `parseEnrollmentEligibility`: a client is eligible unless the value
      has text and its token is one of the refusals. */
  function ParseEnrollmentEligibility(value: Option<string>): (r: bool)
    ensures !r <==> HasText(value) && EligibilityToken(value.value) in INELIGIBLE_TOKENS
  {
    if !HasText(value) then true
    else
      var token := EligibilityToken(value.value);
      if token in ELIGIBLE_TOKENS then true
      else if token in INELIGIBLE_TOKENS then false
      else true
  }

  lemma LowerCharTrimmable(c: char)
    ensures IsTrimmable(LowerChar(c)) <==> IsTrimmable(c)
  {
  }

  lemma {:induction false} StripLeadingLower(s: string)
    ensures StripLeading(ToLower(s)) == ToLower(StripLeading(s))
  {
    if s != [] {
      LowerCharTrimmable(s[0]);
      StripLeadingLower(s[1..]);
    }
  }

  lemma ToLowerPrefix(s: string, n: nat)
    requires n <= |s|
    ensures ToLower(s)[..n] == ToLower(s[..n])
  {
    ToLowerAt(s);
    ToLowerAt(s[..n]);
  }

  lemma {:induction false} StripTrailingLower(s: string)
    ensures StripTrailing(ToLower(s)) == ToLower(StripTrailing(s))
    decreases |s|
  {
    if s != [] {
      ToLowerAt(s);
      LowerCharTrimmable(s[|s| - 1]);
      ToLowerPrefix(s, |s| - 1);
      StripTrailingLower(s[..|s| - 1]);
    }
  }

  lemma TrimLower(s: string)
    ensures Trim(ToLower(s)) == ToLower(Trim(s))
  {
    StripLeadingLower(s);
    StripTrailingLower(StripLeading(s));
  }

  /** Lower-casing commutes with the '-' and ' ' replacements, and upper-casing
      forgets it. */
  lemma TokenOfLower(t: string)
    ensures ToUpper(ReplaceChar(ReplaceChar(ToLower(t), '-', '_'), ' ', '_'))
         == ToUpper(ReplaceChar(ReplaceChar(t, '-', '_'), ' ', '_'))
  {
    ToLowerAt(t);
    ToUpperAt(ReplaceChar(ReplaceChar(ToLower(t), '-', '_'), ' ', '_'));
    ToUpperAt(ReplaceChar(ReplaceChar(t, '-', '_'), ' ', '_'));
  }

  /** The parser ignores case: a lower-cased value is read as the value is. */
  lemma EligibilityIgnoresCase(value: string)
    ensures ParseEnrollmentEligibility(Some(ToLower(value))) == ParseEnrollmentEligibility(Some(value))
  {
    TrimLower(value);
    TokenOfLower(Trim(value));
  }

  // ---------------------------------------------------------- key collection

  predicate NoDuplicates(xs: seq<string>) {
    forall i, j :: 0 <= i < j < |xs| ==> xs[i] != xs[j]
  }

  /** The values with text, each once, in order of first occurrence, added to
      `acc`. The source collects them into a `HashSet`, whose iteration order
      is unspecified; any order binds the same values. */
  function DistinctTextsFrom(acc: seq<string>, values: seq<Option<string>>): seq<string>
    decreases |values|
  {
    if values == [] then acc
    else
      var v := values[0];
      var acc' := if HasText(v) && v.value !in acc then acc + [v.value] else acc;
      DistinctTextsFrom(acc', values[1..])
  }

  lemma {:induction false} DistinctTextsFromShape(acc: seq<string>, values: seq<Option<string>>)
    requires NoDuplicates(acc)
    ensures NoDuplicates(DistinctTextsFrom(acc, values))
    ensures forall x :: x in DistinctTextsFrom(acc, values) <==> x in acc || (Some(x) in values && HasText(Some(x)))
    decreases |values|
  {
    if values != [] {
      var v := values[0];
      var acc' := if HasText(v) && v.value !in acc then acc + [v.value] else acc;
      DistinctTextsAdd(acc, v, HasText(v), acc');
      DistinctTextsFromShape(acc', values[1..]);
      assert values == [v] + values[1..];
    }
  }

  /** One value considered: `acc` grows by the value exactly when it is kept
      and new, so it stays free of repeats. */
  lemma DistinctTextsAdd(acc: seq<string>, v: Option<string>, keep: bool, acc': seq<string>)
    requires NoDuplicates(acc)
    requires acc' == if keep && v.Some? && v.value !in acc then acc + [v.value] else acc
    ensures NoDuplicates(acc')
    ensures forall x :: x in acc' <==> x in acc || (Some(x) == v && keep)
  {
  }

  /** The set of non-blank values, without repeats. */
  function DistinctTexts(values: seq<Option<string>>): (r: seq<string>)
    ensures NoDuplicates(r)
    ensures forall x :: x in r <==> Some(x) in values && HasText(Some(x))
  {
    DistinctTextsFromShape([], values);
    DistinctTextsFrom([], values)
  }

  function GroupColumn(services: seq<ServiceRow>): (r: seq<Option<string>>)
    ensures |r| == |services| && forall i :: 0 <= i < |services| ==> r[i] == services[i].htsVisitGroup
  {
    seq(|services|, i requires 0 <= i < |services| => services[i].htsVisitGroup)
  }

  function EntityColumn(services: seq<ServiceRow>): (r: seq<Option<string>>)
    ensures |r| == |services| && forall i :: 0 <= i < |services| ==> r[i] == services[i].baseEntityId
  {
    seq(|services|, i requires 0 <= i < |services| => services[i].baseEntityId)
  }

  /** The visit groups with text that the tests query binds. */
  function VisitGroups(services: seq<ServiceRow>): seq<string> {
    DistinctTexts(GroupColumn(services))
  }

  /** The base entity ids with text that the bulk queries bind. */
  function EntityIds(services: seq<ServiceRow>): seq<string> {
    DistinctTexts(EntityColumn(services))
  }

  /** The collected keys are exactly the visits' visit groups and base
      entity ids that have text, each once. */
  lemma CollectedKeys(services: seq<ServiceRow>, x: string)
    ensures NoDuplicates(VisitGroups(services)) && NoDuplicates(EntityIds(services))
    ensures x in VisitGroups(services) <==> HasText(Some(x)) && exists i :: 0 <= i < |services| && services[i].htsVisitGroup == Some(x)
    ensures x in EntityIds(services) <==> HasText(Some(x)) && exists i :: 0 <= i < |services| && services[i].baseEntityId == Some(x)
  {
    var groups := GroupColumn(services);
    var ids := EntityColumn(services);
    assert Some(x) in groups <==> exists i :: 0 <= i < |services| && groups[i] == Some(x);
    assert Some(x) in ids <==> exists i :: 0 <= i < |services| && ids[i] == Some(x);
  }

  // ------------------------------------------------------------ query text

  /** Statement text that carries no bind marker. */
  type SqlText = s: string | '?' !in s

  /** The number of bind markers in a statement. */
  function Markers(sql: string): nat {
    if |sql| == 0 then 0 else (if sql[0] == '?' then 1 else 0) + Markers(sql[1..])
  }

  const MARKER: string := "?"

  /** A schema name as `PostgresConnectionFactory` accepts it: `[A-Za-z0-9_]+`. */
  predicate IsSchemaName(schema: string) {
    |schema| > 0 &&
    forall i :: 0 <= i < |schema| ==>
      'A' <= schema[i] <= 'Z' || 'a' <= schema[i] <= 'z' || '0' <= schema[i] <= '9' || schema[i] == '_'
  }

  lemma SchemaIsSqlText(schema: string)
    requires IsSchemaName(schema)
    ensures '?' !in schema
  {
  }

  /** `count` copies of `s`. */
  function Repeat(s: string, count: nat): (r: seq<string>)
    ensures |r| == count
  {
    if count == 0 then [] else [s] + Repeat(s, count - 1)
  }

  /** `placeholders`: `count` bind markers joined by commas. */
  function Placeholders(count: nat): string {
    Join(Repeat(MARKER, count), ",")
  }

  lemma PlaceholdersStep(n: nat)
    requires n >= 2
    ensures Placeholders(n) == "?," + Placeholders(n - 1)
  {
    assert Repeat(MARKER, n)[1..] == Repeat(MARKER, n - 1);
  }

  /** `placeholders(n)` is `?,?,…,?`: a marker at every even position and a
      comma at every odd one. */
  lemma {:induction false} PlaceholdersShape(n: nat)
    ensures n == 0 ==> Placeholders(n) == []
    ensures n > 0 ==> |Placeholders(n)| == 2 * n - 1
    ensures forall i :: 0 <= i < |Placeholders(n)| ==> Placeholders(n)[i] == if i % 2 == 0 then '?' else ','
  {
    if n >= 2 {
      PlaceholdersShape(n - 1);
      PlaceholdersStep(n);
    }
  }

  lemma {:induction false} MarkersConcat(a: string, b: string)
    ensures Markers(a + b) == Markers(a) + Markers(b)
  {
    if |a| > 0 {
      MarkersConcat(a[1..], b);
      assert (a + b)[1..] == a[1..] + b;
    } else {
      assert a + b == b;
    }
  }

  lemma MarkersConcat3(a: string, b: string, c: string)
    ensures Markers(a + b + c) == Markers(a) + Markers(b) + Markers(c)
  {
    MarkersConcat(a, b);
    MarkersConcat(a + b, c);
  }

  lemma MarkersConcat5(a: string, b: string, c: string, d: string, e: string)
    ensures Markers(a + b + c + d + e) == Markers(a) + Markers(b) + Markers(c) + Markers(d) + Markers(e)
  {
    MarkersConcat3(a, b, c);
    MarkersConcat(a + b + c, d);
    MarkersConcat(a + b + c + d, e);
  }

  /** Text without a marker counts none. */
  lemma {:induction false} SqlTextMarkers(t: string)
    requires '?' !in t
    ensures Markers(t) == 0
  {
    if |t| > 0 {
      assert t[0] in t;
      assert forall c :: c in t[1..] ==> c in t;
      SqlTextMarkers(t[1..]);
    }
  }

  /** `placeholders(n)` carries exactly `n` bind markers. */
  lemma {:induction false} PlaceholdersMarkers(n: nat)
    ensures Markers(Placeholders(n)) == n
  {
    if n >= 2 {
      PlaceholdersMarkers(n - 1);
      PlaceholdersStep(n);
      MarkersConcat("?,", Placeholders(n - 1));
    }
  }

  lemma {:induction false} JoinSqlText(parts: seq<SqlText>, sep: SqlText)
    ensures '?' !in Join(parts, sep)
  {
    if |parts| >= 2 {
      JoinSqlText(parts[1..], sep);
    }
  }

  const COMMA: SqlText := ", "

  const T_EVENT_ID: SqlText := "t.event_id"
  const T_VISIT_GROUP: SqlText := "t.hts_visit_group"
  const T_BASE_ENTITY_ID: SqlText := "t.base_entity_id"
  const T_KIT_USED: SqlText := "t.type_of_test_kit_used"
  const T_KIT_BATCH: SqlText := "t.test_kit_batch_number"
  const T_KIT_EXPIRY: SqlText := "t.test_kit_expire_date"
  const T_RESULT: SqlText := "t.test_result"
  const T_SYPHILIS_RESULT: SqlText := "t.syphilis_test_results"
  const T_TEST_TYPE: SqlText := "t.test_type"
  const T_DATE_CREATED: SqlText := "t.date_created"
  const ASC: SqlText := " ASC"

  const TEST_COLUMNS: seq<SqlText> := [
    T_EVENT_ID, T_VISIT_GROUP, T_BASE_ENTITY_ID, T_KIT_USED, T_KIT_BATCH,
    T_KIT_EXPIRY, T_RESULT, T_SYPHILIS_RESULT, T_TEST_TYPE, T_DATE_CREATED]

  const TEST_ORDER: seq<SqlText> := [T_DATE_CREATED + ASC, T_EVENT_ID + ASC]

  const ORDER_BY: SqlText := " ORDER BY "

  /** ` ORDER BY <columns>`. */
  function OrderBy(columns: seq<SqlText>): SqlText {
    JoinSqlText(columns, COMMA);
    ORDER_BY + Join(columns, COMMA)
  }

  const BETWEEN: SqlText := " BETWEEN "
  const AND: SqlText := " AND "
  const OR: SqlText := " OR "

  /** `(column BETWEEN ? AND ?)`. */
  function Between(column: SqlText): string {
    "(" + column + BETWEEN + MARKER + AND + MARKER + ")"
  }

  lemma BetweenMarkers(column: SqlText)
    ensures Markers(Between(column)) == 2
  {
    SqlTextMarkers("(" + column + BETWEEN);
    SqlTextMarkers(AND);
    SqlTextMarkers(")");
    MarkersConcat5("(" + column + BETWEEN, MARKER, AND, MARKER, ")");
  }

  /** The creation-time window every query uses: once in seconds, once in
      milliseconds. */
  function DateWindow(column: SqlText): string {
    "(" + Between(column) + OR + Between(column) + ")"
  }

  lemma DateWindowMarkers(column: SqlText)
    ensures Markers(DateWindow(column)) == 4
  {
    BetweenMarkers(column);
    SqlTextMarkers("(");
    SqlTextMarkers(OR);
    SqlTextMarkers(")");
    MarkersConcat5("(", Between(column), OR, Between(column), ")");
  }

  const VISIT_GROUP_IN: SqlText := "t.hts_visit_group IN ("
  const NO_VISIT_GROUP: SqlText := "(t.hts_visit_group IS NULL"
  const ENTITY_IN: SqlText := " AND t.base_entity_id IN ("

  /** `t.hts_visit_group IN (?,…)`, when there are visit groups. */
  function VisitCondition(groups: nat): string {
    if groups > 0 then VISIT_GROUP_IN + Placeholders(groups) + ")" else ""
  }

  /** `(t.hts_visit_group IS NULL AND t.base_entity_id IN (?,…))`, when there
      are base entity ids. */
  function EntityCondition(entities: nat): string {
    if entities > 0 then NO_VISIT_GROUP + ENTITY_IN + Placeholders(entities) + "))" else ""
  }

  /** The key condition of the tests query: by visit group, by base entity
      for tests without a visit group, or either. */
  function KeyFilter(groups: nat, entities: nat): string {
    VisitCondition(groups) + (if groups > 0 && entities > 0 then OR else "") + EntityCondition(entities)
  }

  lemma KeyFilterMarkers(groups: nat, entities: nat)
    ensures Markers(KeyFilter(groups, entities)) == groups + entities
  {
    PlaceholdersMarkers(groups);
    PlaceholdersMarkers(entities);
    if groups > 0 {
      SqlTextMarkers(VISIT_GROUP_IN);
      SqlTextMarkers(")");
      MarkersConcat3(VISIT_GROUP_IN, Placeholders(groups), ")");
    }
    if entities > 0 {
      SqlTextMarkers(NO_VISIT_GROUP + ENTITY_IN);
      SqlTextMarkers("))");
      MarkersConcat3(NO_VISIT_GROUP + ENTITY_IN, Placeholders(entities), "))");
    }
    SqlTextMarkers(if groups > 0 && entities > 0 then OR else "");
    MarkersConcat3(VisitCondition(groups), if groups > 0 && entities > 0 then OR else "", EntityCondition(entities));
  }

  lemma {:induction false} ContainsChar(s: string, t: string, c: char)
    requires Contains(s, t) && c in t
    ensures c in s
  {
    if !StartsWith(s, t) {
      ContainsChar(s[1..], t, c);
    } else {
      var k :| 0 <= k < |t| && t[k] == c;
      assert s[k] == c;
    }
  }

  lemma VisitConditionLacksO(groups: nat)
    ensures 'O' !in VisitCondition(groups)
  {
    PlaceholdersShape(groups);
    assert 'O' !in VISIT_GROUP_IN;
  }

  lemma EntityConditionLacksO(entities: nat)
    ensures 'O' !in EntityCondition(entities)
  {
    PlaceholdersShape(entities);
    assert 'O' !in NO_VISIT_GROUP;
    assert 'O' !in ENTITY_IN;
  }

  /** " OR " joins the two key conditions exactly when there are visit groups
      and base entity ids to look for. */
  lemma KeyFilterDisjunction(groups: nat, entities: nat)
    ensures Contains(KeyFilter(groups, entities), OR) <==> groups > 0 && entities > 0
  {
    var filter := KeyFilter(groups, entities);
    if groups > 0 && entities > 0 {
      var first := VisitCondition(groups);
      assert filter[|first|..|first| + |OR|] == OR;
      ContainsAt(filter, OR, |first|);
    } else {
      VisitConditionLacksO(groups);
      EntityConditionLacksO(entities);
      assert filter == VisitCondition(groups) + EntityCondition(entities);
      if Contains(filter, OR) {
        ContainsChar(filter, OR, 'O');
      }
    }
  }

  const SELECT: SqlText := "SELECT "
  const FROM: SqlText := " FROM "
  const TESTS_TABLE: SqlText := ".cbhts_tests t WHERE "
  const AND_OPEN: SqlText := " AND ("

  /** `SELECT <columns> FROM <schema>.cbhts_tests t WHERE `. */
  function TestsHead(schema: string): string {
    SELECT + Join(TEST_COLUMNS, COMMA) + FROM + schema + TESTS_TABLE
  }

  /** `) ORDER BY t.date_created ASC, t.event_id ASC`. */
  function TestsTail(): SqlText {
    ")" + OrderBy(TEST_ORDER)
  }

  /** The tests query of `findTestsForServices`, with `groups` visit-group
      markers and `entities` base-entity markers. */
  function TestsQuery(schema: string, groups: nat, entities: nat): string {
    TestsHead(schema) + DateWindow(T_DATE_CREATED) + AND_OPEN + KeyFilter(groups, entities) + TestsTail()
  }

  lemma TestsHeadTailMarkers(schema: string)
    requires IsSchemaName(schema)
    ensures Markers(TestsHead(schema)) == 0 && Markers(TestsTail()) == 0
  {
    JoinSqlText(TEST_COLUMNS, COMMA);
    SchemaIsSqlText(schema);
    SqlTextMarkers(TestsHead(schema));
    SqlTextMarkers(TestsTail());
  }

  /** The tests query carries four window markers and one per key. */
  lemma TestsQueryMarkers(schema: string, groups: nat, entities: nat)
    requires IsSchemaName(schema)
    ensures Markers(TestsQuery(schema, groups, entities)) == 4 + groups + entities
  {
    TestsHeadTailMarkers(schema);
    DateWindowMarkers(T_DATE_CREATED);
    KeyFilterMarkers(groups, entities);
    SqlTextMarkers(AND_OPEN);
    MarkersConcat5(TestsHead(schema), DateWindow(T_DATE_CREATED), AND_OPEN, KeyFilter(groups, entities), TestsTail());
  }

  // ------------------------------------------------------------ bound values

  /** A value bound to a statement: `setString`, `setLong` or `setInt`. */
  datatype SqlValue = Text(text: Option<string>) | BigInt(long: Long) | Int(integer: Int32)

  /** A prepared statement: its text and the values bound in order. */
  datatype Statement = Statement(sql: string, params: seq<SqlValue>)

  /** `secondsToMillis`: `Math.multiplyExact(seconds, 1000)`. */
  function SecondsToMillis(seconds: Long): Result<Long, ArithmeticError> {
    MultiplyExact(seconds, 1000)
  }

  /** The conversion gives the millisecond count, and fails exactly for
      seconds beyond ±9,223,372,036,854,775, the largest values whose
      millisecond count is still a `long`. */
  lemma SecondsToMillisRange(seconds: Long)
    ensures SecondsToMillis(seconds).Ok? <==> -9_223_372_036_854_775 <= seconds <= 9_223_372_036_854_775
    ensures SecondsToMillis(seconds).Ok? ==> SecondsToMillis(seconds).value == seconds * 1000
  {
  }

  function Texts(values: seq<string>): (r: seq<SqlValue>)
    ensures |r| == |values|
  {
    seq(|values|, i requires 0 <= i < |values| => Text(Some(values[i])))
  }

  /** `[start, end, start * 1000, end * 1000]`, the window's four values. */
  function WindowValues(start: Long, end: Long): (r: Result<seq<SqlValue>, ArithmeticError>)
    ensures r.Ok? <==> SecondsToMillis(start).Ok? && SecondsToMillis(end).Ok?
    ensures r.Ok? ==> r.value == [BigInt(start), BigInt(end), BigInt(start * 1000), BigInt(end * 1000)]
  {
    var startMs :- SecondsToMillis(start);
    var endMs :- SecondsToMillis(end);
    Ok([BigInt(start), BigInt(end), BigInt(startMs), BigInt(endMs)])
  }

  /** The statement `findTestsForServices` prepares, or `None` when no visit
      supplies a key and the method returns an empty map without querying. */
  function TestsStatement(schema: string, services: seq<ServiceRow>, start: Long, end: Long)
    : (r: Result<Option<Statement>, ArithmeticError>)
    ensures r == Ok(None) <==> VisitGroups(services) == [] && EntityIds(services) == []
    ensures r.Err? <==> (VisitGroups(services) != [] || EntityIds(services) != []) && WindowValues(start, end).Err?
  {
    var groups := VisitGroups(services);
    var ids := EntityIds(services);
    if groups == [] && ids == [] then Ok(None)
    else
      var window :- WindowValues(start, end);
      Ok(Some(Statement(TestsQuery(schema, |groups|, |ids|), window + Texts(groups) + Texts(ids))))
  }

  /** The tests query binds as many values as it has markers: the window,
      then each visit group with text once, then each base entity id with
      text once. */
  lemma TestsStatementValues(schema: string, services: seq<ServiceRow>, start: Long, end: Long)
    requires IsSchemaName(schema)
    requires TestsStatement(schema, services, start, end).Ok?
    requires TestsStatement(schema, services, start, end).value.Some?
    ensures var s := TestsStatement(schema, services, start, end).value.value;
      var groups := VisitGroups(services);
      var ids := EntityIds(services);
      && Markers(s.sql) == |s.params| == 4 + |groups| + |ids|
      && s.params[..4] == WindowValues(start, end).value
      && s.params[4..4 + |groups|] == Texts(groups)
      && s.params[4 + |groups|..] == Texts(ids)
  {
    TestsQueryMarkers(schema, |VisitGroups(services)|, |EntityIds(services)|);
  }

  const HFR_IS: SqlText := "WHERE l.hfr_code = "
  const S_DATE_CREATED: SqlText := "s.date_created"

  /** The condition `countServices` and `findServices` share. */
  function ServicesFilter(): string {
    HFR_IS + MARKER + AND + DateWindow(S_DATE_CREATED)
  }

  lemma ServicesFilterMarkers()
    ensures Markers(ServicesFilter()) == 5
  {
    DateWindowMarkers(S_DATE_CREATED);
    SqlTextMarkers(HFR_IS);
    SqlTextMarkers(AND);
    MarkersConcat3(HFR_IS, MARKER, AND);
    MarkersConcat(HFR_IS + MARKER + AND, DateWindow(S_DATE_CREATED));
  }

  const S_EVENT_ID: SqlText := "s.event_id"
  const PAGE_ORDER: seq<SqlText> := [S_DATE_CREATED + ASC, S_EVENT_ID + ASC]
  const LIMIT: SqlText := " LIMIT "
  const OFFSET: SqlText := " OFFSET "

  /** ` LIMIT ? OFFSET ?`. */
  function Paging(): string {
    LIMIT + MARKER + OFFSET + MARKER
  }

  /** The condition, ordering and paging of `findServices`. */
  function PageTail(): string {
    ServicesFilter() + OrderBy(PAGE_ORDER) + Paging()
  }

  lemma PageTailMarkers()
    ensures Markers(PageTail()) == 7
  {
    ServicesFilterMarkers();
    SqlTextMarkers(OrderBy(PAGE_ORDER));
    SqlTextMarkers(LIMIT);
    SqlTextMarkers(OFFSET);
    MarkersConcat(LIMIT, MARKER);
    MarkersConcat3(LIMIT + MARKER, OFFSET, MARKER);
    MarkersConcat3(ServicesFilter(), OrderBy(PAGE_ORDER), Paging());
  }

  /** `countServices` binds the facility and then the window. */
  function CountValues(hfrCode: Option<string>, start: Long, end: Long): (r: Result<seq<SqlValue>, ArithmeticError>)
    ensures r.Ok? <==> WindowValues(start, end).Ok?
  {
    var window :- WindowValues(start, end);
    Ok([Text(hfrCode)] + window)
  }

  /** `countServices` binds one value per marker of its condition, the
      facility first. */
  lemma CountBindsEveryMarker(hfrCode: Option<string>, start: Long, end: Long)
    requires CountValues(hfrCode, start, end).Ok?
    ensures |CountValues(hfrCode, start, end).value| == Markers(ServicesFilter())
    ensures CountValues(hfrCode, start, end).value[0] == Text(hfrCode)
  {
    ServicesFilterMarkers();
  }

  /** `(pageIndex - 1) * pageSize` in `int` arithmetic, which wraps. */
  function PageOffset(pageIndex: Int32, pageSize: Int32): Int32 {
    WrapInt(WrapInt(pageIndex - 1) * pageSize)
  }

  /** Within range the offset skips the earlier pages exactly, and the next
      page starts one page further on. */
  lemma PageOffsetExact(pageIndex: Int32, pageSize: Int32)
    requires pageIndex >= 1 && pageSize >= 0 && pageIndex * pageSize <= MAX_INT
    ensures PageOffset(pageIndex, pageSize) == (pageIndex - 1) * pageSize
    ensures pageIndex < MAX_INT ==> PageOffset(pageIndex + 1, pageSize) == PageOffset(pageIndex, pageSize) + pageSize
  {
    assert 0 <= (pageIndex - 1) * pageSize <= pageIndex * pageSize;
  }

  /** Outside range it wraps: page 32769 of 65536 rows asks for a negative
      offset, and page 65537 of 65536 rows for the first page again. */
  lemma PageOffsetWraps()
    ensures PageOffset(32769, 65536) == MIN_INT
    ensures PageOffset(65537, 65536) == 0
  {
  }

  /** `findServices` binds the facility, the window, the page size and the
      offset, one value per marker of its condition and paging. */
  function PageValues(hfrCode: Option<string>, start: Long, end: Long, pageIndex: Int32, pageSize: Int32)
    : (r: Result<seq<SqlValue>, ArithmeticError>)
    ensures r.Ok? <==> WindowValues(start, end).Ok?
  {
    var window :- WindowValues(start, end);
    Ok([Text(hfrCode)] + window + [Int(pageSize), Int(PageOffset(pageIndex, pageSize))])
  }

  /** `findServices` binds one value per marker of its condition and
      paging: the facility first, the page size and the offset last. */
  lemma PageBindsEveryMarker(hfrCode: Option<string>, start: Long, end: Long, pageIndex: Int32, pageSize: Int32)
    requires PageValues(hfrCode, start, end, pageIndex, pageSize).Ok?
    ensures var v := PageValues(hfrCode, start, end, pageIndex, pageSize).value;
      && |v| == Markers(PageTail())
      && v[0] == Text(hfrCode)
      && v[5] == Int(pageSize)
      && v[6] == Int(PageOffset(pageIndex, pageSize))
  {
    PageTailMarkers();
  }

  /** The `IN` filter of both bulk lookups by base entity id. The
      self-test lookup writes it on alias `r.` and the enrollment lookup on
      alias `e.`; the alias binds no value, so the enrollment alias is not
      modelled and one text stands for both. */
  const ENTITY_FILTER: SqlText := "WHERE r.base_entity_id IN ("

  /** The base entity ids `findHivstTestByBaseEntity` and
      `findEnrollmentEligibilityByBaseEntity` bind, or `None` when no visit
      has one and the method returns an empty map without querying. */
  function EntityStatement(services: seq<ServiceRow>): (r: Option<Statement>)
    ensures r.None? <==> EntityIds(services) == []
  {
    var ids := EntityIds(services);
    if ids == [] then None
    else Some(Statement(ENTITY_FILTER + Placeholders(|ids|) + ")", Texts(ids)))
  }

  /** The bulk statement binds each base entity id with text once, one per
      marker. */
  lemma EntityStatementBinds(services: seq<ServiceRow>)
    requires EntityStatement(services).Some?
    ensures var s := EntityStatement(services).value;
      Markers(s.sql) == |s.params| == |EntityIds(services)| && s.params == Texts(EntityIds(services))
  {
    var n := |EntityIds(services)|;
    PlaceholdersMarkers(n);
    SqlTextMarkers(ENTITY_FILTER);
    SqlTextMarkers(")");
    MarkersConcat3(ENTITY_FILTER, Placeholders(n), ")");
  }
  // ---------------------------------------------------------------- grouping

  /** `getOrDefault(key, List.of())`. */
  function Lookup<T>(groups: map<string, seq<T>>, key: string): seq<T> {
    if key in groups then groups[key] else []
  }

  /** The rows whose key is `key`, in order. */
  function Keyed<T(!new)>(rows: seq<T>, key: T -> Option<string>, k: string): (r: seq<T>)
    ensures forall x :: x in r <==> x in rows && key(x) == Some(k)
  {
    if rows == [] then []
    else
      assert rows == [rows[0]] + rows[1..];
      (if key(rows[0]) == Some(k) then [rows[0]] else []) + Keyed(rows[1..], key, k)
  }

  /** The result-set loop: each row is appended to the list of its key
      (`computeIfAbsent(...).add(row)`); a row without a key is skipped. */
  function GroupFrom<T>(acc: map<string, seq<T>>, rows: seq<T>, key: T -> Option<string>): map<string, seq<T>>
    decreases |rows|
  {
    if rows == [] then acc
    else
      var k := key(rows[0]);
      var acc' := if k.None? then acc else acc[k.value := Lookup(acc, k.value) + [rows[0]]];
      GroupFrom(acc', rows[1..], key)
  }

  lemma {:induction false} GroupFromLookup<T(!new)>(acc: map<string, seq<T>>, rows: seq<T>, key: T -> Option<string>, k: string)
    ensures Lookup(GroupFrom(acc, rows, key), k) == Lookup(acc, k) + Keyed(rows, key, k)
    ensures k in GroupFrom(acc, rows, key) <==> k in acc || Keyed(rows, key, k) != []
    decreases |rows|
  {
    if rows != [] {
      var kk := key(rows[0]);
      var acc' := if kk.None? then acc else acc[kk.value := Lookup(acc, kk.value) + [rows[0]]];
      GroupFromLookup(acc', rows[1..], key, k);
    }
  }

  lemma {:induction false} KeyedNone<T(!new)>(rows: seq<T>, key: T -> Option<string>, k: string)
    requires forall x :: x in rows ==> key(x) != Some(k)
    ensures Keyed(rows, key, k) == []
  {
    if rows != [] {
      assert rows[0] in rows;
      assert forall x :: x in rows[1..] ==> x in rows;
      KeyedNone(rows[1..], key, k);
    }
  }

  function Group<T>(rows: seq<T>, key: T -> Option<string>): map<string, seq<T>> {
    GroupFrom(map[], rows, key)
  }

  /** Grouping keeps every keyed row once, under its own key, in result
      order: the list looked up for a key is exactly the rows with that key,
      and a key is present only when some row has it. */
  lemma GroupLookup<T(!new)>(rows: seq<T>, key: T -> Option<string>, k: string)
    ensures Lookup(Group(rows, key), k) == Keyed(rows, key, k)
    ensures k in Group(rows, key) <==> Keyed(rows, key, k) != []
  {
    GroupFromLookup(map[], rows, key, k);
  }

  function TestKeyOf(t: TestRow): Option<string> {
    Some(KeyOfTest(t))
  }

  /** How `findTestsForServices` groups the rows its query returns. */
  function GroupTests(rows: seq<TestRow>): map<string, seq<TestRow>> {
    Group(rows, TestKeyOf)
  }

  /** Every test row lands in the list of its own key, and nowhere else. */
  lemma TestsGroupedByKey(rows: seq<TestRow>, k: string)
    ensures Lookup(GroupTests(rows), k) == Keyed(rows, TestKeyOf, k)
    ensures forall t :: t in Lookup(GroupTests(rows), k) <==> t in rows && KeyOfTest(t) == k
  {
    GroupLookup(rows, TestKeyOf, k);
  }

  function HivstKeyOf(row: HivstSelfTestRow): Option<string> {
    if HasText(row.baseEntityId) then Some(row.baseEntityId.value) else None
  }

  /** How `findHivstTestByBaseEntity` groups its rows; rows with a blank base
      entity id are dropped. */
  function GroupHivst(rows: seq<HivstSelfTestRow>): map<string, seq<HivstSelfTestRow>> {
    Group(rows, HivstKeyOf)
  }

  lemma HivstGroupedByEntity(rows: seq<HivstSelfTestRow>, id: string)
    ensures forall r :: r in Lookup(GroupHivst(rows), id) <==> r in rows && r.baseEntityId == Some(id) && HasText(Some(id))
    ensures !HasText(Some(id)) ==> id !in GroupHivst(rows)
  {
    GroupLookup(rows, HivstKeyOf, id);
    if !HasText(Some(id)) {
      KeyedNone(rows, HivstKeyOf, id);
    }
  }

  /** `findTestsForServices` given the rows its query returns: an empty map
      without querying when no visit has a key, the grouped rows otherwise. */
  function FindTestsForServices(schema: string, services: seq<ServiceRow>, start: Long, end: Long, rows: seq<TestRow>)
    : (r: Result<map<string, seq<TestRow>>, ArithmeticError>)
    requires IsSchemaName(schema)
    ensures VisitGroups(services) == [] && EntityIds(services) == [] ==> r == Ok(map[])
    ensures r.Ok? && (VisitGroups(services) != [] || EntityIds(services) != []) ==> r.value == GroupTests(rows)
  {
    var statement :- TestsStatement(schema, services, start, end);
    if statement.None? then Ok(map[]) else Ok(GroupTests(rows))
  }

  /** `findHivstTestByBaseEntity` given the rows its query returns. */
  function FindHivstByBaseEntity(services: seq<ServiceRow>, rows: seq<HivstSelfTestRow>)
    : (r: map<string, seq<HivstSelfTestRow>>)
    ensures EntityIds(services) == [] ==> r == map[]
    ensures EntityIds(services) != [] ==> r == GroupHivst(rows)
  {
    if EntityStatement(services).None? then map[] else GroupHivst(rows)
  }

  // --------------------------------------------------- first-wins eligibility

  /** The two columns the eligibility loop reads. */
  datatype EnrollmentRow = EnrollmentRow(baseEntityId: Option<string>, eligibility: Option<string>)

  /** The eligibility loop: a row with a blank id, or an id already seen, is
      skipped; otherwise its parsed eligibility is recorded. */
  function EligibilityFrom(acc: map<string, bool>, rows: seq<EnrollmentRow>): map<string, bool>
    decreases |rows|
  {
    if rows == [] then acc
    else
      var id := rows[0].baseEntityId;
      var acc' := if !HasText(id) || id.value in acc then acc
                  else acc[id.value := ParseEnrollmentEligibility(rows[0].eligibility)];
      EligibilityFrom(acc', rows[1..])
  }

  /** The first row for `id`, the one the query ordered newest. */
  function FirstEnrollment(rows: seq<EnrollmentRow>, id: string): (r: Option<EnrollmentRow>)
    ensures r.Some? ==> r.value in rows && r.value.baseEntityId == Some(id)
    ensures r.None? <==> forall x :: x in rows ==> x.baseEntityId != Some(id)
  {
    if rows == [] then None
    else if rows[0].baseEntityId == Some(id) then Some(rows[0])
    else
      assert rows == [rows[0]] + rows[1..];
      FirstEnrollment(rows[1..], id)
  }

  lemma {:induction false} EligibilityFromFirst(acc: map<string, bool>, rows: seq<EnrollmentRow>, id: string)
    ensures var m := EligibilityFrom(acc, rows);
      && (id in m <==> id in acc || (HasText(Some(id)) && FirstEnrollment(rows, id).Some?))
      && (id in m ==> m[id] == if id in acc then acc[id] else ParseEnrollmentEligibility(FirstEnrollment(rows, id).value.eligibility))
    decreases |rows|
  {
    if rows != [] {
      var i := rows[0].baseEntityId;
      var acc' := if !HasText(i) || i.value in acc then acc
                  else acc[i.value := ParseEnrollmentEligibility(rows[0].eligibility)];
      EligibilityFromFirst(acc', rows[1..], id);
    }
  }

  /** `findEnrollmentEligibilityByBaseEntity` given the rows its query returns. */
  function FindEnrollmentEligibility(services: seq<ServiceRow>, rows: seq<EnrollmentRow>): (r: map<string, bool>)
    ensures EntityIds(services) == [] ==> r == map[]
  {
    if EntityStatement(services).None? then map[] else EligibilityFrom(map[], rows)
  }

  /** The first row per base entity id wins: an id is present exactly when it
      has text and some row carries it, and its value is the first such row's
      parsed eligibility. */
  lemma FirstEligibilityWins(services: seq<ServiceRow>, rows: seq<EnrollmentRow>, id: string)
    requires EntityIds(services) != []
    ensures var m := FindEnrollmentEligibility(services, rows);
      && (id in m <==> HasText(Some(id)) && FirstEnrollment(rows, id).Some?)
      && (id in m ==> m[id] == ParseEnrollmentEligibility(FirstEnrollment(rows, id).value.eligibility))
  {
    EligibilityFromFirst(map[], rows, id);
  }
}
