/** `OpenSrpIntegrationService.fetch`: validate the request, count the
    visits, read one page of them with their tests and self-tests, and map
    each visit to an item. The database is a value that answers each query;
    which queries ran is part of the outcome. */
module IntegrationService {
  import opened Wrappers
  import opened JavaNum
  import opened Records
  import opened Validation
  import Catalog
  import FieldValues
  import Mapper
  import DateParsing
  import Repository

  /** The four statements `fetch` can run, in the order it runs them. */
  datatype Query = CountServices | FindServices | FindTests | FindSelfTests

  const QUERY_ORDER: seq<Query> := [CountServices, FindServices, FindTests, FindSelfTests]

  /** What the database holds for one request: whether a connection opens,
      which statements raise `SQLException`, and the rows each query
      returns (`count` is `None` when the count query returns no row). */
  datatype Database = Database(
    schema: string,
    connects: bool,
    failing: set<Query>,
    count: Option<Long>,
    services: seq<ServiceRow>,
    tests: seq<TestRow>,
    selfTests: seq<HivstSelfTestRow>)

  /** How `fetch` ends without a response: the validator's messages, a
      database failure (reported as "Failed to query OpenSRP database"),
      an overflow converting the window to milliseconds, or a date the
      mapper cannot normalise. */
  datatype FetchError =
    | Invalid(messages: seq<string>)
    | DatabaseFailure
    | Overflow
    | MappingFailed(cause: DateParsing.DateError)

  const DATABASE_FAILURE := "Failed to query OpenSRP database"

  /** The response: the page asked for, the total count and the items. */
  datatype Envelope = Envelope(pageNumber: Int32, pageSize: Int32, totalRecords: Long, data: seq<Mapper.ServiceItem>)

  /** A result together with the statements that ran to produce it. */
  datatype Fetched<T> = Fetched(result: Result<T, FetchError>, issued: seq<Query>)

  /** The mapper's configuration: the reference catalog, the catalog's value
      lookup and the alias tables. */
  datatype MapperConfig = MapperConfig(cat: Catalog.Catalog, lookup: Mapper.Lookup, tables: FieldValues.AliasTables)

  /** `mapServiceRow`, as a function of a visit and its test rows. */
  type RowMapper = (ServiceRow, Option<seq<TestRow>>) -> Result<Mapper.ServiceItem, DateParsing.DateError>

  /** The configured `IntegrationDataMapper.mapServiceRow`. */
  function MapperOf(config: MapperConfig): RowMapper {
    (row, tests) => Mapper.MapServiceRow(config.cat, config.lookup, config.tables, row, tests)
  }

  /** What one step may do: run its statement at most once, fail with an
      overflow before running it, or fail with the statement. */
  predicate Step<T>(f: Fetched<T>, query: Query, db: Database) {
    && f.issued <= [query]
    && (f.result.Ok? && f.issued == [query] ==> query !in db.failing)
    && (f.result.Err? ==>
          (f.result.error == Overflow && f.issued == [])
          || (f.result.error == DatabaseFailure && f.issued == [query] && query in db.failing))
  }

  /** A statement whose values bind: it runs, and either fails or answers. */
  function Run<T>(db: Database, query: Query, answer: T): (r: Fetched<T>)
    ensures Step(r, query, db) && r.issued == [query]
    ensures r.result.Ok? ==> r.result.value == answer
  {
    if query in db.failing then Fetched(Err(DatabaseFailure), [query]) else Fetched(Ok(answer), [query])
  }

  /** `countServices`: binding the window may overflow before the statement
      runs; an empty result set counts as zero. */
  function Count(db: Database, q: IntegrationRequest): (r: Fetched<Long>)
    requires q.startDate.Some? && q.endDate.Some?
    ensures Step(r, CountServices, db)
    ensures r.result.Ok? ==> r.issued == [CountServices] && r.result.value == db.count.GetOr(0)
    ensures r.result.Err? && r.result.error == Overflow <==> Repository.CountValues(q.hfrCode, q.startDate.value, q.endDate.value).Err?
  {
    if Repository.CountValues(q.hfrCode, q.startDate.value, q.endDate.value).Err? then Fetched(Err(Overflow), [])
    else Run(db, CountServices, db.count.GetOr(0))
  }

  /** The page of visits: none without running a query when the count is
      zero, else `findServices`. */
  function Page(db: Database, q: IntegrationRequest, total: Long): (r: Fetched<seq<ServiceRow>>)
    requires q.startDate.Some? && q.endDate.Some? && q.pageIndex.Some? && q.pageSize.Some?
    ensures Step(r, FindServices, db)
    ensures total == 0 ==> r == Fetched(Ok([]), [])
    ensures total != 0 && r.result.Ok? ==> r.issued == [FindServices] && r.result.value == db.services
  {
    if total == 0 then Fetched(Ok([]), [])
    else if Repository.PageValues(q.hfrCode, q.startDate.value, q.endDate.value, q.pageIndex.value, q.pageSize.value).Err?
    then Fetched(Err(Overflow), [])
    else Run(db, FindServices, db.services)
  }

  /** The tests by key: none without a query for an empty page or a page
      without keys, else `findTestsForServices`. */
  function TestsByKey(db: Database, rows: seq<ServiceRow>, start: Long, end: Long): (r: Fetched<map<string, seq<TestRow>>>)
    requires Repository.IsSchemaName(db.schema)
    ensures Step(r, FindTests, db)
    ensures r.issued != [] ==> rows != []
    ensures r.result.Ok? && rows != [] && Repository.EntityIds(rows) != [] ==> r.issued == [FindTests]
    ensures r.result.Ok? ==> forall k :: Repository.Lookup(r.result.value, k) == TestsFor(db, rows, k)
  {
    if rows == [] then Fetched(Ok(map[]), [])
    else
      match Repository.TestsStatement(db.schema, rows, start, end)
      case Err(_) => Fetched(Err(Overflow), [])
      case Ok(None) => Fetched(Ok(map[]), [])
      case Ok(Some(_)) =>
        TestsGrouped(db, rows);
        Run(db, FindTests, Repository.GroupTests(db.tests))
  }

  /** The tests a visit with key `k` is mapped with: the rows of the tests
      query whose key is `k`, in the order the query returned them, or none
      when the page has no keys to look for. */
  function TestsFor(db: Database, rows: seq<ServiceRow>, k: string): seq<TestRow> {
    if Repository.VisitGroups(rows) == [] && Repository.EntityIds(rows) == [] then []
    else Repository.Keyed(db.tests, Repository.TestKeyOf, k)
  }

  lemma TestsGrouped(db: Database, rows: seq<ServiceRow>)
    requires Repository.VisitGroups(rows) != [] || Repository.EntityIds(rows) != []
    ensures forall k :: Repository.Lookup(Repository.GroupTests(db.tests), k) == TestsFor(db, rows, k)
  {
    forall k {
      Repository.TestsGroupedByKey(db.tests, k);
    }
  }

  /** The self-tests by base entity: none without a query for an empty page
      or a page without base entity ids, else `findHivstTestByBaseEntity`. */
  function SelfTestsByEntity(db: Database, rows: seq<ServiceRow>): (r: Fetched<map<string, seq<HivstSelfTestRow>>>)
    ensures Step(r, FindSelfTests, db)
    ensures r.issued != [] ==> rows != [] && Repository.EntityIds(rows) != []
  {
    if rows == [] || Repository.EntityStatement(rows).None? then Fetched(Ok(map[]), [])
    else Run(db, FindSelfTests, Repository.GroupHivst(db.selfTests))
  }

  /** One visit as an item, with the tests filed under its key. The mapper
      takes the visit and its tests only, so the self-test rows looked up
      for the visit do not reach the item. */
  function MapVisit(mapRow: RowMapper, testsByKey: map<string, seq<TestRow>>, row: ServiceRow)
    : (r: Result<Mapper.ServiceItem, FetchError>)
    ensures var m := mapRow(row, Some(Repository.Lookup(testsByKey, Repository.ServiceKey(row))));
      && (r.Ok? <==> m.Ok?)
      && (r.Ok? ==> r.value == m.value)
      && (r.Err? ==> r.error == MappingFailed(m.error))
  {
    match mapRow(row, Some(Repository.Lookup(testsByKey, Repository.ServiceKey(row))))
    case Ok(item) => Ok(item)
    case Err(e) => Err(MappingFailed(e))
  }

  /** The item a visit of the page becomes. */
  predicate ItemOf(mapRow: RowMapper, db: Database, rows: seq<ServiceRow>, row: ServiceRow, item: Mapper.ServiceItem) {
    mapRow(row, Some(TestsFor(db, rows, Repository.ServiceKey(row)))) == Ok(item)
  }

  /** The loop of `fetch`: each visit of the page mapped in order; the first
      mapping failure ends it and is the failure reported. */
  method MapPage(mapRow: RowMapper, rows: seq<ServiceRow>, testsByKey: map<string, seq<TestRow>>)
    returns (r: Result<seq<Mapper.ServiceItem>, FetchError>)
    ensures r.Ok? ==> |r.value| == |rows| && forall i :: 0 <= i < |rows| ==> MapVisit(mapRow, testsByKey, rows[i]) == Ok(r.value[i])
    ensures r.Err? ==> exists i :: 0 <= i < |rows| && MapVisit(mapRow, testsByKey, rows[i]) == Err(r.error)
                                   && forall j :: 0 <= j < i ==> MapVisit(mapRow, testsByKey, rows[j]).Ok?
  {
    var data: seq<Mapper.ServiceItem> := [];
    for i := 0 to |rows|
      invariant |data| == i
      invariant forall k :: 0 <= k < i ==> MapVisit(mapRow, testsByKey, rows[k]) == Ok(data[k])
    {
      var item := MapVisit(mapRow, testsByKey, rows[i]);
      if item.Err? {
        assert forall j :: 0 <= j < i ==> MapVisit(mapRow, testsByKey, rows[j]).Ok?;
        return Err(item.error);
      }
      data := data + [item.value];
    }
    return Ok(data);
  }

  /** Visits mapped with the tests filed by key are the items of the page:
      the map holds, under each key, exactly the tests that share it. */
  lemma VisitsAreItems(mapRow: RowMapper, db: Database, rows: seq<ServiceRow>,
                       testsByKey: map<string, seq<TestRow>>, data: seq<Mapper.ServiceItem>)
    requires forall k :: Repository.Lookup(testsByKey, k) == TestsFor(db, rows, k)
    requires |data| == |rows| && forall i :: 0 <= i < |rows| ==> MapVisit(mapRow, testsByKey, rows[i]) == Ok(data[i])
    ensures forall i :: 0 <= i < |rows| ==> ItemOf(mapRow, db, rows, rows[i], data[i])
  {
    forall i | 0 <= i < |rows| ensures ItemOf(mapRow, db, rows, rows[i], data[i]) {
      var key := Repository.ServiceKey(rows[i]);
      assert Repository.Lookup(testsByKey, key) == TestsFor(db, rows, key);
    }
  }

  /** Which statements ran: a prefix of the fixed order, and only the last
      of them can have failed. */
  predicate Ordered(issued: seq<Query>, db: Database) {
    && issued <= QUERY_ORDER
    && forall i :: 0 <= i < |issued| - 1 ==> issued[i] !in db.failing
  }

  lemma Chain(db: Database, a: seq<Query>, b: seq<Query>, c: seq<Query>, d: seq<Query>)
    requires a <= [CountServices] && b <= [FindServices] && c <= [FindTests] && d <= [FindSelfTests]
    requires b != [] ==> a != [] && CountServices !in db.failing
    requires c != [] ==> b != [] && FindServices !in db.failing
    requires d != [] ==> c != [] && FindTests !in db.failing
    ensures Ordered(a + b + c + d, db)
  {
    var issued := a + b + c + d;
    assert |issued| == |a| + |b| + |c| + |d|;
    assert issued == QUERY_ORDER[..|issued|];
  }

  /** What the queries of `fetch` gather: the count, the page of visits and
      their tests by key. */
  datatype Gathered = Gathered(total: Long, rows: seq<ServiceRow>, testsByKey: map<string, seq<TestRow>>)

  /** The statements of `fetch`, in order, up to the first failure. */
  method Gather(db: Database, q: IntegrationRequest) returns (r: Fetched<Gathered>)
    requires Repository.IsSchemaName(db.schema)
    requires IsServableRequest(q)
    ensures r.result.Err? ==> r.result.error == Overflow || r.result.error == DatabaseFailure
    ensures Ordered(r.issued, db)
    ensures r.result == Err(DatabaseFailure) ==> r.issued != [] && r.issued[|r.issued| - 1] in db.failing
    ensures r.result.Ok? ==>
      var g := r.result.value;
      && g.total == db.count.GetOr(0)
      && g.rows == (if g.total == 0 then [] else db.services)
      && (g.total == 0 ==> r.issued == [CountServices])
      && forall k :: Repository.Lookup(g.testsByKey, k) == TestsFor(db, g.rows, k)
  {
    var count := Count(db, q);
    if count.result.Err? {
      Chain(db, count.issued, [], [], []);
      return Fetched(Err(count.result.error), count.issued);
    }
    var total := count.result.value;
    var page := Page(db, q, total);
    Chain(db, count.issued, page.issued, [], []);
    if page.result.Err? {
      return Fetched(Err(page.result.error), count.issued + page.issued);
    }
    var rows := page.result.value;
    var tests := TestsByKey(db, rows, q.startDate.value, q.endDate.value);
    Chain(db, count.issued, page.issued, tests.issued, []);
    if tests.result.Err? {
      return Fetched(Err(tests.result.error), count.issued + page.issued + tests.issued);
    }
    var selfTests := SelfTestsByEntity(db, rows);
    var issued := count.issued + page.issued + tests.issued + selfTests.issued;
    Chain(db, count.issued, page.issued, tests.issued, selfTests.issued);
    if selfTests.result.Err? {
      return Fetched(Err(selfTests.result.error), issued);
    }
    return Fetched(Ok(Gathered(total, rows, tests.result.value)), issued);
  }

  /** `fetch` once the request is valid and a connection is open. */
  method FetchValid(db: Database, mapRow: RowMapper, q: IntegrationRequest) returns (r: Fetched<Envelope>)
    requires Repository.IsSchemaName(db.schema)
    requires IsServableRequest(q)
    ensures !(r.result.Err? && r.result.error.Invalid?)
    ensures Ordered(r.issued, db)
    ensures r.result == Err(DatabaseFailure) ==> r.issued != [] && r.issued[|r.issued| - 1] in db.failing
    ensures r.result.Ok? ==>
      var e := r.result.value;
      && e.pageNumber == q.pageIndex.value
      && e.pageSize == q.pageSize.value
      && e.totalRecords == db.count.GetOr(0)
      && (e.totalRecords == 0 ==> e.data == [] && r.issued == [CountServices])
      && (e.totalRecords != 0 ==> |e.data| == |db.services|)
    ensures r.result.Ok? && r.result.value.totalRecords != 0 ==>
      forall i :: 0 <= i < |db.services| ==> ItemOf(mapRow, db, db.services, db.services[i], r.result.value.data[i])
  {
    var gathered := Gather(db, q);
    if gathered.result.Err? {
      return Fetched(Err(gathered.result.error), gathered.issued);
    }
    var g := gathered.result.value;
    var data := MapPage(mapRow, g.rows, g.testsByKey);
    if data.Err? {
      return Fetched(Err(data.error), gathered.issued);
    }
    VisitsAreItems(mapRow, db, g.rows, g.testsByKey, data.value);
    return Fetched(Ok(Envelope(q.pageIndex.value, q.pageSize.value, g.total, data.value)), gathered.issued);
  }

  /** `OpenSrpIntegrationService.fetch`; a missing body is `None`.

      A request the validator rejects fails with exactly its messages before
      any statement runs. Statements run in a fixed order, each at most
      once, and none after one fails: what ran is a prefix of count, page,
      tests, self-tests. A database failure means the connection did not
      open or the last statement that ran failed. A response echoes the page
      asked for and the count, and holds one item per visit of the page, in
      order, each mapped with exactly the test rows that share its key; with
      nothing counted only the count runs and the page is empty. */
  method Fetch(db: Database, config: MapperConfig, request: Option<IntegrationRequest>) returns (r: Fetched<Envelope>)
    requires Repository.IsSchemaName(db.schema)
    ensures ValidateIntegrationRequest(request) != [] ==> r == Fetched(Err(Invalid(ValidateIntegrationRequest(request))), [])
    ensures ValidateIntegrationRequest(request) == [] ==> !(r.result.Err? && r.result.error.Invalid?)
    ensures Ordered(r.issued, db)
    ensures r.result == Err(DatabaseFailure) ==>
      (r.issued == [] && !db.connects) || (r.issued != [] && r.issued[|r.issued| - 1] in db.failing)
    ensures r.result.Ok? ==> request.Some? && IsServableRequest(request.value) && db.connects
    ensures r.result.Ok? ==>
      var q := request.value;
      var e := r.result.value;
      && e.pageNumber == q.pageIndex.value
      && e.pageSize == q.pageSize.value
      && e.totalRecords == db.count.GetOr(0)
      && (e.totalRecords == 0 ==> e.data == [] && r.issued == [CountServices])
      && (e.totalRecords != 0 ==> |e.data| == |db.services|)
    ensures r.result.Ok? && r.result.value.totalRecords != 0 ==>
      forall i :: 0 <= i < |db.services| ==> ItemOf(MapperOf(config), db, db.services, db.services[i], r.result.value.data[i])
  {
    var errors := ValidateIntegrationRequest(request);
    if errors != [] {
      return Fetched(Err(Invalid(errors)), []);
    }
    IntegrationRequestAccepted(request);
    if !db.connects {
      return Fetched(Err(DatabaseFailure), []);
    }
    r := FetchValid(db, MapperOf(config), request.value);
  }
}
