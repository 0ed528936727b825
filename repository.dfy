/**
 * The service repository: it turns a `ServiceQuery` into statements and bound
 * arguments, runs them against the store, and pairs every listed service with
 * its versions. Each method is proved equal to a specification function
 * (`ListingOf`, `ByIdOf`, `VersionsOf`); the lemmas below state what those
 * functions promise.
 */
module Repository {
  import opened Wrappers
  import opened Domain
  import opened Sql
  import Strings
  import Strconv

  /** What `GetAll` returns on success: the page of items and the total number of matches. */
  datatype Listing = Listing(items: seq<ServiceWithVersions>, total: nat)

  const AllowedSortColumns: set<string> := {"name", "created_at", "updated_at"}

  /** The WHERE clause and its arguments: the search pattern, bound once per LIKE. */
  function SearchClause(search: string): (Where, seq<Arg>) {
    if search == "" then (NoFilter, [])
    else (NameOrDescriptionLike, [TextArg("%" + search + "%"), TextArg("%" + search + "%")])
  }

  /**
   * The ORDER BY clause, chosen from an allow-list: an empty or unknown
   * column falls back to `s.name ASC`, and DESC is chosen when the upper-cased
   * direction reads `DESC`.
   */
  function OrderByFor(sortBy: string, sortDir: string): (orderBy: OrderBy)
    ensures sortBy !in AllowedSortColumns ==> orderBy == OrderBy(Name, Asc)
    ensures sortBy == "name" ==> orderBy.column == Name
    ensures sortBy == "created_at" ==> orderBy.column == CreatedAt
    ensures sortBy == "updated_at" ==> orderBy.column == UpdatedAt
    ensures sortBy in AllowedSortColumns ==> (orderBy.direction == Desc <==> Strings.ToUpper(sortDir) == "DESC")
  {
    var direction := if Strings.ToUpper(sortDir) == "DESC" then Desc else Asc;
    match sortBy
    case "name" => OrderBy(Name, direction)
    case "created_at" => OrderBy(CreatedAt, direction)
    case "updated_at" => OrderBy(UpdatedAt, direction)
    case _ => OrderBy(Name, Asc)
  }

  /** Whatever the caller sends, the ORDER BY text is one of six fixed clauses. */
  lemma OrderByIsAllowListed(sortBy: string, sortDir: string)
    ensures OrderByFor(sortBy, sortDir).Text() in
      {"s.name ASC", "s.name DESC", "s.created_at ASC", "s.created_at DESC", "s.updated_at ASC", "s.updated_at DESC"}
  {
    var orderBy := OrderByFor(sortBy, sortDir);
    match orderBy.column {
      case Name =>
        assert orderBy.Text() == if orderBy.direction == Asc then "s.name ASC" else "s.name DESC";
      case CreatedAt =>
        assert orderBy.Text() == if orderBy.direction == Asc then "s.created_at ASC" else "s.created_at DESC";
      case UpdatedAt =>
        assert orderBy.Text() == if orderBy.direction == Asc then "s.updated_at ASC" else "s.updated_at DESC";
    }
  }

  /** The offset of a page, as a mathematical integer. */
  function Offset(page: int, pageSize: int): int {
    (page - 1) * pageSize
  }

  /** The rows the listing statement selects for the query. */
  function PageRows(db: Database, q: ServiceQuery): seq<Service> {
    var clause := SearchClause(q.search);
    Window(db.arrange(OrderByFor(q.sortBy, q.sortDir), Filter(db, clause.0, clause.1, db.services)),
           q.pageSize, Offset(q.page, q.pageSize))
  }

  /** `prefix` in front of the items of a successful result; errors pass through. */
  function Prepend<T>(prefix: seq<T>, r: Result<seq<T>, string>): Result<seq<T>, string> {
    match r
    case Ok(rest) => Ok(prefix + rest)
    case Err(e) => Err(e)
  }

  lemma PrependNothing<T>(r: Result<seq<T>, string>)
    ensures Prepend([], r) == r
  {
    if r.Ok? {
      assert [] + r.value == r.value;
    }
  }

  lemma PrependTwice<T>(p: seq<T>, q: seq<T>, r: Result<seq<T>, string>)
    ensures Prepend(p, Prepend(q, r)) == Prepend(p + q, r)
  {
    if r.Ok? {
      assert p + (q + r.value) == (p + q) + r.value;
    }
  }

  /** Scanning the version rows from row `k` on: the first scan failure wins. */
  function ScanVersionsFrom(db: Database, serviceId: int, rows: seq<ServiceVersion>, k: nat): Result<seq<ServiceVersion>, string>
    decreases |rows| - k
  {
    if k >= |rows| then Ok([])
    else if ScanVersion(serviceId, k) in db.failures then Err(db.failures[ScanVersion(serviceId, k)])
    else Prepend([rows[k]], ScanVersionsFrom(db, serviceId, rows, k + 1))
  }

  /** What `GetVersionsByServiceID` returns. */
  function VersionsOf(db: Database, serviceId: int): Result<seq<ServiceVersion>, string> {
    match ExecVersions(db, serviceId)
    case Err(e) => Err(e)
    case Ok(rows) => ScanVersionsFrom(db, serviceId, rows, 0)
  }

  /** Pairing the listed rows from row `k` on with their versions: the first failure wins. */
  function AssembleFrom(db: Database, rows: seq<Service>, k: nat): Result<seq<ServiceWithVersions>, string>
    decreases |rows| - k
  {
    if k >= |rows| then Ok([])
    else if ScanService(k) in db.failures then Err(db.failures[ScanService(k)])
    else match VersionsOf(db, rows[k].id)
      case Err(e) => Err(e)
      case Ok(versions) => Prepend([ServiceWithVersions(rows[k], versions)], AssembleFrom(db, rows, k + 1))
  }

  lemma AssembleStep(db: Database, rows: seq<Service>, k: nat)
    requires k < |rows| && ScanService(k) !in db.failures
    ensures VersionsOf(db, rows[k].id).Err? ==> AssembleFrom(db, rows, k) == Err(VersionsOf(db, rows[k].id).error)
    ensures VersionsOf(db, rows[k].id).Ok? ==>
      AssembleFrom(db, rows, k)
      == Prepend([ServiceWithVersions(rows[k], VersionsOf(db, rows[k].id).value)], AssembleFrom(db, rows, k + 1))
  {
  }

  /** What `GetAll` returns. */
  function ListingOf(db: Database, q: ServiceQuery): Result<Listing, string> {
    var clause := SearchClause(q.search);
    match ExecCount(db, clause.0, clause.1)
    case Err(e) => Err(e)
    case Ok(total) => PageOf(db, q, total)
  }

  /** The listing once the count is known: select the page, then pair each row with its versions. */
  function PageOf(db: Database, q: ServiceQuery, total: nat): Result<Listing, string> {
    var clause := SearchClause(q.search);
    var args := clause.1 + [IntArg(q.pageSize), IntArg(Offset(q.page, q.pageSize))];
    match ExecSelect(db, clause.0, OrderByFor(q.sortBy, q.sortDir), args)
    case Err(e) => Err(e)
    case Ok(rows) =>
      match AssembleFrom(db, rows, 0)
      case Err(e) => Err(e)
      case Ok(items) => Ok(Listing(items, total))
  }

  /** What `GetByID` returns: `Ok(None)` is the source's `(nil, nil)`. */
  function ByIdOf(db: Database, id: int): Result<Option<ServiceWithVersions>, string> {
    match ExecLookup(db, id)
    case Err(e) => Err(e)
    case Ok(None) => Ok(None)
    case Ok(Some(s)) =>
      match VersionsOf(db, s.id)
      case Err(e) => Err(e)
      case Ok(versions) => Ok(Some(ServiceWithVersions(s, versions)))
  }

  method GetVersionsByServiceID(db: Database, serviceId: int) returns (r: Result<seq<ServiceVersion>, string>)
    ensures r == VersionsOf(db, serviceId)
  {
    var queried := ExecVersions(db, serviceId);
    if queried.Err? {
      return Err(queried.error);
    }
    var rows := queried.value;
    var versions: seq<ServiceVersion> := [];
    PrependNothing(ScanVersionsFrom(db, serviceId, rows, 0));
    var k := 0;
    while k < |rows|
      invariant 0 <= k <= |rows|
      invariant ScanVersionsFrom(db, serviceId, rows, 0) == Prepend(versions, ScanVersionsFrom(db, serviceId, rows, k))
    {
      if ScanVersion(serviceId, k) in db.failures {
        return Err(db.failures[ScanVersion(serviceId, k)]);
      }
      PrependTwice(versions, [rows[k]], ScanVersionsFrom(db, serviceId, rows, k + 1));
      versions := versions + [rows[k]];
      k := k + 1;
    }
    assert versions + [] == versions;
    return Ok(versions);
  }

  method GetAll(db: Database, query: ServiceQuery) returns (r: Result<Listing, string>)
    ensures r == ListingOf(db, query)
  {
    var where := NoFilter;
    var args: seq<Arg> := [];
    if query.search != "" {
      where := NameOrDescriptionLike;
      var searchTerm := "%" + query.search + "%";
      args := args + [TextArg(searchTerm), TextArg(searchTerm)];
      assert args == [TextArg(searchTerm), TextArg(searchTerm)];
    }
    assert (where, args) == SearchClause(query.search);
    var orderBy := OrderByFor(query.sortBy, query.sortDir);

    var counted := ExecCount(db, where, args);
    if counted.Err? {
      return Err(counted.error);
    }
    var total := counted.value;
    assert ListingOf(db, query) == PageOf(db, query, total);

    var offset := Offset(query.page, query.pageSize);
    args := args + [IntArg(query.pageSize), IntArg(offset)];
    var selected := ExecSelect(db, where, orderBy, args);
    if selected.Err? {
      return Err(selected.error);
    }
    var rows := selected.value;
    var assembled := AssembleRows(db, rows);
    if assembled.Err? {
      return Err(assembled.error);
    }
    return Ok(Listing(assembled.value, total));
  }

  /** The row loop of `GetAll`: scan each selected row and fetch its versions, stopping at the first error. */
  method AssembleRows(db: Database, rows: seq<Service>) returns (r: Result<seq<ServiceWithVersions>, string>)
    ensures r == AssembleFrom(db, rows, 0)
  {
    var services: seq<ServiceWithVersions> := [];
    PrependNothing(AssembleFrom(db, rows, 0));
    var k := 0;
    while k < |rows|
      invariant 0 <= k <= |rows|
      invariant AssembleFrom(db, rows, 0) == Prepend(services, AssembleFrom(db, rows, k))
    {
      if ScanService(k) in db.failures {
        return Err(db.failures[ScanService(k)]);
      }
      var service := rows[k];
      var versions := GetVersionsByServiceID(db, service.id);
      AssembleStep(db, rows, k);
      if versions.Err? {
        return Err(versions.error);
      }
      PrependTwice(services, [ServiceWithVersions(service, versions.value)], AssembleFrom(db, rows, k + 1));
      services := services + [ServiceWithVersions(service, versions.value)];
      k := k + 1;
    }
    assert services + [] == services;
    return Ok(services);
  }

  method GetByID(db: Database, id: int) returns (r: Result<Option<ServiceWithVersions>, string>)
    ensures r == ByIdOf(db, id)
  {
    var found := ExecLookup(db, id);
    if found.Err? {
      return Err(found.error);
    }
    if found.value.None? {
      return Ok(None);
    }
    var service := found.value.value;
    var versions := GetVersionsByServiceID(db, service.id);
    if versions.Err? {
      return Err(versions.error);
    }
    return Ok(Some(ServiceWithVersions(service, versions.value)));
  }

  /** With an empty search there is no WHERE clause and nothing to bind; otherwise both LIKEs get the same pattern. */
  lemma SearchClauseBindsPattern(search: string)
    ensures var clause := SearchClause(search);
      && |clause.1| == clause.0.Arity()
      && (search == "" <==> clause.0.Text() == "")
      && forall a :: a in clause.1 ==> a == TextArg("%" + search + "%")
  {
  }

  /** Scanning versions returns every row, or fails with the text of a scan error: never some of the rows. */
  lemma {:induction false} ScanVersionsAllOrNothing(db: Database, serviceId: int, rows: seq<ServiceVersion>, k: nat)
    requires k <= |rows|
    ensures var r := ScanVersionsFrom(db, serviceId, rows, k);
      && (r.Ok? ==> r.value == rows[k..])
      && (r.Err? ==> r.error in db.failures.Values)
      && (r.Err? <==> exists j :: k <= j < |rows| && ScanVersion(serviceId, j) in db.failures)
    decreases |rows| - k
  {
    if k < |rows| && ScanVersion(serviceId, k) !in db.failures {
      ScanVersionsAllOrNothing(db, serviceId, rows, k + 1);
      var rest := ScanVersionsFrom(db, serviceId, rows, k + 1);
      if rest.Ok? {
        assert [rows[k]] + rows[k + 1..] == rows[k..];
      }
      assert (exists j :: k <= j < |rows| && ScanVersion(serviceId, j) in db.failures)
        <==> (exists j :: k + 1 <= j < |rows| && ScanVersion(serviceId, j) in db.failures);
    }
  }

  /** A successful version fetch is everything the store holds for the service, in the store's order. */
  lemma VersionsOfMeaning(db: Database, serviceId: int)
    ensures VersionsOf(db, serviceId).Ok? ==>
      VersionsOf(db, serviceId).value == db.newestFirst(VersionsFor(db.versions, serviceId))
    ensures VersionsOf(db, serviceId).Err? ==> VersionsOf(db, serviceId).error in db.failures.Values
    ensures db.failures == map[] ==> VersionsOf(db, serviceId).Ok?
  {
    var queried := ExecVersions(db, serviceId);
    if queried.Ok? {
      ScanVersionsAllOrNothing(db, serviceId, queried.value, 0);
    }
  }

  /** Every fetched version belongs to the requested service, newest first, and none is missing. */
  lemma VersionsBelongToService(db: Database, serviceId: int)
    requires Orders(db)
    requires VersionsOf(db, serviceId).Ok?
    ensures var versions := VersionsOf(db, serviceId).value;
      && NewestFirst(versions)
      && multiset(versions) == multiset(VersionsFor(db.versions, serviceId))
      && forall v :: v in versions ==> v.serviceId == serviceId
  {
    VersionsOfMeaning(db, serviceId);
    var versions := VersionsOf(db, serviceId).value;
    forall v | v in versions
      ensures v.serviceId == serviceId
    {
      assert v in multiset(versions);
    }
  }

  /**
   * Pairing rows with versions fails exactly when some row's scan or version
   * fetch fails, only with the text of a store error, and never against a
   * healthy store.
   */
  lemma {:induction false} AssembleFailsOnlyInStore(db: Database, rows: seq<Service>, k: nat)
    requires k <= |rows|
    ensures AssembleFrom(db, rows, k).Err? <==>
      exists j :: k <= j < |rows| && (ScanService(j) in db.failures || VersionsOf(db, rows[j].id).Err?)
    ensures AssembleFrom(db, rows, k).Err? ==> AssembleFrom(db, rows, k).error in db.failures.Values
    ensures db.failures == map[] ==> AssembleFrom(db, rows, k).Ok?
    decreases |rows| - k
  {
    if k < |rows| && ScanService(k) !in db.failures {
      VersionsOfMeaning(db, rows[k].id);
      AssembleStep(db, rows, k);
      AssembleFailsOnlyInStore(db, rows, k + 1);
      if VersionsOf(db, rows[k].id).Ok? {
        assert (exists j :: k <= j < |rows| && (ScanService(j) in db.failures || VersionsOf(db, rows[j].id).Err?))
          <==> (exists j :: k + 1 <= j < |rows| && (ScanService(j) in db.failures || VersionsOf(db, rows[j].id).Err?));
      }
    }
  }

  /**
   * A successful pairing holds every row from `k` on, in row order, each with
   * exactly its own versions: a partial list is never returned.
   */
  lemma {:induction false} AssembleAllOrNothing(db: Database, rows: seq<Service>, k: nat)
    requires k <= |rows|
    ensures var r := AssembleFrom(db, rows, k);
      r.Ok? ==>
        && |r.value| == |rows| - k
        && forall i :: 0 <= i < |r.value| ==>
             && r.value[i].service == rows[k + i]
             && VersionsOf(db, rows[k + i].id) == Ok(r.value[i].versions)
    decreases |rows| - k
  {
    var r := AssembleFrom(db, rows, k);
    if k < |rows| && r.Ok? {
      assert ScanService(k) !in db.failures;
      AssembleStep(db, rows, k);
      var versions := VersionsOf(db, rows[k].id);
      assert versions.Ok?;
      AssembleAllOrNothing(db, rows, k + 1);
      var rest := AssembleFrom(db, rows, k + 1).value;
      assert r.value == [ServiceWithVersions(rows[k], versions.value)] + rest;
      forall i | 1 <= i < |r.value|
        ensures r.value[i].service == rows[k + i] && VersionsOf(db, rows[k + i].id) == Ok(r.value[i].versions)
      {
        assert r.value[i] == rest[i - 1];
      }
    }
  }

  /**
   * A successful listing: `total` counts every match and ignores paging; the
   * items are the selected page's rows, in order, each with exactly the
   * versions fetched for its id. A failed listing carries a store error,
   * never a mismatch between the statement and its arguments.
   */
  lemma ListingMeaning(db: Database, q: ServiceQuery)
    ensures var r := ListingOf(db, q);
      var clause := SearchClause(q.search);
      && (r.Ok? ==>
            && r.value.total == |Filter(db, clause.0, clause.1, db.services)|
            && |r.value.items| == |PageRows(db, q)|
            && forall i :: 0 <= i < |r.value.items| ==>
                 && r.value.items[i].service == PageRows(db, q)[i]
                 && VersionsOf(db, PageRows(db, q)[i].id) == Ok(r.value.items[i].versions))
      && (r.Err? <==>
            || CountServices in db.failures
            || SelectServices in db.failures
            || exists j :: 0 <= j < |PageRows(db, q)| &&
                 (ScanService(j) in db.failures || VersionsOf(db, PageRows(db, q)[j].id).Err?))
      && (r.Err? ==> r.error in db.failures.Values)
      && (db.failures == map[] ==> r.Ok?)
  {
    var clause := SearchClause(q.search);
    var args := clause.1 + [IntArg(q.pageSize), IntArg(Offset(q.page, q.pageSize))];
    var selected := ExecSelect(db, clause.0, OrderByFor(q.sortBy, q.sortDir), args);
    if selected.Ok? {
      assert args[|args| - 2] == IntArg(q.pageSize) && args[|args| - 1] == IntArg(Offset(q.page, q.pageSize));
      assert args[..|args| - 2] == clause.1;
      assert selected.value == PageRows(db, q);
      AssembleFailsOnlyInStore(db, selected.value, 0);
      AssembleAllOrNothing(db, selected.value, 0);
    }
  }

  /** Against a store whose orderings sort, the selected page is sorted and holds only matching services. */
  lemma PageRowsSortedAndMatching(db: Database, q: ServiceQuery)
    requires Orders(db)
    ensures SortedBy(PageRows(db, q), OrderByFor(q.sortBy, q.sortDir))
    ensures forall s :: s in PageRows(db, q) ==>
      s in db.services && Matches(db, SearchClause(q.search).0, SearchClause(q.search).1, s)
  {
    var clause := SearchClause(q.search);
    ArrangedWindow(db, clause.0, clause.1, OrderByFor(q.sortBy, q.sortDir), q.pageSize, Offset(q.page, q.pageSize));
  }

  /**
   * Against a store whose orderings sort, the page is sorted by the chosen
   * clause, every listed service matches the search, and every item's
   * versions belong to it, newest first.
   */
  lemma ListingIsOrdered(db: Database, q: ServiceQuery)
    requires Orders(db)
    requires ListingOf(db, q).Ok?
    ensures var items := ListingOf(db, q).value.items;
      var clause := SearchClause(q.search);
      && (forall i, j :: 0 <= i < j < |items| ==> InOrder(items[i].service, items[j].service, OrderByFor(q.sortBy, q.sortDir)))
      && (forall i :: 0 <= i < |items| ==> items[i].service in db.services && Matches(db, clause.0, clause.1, items[i].service))
      && (forall i :: 0 <= i < |items| ==> NewestFirst(items[i].versions))
      && (forall i, v :: 0 <= i < |items| && v in items[i].versions ==> v.serviceId == items[i].service.id)
  {
    ListingMeaning(db, q);
    PageRowsSortedAndMatching(db, q);
    var items := ListingOf(db, q).value.items;
    var rows := PageRows(db, q);
    forall i | 0 <= i < |items|
      ensures rows[i] in rows && NewestFirst(items[i].versions)
      ensures forall v :: v in items[i].versions ==> v.serviceId == items[i].service.id
    {
      VersionsBelongToService(db, rows[i].id);
    }
  }

  lemma {:induction false} NoFilterKeepsAll(db: Database, args: seq<Arg>, rows: seq<Service>)
    ensures Filter(db, NoFilter, args, rows) == rows
  {
    if rows != [] {
      NoFilterKeepsAll(db, args, rows[1..]);
      assert Matches(db, NoFilter, args, rows[0]);
      assert Filter(db, NoFilter, args, rows) == [rows[0]] + Filter(db, NoFilter, args, rows[1..]);
      assert [rows[0]] + rows[1..] == rows;
    }
  }

  /** The services of a page of items, in page order. */
  function ServicesOf(items: seq<ServiceWithVersions>): (r: seq<Service>)
    ensures |r| == |items|
    ensures forall i :: 0 <= i < |r| ==> r[i] == items[i].service
  {
    seq(|items|, i requires 0 <= i < |items| => items[i].service)
  }

  /**
   * Without a search, the first page of a healthy store, if large enough,
   * holds every row of the table, each exactly as often as the table does.
   */
  lemma UnfilteredFirstPageHoldsAll(db: Database, q: ServiceQuery)
    requires Orders(db) && db.failures == map[]
    requires q.search == "" && q.page == 1 && q.pageSize >= |db.services|
    ensures ListingOf(db, q).Ok?
    ensures ListingOf(db, q).value.total == |db.services| == |ListingOf(db, q).value.items|
    ensures multiset(ServicesOf(ListingOf(db, q).value.items)) == multiset(db.services)
  {
    ListingMeaning(db, q);
    NoFilterKeepsAll(db, [], db.services);
    var arranged := db.arrange(OrderByFor(q.sortBy, q.sortDir), db.services);
    assert |arranged| == |multiset(arranged)| == |multiset(db.services)| == |db.services|;
    assert PageRows(db, q) == Window(arranged, q.pageSize, 0) == arranged;
    assert ServicesOf(ListingOf(db, q).value.items) == arranged;
  }

  /** A successful lookup is the row with that id and all of its versions; `Ok(None)` means there is no such row. */
  lemma ByIdMeaning(db: Database, id: int)
    ensures var r := ByIdOf(db, id);
      && (r == Ok(None) <==> LookupService(id) !in db.failures && forall s :: s in db.services ==> s.id != id)
      && (r.Ok? && r.value.Some? ==>
            && r.value.value.service in db.services
            && r.value.value.service.id == id
            && VersionsOf(db, id) == Ok(r.value.value.versions))
      && (r.Err? <==> LookupService(id) in db.failures || ((exists s :: s in db.services && s.id == id) && VersionsOf(db, id).Err?))
      && (r.Err? ==> r.error in db.failures.Values)
  {
    var found := ExecLookup(db, id);
    if found.Ok? && found.value.Some? {
      VersionsOfMeaning(db, found.value.value.id);
    }
  }

  // ---------------------------------------------------------------------------
  // The page offset in 64-bit arithmetic.

  /** Go's `int` multiplication keeps the low 64 bits, read as two's complement. */
  function Wrap64(x: int): (r: int)
    ensures Strconv.MinInt64 <= r <= Strconv.MaxInt64
    ensures Strconv.MinInt64 <= x <= Strconv.MaxInt64 ==> r == x
    ensures (x - r) % 0x1_0000_0000_0000_0000 == 0
  {
    var m := x % 0x1_0000_0000_0000_0000;
    if m > Strconv.MaxInt64 then m - 0x1_0000_0000_0000_0000 else m
  }

  /** The offset as the source computes it, `(Page-1)*PageSize` in 64-bit `int`. */
  function WrappedOffset(page: int, pageSize: int): int {
    Wrap64((page - 1) * pageSize)
  }

  /** The rows selected when the offset wraps. */
  function PageRowsAsWritten(db: Database, q: ServiceQuery): seq<Service> {
    var clause := SearchClause(q.search);
    Window(db.arrange(OrderByFor(q.sortBy, q.sortDir), Filter(db, clause.0, clause.1, db.services)),
           q.pageSize, WrappedOffset(q.page, q.pageSize))
  }

  /**
   * Page 2^62 + 1 of size 4 is accepted by the handler and the service, lies
   * past the end of any table, yet its offset wraps to 0 and it returns the
   * first rows again.
   */
  lemma WrappedOffsetRepeatsFirstPage(db: Database, q: ServiceQuery)
    requires Orders(db)
    requires q.page == 0x4000_0000_0000_0001 && q.pageSize == 4
    requires |db.services| <= Strconv.MaxInt64
    requires |Filter(db, SearchClause(q.search).0, SearchClause(q.search).1, db.services)| > 0
    ensures WrappedOffset(q.page, q.pageSize) == 0
    ensures Offset(q.page, q.pageSize) >= |Filter(db, SearchClause(q.search).0, SearchClause(q.search).1, db.services)|
    ensures |PageRowsAsWritten(db, q)| > 0
  {
    var clause := SearchClause(q.search);
    var matching := Filter(db, clause.0, clause.1, db.services);
    var arranged := db.arrange(OrderByFor(q.sortBy, q.sortDir), matching);
    assert |arranged| == |multiset(arranged)| == |multiset(matching)| == |matching|;
  }

  /** With the offset computed exactly, a page that starts past the last match is empty. */
  lemma PageBeyondLastIsEmpty(db: Database, q: ServiceQuery)
    requires Orders(db)
    requires q.page >= 1 && q.pageSize >= 1
    requires ListingOf(db, q).Ok?
    requires Offset(q.page, q.pageSize) >= ListingOf(db, q).value.total
    ensures ListingOf(db, q).value.items == []
  {
    ListingMeaning(db, q);
    var clause := SearchClause(q.search);
    var matching := Filter(db, clause.0, clause.1, db.services);
    var arranged := db.arrange(OrderByFor(q.sortBy, q.sortDir), matching);
    assert |arranged| == |multiset(arranged)| == |multiset(matching)| == |matching|;
  }
}
