/**
 * The relational store behind `database/sql`, reduced to what the repository
 * observes: the two tables, the statements it issues, the arguments bound to
 * their `?` placeholders, and the calls that may fail.
 *
 * How LIKE compares text and how rows with equal sort keys are ordered belong
 * to the store; they are parameters here (`like`, `arrange`, `newestFirst`),
 * constrained only by `Orders`.
 */
module Sql {
  import opened Wrappers
  import opened Domain
  import Strconv

  /** A value bound to a `?` placeholder. */
  datatype Arg = TextArg(text: string) | IntArg(number: int)

  /** The sortable columns of `services`. */
  datatype Column = Name | CreatedAt | UpdatedAt {
    function Text(): string {
      match this
      case Name => "s.name"
      case CreatedAt => "s.created_at"
      case UpdatedAt => "s.updated_at"
    }
  }

  datatype Direction = Asc | Desc {
    function Text(): string {
      if Asc? then "ASC" else "DESC"
    }
  }

  /** An ORDER BY clause over one column. */
  datatype OrderBy = OrderBy(column: Column, direction: Direction) {
    function Text(): string {
      column.Text() + " " + direction.Text()
    }
  }

  /** The WHERE clause of the listing: none, or the search over name and description. */
  datatype Where = NoFilter | NameOrDescriptionLike {
    function Text(): string {
      if NoFilter? then "" else "WHERE s.name LIKE ? OR s.description LIKE ?"
    }

    /** The number of `?` placeholders in the clause, hence of arguments it binds. */
    function Arity(): nat {
      if NoFilter? then 0 else 2
    }
  }

  /** The error database/sql reports when the arguments do not match the placeholders. */
  function ArityError(want: int, got: int): string {
    "sql: expected " + Strconv.FormatInt(want) + " arguments, got " + Strconv.FormatInt(got)
  }

  /** Store interactions that can fail; `row` counts the rows scanned so far. */
  datatype Call =
    | CountServices
    | SelectServices
    | ScanService(row: nat)
    | SelectVersions(serviceId: int)
    | ScanVersion(serviceId: int, row: nat)
    | LookupService(id: int)

  /**
   * The store: the rows of both tables in insertion order, the store's LIKE
   * test `like(text, pattern)`, its ORDER BY on services and on versions, and
   * the calls that fail, with the text of their error.
   */
  datatype Database = Database(
    services: seq<Service>,
    versions: seq<ServiceVersion>,
    like: (string, string) -> bool,
    arrange: (OrderBy, seq<Service>) -> seq<Service>,
    newestFirst: seq<ServiceVersion> -> seq<ServiceVersion>,
    failures: map<Call, string>)

  /** Lexicographic order on strings, character by character. */
  predicate TextLe(a: string, b: string) {
    a == [] || (b != [] && (a[0] < b[0] || (a[0] == b[0] && TextLe(a[1..], b[1..]))))
  }

  predicate KeyLe(a: Service, b: Service, column: Column) {
    match column
    case Name => TextLe(a.name, b.name)
    case CreatedAt => a.createdAt <= b.createdAt
    case UpdatedAt => a.updatedAt <= b.updatedAt
  }

  /** `a` may come before `b` under the clause. */
  predicate InOrder(a: Service, b: Service, orderBy: OrderBy) {
    if orderBy.direction == Asc then KeyLe(a, b, orderBy.column) else KeyLe(b, a, orderBy.column)
  }

  predicate SortedBy(rows: seq<Service>, orderBy: OrderBy) {
    forall i, j :: 0 <= i < j < |rows| ==> InOrder(rows[i], rows[j], orderBy)
  }

  predicate NewestFirst(versions: seq<ServiceVersion>) {
    forall i, j :: 0 <= i < j < |versions| ==> versions[i].createdAt >= versions[j].createdAt
  }

  /** The store's orderings rearrange their input, and sort it; ties stay the store's own business. */
  ghost predicate Orders(db: Database) {
    && (forall orderBy, rows :: multiset(db.arrange(orderBy, rows)) == multiset(rows)
                               && SortedBy(db.arrange(orderBy, rows), orderBy))
    && (forall vs :: multiset(db.newestFirst(vs)) == multiset(vs) && NewestFirst(db.newestFirst(vs)))
  }

  /** The text a bound argument compares as. */
  function ArgText(a: Arg): string {
    match a
    case TextArg(t) => t
    case IntArg(n) => Strconv.FormatInt(n)
  }

  function ArgNumber(a: Arg): int {
    if a.IntArg? then a.number else 0
  }

  /** The WHERE clause with `args` bound to its placeholders, in order. */
  predicate Matches(db: Database, where: Where, args: seq<Arg>, s: Service) {
    match where
    case NoFilter => true
    case NameOrDescriptionLike =>
      |args| >= 2 && (db.like(s.name, ArgText(args[0])) || db.like(s.description, ArgText(args[1])))
  }

  /** The rows that satisfy the WHERE clause, in their stored order. */
  function Filter(db: Database, where: Where, args: seq<Arg>, rows: seq<Service>): (r: seq<Service>)
    ensures |r| <= |rows|
    ensures forall s :: s in r <==> s in rows && Matches(db, where, args, s)
    ensures forall s :: multiset(r)[s] == if Matches(db, where, args, s) then multiset(rows)[s] else 0
  {
    if rows == [] then []
    else
      assert rows == [rows[0]] + rows[1..];
      (if Matches(db, where, args, rows[0]) then [rows[0]] else []) + Filter(db, where, args, rows[1..])
  }

  /** The versions whose `service_id` is `serviceId`, in their stored order. */
  function VersionsFor(versions: seq<ServiceVersion>, serviceId: int): (r: seq<ServiceVersion>)
    ensures forall v :: v in r <==> v in versions && v.serviceId == serviceId
    ensures forall v :: multiset(r)[v] == if v.serviceId == serviceId then multiset(versions)[v] else 0
  {
    if versions == [] then []
    else
      assert versions == [versions[0]] + versions[1..];
      (if versions[0].serviceId == serviceId then [versions[0]] else []) + VersionsFor(versions[1..], serviceId)
  }

  /**
   * LIMIT `limit` OFFSET `offset` as SQLite applies them: a negative offset
   * counts as zero and a negative limit as no limit.
   */
  function Window<T>(rows: seq<T>, limit: int, offset: int): (w: seq<T>)
    ensures var start := if offset < 0 then 0 else offset;
      && |w| == (if start >= |rows| then 0 else if 0 <= limit < |rows| - start then limit else |rows| - start)
      && forall i :: 0 <= i < |w| ==> w[i] == rows[start + i]
  {
    var start := if offset < 0 then 0 else offset;
    if start >= |rows| then []
    else if 0 <= limit < |rows| - start then rows[start..start + limit]
    else rows[start..]
  }

  /** A LIMIT/OFFSET window of sorted rows is sorted and holds only those rows. */
  lemma WindowKeepsOrder(rows: seq<Service>, orderBy: OrderBy, limit: int, offset: int)
    requires SortedBy(rows, orderBy)
    ensures SortedBy(Window(rows, limit, offset), orderBy)
    ensures forall s :: s in Window(rows, limit, offset) ==> s in rows
  {
    var w := Window(rows, limit, offset);
    var start := if offset < 0 then 0 else offset;
    forall i, j | 0 <= i < j < |w|
      ensures InOrder(w[i], w[j], orderBy)
    {
      assert w[i] == rows[start + i] && w[j] == rows[start + j];
    }
    forall s | s in w
      ensures s in rows
    {
      var i :| 0 <= i < |w| && w[i] == s;
      assert w[i] == rows[start + i];
    }
  }

  /** Against a store whose orderings sort, a window of the arranged matches is sorted and holds only matches. */
  lemma ArrangedWindow(db: Database, where: Where, args: seq<Arg>, orderBy: OrderBy, limit: int, offset: int)
    ensures var w := Window(db.arrange(orderBy, Filter(db, where, args, db.services)), limit, offset);
      Orders(db) ==>
        && SortedBy(w, orderBy)
        && forall s :: s in w ==> s in db.services && Matches(db, where, args, s)
  {
    if Orders(db) {
      var matching := Filter(db, where, args, db.services);
      var arranged := db.arrange(orderBy, matching);
      assert SortedBy(arranged, orderBy) && multiset(arranged) == multiset(matching);
      WindowKeepsOrder(arranged, orderBy, limit, offset);
      forall s | s in Window(arranged, limit, offset)
        ensures s in db.services && Matches(db, where, args, s)
      {
        assert s in multiset(arranged);
      }
    }
  }

  /** `SELECT COUNT(*) FROM services s <where>`: the number of matching rows. */
  function ExecCount(db: Database, where: Where, args: seq<Arg>): (r: Result<nat, string>)
    ensures r.Err? <==> CountServices in db.failures || where.Arity() != |args|
    ensures r.Err? ==> r.error in db.failures.Values || r.error == ArityError(where.Arity(), |args|)
    ensures r.Ok? ==> r.value <= |db.services|
    ensures r.Ok? ==> r.value == |Filter(db, where, args, db.services)|
  {
    if CountServices in db.failures then Err(db.failures[CountServices])
    else if where.Arity() != |args| then Err(ArityError(where.Arity(), |args|))
    else Ok(|Filter(db, where, args, db.services)|)
  }

  /**
   * `SELECT ... FROM services s <where> ORDER BY <orderBy> LIMIT ? OFFSET ?`:
   * filter, order, then LIMIT and OFFSET from the last two arguments.
   */
  function ExecSelect(db: Database, where: Where, orderBy: OrderBy, args: seq<Arg>): (r: Result<seq<Service>, string>)
    ensures r.Err? <==> SelectServices in db.failures || where.Arity() + 2 != |args|
    ensures r.Err? ==> r.error in db.failures.Values || r.error == ArityError(where.Arity() + 2, |args|)
    ensures r.Ok? && ArgNumber(args[|args| - 2]) >= 0 ==> |r.value| <= ArgNumber(args[|args| - 2])
  {
    if SelectServices in db.failures then Err(db.failures[SelectServices])
    else if where.Arity() + 2 != |args| then Err(ArityError(where.Arity() + 2, |args|))
    else
      var rows := db.arrange(orderBy, Filter(db, where, args[..|args| - 2], db.services));
      Ok(Window(rows, ArgNumber(args[|args| - 2]), ArgNumber(args[|args| - 1])))
  }

  /** `SELECT ... FROM service_versions WHERE service_id = ? ORDER BY created_at DESC`. */
  function ExecVersions(db: Database, serviceId: int): (r: Result<seq<ServiceVersion>, string>)
    ensures r.Err? <==> SelectVersions(serviceId) in db.failures
    ensures r.Err? ==> r.error in db.failures.Values
  {
    if SelectVersions(serviceId) in db.failures then Err(db.failures[SelectVersions(serviceId)])
    else Ok(db.newestFirst(VersionsFor(db.versions, serviceId)))
  }

  /**
   * Against a store whose orderings sort, the versions query returns the
   * service's versions newest first, each as often as the table holds it.
   */
  lemma ExecVersionsMeaning(db: Database, serviceId: int)
    requires Orders(db)
    requires ExecVersions(db, serviceId).Ok?
    ensures NewestFirst(ExecVersions(db, serviceId).value)
    ensures forall v :: multiset(ExecVersions(db, serviceId).value)[v]
                        == if v.serviceId == serviceId then multiset(db.versions)[v] else 0
  {
    var matching := VersionsFor(db.versions, serviceId);
    assert multiset(db.newestFirst(matching)) == multiset(matching);
  }

  /** The first service with the id, if any. */
  function FindById(rows: seq<Service>, id: int): (r: Option<Service>)
    ensures r.Some? <==> exists s :: s in rows && s.id == id
    ensures r.Some? ==> r.value in rows && r.value.id == id
  {
    if rows == [] then None
    else if rows[0].id == id then Some(rows[0])
    else FindById(rows[1..], id)
  }

  /** `QueryRow(... WHERE id = ?).Scan(...)`: a failure, no row (`sql.ErrNoRows`), or the row. */
  function ExecLookup(db: Database, id: int): (r: Result<Option<Service>, string>)
    ensures r.Err? <==> LookupService(id) in db.failures
    ensures r.Err? ==> r.error in db.failures.Values
    ensures r == Ok(None) <==> LookupService(id) !in db.failures && forall s :: s in db.services ==> s.id != id
    ensures r.Ok? && r.value.Some? ==> r.value.value in db.services && r.value.value.id == id
  {
    if LookupService(id) in db.failures then Err(db.failures[LookupService(id)])
    else Ok(FindById(db.services, id))
  }
}
