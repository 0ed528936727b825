/**
 * The service layer: it normalises the listing query, asks the repository,
 * and wraps the page into the response envelope; single lookups check the id
 * and turn the repository's "no row" into a not-found error.
 */
module Service {
  import opened Wrappers
  import opened Domain
  import opened Sql
  import Repository
  import Strconv

  const DefaultPage := 1
  const DefaultPageSize := 12
  const MaxPageSize := 100

  /** The errors the service returns; `Message` is the text of the Go error. */
  datatype Error =
    | InvalidServiceId(id: int)
    | LookupFailed(cause: string)
    | NotFound
    | ListFailed(cause: string)
  {
    /**
     * The id of an invalid-id error reads back from the end of its text, and
     * a wrapped store error ends with the store's own text.
     */
    function Message(): (m: string)
      ensures InvalidServiceId? && Strconv.MinInt64 <= id <= Strconv.MaxInt64 ==>
        |m| >= 20 && Strconv.Atoi(m[20..]) == Some(id)
      ensures (LookupFailed? || ListFailed?) ==> |cause| < |m| && m[|m| - |cause|..] == cause
    {
      match this
      case InvalidServiceId(id) =>
        var text := Strconv.FormatInt(id);
        var m := "invalid service ID: " + text;
        assert m[20..] == text;
        if Strconv.MinInt64 <= id <= Strconv.MaxInt64 then Strconv.AtoiFormatInt(id); m else m
      case LookupFailed(cause) =>
        var m := "failed to get service: " + cause;
        assert m[|m| - |cause|..] == cause;
        m
      case NotFound => "service not found"
      case ListFailed(cause) =>
        var m := "failed to get services: " + cause;
        assert m[|m| - |cause|..] == cause;
        m
    }
  }

  /** Only the not-found error has the text "service not found", whatever a store error says. */
  lemma NotFoundTextIsUnique(e: Error)
    ensures e.Message() == "service not found" <==> e == NotFound
  {
    if e != NotFound {
      assert e.Message()[0] != 's';
    }
  }

  /**
   * The query after defaulting and clamping: a non-positive page becomes 1, a
   * non-positive page size 12 and one above 100 becomes 100; a direction other
   * than exactly "asc" or "desc" becomes "asc". Search and column pass through.
   */
  function Normalize(q: ServiceQuery): (n: ServiceQuery)
    ensures n.page >= 1 && 1 <= n.pageSize <= MaxPageSize && n.sortDir in {"asc", "desc"}
    ensures n.page == (if q.page > 0 then q.page else DefaultPage)
    ensures n.pageSize == (if q.pageSize <= 0 then DefaultPageSize else if q.pageSize > MaxPageSize then MaxPageSize else q.pageSize)
    ensures n.sortDir == (if q.sortDir in {"asc", "desc"} then q.sortDir else "asc")
    ensures n.search == q.search && n.sortBy == q.sortBy
  {
    var page := if q.page <= 0 then DefaultPage else q.page;
    var pageSize := if q.pageSize <= 0 then DefaultPageSize else q.pageSize;
    var pageSize := if pageSize > MaxPageSize then MaxPageSize else pageSize;
    var sortDir := if q.sortDir != "asc" && q.sortDir != "desc" then "asc" else q.sortDir;
    q.(page := page, pageSize := pageSize, sortDir := sortDir)
  }

  /** Normalising twice changes nothing, and a query that is already valid is left alone. */
  lemma NormalizeIsIdempotent(q: ServiceQuery)
    ensures Normalize(Normalize(q)) == Normalize(q)
    ensures q.page >= 1 && 1 <= q.pageSize <= MaxPageSize && q.sortDir in {"asc", "desc"} ==> Normalize(q) == q
  {
  }

  /** Ceiling division: the fewest pages of `pageSize` items that hold `total` items. */
  function TotalPages(total: nat, pageSize: int): (pages: nat)
    requires pageSize >= 1
    ensures (pages - 1) * pageSize < total <= pages * pageSize
    ensures pages == 0 <==> total == 0
  {
    var pages := (total + pageSize - 1) / pageSize;
    CeilingDivision(total, pageSize, pages);
    pages
  }

  lemma CeilingDivision(total: nat, pageSize: int, pages: int)
    requires pageSize >= 1 && pages == (total + pageSize - 1) / pageSize
    ensures pages >= 0 && (pages - 1) * pageSize < total <= pages * pageSize
    ensures pages == 0 <==> total == 0
  {
    var m := total + pageSize - 1;
    if total == 0 {
      assert 0 <= m < pageSize;
    } else {
      assert m >= pageSize;
    }
    assert m == pages * pageSize + m % pageSize;
    assert (pages - 1) * pageSize == pages * pageSize - pageSize;
  }

  /** No items means no pages; 8 items make one page of 12 and two pages of 5. */
  lemma TotalPagesExamples()
    ensures TotalPages(0, 12) == 0 && TotalPages(8, 12) == 1 && TotalPages(8, 5) == 2
  {
  }

  /** What `GetServices` returns. */
  function ListServices(db: Database, q: ServiceQuery): Result<ServiceListResponse, Error> {
    var n := Normalize(q);
    Envelope(Repository.ListingOf(db, n), n)
  }

  /** The response for what the repository answered to the normalised query `n`. */
  function Envelope(listed: Result<Repository.Listing, string>, n: ServiceQuery): Result<ServiceListResponse, Error>
    requires n.pageSize >= 1
  {
    match listed
    case Err(e) => Err(ListFailed(e))
    case Ok(listing) =>
      Ok(ServiceListResponse(listing.items, listing.total, n.page, n.pageSize, TotalPages(listing.total, n.pageSize)))
  }

  /** What `GetServiceByID` returns. */
  function ServiceById(db: Database, id: int): Result<ServiceWithVersions, Error> {
    if id <= 0 then Err(InvalidServiceId(id))
    else match Repository.ByIdOf(db, id)
      case Err(e) => Err(LookupFailed(e))
      case Ok(None) => Err(NotFound)
      case Ok(Some(s)) => Ok(s)
  }

  method GetServices(db: Database, query: ServiceQuery) returns (r: Result<ServiceListResponse, Error>)
    ensures r == ListServices(db, query)
  {
    var q := query;
    if q.page <= 0 {
      q := q.(page := DefaultPage);
    }
    if q.pageSize <= 0 {
      q := q.(pageSize := DefaultPageSize);
    }
    if q.pageSize > MaxPageSize {
      q := q.(pageSize := MaxPageSize);
    }
    if q.sortDir != "asc" && q.sortDir != "desc" {
      q := q.(sortDir := "asc");
    }
    assert q == Normalize(query);

    var listed := Repository.GetAll(db, q);
    if listed.Err? {
      return Err(ListFailed(listed.error));
    }
    var totalPages := TotalPages(listed.value.total, q.pageSize);
    return Ok(ServiceListResponse(listed.value.items, listed.value.total, q.page, q.pageSize, totalPages));
  }

  method GetServiceByID(db: Database, id: int) returns (r: Result<ServiceWithVersions, Error>)
    ensures r == ServiceById(db, id)
  {
    if id <= 0 {
      return Err(InvalidServiceId(id));
    }
    var found := Repository.GetByID(db, id);
    if found.Err? {
      return Err(LookupFailed(found.error));
    }
    if found.value.None? {
      return Err(NotFound);
    }
    return Ok(found.value.value);
  }

  /**
   * For any repository answer, the envelope echoes the page and page size and
   * the repository's items and total, with the page count of `TotalPages`
   * (the ceiling of total / pageSize); an error yields the wrapped error and
   * no envelope.
   */
  lemma EnvelopeMeaning(listed: Result<Repository.Listing, string>, n: ServiceQuery)
    requires n.pageSize >= 1
    ensures Envelope(listed, n).Ok? <==> listed.Ok?
    ensures listed.Err? ==> Envelope(listed, n) == Err(ListFailed(listed.error))
    ensures listed.Ok? ==>
      var r := Envelope(listed, n).value;
      && r.services == listed.value.items
      && r.total == listed.value.total
      && r.page == n.page && r.pageSize == n.pageSize
      && r.totalPages == TotalPages(r.total, r.pageSize)
  {
  }

  /**
   * The listing envelope echoes the normalised page and page size and the
   * repository's items and total, with the page count of `TotalPages`.
   */
  lemma ListServicesEnvelope(db: Database, q: ServiceQuery)
    ensures ListServices(db, q).Ok? <==> Repository.ListingOf(db, Normalize(q)).Ok?
    ensures ListServices(db, q).Ok? ==>
      var r := ListServices(db, q).value;
      var listing := Repository.ListingOf(db, Normalize(q)).value;
      && r.services == listing.items
      && r.total == listing.total
      && r.page == Normalize(q).page >= 1
      && 1 <= r.pageSize == Normalize(q).pageSize <= MaxPageSize
      && r.totalPages == TotalPages(r.total, r.pageSize)
  {
    var n := Normalize(q);
    var listed := Repository.ListingOf(db, n);
    assert ListServices(db, q) == Envelope(listed, n);
    EnvelopeMeaning(listed, n);
  }

  /** A repository error yields the wrapped store error and no envelope. */
  lemma ListServicesFailure(db: Database, q: ServiceQuery)
    requires ListServices(db, q).Err?
    ensures ListServices(db, q).error == ListFailed(Repository.ListingOf(db, Normalize(q)).error)
    ensures ListServices(db, q).error.cause in db.failures.Values
  {
    Repository.ListingMeaning(db, Normalize(q));
  }

  /** An id below 1 fails the same way against every store: the repository is not consulted. */
  lemma InvalidIdSkipsRepository(db1: Database, db2: Database, id: int)
    requires id <= 0
    ensures ServiceById(db1, id) == ServiceById(db2, id) == Err(InvalidServiceId(id))
  {
  }

  /**
   * A lookup with a positive id fails with NotFound exactly when the store
   * answers without error and holds no such row; a success is that row.
   */
  lemma ServiceByIdOutcomes(db: Database, id: int)
    ensures ServiceById(db, id) == Err(NotFound) <==>
      id > 0 && LookupService(id) !in db.failures && forall s :: s in db.services ==> s.id != id
    ensures ServiceById(db, id).Ok? ==> ServiceById(db, id).value.service in db.services && ServiceById(db, id).value.service.id == id
    ensures ServiceById(db, id).Err? && ServiceById(db, id).error.LookupFailed? ==> ServiceById(db, id).error.cause in db.failures.Values
    ensures id > 0 && LookupService(id) in db.failures ==> ServiceById(db, id) == Err(LookupFailed(db.failures[LookupService(id)]))
  {
    Repository.ByIdMeaning(db, id);
  }
}
