/**
 * The layers put together: the two guarded routes (authentication, then the
 * role check for "admin" or "viewer", then the handler), the direction that a
 * request's `sort_dir` finally gives the ORDER BY clause, and the first page
 * of the seeded catalogue.
 */
module Pipeline {
  import opened Wrappers
  import opened Domain
  import opened Sql
  import opened Http
  import Repository
  import Service
  import Handler
  import Middleware
  import Strings
  import Strconv

  const RouteRoles: seq<string> := ["admin", "viewer"]

  /** GET /api/v1/services behind the authentication middleware and the role check. */
  method ServeListServices(db: Database, authorization: string, params: map<string, string>) returns (resp: Response)
    ensures Middleware.Authenticate(authorization).Rejected? ==> resp == Middleware.Authenticate(authorization).response
    ensures Middleware.Authenticate(authorization).Authenticated? ==>
      var r := Service.ListServices(db, Handler.ListQueryOf(params));
      resp == if r.Ok? then Response(StatusOK, ListBody(r.value)) else Error("Internal server error", StatusInternalServerError)
  {
    var outcome := Middleware.Authenticate(authorization);
    if outcome.Rejected? {
      return outcome.response;
    }
    var gate := Middleware.RoleAuthorization(RouteRoles, Some(outcome.user));
    match gate {
      case Deny(denied) =>
        KnownUsersMayPass(authorization);
        assert false;
        return denied;
      case Forward =>
    }
    resp := Handler.GetServices(db, params);
  }

  /** GET /api/v1/services/{id} behind the authentication middleware and the role check. */
  method ServeServiceByID(db: Database, authorization: string, vars: map<string, string>) returns (resp: Response)
    ensures Middleware.Authenticate(authorization).Rejected? ==> resp == Middleware.Authenticate(authorization).response
    ensures Middleware.Authenticate(authorization).Authenticated? && "id" !in vars ==>
      resp == Error("Service ID is required", StatusBadRequest)
    ensures Middleware.Authenticate(authorization).Authenticated? && "id" in vars && Strconv.Atoi(vars["id"]).None? ==>
      resp == Error("Invalid service ID", StatusBadRequest)
    ensures Middleware.Authenticate(authorization).Authenticated? && "id" in vars && Strconv.Atoi(vars["id"]).Some? ==>
      var r := Service.ServiceById(db, Strconv.Atoi(vars["id"]).value);
      && (r.Ok? ==> resp == Response(StatusOK, ServiceBody(r.value)))
      && (r.Err? ==> resp == Handler.ErrorResponse(r.error))
      && (resp.status == StatusNotFound <==> r == Err(Service.NotFound))
    ensures Middleware.Authenticate(authorization).Authenticated? ==> resp.status != StatusUnauthorized && resp.status != StatusForbidden
  {
    var outcome := Middleware.Authenticate(authorization);
    if outcome.Rejected? {
      return outcome.response;
    }
    var gate := Middleware.RoleAuthorization(RouteRoles, Some(outcome.user));
    match gate {
      case Deny(denied) =>
        KnownUsersMayPass(authorization);
        assert false;
        return denied;
      case Forward =>
    }
    resp := Handler.GetServiceByID(db, vars);
  }

  /** Both users of the token table hold a role of the guarded routes, so the role check never answers 403 there. */
  lemma KnownUsersMayPass(authorization: string)
    requires Middleware.Authenticate(authorization).Authenticated?
    ensures var user := Middleware.Authenticate(authorization).user;
      exists i :: 0 <= i < |user.roles| && user.roles[i] in RouteRoles
  {
    Middleware.AuthenticatedExactly(authorization);
    var user := Middleware.Authenticate(authorization).user;
    assert user.roles[0] in RouteRoles;
  }

  /** The ORDER BY clause a request finally reaches. */
  function EffectiveOrder(params: map<string, string>): OrderBy {
    var q := Service.Normalize(Handler.ListQueryOf(params));
    Repository.OrderByFor(q.sortBy, q.sortDir)
  }

  /**
   * The ORDER BY clause is DESC exactly when `sort_dir` is the lower-case
   * "desc" and `sort_by` names an allowed column: the service turns "DESC" into
   * "asc" before the repository upper-cases the direction.
   */
  lemma DescendingOnlyForExactDesc(params: map<string, string>)
    ensures EffectiveOrder(params).direction == Desc <==>
      Handler.Param(params, "sort_dir") == "desc" && Handler.Param(params, "sort_by") in Repository.AllowedSortColumns
  {
    assert Strings.ToUpper("desc") == "DESC";
    assert |Strings.ToUpper("asc")| == 3;
  }

  /** The eight services the database is seeded with, ids 1 to 8, all stamped `t`. */
  function SeedServices(t: int): seq<Domain.Service> {
    var lorem := "Lorem ipsum dolor sit amet, consectetur adipiscing elit. Turpis non a, pellentesque ipsum aliquet id...";
    [ Domain.Service(1, "Locate Us", lorem, t, t),
      Domain.Service(2, "Collect Monday", lorem, t, t),
      Domain.Service(3, "Contact Us", lorem, t, t),
      Domain.Service(4, "FX Rates International", lorem, t, t),
      Domain.Service(5, "Notifications", lorem, t, t),
      Domain.Service(6, "Priority Services", lorem, t, t),
      Domain.Service(7, "Reporting", lorem, t, t),
      Domain.Service(8, "Security", lorem, t, t) ]
  }

  /** The query a request without parameters reaches the repository with. */
  const FirstPageQuery := ServiceQuery("", "", "asc", 1, 12)

  lemma NoParametersQuery()
    ensures Service.Normalize(Handler.ListQueryOf(map[])) == FirstPageQuery
  {
  }

  /** The repository's answer to that query against the seeded store: the eight seeded services, total 8. */
  lemma SeededListing(db: Database, t: int)
    requires Orders(db)
    requires db.services == SeedServices(t) && db.failures == map[]
    ensures Repository.ListingOf(db, FirstPageQuery).Ok?
    ensures Repository.ListingOf(db, FirstPageQuery).value.total == 8
    ensures |Repository.ListingOf(db, FirstPageQuery).value.items| == 8
    ensures multiset(Repository.ServicesOf(Repository.ListingOf(db, FirstPageQuery).value.items)) == multiset(SeedServices(t))
  {
    Repository.UnfilteredFirstPageHoldsAll(db, FirstPageQuery);
  }

  /**
   * A request without parameters against the seeded store: page 1 of size 12
   * holds all eight services, the total is 8 and there is one page.
   */
  lemma SeededFirstPage(db: Database, t: int)
    requires Orders(db)
    requires db.services == SeedServices(t) && db.failures == map[]
    ensures var r := Service.ListServices(db, Handler.ListQueryOf(map[]));
      && r.Ok?
      && r.value.total == 8 && |r.value.services| == 8
      && r.value.page == 1 && r.value.pageSize == 12 && r.value.totalPages == 1
  {
    NoParametersQuery();
    SeededListing(db, t);
    Service.ListServicesEnvelope(db, Handler.ListQueryOf(map[]));
    Service.TotalPagesExamples();
  }
}
