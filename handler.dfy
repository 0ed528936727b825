/**
 * The HTTP handlers: they map query and path parameters onto the service's
 * inputs and its results and errors onto status codes. A request is reduced
 * to its query parameters (first value per key) or its route variables.
 */
module Handler {
  import opened Wrappers
  import opened Domain
  import opened Sql
  import opened Http
  import Service
  import Strconv

  /** `r.URL.Query().Get(key)`: the value, or "" when the key is absent. */
  function Param(params: map<string, string>, key: string): (v: string)
    ensures key in params ==> v == params[key]
    ensures key !in params ==> v == ""
    ensures v != "" ==> key in params && params[key] == v
  {
    if key in params then params[key] else ""
  }

  /** A parameter that overrides a default only when it is a positive integer. */
  function PositiveOr(text: string, default: int): (v: int)
    ensures v == default || (v > 0 && Strconv.Atoi(text) == Some(v))
    ensures (Strconv.Atoi(text).Some? && Strconv.Atoi(text).value > 0) ==> v == Strconv.Atoi(text).value
  {
    if text == "" then default
    else match Strconv.Atoi(text)
      case Some(n) => if n > 0 then n else default
      case None => default
  }

  /**
   * The listing query a request asks for: search, column and direction copied
   * verbatim, page and page size 1 and 12 unless the parameters say otherwise.
   */
  function ListQueryOf(params: map<string, string>): (q: ServiceQuery)
    ensures q.search == Param(params, "search") && q.sortBy == Param(params, "sort_by")
    ensures q.sortDir == Param(params, "sort_dir")
    ensures q.page == PositiveOr(Param(params, "page"), 1)
    ensures q.pageSize == PositiveOr(Param(params, "page_size"), 12)
  {
    ServiceQuery(Param(params, "search"), Param(params, "sort_by"), Param(params, "sort_dir"),
                 PositiveOr(Param(params, "page"), 1), PositiveOr(Param(params, "page_size"), 12))
  }

  /** The response for a service error: 404 for the text "service not found", 500 for anything else. */
  function ErrorResponse(e: Service.Error): (resp: Response)
    ensures resp == if e == Service.NotFound then Error("Service not found", StatusNotFound)
                    else Error("Internal server error", StatusInternalServerError)
  {
    Service.NotFoundTextIsUnique(e);
    if e.Message() == "service not found" then Error("Service not found", StatusNotFound)
    else Error("Internal server error", StatusInternalServerError)
  }

  /** 404 is the not-found error and nothing else; in particular an id below 1 is a 500. */
  lemma ErrorResponseStatus(e: Service.Error)
    ensures ErrorResponse(e).status == StatusNotFound <==> e == Service.NotFound
    ensures ErrorResponse(e).status in {StatusNotFound, StatusInternalServerError}
    ensures e.InvalidServiceId? ==> ErrorResponse(e) == Error("Internal server error", StatusInternalServerError)
  {
    Service.NotFoundTextIsUnique(e);
  }

  /** GET /api/v1/services */
  method GetServices(db: Database, params: map<string, string>) returns (resp: Response)
    ensures var r := Service.ListServices(db, ListQueryOf(params));
      resp == if r.Ok? then Response(StatusOK, ListBody(r.value)) else Error("Internal server error", StatusInternalServerError)
  {
    var query := ServiceQuery(Param(params, "search"), Param(params, "sort_by"), Param(params, "sort_dir"), 1, 12);

    var pageText := Param(params, "page");
    if pageText != "" {
      var page := Strconv.Atoi(pageText);
      if page.Some? && page.value > 0 {
        query := query.(page := page.value);
      }
    }

    var pageSizeText := Param(params, "page_size");
    if pageSizeText != "" {
      var pageSize := Strconv.Atoi(pageSizeText);
      if pageSize.Some? && pageSize.value > 0 {
        query := query.(pageSize := pageSize.value);
      }
    }
    assert query == ListQueryOf(params);

    var response := Service.GetServices(db, query);
    if response.Err? {
      return Error("Internal server error", StatusInternalServerError);
    }
    return Response(StatusOK, ListBody(response.value));
  }

  /** GET /api/v1/services/{id}; `vars` are the route variables. */
  method GetServiceByID(db: Database, vars: map<string, string>) returns (resp: Response)
    ensures "id" !in vars ==> resp == Error("Service ID is required", StatusBadRequest)
    ensures "id" in vars && Strconv.Atoi(vars["id"]).None? ==> resp == Error("Invalid service ID", StatusBadRequest)
    ensures "id" in vars && Strconv.Atoi(vars["id"]).Some? ==>
      var r := Service.ServiceById(db, Strconv.Atoi(vars["id"]).value);
      && (r.Ok? ==> resp == Response(StatusOK, ServiceBody(r.value)))
      && (r.Err? ==> resp == ErrorResponse(r.error))
      && (resp.status == StatusNotFound <==> r == Err(Service.NotFound))
  {
    if "id" !in vars {
      return Error("Service ID is required", StatusBadRequest);
    }
    var id := Strconv.Atoi(vars["id"]);
    if id.None? {
      return Error("Invalid service ID", StatusBadRequest);
    }
    var service := Service.GetServiceByID(db, id.value);
    if service.Err? {
      ErrorResponseStatus(service.error);
      return ErrorResponse(service.error);
    }
    return Response(StatusOK, ServiceBody(service.value));
  }

  /** A positive page written in decimal is the page the query asks for. */
  lemma PageParamRoundTrip(params: map<string, string>, n: int)
    requires 1 <= n <= Strconv.MaxInt64
    requires "page" in params && params["page"] == Strconv.FormatInt(n)
    ensures ListQueryOf(params).page == n
  {
    Strconv.AtoiFormatInt(n);
  }

  /** A page size above 100 reaches the service unchanged; the service clamps it to 100. */
  lemma LargePageSizeClampedByService(params: map<string, string>, n: int)
    requires 100 < n <= Strconv.MaxInt64
    requires "page_size" in params && params["page_size"] == Strconv.FormatInt(n)
    ensures ListQueryOf(params).pageSize == n
    ensures Service.Normalize(ListQueryOf(params)).pageSize == 100
  {
    Strconv.AtoiFormatInt(n);
  }

  /** A page that is zero, negative or not a number leaves the default of 1, without an error. */
  lemma BadPageKeepsDefault(params: map<string, string>)
    requires "page" in params
    requires Strconv.Atoi(params["page"]).None? || Strconv.Atoi(params["page"]).value <= 0
    ensures ListQueryOf(params).page == 1
  {
  }
}
