# Service catalogue read API — a Dafny model

This project models the request pipeline of a small read-only HTTP API that
lists "services" and their versions. A listing request passes through four
layers, and each layer is a module here:

- **Middleware** (`middleware.dfy`): bearer-token authentication against a
  fixed table of two tokens, then a check that one of the user's roles is in
  the route's allowed set.
- **Handler** (`handler.dfy`): maps query parameters onto a `ServiceQuery`
  (page 1 and page size 12 unless a positive integer is given), and maps
  service results and errors onto status codes (400, 404, 500).
- **Service** (`service.dfy`): defaults and clamps the page and page size,
  falls back to `asc` for any direction other than exactly `asc` or `desc`,
  computes `totalPages` by ceiling division, and turns the repository's
  "no row" answer into the `service not found` error.
- **Repository** (`repository.dfy`): builds the WHERE clause and its bound
  search pattern, chooses the ORDER BY clause from an allow-list, binds
  LIMIT and OFFSET, and pairs every listed row with its versions.

The relational store is `sql.dfy`: the two tables as sequences, the store's
LIKE test and its two orderings as function-valued parameters (`Orders`
requires only that they sort and rearrange their input, so the order of
equal keys stays the store's), and a map from store calls to the error each
one fails with. `domain.dfy` holds the records, `http.dfy` the
(status, body) responses, `strings.dfy` and `strconv.dfy` the parts of Go's
`strings.HasPrefix`/`TrimPrefix`/`ToUpper` and `strconv.Atoi`/`Itoa` that the
pipeline relies on, and `pipeline.dfy` the guarded routes and the
cross-layer properties.

The repository methods and the service methods are each proved equal to a
specification function of their own layer (`GetAll` to `ListingOf`,
`GetVersionsByServiceID` to `VersionsOf`, `GetByID` to `ByIdOf`,
`Service.GetServices` to `ListServices`, `Service.GetServiceByID` to
`ServiceById`), and lemmas state what those functions promise. The handlers
and routes state their responses in terms of the service's specification
functions; the middleware loops state outright which requests they forward.
The headline cross-layer property is `Pipeline.DescendingOnlyForExactDesc`:
the ORDER BY clause sorts descending exactly when `sort_dir` is the
lower-case `desc` and `sort_by` is `name`, `created_at` or `updated_at`,
because the service rewrites `DESC` to `asc` before the repository
upper-cases the direction.

Four behaviours of the code are easy to misread:
- the direction fallback is case-sensitive (`DESC` becomes `asc`), and the
  column allow-list lives in the repository, not in the service;
- an id below 1 gives 500, not 404, because only the exact text
  `service not found` maps to 404;
- a non-integer id reaches the handler (the route pattern `{id}` has no
  digit constraint) and gives 400 `Invalid service ID`;
- a listing store error is wrapped as `failed to get services: <cause>`.

## Model

| member | source | states |
|---|---|---|
| `Strings.HasPrefix` | middleware/auth.go:35 | a header has the prefix exactly when it is the prefix followed by something |
| `Strings.TrimPrefix` | middleware/auth.go:40 | the prefix followed by the result rebuilds the header; a header without the prefix is returned unchanged |
| `Strings.ToUpper` | repository/service_repository.go:36 | same length; each ASCII lower-case letter is upper-cased and every other character kept |
| `Strconv.Atoi` | handler/list_service_handler.go:37 | a parsed value lies in the 64-bit range and the text holds a digit |
| `Strconv.AtoiFormatInt` | handler/list_service_handler.go:68 | every 64-bit integer written in decimal parses back to itself |
| `Strconv.AtoiNeedsDigits` | handler/list_service_handler.go:36-46 | text without digits (empty, a lone sign, letters) never parses |
| `Strconv.AtoiMeaning` | handler/list_service_handler.go:37 | text parses to v exactly when it is one or more digits, bare or after one `+` or `-`, whose value (negated after `-`) is v and fits in 64 bits |
| `Strconv.AtoiExamples` | handler/list_service_handler.go:37 | `12abc`, ` 1`, `--1` and `+` are rejected; `+007` is 7, `-0` is 0, `-12` is -12 |
| `Sql.Filter` | repository/service_repository.go:26-30 | the WHERE clause keeps exactly the matching rows, each as often as the table holds it, so its length is what COUNT(*) counts |
| `Sql.Window` | repository/service_repository.go:59-61 | LIMIT/OFFSET select the contiguous run of rows starting at the offset, of length at most the limit |
| `Sql.WindowKeepsOrder` | repository/service_repository.go:61-69 | a LIMIT/OFFSET window of sorted rows is sorted and holds only those rows |
| `Sql.ArrangedWindow` | repository/service_repository.go:64-71 | against a store whose orderings sort, the selected window is sorted and holds only matching table rows |
| `Sql.VersionsFor` | repository/service_repository.go:137-141 | the versions query keeps exactly the versions of the requested service, each as often as the table holds it |
| `Sql.FindById` | repository/service_repository.go:104-113 | the lookup finds a row with the id exactly when the table holds one |
| `Sql.ExecCount` | repository/service_repository.go:51-56 | the count fails exactly on a store failure or an argument-count mismatch; otherwise it is the number of matching rows, at most the table size |
| `Sql.ExecSelect` | repository/service_repository.go:64-74 | the select fails exactly on a store failure or an argument-count mismatch; a non-negative LIMIT bounds the rows returned |
| `Sql.ExecVersions` | repository/service_repository.go:137-146 | the versions query fails exactly when the store fails it, with the store's error |
| `Sql.ExecVersionsMeaning` | repository/service_repository.go:137-141 | against a store whose orderings sort, the versions come newest first, each version of the service as often as the table holds it |
| `Sql.ExecLookup` | repository/service_repository.go:104-119 | the lookup fails exactly on a store failure; no row exactly when the store is healthy and no row has the id; a row found has the id |
| `Repository.OrderByFor` | repository/service_repository.go:33-48 | an empty or unknown column gives `s.name ASC` whatever the direction; an allowed column gets DESC exactly when the upper-cased direction is `DESC` |
| `Repository.OrderByIsAllowListed` | repository/service_repository.go:33-48 | the ORDER BY text is always one of six fixed clauses, so the caller's text never reaches the query |
| `Repository.SearchClauseBindsPattern` | repository/service_repository.go:24-30 | an empty search has no WHERE clause and no arguments; otherwise the two placeholders are bound to `%search%` |
| `Repository.GetVersionsByServiceID` | repository/service_repository.go:136-160 | the scan loop returns every fetched row or the first scan error (equal to `VersionsOf`) |
| `Repository.GetAll` | repository/service_repository.go:22-100 | count, select and the row loop, with the args appended in place, return `ListingOf` |
| `Repository.AssembleRows` | repository/service_repository.go:77-97 | the row loop scans each row and fetches its versions, stopping at the first error (equal to `AssembleFrom`) |
| `Repository.GetByID` | repository/service_repository.go:103-133 | lookup, no-row as `Ok(None)`, then the versions, as `ByIdOf` |
| `Repository.ScanVersionsAllOrNothing` | repository/service_repository.go:149-157 | scanning versions yields all rows or a store error, and fails exactly when some row's scan fails |
| `Repository.VersionsOfMeaning` | repository/service_repository.go:136-160 | a successful fetch is everything the store holds for the service in the store's order; errors are store errors; a healthy store always succeeds |
| `Repository.VersionsBelongToService` | repository/service_repository.go:137-141 | every fetched version has the requested `service_id`, newest first, none missing |
| `Repository.AssembleAllOrNothing` | repository/service_repository.go:77-97 | a successful pairing holds every row in row order, each with exactly its own versions; no partial list |
| `Repository.AssembleFailsOnlyInStore` | repository/service_repository.go:77-97 | pairing rows with versions fails exactly when some row's scan or version query fails, only with a store error, and never against a healthy store |
| `Repository.ListingMeaning` | repository/service_repository.go:50-99 | `total` counts every match regardless of paging; items are the selected page in order with their versions; it fails exactly when the count, the select, or some page row's scan or version query fails, and only with a store error; a healthy store always lists |
| `Repository.PageRowsSortedAndMatching` | repository/service_repository.go:63-69 | the selected page is sorted by the chosen clause and holds only matching rows of the table |
| `Repository.ListingIsOrdered` | repository/service_repository.go:63-97 | a listed page is sorted, matches the search, and each item's versions are its own, newest first |
| `Repository.NoFilterKeepsAll` | repository/service_repository.go:24-26 | with no WHERE clause every row is counted and listed |
| `Repository.UnfilteredFirstPageHoldsAll` | repository/service_repository.go:22-99 | without a search, a first page at least as large as the table counts every row and lists exactly the table's services, each as often as the table holds it |
| `Repository.ByIdMeaning` | repository/service_repository.go:103-133 | `(nil, nil)` exactly when the lookup succeeds without a row; a found service has the id and all its versions; it fails exactly when the lookup fails or the row exists and its versions query fails, and only with a store error |
| `Repository.Wrap64` | repository/service_repository.go:59 | 64-bit wrap-around lands in the int64 range, differs from the exact value by a multiple of 2^64, and leaves in-range values alone |
| `Repository.WrappedOffsetRepeatsFirstPage` | repository/service_repository.go:59-61 | as written, page 2^62+1 of size 4 lies past every match yet its offset wraps to 0 and rows come back |
| `Repository.PageBeyondLastIsEmpty` | repository/service_repository.go:59-61 | with the exact offset, a page starting past the last match is empty |
| `Service.Error.Message` | service/list_service.go:47-75 | an invalid-id text ends with the id in decimal, which parses back to the id; a wrapped store error ends with the store's own text |
| `Service.NotFoundTextIsUnique` | service/list_service.go:64-79 | only the not-found error has the text `service not found`, whatever the store error says |
| `Service.Normalize` | service/list_service.go:29-43 | page at least 1, page size in 1..100 (12 for non-positive, 100 above 100), direction exactly `asc` or `desc` (anything else `asc`), search and column untouched |
| `Service.NormalizeIsIdempotent` | service/list_service.go:29-43 | normalising twice is normalising once; a valid query is unchanged |
| `Service.TotalPages` | service/list_service.go:50 | the result is the ceiling of total / pageSize: the fewest pages that hold all items, and 0 exactly when there are none |
| `Service.TotalPagesExamples` | service/list_service.go:50 | 0 items give 0 pages; 8 items give 1 page of 12 and 2 pages of 5 |
| `Service.GetServices` | service/list_service.go:28-61 | the step-by-step normalisation and the envelope equal `ListServices` |
| `Service.GetServiceByID` | service/list_service.go:64-79 | the id check, the wrapping of errors and nil as not found equal `ServiceById` |
| `Service.ListServicesEnvelope` | service/list_service.go:45-60 | the envelope echoes normalised page and size and the repository's items and total, with the page count of `TotalPages` |
| `Service.EnvelopeMeaning` | service/list_service.go:45-60 | for any repository answer: an error becomes the wrapped error, a listing its items, total, page, size and `TotalPages` count |
| `Service.ListServicesFailure` | service/list_service.go:45-48 | a repository error gives only the wrapped store error, `failed to get services: <cause>` |
| `Service.InvalidIdSkipsRepository` | service/list_service.go:65-67 | an id below 1 fails identically against every store |
| `Service.ServiceByIdOutcomes` | service/list_service.go:69-78 | not found exactly when the store answers without error and has no such row; success is that row; lookup failures carry the store error, and a failing lookup of a positive id is reported as that failure |
| `Handler.Param` | handler/list_service_handler.go:29-42 | a query parameter reads as its value when present and as the empty string when absent; a non-empty result always comes from the request |
| `Handler.PositiveOr` | handler/list_service_handler.go:36-46 | the default is replaced only by a value that parses as a positive integer, and always by one |
| `Handler.ListQueryOf` | handler/list_service_handler.go:28-46 | search, column and direction are copied verbatim; page and page size follow `PositiveOr` with defaults 1 and 12 |
| `Handler.ErrorResponse` | handler/list_service_handler.go:75-82 | the not-found error gives 404 `Service not found`, every other error 500 `Internal server error` |
| `Handler.ErrorResponseStatus` | handler/list_service_handler.go:74-83 | 404 exactly for the not-found error, 500 for every other, including an id below 1 |
| `Handler.GetServices` | handler/list_service_handler.go:26-57 | 200 with the envelope when the service succeeds, otherwise 500 with the fixed text `Internal server error` |
| `Handler.GetServiceByID` | handler/list_service_handler.go:60-87 | missing id 400 `Service ID is required`, non-integer id 400 `Invalid service ID`, else 200 or the error mapping; 404 exactly for not found |
| `Handler.PageParamRoundTrip` | handler/list_service_handler.go:36-40 | a positive page written in decimal is the page queried |
| `Handler.LargePageSizeClampedByService` | handler/list_service_handler.go:42-46 | a page size above 100 passes the handler unchanged and is clamped to 100 by the service |
| `Handler.BadPageKeepsDefault` | handler/list_service_handler.go:36-40 | a zero, negative or non-numeric page keeps the default 1 without an error |
| `Middleware.ValidateToken` | middleware/auth.go:20-29 | exactly `admin-token` and `viewer-token` are accepted, each for a user whose single role is its name |
| `Middleware.Authenticate` | middleware/auth.go:32-49 | no `Bearer ` prefix is 401 `Unauthorized`; one prefix is removed and an unknown token is 401 `Invalid token`; otherwise the user goes on |
| `Middleware.AuthenticatedExactly` | middleware/auth.go:34-45 | exactly the headers `Bearer admin-token` and `Bearer viewer-token` authenticate, as admin and viewer |
| `Middleware.NewRoleSet` | middleware/auth.go:54-57 | the role set holds exactly the allowed roles |
| `Middleware.Authorize` | middleware/auth.go:60-75 | the request is forwarded once exactly when a user is present and one of its roles is in the set; otherwise 403 `Forbidden` |
| `Middleware.RoleAuthorization` | middleware/auth.go:53-77 | forwarded exactly when some role of the user is among the allowed roles; otherwise 403 |
| `Pipeline.ServeListServices` | middleware/auth.go:32-74 | an authentication rejection is the response; the role check's 403 branch is unreachable for the two known users; an authenticated request gets exactly the listing handler's response |
| `Pipeline.ServeServiceByID` | middleware/auth.go:32-74 | an authentication rejection is the response; an authenticated request gets the by-id handler's outcome (400 for a missing or non-integer id, 200 with the service, 404 exactly for not found, otherwise 500) and never 401 or 403 |
| `Pipeline.KnownUsersMayPass` | middleware/auth.go:20-74 | both known users hold a role of the guarded routes |
| `Pipeline.DescendingOnlyForExactDesc` | service/list_service.go:40-45 | the ORDER BY direction is DESC exactly when `sort_dir` is `desc` and `sort_by` is an allowed column |
| `Pipeline.NoParametersQuery` | handler/list_service_handler.go:28-34 | a request without parameters reaches the repository as page 1, size 12, direction `asc` |
| `Pipeline.SeededListing` | database/connection.go:85-97 | against the eight seeded services the first page lists exactly those eight services (as a multiset) with total 8 |
| `Pipeline.SeededFirstPage` | test/integration_test.go:60-66 | the seeded listing reports total 8, eight items, page 1 and one page |

## Left out

- SQL execution itself: LIKE matching (case rules, `%` and `_` in the search text), the collation and tie order of ORDER BY are the store's and are parameters of `Sql.Database`; `Orders` only requires that the orderings sort and rearrange.
- The statements' text is not parsed: how many arguments each statement binds is stated structurally (`Where.Arity`, plus LIMIT and OFFSET) rather than by counting `?` in the text.
- `rows.Next()` ending early on an iteration error is not modelled; the code never checks `rows.Err()`, so such an error would end the list silently.
- Store failures are a map from store calls (count, select, the scan of row k, the versions query, a version scan, the lookup) to error text; cancellation, timeouts and connection handling are not modelled.
- `database/connection.go` (open, ping, DDL, seeding) and `main.go` are I/O; the seed rows are reused as a fixture with every timestamp equal, and the seeded versions are not.
- `handler/routing.go` (gorilla/mux, CORS, logging) is transport; it calls `middleware.AuthorizeRoles`, which `middleware/auth.go` does not define, so the guarded routes compose `AuthMiddleware` with `RoleAuthorization("admin", "viewer")`. `RegisterRoutes` is unused by that router and is left out.
- JSON encoding is not modelled: bodies are values. An empty page is a nil slice in Go and encodes as `null`; here it is `[]`. `http.Error` also appends a newline to the message, which the model omits.
- `math.Ceil(float64(total)/float64(pageSize))` is modelled as integer ceiling division, which equals it for the counts and page sizes that occur.
- Timestamps are whole numbers; `time.Time` parsing and scanning are not modelled.
- Strings are sequences of code points, not bytes.
- `Strings.ToUpper`: maps ASCII letters only; Go's `strings.ToUpper` also maps other letters (U+017F to `S`, for one). The repository only ever receives `asc` or `desc` from the service, so the pipeline is unaffected.
- Go's 64-bit `int` bounds `page` and `page_size` through `Strconv.Atoi`; the rest of the model computes with unbounded integers, and the offset uses the corrected, exact `Repository.Offset` (the as-written wrap-around is `Repository.WrappedOffset`).
- Logging (`log.Printf`) and request contexts are not modelled; the user reaches the role check as an `Option`.

## Findings

| source | as written | input that shows it | evidently intended | confidence | as-written member | corrected member |
|---|---|---|---|---|---|---|
| repository/service_repository.go:59 | `offset := (query.Page - 1) * query.PageSize` in 64-bit `int`, with `page` accepted up to 2^63-1 by the handler and left unbounded by the service | `page=4611686018427387905` (2^62+1), `page_size=4`: the product 2^64 wraps to offset 0, so the first rows come back for a page past the end | a page past the last match is empty | not executed; follows from Go's defined wrap-around of signed integers | `Repository.WrappedOffsetRepeatsFirstPage` | `Repository.PageBeyondLastIsEmpty` |
