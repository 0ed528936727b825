/**
 * The records that travel through the pipeline. Timestamps are whole numbers
 * (seconds); ids are the store-assigned integers.
 */
module Domain {

  /** A row of the `services` table. */
  datatype Service = Service(id: int, name: string, description: string, createdAt: int, updatedAt: int)

  /** A row of the `service_versions` table; `serviceId` names the owning service. */
  datatype ServiceVersion = ServiceVersion(id: int, serviceId: int, version: string, createdAt: int)

  /** A service paired with its versions, assembled per request. */
  datatype ServiceWithVersions = ServiceWithVersions(service: Service, versions: seq<ServiceVersion>)

  /** The envelope of one page of the listing. */
  datatype ServiceListResponse = ServiceListResponse(
    services: seq<ServiceWithVersions>,
    total: int,
    page: int,
    pageSize: int,
    totalPages: int)

  /** Query parameters for searching, sorting and paging the listing. */
  datatype ServiceQuery = ServiceQuery(search: string, sortBy: string, sortDir: string, page: int, pageSize: int)
}
