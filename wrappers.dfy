/** Option and Result, the two failure-carrying shapes the service uses. */
module Wrappers {

  datatype Option<+T> = None | Some(value: T)

  /** Swift's `Result<Success, Failure>`: what a completion handler receives. */
  datatype Result<+T, +E> = Success(value: T) | Failure(error: E)
}

/** The errors a layouts request can end with. */
module Errors {

  datatype Error =
    /** An `NSError` in the "PageLayoutService" domain, code 0, with the given debug description. */
    | ServiceError(description: string)
    /** A failure reported by the REST transport, handed on unchanged. */
    | TransportError(reason: string)
    /** A failure thrown by the local store while fetching entities. */
    | StoreError(reason: string)

  /** Raised before any request when a WordPress.com blog has no site ID or no API. */
  const SiteNotFound := ServiceError("Api or dotCom Site ID not found")

  /** Raised when the response cannot be decoded into a catalog. */
  const UnparsableResponse := ServiceError("Unable to parse response")
}
