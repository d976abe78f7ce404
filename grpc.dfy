/** gRPC status codes, statuses and request metadata as the services use them. */
module Grpc {
  datatype Code =
    | OK | InvalidArgument | NotFound | PermissionDenied | Unauthenticated
    | Internal | Unavailable | DeadlineExceeded | Unknown

  datatype Status = Status(code: Code, message: string)

  /** Request metadata: each key holds the list of values sent under it. */
  type Metadata = map<string, seq<string>>

  /** metadata.MD.Get: the values under a key, none when the key is absent. */
  function Values(md: Metadata, key: string): seq<string>
  {
    if key in md then md[key] else []
  }
}
