/** Values shared by both plugin variants: Go's (value, error) pairs and the
    (response, error) pair a Vault request handler returns. */
module Vault {

  datatype Option<T> = None | Some(value: T)

  /** A Go `error` value; only its text is observable. */
  datatype Error = Error(message: string)

  datatype Result<T> = Ok(value: T) | Err(error: Error)

  /** What a storage helper such as `getRoleEntry` hands back as a
      (pointer, error) pair: an entry, a nil pointer with a nil error, or an error. */
  datatype Lookup<T> = Found(value: T) | Absent | Failed(error: Error)

  /** A `*logical.Response`: either `logical.ErrorResponse(message)` or one
      carrying a data map. */
  datatype Response<D> = ErrorResponse(message: string) | DataResponse(data: D)

  /** The two results of a request handler, or the runtime panic Go raises
      when the handler dereferences a nil pointer or fails a type assertion. */
  datatype Reply<D> = Reply(response: Response<D>, err: Option<Error>) | Panic(reason: string)

  /** A result together with the collaborator calls made to obtain it, in order. */
  datatype Traced<R, C> = Traced(result: R, calls: seq<C>)
}
