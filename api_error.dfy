/** The error value the backend throws and its error handler turns into an HTTP response. */
module ApiErrors {

  /** A one-key object `{ [key]: msg }`, as found in an ApiError's `errors` list. */
  datatype Entry = Entry(key: string, msg: string)

  /** `new ApiError({ status, message, errors })`; an absent `errors` is the empty list. */
  datatype ApiError = ApiError(status: int, message: string, errors: seq<Entry>)
}
