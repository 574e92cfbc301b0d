/** Failure-compatible wrappers and the error taxonomy shared by every module.

    The Go code returns `(value, error)` pairs and occasionally panics; both are
    modelled as `Result`. A Go runtime panic (nil dereference, index or slice
    out of range) becomes `Err(Panic(..))`: the application installs Fiber's
    recover middleware, so a panic ends the request with a 500 response.
 */
module Base {

  datatype Option<+T> = None | Some(value: T)

  /** Why an operation failed. */
  datatype Error =
    | InvalidPurpose                 // models.PurposeFromString: "not a valid type"
    | InvalidHex(text: string)       // primitive.ObjectIDFromHex rejected the text
    | ProviderError(what: string)    // a call to the account-aggregation provider failed
    | StoreError(what: string)       // a document-store call failed
    | NoDocuments                    // FindOne matched nothing
    | CacheError(what: string)       // a cache call failed (never a miss)
    | DecodeError(key: string)       // a cache entry does not have the requested shape
    | MissingLiabilityAccountId      // "error isolating accountLiabilities"
    | DateParseError(date: string)   // time.Parse("2006-01-02", date) failed
    | HttpError(what: string)        // planning or SMS service call failed
    | Panic(what: string)            // Go runtime panic, recovered as a 500

  datatype Result<+T> = Ok(value: T) | Err(error: Error) {

    predicate IsFailure() {
      Err?
    }

    function PropagateFailure<U>(): Result<U>
      requires Err?
    {
      Err(error)
    }

    function Extract(): T
      requires Ok?
    {
      value
    }
  }

  /** What an HTTP handler sends back. `Failure` carries the status code;
      `Abort` is a Go runtime panic, which the recover middleware turns into
      a 500 response. */
  datatype Response<+T> = Success(message: string, data: T) | Failure(status: int, message: string) | Abort(reason: string)

  const StatusBadRequest: int := 400
  const StatusNotFound: int := 404
  const StatusInternalServerError: int := 500

  /** `true` iff `p` is a prefix of `s` (Go's strings.HasPrefix). */
  predicate HasPrefix(s: string, p: string)
  {
    |p| <= |s| && s[..|p|] == p
  }
}
