/** The outcome of one HTTP GET followed by a JSON decode into a typed value.
    The request and the decoder themselves are not modelled: a caller receives
    either the decoded value or which of the two stages failed. */
module Transport {
  import opened Wrappers

  /** `reqwest::get` failed, or the body did not decode (`res.json`). */
  datatype FetchError = RequestFailed | JsonParseFailed

  type Fetched<T> = Result<T, FetchError>
}
