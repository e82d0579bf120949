/** The application's error kinds and the HTTP exception factory that turns
    each into a status code and a detail text. */
module Exceptions {

  import opened Common

  /** The four factories of the HTTP exception factory. */
  datatype ErrorKind = ApiKeyError | LlmRequestError | SearchRequestError | ValidationError

  datatype HttpError = HttpError(statusCode: int, detail: string)

  function DefaultDetail(kind: ErrorKind): string
  {
    match kind
    case ApiKeyError => "API key not found"
    case LlmRequestError => "Error calling LLM service"
    case SearchRequestError => "Error calling search service"
    case ValidationError => "Validation error"
  }

  /** A factory call, `detail` being the optional argument: the status is 500
      for a missing key, 503 for either upstream service, 400 for validation;
      the detail is passed through, or the factory's own default. */
  function Raise(kind: ErrorKind, detail: Option<string>): (e: HttpError)
    ensures e.statusCode == 500 <==> kind == ApiKeyError
    ensures e.statusCode == 503 <==> kind == LlmRequestError || kind == SearchRequestError
    ensures e.statusCode == 400 <==> kind == ValidationError
    ensures detail.Some? ==> e.detail == detail.value
    ensures detail.None? ==> e.detail == DefaultDetail(kind)
  {
    var status := match kind
      case ApiKeyError => 500
      case LlmRequestError => 503
      case SearchRequestError => 503
      case ValidationError => 400;
    HttpError(status, detail.GetOr(DefaultDetail(kind)))
  }

  /** Every kind maps to an error status: 4xx for the caller's fault, 5xx
      for the server's. */
  lemma RaiseIsErrorStatus(kind: ErrorKind, detail: Option<string>)
    ensures 400 <= Raise(kind, detail).statusCode < 600
    ensures Raise(kind, detail).statusCode < 500 <==> kind == ValidationError
  {
  }
}
