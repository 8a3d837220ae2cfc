/**
 * The decision every loader takes once its fetch has settled: a non-OK response,
 * a body that is not JSON, or a JSON value that is not an array is a failure;
 * otherwise the array's records are handed on.
 */
module Feed {
  import opened Wrappers

  /** The decoded body of a response. */
  datatype Payload<T> = JsonArray(records: seq<T>) | JsonNotArray | InvalidJson

  datatype Response<T> = Response(ok: bool, status: int, payload: Payload<T>)

  /** Why a load failed: `HTTP error! status: …`, a JSON syntax error, or "… data is not in the expected format." */
  datatype LoadError = HttpError(status: int) | SyntaxError | NotExpectedFormat

  function Decode<T>(resp: Response<T>): (r: Result<seq<T>, LoadError>)
    ensures r.Success? <==> resp.ok && resp.payload.JsonArray?
    ensures r.Success? ==> r.value == resp.payload.records
    ensures !resp.ok ==> r == Failure(HttpError(resp.status))
    ensures resp.ok && resp.payload.JsonNotArray? ==> r == Failure(NotExpectedFormat)
  {
    if !resp.ok then Failure(HttpError(resp.status))
    else match resp.payload
      case JsonArray(records) => Success(records)
      case InvalidJson => Failure(SyntaxError)
      case JsonNotArray => Failure(NotExpectedFormat)
  }
}
