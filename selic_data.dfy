/**
 Data shapes of the Selic controller: the records returned by the central
 bank's time-series endpoint, the decoded payload handed to the controller,
 and the HTTP response it builds.
 */
module SelicData {

  datatype Option<+T> = None | Some(value: T)

  /** One day of the series, `{"data": "DD/MM/YYYY", "valor": "0,035"}`.
      `data` is None when the key is missing or null, the two cases in which
      PHP's `isset` is false, which is all the guard of the export looks at;
      `valor` is kept as the provider's text, with a decimal comma. */
  datatype Record = Record(data: Option<string>, valor: string)

  /** What `->json()` hands the controller: either a list of records, or
      something that is not an array (null after a failed decode, a scalar).
      A decoded JSON object without a key "0" has no element 0, so the export
      guard rejects it exactly as it rejects a non-array; it is represented by
      NotArray. */
  datatype Payload = NotArray | Records(items: seq<Record>)

  /** An HTTP response: status code, body text and the headers the
      controller sets explicitly. */
  datatype Response = Response(status: int, body: string, headers: map<string, string>)
}
