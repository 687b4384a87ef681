/**
 * `Response`: a read-only wrapper around one successful transport result,
 * with status classification and a decoder that never fails.
 */
module Responses {
  import opened Wrappers
  import opened Json
  import Dict

  /** The payload as the transport delivers it: text, or an already decoded value. */
  datatype Data = Text(text: string) | Decoded(value: Value)

  /** A transport success result: payload, status code, headers and cookies. */
  datatype Raw = Raw(data: Data, statusCode: int, header: Dict.Dict<string>, cookies: seq<string>)

  datatype Response = Response(raw: Raw) {

    /** `status()`: the status code, as delivered. */
    function Status(): (s: int)
      ensures s == raw.statusCode
    {
      raw.statusCode
    }

    /** `ok()`: exactly 200. */
    predicate Ok()
      ensures Ok() <==> Status() == 200
      ensures Ok() ==> Successful()
    {
      Status() == 200
    }

    /** `successful()`: a 2xx status. */
    predicate Successful()
      ensures Successful() <==> 200 <= Status() < 300
      ensures Successful() ==> !ClientError() && !ServerError()
    {
      200 <= Status() < 300
    }

    /** `clientError()`: a 4xx status. */
    predicate ClientError()
      ensures ClientError() <==> 400 <= Status() < 500
      ensures ClientError() ==> !ServerError()
    {
      400 <= Status() < 500
    }

    /** `serverError()`: a 5xx status. */
    predicate ServerError()
      ensures ServerError() <==> 500 <= Status() < 600
    {
      500 <= Status() < 600
    }

    /** `data()`: the payload, as delivered. */
    function Data(): (d: Data)
      ensures d == raw.data
    {
      raw.data
    }

    /**
     * `json()`, with `JSON.parse` passed in as `parse` (`None` when it throws):
     * text that parses gives what it parses to, text that does not gives
     * `{}`, and an already decoded payload is returned as it is.
     */
    function Json(parse: string -> Option<Value>): (v: Value)
      ensures raw.data.Decoded? ==> v == raw.data.value
      ensures raw.data.Text? && parse(raw.data.text).Some? ==> v == parse(raw.data.text).value
      ensures raw.data.Text? && parse(raw.data.text).None? ==> v == EmptyObject
    {
      match raw.data
      case Text(s) => parse(s).GetOr(EmptyObject)
      case Decoded(value) => value
    }

    /** `raw()`: the whole transport result. */
    function Raw(): (r: Raw)
      ensures r == raw
    {
      raw
    }
  }

  /** A response's status falls in at most one of the success, client-error and server-error classes. */
  lemma StatusClassesDisjoint(r: Response)
    ensures !(r.Successful() && r.ClientError())
    ensures !(r.Successful() && r.ServerError())
    ensures !(r.ClientError() && r.ServerError())
  {
  }

  /**
   * Decoding a payload that was produced by encoding a value gives that
   * value back, provided the parser inverts the encoder on it.
   */
  lemma JsonRoundTrip(stringify: Value -> string, parse: string -> Option<Value>,
                      v: Value, statusCode: int, header: Dict.Dict<string>, cookies: seq<string>)
    requires parse(stringify(v)) == Some(v)
    ensures Response(Raw(Text(stringify(v)), statusCode, header, cookies)).Json(parse) == v
  {
  }
}
