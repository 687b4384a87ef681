/**
 * The state of a PendingRequest, as a value: everything the builder's
 * mutators, the middlewares and the two terminals read or produce. Each
 * mutator gives a new request that differs from its receiver in one field.
 */
module Requests {
  import opened Wrappers
  import Dict
  import Json
  import Url
  import Responses

  /** The verbs the mini-program transport accepts. */
  datatype HttpMethod = OPTIONS | GET | HEAD | POST | PUT | DELETE | TRACE | CONNECT

  /** What a middleware does with the request it receives and its `next`. */
  datatype Action =
    | PassThrough                               // next(request)
    | AddHeader(header: string, value: string)  // next(request.withHeader(header, value))
    | Respond(response: Responses.Response)     // resolves without calling next

  /** A middleware; the name only identifies it in the log of a dispatch. */
  datatype Middleware = Middleware(name: string, action: Action)

  /** The argument of `use`: one middleware or an array of them. */
  datatype Handlers = One(handler: Middleware) | Many(handlers: seq<Middleware>) {

    /** `Array.isArray(fn) ? fn : [fn]` */
    function AsSeq(): (hs: seq<Middleware>)
      ensures One? ==> hs == [handler]
      ensures Many? ==> hs == handlers
    {
      match this
      case One(h) => [h]
      case Many(hs) => hs
    }
  }

  const ContentType := "content-type"
  const ApplicationJson := "application/json"
  const FormUrlEncoded := "application/x-www-form-urlencoded"
  const MultipartFormData := "multipart/form-data"

  /**
   * The fields of a PendingRequest. `httpMethod` and `url` are `None`
   * (`undefined`) until set; `baseUrl` is `None` for `null`.
   */
  datatype Request = Request(
    httpMethod: Option<HttpMethod>,
    baseUrl: Option<string>,
    url: Option<string>,
    query: Dict.Dict<string>,
    header: Dict.Dict<string>,
    data: Dict.Dict<Json.Value>,
    middlewares: seq<Middleware>)
  {
    /** `method(m)` */
    function WithMethod(m: HttpMethod): (r: Request)
      ensures r.httpMethod == Some(m)
      ensures r.(httpMethod := httpMethod) == this
    {
      this.(httpMethod := Some(m))
    }

    /** `baseUrl(b)`; `None` clears it. */
    function WithBaseUrl(b: Option<string>): (r: Request)
      ensures r.baseUrl == b
      ensures r.(baseUrl := baseUrl) == this
    {
      this.(baseUrl := b)
    }

    /** `url(u)` */
    function WithUrl(u: string): (r: Request)
      ensures r.url == Some(u)
      ensures r.(url := url) == this
    {
      this.(url := Some(u))
    }

    /** `withQuery(q)`: the query is replaced as a whole. */
    function WithQuery(q: Dict.Dict<string>): (r: Request)
      ensures r.query == q
      ensures r.(query := query) == this
    {
      this.(query := q)
    }

    /** `withBody(d)`: the body is replaced as a whole. */
    function WithBody(d: Dict.Dict<Json.Value>): (r: Request)
      ensures r.data == d
      ensures r.(data := data) == this
    {
      this.(data := d)
    }

    /** `getHeaderLine(name)`: the header's value, `None` for `null` when it is absent. */
    function GetHeaderLine(name: string): (v: Option<string>)
      ensures v.Some? <==> name in Dict.Keys(header)
      ensures forall i :: 0 <= i < |header| && header[i].0 == name ==> v == Some(header[i].1)
    {
      forall i | 0 <= i < |header| && header[i].0 == name ensures Dict.Get(header, name) == Some(header[i].1) {
        Dict.GetAt(header, i);
      }
      Dict.Get(header, name)
    }

    /** `hasHeader(name)` */
    predicate HasHeader(name: string)
      ensures HasHeader(name) <==> GetHeaderLine(name).Some?
    {
      Dict.Has(header, name)
    }

    /** `isJson()`: the content type is exactly `application/json`. */
    predicate IsJson()
      ensures IsJson() <==> GetHeaderLine(ContentType) == Some(ApplicationJson)
    {
      GetHeaderLine(ContentType) == Some(ApplicationJson)
    }

    /**
     * `withHeader(name, value)`: `name` now reads `value`, every other header
     * reads as before, an existing header keeps its position and a new one
     * goes last; nothing but the headers changes.
     */
    function WithHeader(name: string, value: string): (r: Request)
      ensures r.GetHeaderLine(name) == Some(value)
      ensures forall other :: other != name ==> r.GetHeaderLine(other) == GetHeaderLine(other)
      ensures Dict.Keys(r.header) == if HasHeader(name) then Dict.Keys(header) else Dict.Keys(header) + [name]
      ensures r.(header := header) == this
    {
      Dict.SetGet(header, name, value, name);
      forall other ensures Dict.Get(Dict.Set(header, name, value), other) == if other == name then Some(value) else Dict.Get(header, other) {
        Dict.SetGet(header, name, value, other);
      }
      this.(header := Dict.Set(header, name, value))
    }

    /** `asJson()`: afterwards the request is a JSON request. */
    function AsJson(): (r: Request)
      ensures r == WithHeader(ContentType, ApplicationJson)
      ensures r.IsJson()
    {
      WithHeader(ContentType, ApplicationJson)
    }

    /** `asForm()`: afterwards the request is a form request and not a JSON one. */
    function AsForm(): (r: Request)
      ensures r == WithHeader(ContentType, FormUrlEncoded)
      ensures r.GetHeaderLine(ContentType) == Some(FormUrlEncoded) && !r.IsJson()
    {
      WithHeader(ContentType, FormUrlEncoded)
    }

    /** `asMultipart()`: afterwards the request is a multipart request and not a JSON one. */
    function AsMultipart(): (r: Request)
      ensures r == WithHeader(ContentType, MultipartFormData)
      ensures r.GetHeaderLine(ContentType) == Some(MultipartFormData) && !r.IsJson()
    {
      WithHeader(ContentType, MultipartFormData)
    }

    /** `use(fn)`: the handlers are appended, in order, after the ones already attached. */
    function Use(fn: Handlers): (r: Request)
      ensures |r.middlewares| == |middlewares| + |fn.AsSeq()|
      ensures r.middlewares[..|middlewares|] == middlewares
      ensures r.middlewares[|middlewares|..] == fn.AsSeq()
      ensures r.(middlewares := middlewares) == this
    {
      this.(middlewares := middlewares + fn.AsSeq())
    }

    /** `#buildUrl()`; `None` when no url was ever set (JavaScript would throw). */
    function BuildUrl(): (u: Option<string>)
      ensures u.Some? <==> url.Some?
      ensures url.Some? ==> u == Some(Url.Build(baseUrl, url.value, query))
    {
      match url
      case Some(path) => Some(Url.Build(baseUrl, path, query))
      case None => None
    }
  }

  /** `new PendingRequest()`: nothing set, empty maps, no middleware. */
  const Blank: Request := Request(None, None, None, [], [], [], [])
}
