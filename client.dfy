/**
 * The objects of the library: `PendingRequest`, whose every mutator copies
 * the receiver and changes one field of the copy, and `Factory`, whose
 * defaults are updated in place and copied into each request it mints.
 */
module Client {
  import opened Wrappers
  import Dict
  import Json
  import opened Requests
  import Dispatch

  class PendingRequest {
    var httpMethod: Option<HttpMethod>
    var baseUrl: Option<string>
    var url: Option<string>
    var query: Dict.Dict<string>
    var header: Dict.Dict<string>
    var data: Dict.Dict<Json.Value>
    var middlewares: seq<Middleware>

    /** The object's fields as a value. */
    function State(): Request
      reads this
    {
      Request(httpMethod, baseUrl, url, query, header, data, middlewares)
    }

    /** `new PendingRequest()` */
    constructor ()
      ensures State() == Blank
    {
      httpMethod, baseUrl, url := None, None, None;
      query, header, data, middlewares := [], [], [], [];
    }

    /** `#clone()`: a new object holding a copy of every field. */
    method Clone() returns (r: PendingRequest)
      ensures fresh(r) && r.State() == State()
    {
      r := new PendingRequest();
      r.httpMethod := httpMethod;
      r.baseUrl := baseUrl;
      r.url := url;
      r.query := query;
      r.header := header;
      r.data := data;
      r.middlewares := middlewares;
    }

    method Method(m: HttpMethod) returns (r: PendingRequest)
      ensures fresh(r) && unchanged(this)
      ensures r.State() == State().WithMethod(m)
    {
      r := Clone();
      r.httpMethod := Some(m);
    }

    method BaseUrl(b: Option<string>) returns (r: PendingRequest)
      ensures fresh(r) && unchanged(this)
      ensures r.State() == State().WithBaseUrl(b)
    {
      r := Clone();
      r.baseUrl := b;
    }

    method Url(u: string) returns (r: PendingRequest)
      ensures fresh(r) && unchanged(this)
      ensures r.State() == State().WithUrl(u)
    {
      r := Clone();
      r.url := Some(u);
    }

    method WithQuery(q: Dict.Dict<string>) returns (r: PendingRequest)
      ensures fresh(r) && unchanged(this)
      ensures r.State() == State().WithQuery(q)
    {
      r := Clone();
      r.query := q;
    }

    method WithHeader(name: string, value: string) returns (r: PendingRequest)
      ensures fresh(r) && unchanged(this)
      ensures r.State() == State().WithHeader(name, value)
    {
      r := Clone();
      r.header := Dict.Set(r.header, name, value);
    }

    method AsJson() returns (r: PendingRequest)
      ensures fresh(r) && unchanged(this)
      ensures r.State() == State().AsJson()
    {
      r := WithHeader(ContentType, ApplicationJson);
    }

    method AsForm() returns (r: PendingRequest)
      ensures fresh(r) && unchanged(this)
      ensures r.State() == State().AsForm()
    {
      r := WithHeader(ContentType, FormUrlEncoded);
    }

    method AsMultipart() returns (r: PendingRequest)
      ensures fresh(r) && unchanged(this)
      ensures r.State() == State().AsMultipart()
    {
      r := WithHeader(ContentType, MultipartFormData);
    }

    method WithBody(d: Dict.Dict<Json.Value>) returns (r: PendingRequest)
      ensures fresh(r) && unchanged(this)
      ensures r.State() == State().WithBody(d)
    {
      r := Clone();
      r.data := d;
    }

    /** `use(fn)`: the copy's middleware array grows one handler at a time. */
    method Use(fn: Handlers) returns (r: PendingRequest)
      ensures fresh(r) && unchanged(this)
      ensures r.State() == State().Use(fn)
    {
      r := Clone();
      var handlers := fn.AsSeq();
      for i := 0 to |handlers|
        invariant r.State() == State().(middlewares := middlewares + handlers[..i])
      {
        r.middlewares := r.middlewares + [handlers[i]];
      }
    }

    /** `hasHeader(name)` */
    predicate HasHeader(name: string)
      reads this
      ensures HasHeader(name) <==> name in Dict.Keys(header)
    {
      State().HasHeader(name)
    }

    /** `getHeaderLine(name)` */
    function GetHeaderLine(name: string): (v: Option<string>)
      reads this
      ensures v == Dict.Get(header, name)
    {
      State().GetHeaderLine(name)
    }

    /** `header()` */
    function Header(): (h: Dict.Dict<string>)
      reads this
      ensures h == State().header
    {
      header
    }

    /** `isJson()` */
    predicate IsJson()
      reads this
      ensures IsJson() <==> Dict.Get(header, ContentType) == Some(ApplicationJson)
    {
      State().IsJson()
    }

    /** `body()` */
    function Body(): (b: Dict.Dict<Json.Value>)
      reads this
      ensures b == State().data
    {
      data
    }

    /** `#send()`: the receiver, through its own middlewares, to the request terminal. */
    method Send() returns (o: Dispatch.Outcome)
      ensures o == Dispatch.Send(State())
    {
      var chain := Dispatch.Through(middlewares, Dispatch.TerminalHandler(Dispatch.RequestTerminal));
      o := chain(State());
    }

    method Get(u: string, q: Dict.Dict<string> := []) returns (o: Dispatch.Outcome)
      ensures o == Dispatch.Get(State(), u, q)
    {
      var a := Method(GET);
      var b := a.Url(u);
      var c := b.WithQuery(q);
      o := c.Send();
    }

    method Delete(u: string, q: Dict.Dict<string> := []) returns (o: Dispatch.Outcome)
      ensures o == Dispatch.Delete(State(), u, q)
    {
      var a := Method(DELETE);
      var b := a.Url(u);
      var c := b.WithQuery(q);
      o := c.Send();
    }

    method Post(u: string, body: Dict.Dict<Json.Value> := []) returns (o: Dispatch.Outcome)
      ensures o == Dispatch.Post(State(), u, body)
    {
      var a := Method(POST);
      var b := a.Url(u);
      var c := b.WithBody(body);
      o := c.Send();
    }

    method Put(u: string, body: Dict.Dict<Json.Value> := []) returns (o: Dispatch.Outcome)
      ensures o == Dispatch.Put(State(), u, body)
    {
      var a := Method(PUT);
      var b := a.Url(u);
      var c := b.WithBody(body);
      o := c.Send();
    }

    /** `upload(option)`: the receiver's middlewares around the upload terminal. */
    method Upload(u: string, filePath: string, name: string) returns (o: Dispatch.Outcome)
      ensures o == Dispatch.Upload(State(), u, filePath, name)
    {
      var a := Url(u);
      var request := a.AsMultipart();
      var chain := Dispatch.Through(middlewares, Dispatch.TerminalHandler(Dispatch.UploadTerminal(name, filePath)));
      o := chain(request.State());
    }
  }

  /**
   * What `Factory.new()` mints from a base URL and a middleware list: those
   * two, a JSON content type and nothing else.
   */
  function Minted(b: Option<string>, ms: seq<Middleware>): (r: Request)
    ensures r.baseUrl == b && r.middlewares == ms
    ensures r.httpMethod == None && r.url == None
    ensures r.query == [] && r.data == []
    ensures r.header == [(ContentType, ApplicationJson)] && r.IsJson()
  {
    var r := Blank.WithBaseUrl(b).Use(Many(ms)).AsJson();
    assert Dict.Set([], ContentType, ApplicationJson) == [(ContentType, ApplicationJson)];
    r
  }

  class Factory {
    var baseUrl: Option<string>
    var middlewares: seq<Middleware>

    /** `new Factory()`: no base URL, no middleware. */
    constructor ()
      ensures baseUrl == None && middlewares == []
    {
      baseUrl, middlewares := None, [];
    }

    /** `new()`: a request seeded with a copy of the current defaults. */
    method New() returns (r: PendingRequest)
      ensures fresh(r) && unchanged(this)
      ensures r.State() == Minted(baseUrl, middlewares)
    {
      var r0 := new PendingRequest();
      var r1 := r0.BaseUrl(baseUrl);
      var r2 := r1.Use(Many(middlewares));
      r := r2.AsJson();
    }

    /** `baseUrl(url)`: replaces the default base URL; returns the factory itself. */
    method BaseUrl(u: string) returns (self: Factory)
      modifies this
      ensures self == this
      ensures baseUrl == Some(u) && middlewares == old(middlewares)
    {
      baseUrl := Some(u);
      self := this;
    }

    /** `use(fn)`: appends to the default middleware array, one handler at a time. */
    method Use(fn: Handlers) returns (self: Factory)
      modifies this
      ensures self == this
      ensures middlewares == old(middlewares) + fn.AsSeq() && baseUrl == old(baseUrl)
    {
      var handlers := fn.AsSeq();
      for i := 0 to |handlers|
        invariant middlewares == old(middlewares) + handlers[..i] && baseUrl == old(baseUrl)
      {
        middlewares := middlewares + [handlers[i]];
      }
      self := this;
    }
  }
}
