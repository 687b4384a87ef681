/**
 * Dispatching a request: the middleware chain (`#throughMiddlewares`), the
 * two terminals (`#dispatchRequest`, `#dispatchUpload`) and the verbs that
 * lead to them. A terminal is modelled by the call it hands to the
 * transport; a dispatch records the order in which middlewares were entered
 * and left.
 */
module Dispatch {
  import opened Wrappers
  import Dict
  import Json
  import Url
  import Responses
  import opened Requests

  /** What a terminal hands to the transport (`wx.request` / `wx.uploadFile`). */
  datatype Call =
    | RequestCall(url: string, data: Dict.Dict<Json.Value>, header: Dict.Dict<string>,
                  httpMethod: Option<HttpMethod>, expectJson: bool)
    | UploadCall(url: string, filePath: string, name: string, header: Dict.Dict<string>)

  datatype Terminal = RequestTerminal | UploadTerminal(name: string, filePath: string)

  /**
   * How a dispatch ends: a call handed to the transport, a response some
   * middleware produced itself, or the TypeError of building a URL that was
   * never set.
   */
  datatype Result = Sent(call: Call) | Responded(response: Responses.Response) | UrlUndefined

  datatype Event = Enter(name: string) | Leave(name: string)

  datatype Outcome = Outcome(log: seq<Event>, result: Result)

  type Handler = Request -> Outcome

  /** The call a terminal makes for the request that reaches it. */
  function Describe(t: Terminal, r: Request): (res: Result)
    ensures res.UrlUndefined? <==> r.url.None?
    ensures res.Sent? <==> r.url.Some?
    ensures res.Sent? && t.RequestTerminal? ==>
      res.call == RequestCall(r.BuildUrl().value, r.data, r.header, r.httpMethod, r.IsJson())
    ensures res.Sent? && t.UploadTerminal? ==>
      res.call == UploadCall(r.BuildUrl().value, t.filePath, t.name, r.header)
  {
    match r.BuildUrl()
    case None => UrlUndefined
    case Some(u) =>
      match t
      case RequestTerminal => Sent(RequestCall(u, r.data, r.header, r.httpMethod, r.IsJson()))
      case UploadTerminal(name, filePath) => Sent(UploadCall(u, filePath, name, r.header))
  }

  /** The innermost link of the chain. */
  function TerminalHandler(t: Terminal): Handler {
    r => Outcome([], Describe(t, r))
  }

  lemma TerminalOutcome(t: Terminal, r: Request)
    ensures TerminalHandler(t)(r) == Outcome([], Describe(t, r))
  {
  }

  function Wrap(name: string, o: Outcome): Outcome {
    Outcome([Enter(name)] + o.log + [Leave(name)], o.result)
  }

  /** The request a middleware that calls `next` passes on. */
  function Forwarded(m: Middleware, r: Request): Request {
    match m.action
    case AddHeader(h, v) => r.WithHeader(h, v)
    case _ => r
  }

  /**
   * `middleware(request, next)`: a middleware that answers never calls
   * `next`; any other one ends with what `next` gave it, wrapped in its own
   * entry and exit.
   */
  function Invoke(m: Middleware, r: Request, next: Handler): (o: Outcome)
    ensures m.action.Respond? ==> o.result == Responded(m.action.response)
    ensures !m.action.Respond? ==>
      var inner := next(Forwarded(m, r));
      && o.result == inner.result
      && o.log == [Enter(m.name)] + inner.log + [Leave(m.name)]
  {
    match m.action
    case Respond(resp) => Outcome([Enter(m.name), Leave(m.name)], Responded(resp))
    case _ => Wrap(m.name, next(Forwarded(m, r)))
  }

  /**
   * `xs.reduceRight(f, init)`: the last element is combined with `init`
   * first, and the first element last.
   */
  function FoldRight<A, B>(xs: seq<A>, f: (B, A) -> B, init: B): (r: B)
    ensures xs == [] ==> r == init
    ensures xs != [] ==> r == FoldRight(xs[..|xs| - 1], f, f(init, xs[|xs| - 1]))
    decreases |xs|
  {
    if xs == [] then init
    else
      var tail := xs[1..];
      var r := f(FoldRight(tail, f, init), xs[0]);
      if tail == [] then r
      else
        assert xs[..|xs| - 1][1..] == tail[..|tail| - 1];
        assert xs[|xs| - 1] == tail[|tail| - 1];
        r
  }

  /** `#throughMiddlewares`: each middleware gets the chain built so far as its `next`. */
  function Through(ms: seq<Middleware>, handler: Handler): (h: Handler)
    ensures ms == [] ==> h == handler
    ensures ms != [] ==> forall r :: h(r) == Invoke(ms[0], r, Through(ms[1..], handler))
    decreases |ms|
  {
    FoldRight(ms, (next: Handler, m: Middleware) => (r: Request) => Invoke(m, r, next), handler)
  }

  /** The onion read directly: the first middleware runs with the rest of the chain as `next`. */
  function Run(ms: seq<Middleware>, r: Request, handler: Handler): Outcome
    decreases |ms|
  {
    if ms == [] then handler(r)
    else Invoke(ms[0], r, (r': Request) => Run(ms[1..], r', handler))
  }

  /** The right fold builds exactly the onion. */
  lemma {:induction false} ThroughIsRun(ms: seq<Middleware>, handler: Handler)
    ensures forall r :: Through(ms, handler)(r) == Run(ms, r, handler)
  {
    if ms != [] {
      ThroughIsRun(ms[1..], handler);
    }
  }

  /** `ThroughIsRun` at one request. */
  lemma ThroughAt(ms: seq<Middleware>, handler: Handler, r: Request)
    ensures Through(ms, handler)(r) == Run(ms, r, handler)
  {
    ThroughIsRun(ms, handler);
  }

  // ---- what a chain does ------------------------------------------------

  /** No middleware answers by itself: every one calls `next`. */
  predicate NoResponder(ms: seq<Middleware>) {
    forall i :: 0 <= i < |ms| ==> !ms[i].action.Respond?
  }

  predicate AllPassThrough(ms: seq<Middleware>) {
    forall i :: 0 <= i < |ms| ==> ms[i].action.PassThrough?
  }

  /** The request after each middleware's change, in order. */
  function Rewrite(ms: seq<Middleware>, r: Request): Request {
    if ms == [] then r else Rewrite(ms[1..], Forwarded(ms[0], r))
  }

  /** Entering the middlewares, first to last. */
  function Enters(ms: seq<Middleware>): (es: seq<Event>)
    ensures |es| == |ms|
  {
    if ms == [] then [] else [Enter(ms[0].name)] + Enters(ms[1..])
  }

  /** Leaving the middlewares, last to first. */
  function Leaves(ms: seq<Middleware>): (es: seq<Event>)
    ensures |es| == |ms|
  {
    if ms == [] then [] else Leaves(ms[1..]) + [Leave(ms[0].name)]
  }

  /**
   * The middlewares of this model (pass on, add a header, answer) change
   * nothing but headers, and pass-through ones change nothing at all. The
   * library itself allows a middleware to pass on any request.
   */
  lemma {:induction false} RewriteOnlyHeaders(ms: seq<Middleware>, r: Request)
    ensures Rewrite(ms, r) == r.(header := Rewrite(ms, r).header)
    ensures AllPassThrough(ms) ==> Rewrite(ms, r) == r
  {
    if ms != [] {
      RewriteOnlyHeaders(ms[1..], Forwarded(ms[0], r));
    }
  }

  /** An empty chain hands the request straight to the terminal. */
  lemma EmptyChain(handler: Handler, r: Request)
    ensures Through([], handler)(r) == handler(r)
  {
  }

  /** Whatever the middlewares do, the first one is entered first. */
  lemma FirstEnteredFirst(ms: seq<Middleware>, r: Request, handler: Handler)
    requires ms != []
    ensures Through(ms, handler)(r).log != []
    ensures Through(ms, handler)(r).log[0] == Enter(ms[0].name)
  {
    ThroughIsRun(ms, handler);
  }

  /** One step of the onion: a middleware that calls `next` wraps the rest of the chain. */
  lemma RunStep(ms: seq<Middleware>, r: Request, handler: Handler)
    requires ms != [] && !ms[0].action.Respond?
    ensures Run(ms, r, handler) == Wrap(ms[0].name, Run(ms[1..], Forwarded(ms[0], r), handler))
  {
  }

  lemma NoResponderTail(ms: seq<Middleware>)
    requires ms != [] && NoResponder(ms)
    ensures NoResponder(ms[1..]) && !ms[0].action.Respond?
  {
    forall i | 0 <= i < |ms| - 1 ensures !ms[1..][i].action.Respond? {
      assert ms[1..][i] == ms[i + 1];
    }
  }

  /** Wrapping the log of the inner layers in the outermost middleware's events. */
  lemma WrapLayer(ms: seq<Middleware>, log: seq<Event>, res: Result)
    requires ms != []
    ensures Wrap(ms[0].name, Outcome(Enters(ms[1..]) + log + Leaves(ms[1..]), res))
         == Outcome(Enters(ms) + log + Leaves(ms), res)
  {
    var m, tail := ms[0], ms[1..];
    assert Enters(ms) == [Enter(m.name)] + Enters(tail);
    assert Leaves(ms) == Leaves(tail) + [Leave(m.name)];
    Regroup([Enter(m.name)], Enters(tail), log, Leaves(tail), [Leave(m.name)]);
  }

  lemma Regroup<T>(a: seq<T>, b: seq<T>, c: seq<T>, d: seq<T>, e: seq<T>)
    ensures (a + b) + c + (d + e) == a + (b + c + d) + e
  {
  }

  /**
   * When every middleware calls `next`, the middlewares are entered first to
   * last and left last to first around the terminal, and the terminal
   * receives the request as the middlewares changed it, in order.
   */
  lemma {:induction false} Onion(ms: seq<Middleware>, r: Request, handler: Handler)
    requires NoResponder(ms)
    ensures var inner := handler(Rewrite(ms, r));
            Run(ms, r, handler) == Outcome(Enters(ms) + inner.log + Leaves(ms), inner.result)
  {
    if ms != [] {
      var tail, r1 := ms[1..], Forwarded(ms[0], r);
      var inner := handler(Rewrite(ms, r));
      NoResponderTail(ms);
      assert Run(tail, r1, handler) == Outcome(Enters(tail) + inner.log + Leaves(tail), inner.result) by {
        Onion(tail, r1, handler);
      }
      RunStep(ms, r, handler);
      WrapLayer(ms, inner.log, inner.result);
    }
  }

  /**
   * The first middleware that answers by itself ends the dispatch with its
   * response: the terminal is never reached, and the middlewares before it
   * are left in reverse order.
   */
  lemma {:induction false} ShortCircuit(ms: seq<Middleware>, i: nat, r: Request, handler: Handler)
    requires i < |ms| && ms[i].action.Respond? && NoResponder(ms[..i])
    ensures Run(ms, r, handler)
         == Outcome(Enters(ms[..i + 1]) + Leaves(ms[..i + 1]), Responded(ms[i].action.response))
  {
    var m, tail := ms[0], ms[1..];
    var pre := ms[..i + 1];
    if i == 0 {
      assert pre == [m];
      assert Enters(pre) == [Enter(m.name)] + Enters([]);
      assert Leaves(pre) == Leaves([]) + [Leave(m.name)];
    } else {
      assert ms[..i][0] == m;
      NoResponderTail(ms[..i]);
      assert ms[..i][1..] == tail[..i - 1];
      ShortCircuit(tail, i - 1, Forwarded(m, r), handler);
      RunStep(ms, r, handler);
      assert pre[1..] == tail[..i];
      assert Enters(pre) == [Enter(m.name)] + Enters(tail[..i]);
      assert Leaves(pre) == Leaves(tail[..i]) + [Leave(m.name)];
      Regroup([Enter(m.name)], Enters(tail[..i]), [], Leaves(tail[..i]), [Leave(m.name)]);
      assert Enters(tail[..i]) + [] == Enters(tail[..i]);
      assert Enters(pre) + [] == Enters(pre);
    }
  }

  /** A middleware attached last (by `use`) is the innermost one, right around the terminal. */
  lemma {:induction false} AppendedIsInnermost(ms: seq<Middleware>, m: Middleware, r: Request, handler: Handler)
    ensures Run(ms + [m], r, handler) == Run(ms, r, Through([m], handler))
  {
    if ms == [] {
      assert ms + [m] == [m];
      ThroughIsRun([m], handler);
    } else {
      assert (ms + [m])[1..] == ms[1..] + [m];
      forall r' ensures Run(ms[1..] + [m], r', handler) == Run(ms[1..], r', Through([m], handler)) {
        AppendedIsInnermost(ms[1..], m, r', handler);
      }
    }
  }

  /**
   * The URL a request was given survives every middleware of this model: a
   * terminal reached with it never throws. This holds because none of the
   * three modelled behaviours touches the URL; the library does not promise
   * it for a middleware that passes on some other request.
   */
  lemma {:induction false} UrlSurvives(ms: seq<Middleware>, r: Request, t: Terminal)
    ensures r.url.Some? ==> Run(ms, r, TerminalHandler(t)).result != UrlUndefined
  {
    if ms != [] && r.url.Some? {
      forall r': Request | r'.url == r.url ensures Run(ms[1..], r', TerminalHandler(t)).result != UrlUndefined {
        UrlSurvives(ms[1..], r', t);
      }
    }
  }

  // ---- the verbs ----------------------------------------------------------

  /**
   * `#send()`: the receiver's chain around the request terminal, applied to
   * the receiver. A request with a path never meets the undefined-URL
   * failure, and without middleware it goes straight to the terminal.
   */
  function Send(r: Request): (o: Outcome)
    ensures r.url.Some? ==> !o.result.UrlUndefined?
    ensures r.middlewares == [] ==> o == Outcome([], Describe(RequestTerminal, r))
  {
    Dispatched(r, RequestTerminal)
  }

  /** The receiver's chain around terminal `t`, applied to `r`. */
  function Dispatched(r: Request, t: Terminal): (o: Outcome)
    ensures r.url.Some? ==> !o.result.UrlUndefined?
    ensures r.middlewares == [] ==> o == Outcome([], Describe(t, r))
  {
    ThroughAt(r.middlewares, TerminalHandler(t), r);
    UrlSurvives(r.middlewares, r, t);
    Through(r.middlewares, TerminalHandler(t))(r)
  }

  /** `get(url, query)`: the query is replaced; the body is kept. It never meets an undefined URL. */
  function Get(r: Request, url: string, query: Dict.Dict<string>): (o: Outcome)
    ensures !o.result.UrlUndefined?
  {
    Send(r.WithMethod(GET).WithUrl(url).WithQuery(query))
  }

  /** `delete(url, query)`: the query is replaced; the body is kept. It never meets an undefined URL. */
  function Delete(r: Request, url: string, query: Dict.Dict<string>): (o: Outcome)
    ensures !o.result.UrlUndefined?
  {
    Send(r.WithMethod(DELETE).WithUrl(url).WithQuery(query))
  }

  /** `post(url, body)`: the body is replaced; the query is kept. It never meets an undefined URL. */
  function Post(r: Request, url: string, body: Dict.Dict<Json.Value>): (o: Outcome)
    ensures !o.result.UrlUndefined?
  {
    Send(r.WithMethod(POST).WithUrl(url).WithBody(body))
  }

  /** `put(url, body)`: the body is replaced; the query is kept. It never meets an undefined URL. */
  function Put(r: Request, url: string, body: Dict.Dict<Json.Value>): (o: Outcome)
    ensures !o.result.UrlUndefined?
  {
    Send(r.WithMethod(PUT).WithUrl(url).WithBody(body))
  }

  /**
   * `upload({url, filePath, name})`: the receiver's chain around the upload
   * terminal, applied to the receiver with the path and the multipart
   * content type set. It never meets an undefined URL.
   */
  function Upload(r: Request, url: string, filePath: string, name: string): (o: Outcome)
    ensures !o.result.UrlUndefined?
  {
    Dispatched(r.WithUrl(url).AsMultipart(), UploadTerminal(name, filePath))
  }

  /** With no answering middleware, a terminal at the centre of the onion sees the rewritten request. */
  lemma RunToTerminal(ms: seq<Middleware>, r: Request, t: Terminal)
    requires NoResponder(ms)
    ensures Run(ms, r, TerminalHandler(t))
         == Outcome(Enters(ms) + Leaves(ms), Describe(t, Rewrite(ms, r)))
  {
    var s := Rewrite(ms, r);
    Onion(ms, r, TerminalHandler(t));
    TerminalOutcome(t, s);
  }

  /**
   * What a request sends when every middleware calls `next`: the call the
   * terminal builds from the request as the middlewares left it, which is
   * the sent request with only its headers changed.
   */
  lemma SendCall(r: Request, t: Terminal, s: Request)
    requires NoResponder(r.middlewares)
    requires s == Rewrite(r.middlewares, r)
    ensures s == r.(header := s.header)
    ensures Through(r.middlewares, TerminalHandler(t))(r)
         == Outcome(Enters(r.middlewares) + Leaves(r.middlewares), Describe(t, s))
  {
    RewriteOnlyHeaders(r.middlewares, r);
    RunToTerminal(r.middlewares, r, t);
    ThroughAt(r.middlewares, TerminalHandler(t), r);
  }

  /**
   * `get` and `delete` hand the transport the method, the base URL joined
   * with the new path and the new query, and the body set earlier.
   */
  lemma QueryVerbCalls(r: Request, url: string, query: Dict.Dict<string>)
    requires NoResponder(r.middlewares)
    ensures
      var s := Rewrite(r.middlewares, r.WithMethod(GET).WithUrl(url).WithQuery(query));
      Get(r, url, query).result ==
        Sent(RequestCall(Url.Build(r.baseUrl, url, query), r.data, s.header, Some(GET), s.IsJson()))
    ensures
      var s := Rewrite(r.middlewares, r.WithMethod(DELETE).WithUrl(url).WithQuery(query));
      Delete(r, url, query).result ==
        Sent(RequestCall(Url.Build(r.baseUrl, url, query), r.data, s.header, Some(DELETE), s.IsJson()))
  {
    var g := r.WithMethod(GET).WithUrl(url).WithQuery(query);
    SendCall(g, RequestTerminal, Rewrite(r.middlewares, g));
    var d := r.WithMethod(DELETE).WithUrl(url).WithQuery(query);
    SendCall(d, RequestTerminal, Rewrite(r.middlewares, d));
  }

  /**
   * `post` and `put` hand the transport the method, the base URL joined
   * with the new path and the query set earlier, and the new body.
   */
  lemma BodyVerbCalls(r: Request, url: string, body: Dict.Dict<Json.Value>)
    requires NoResponder(r.middlewares)
    ensures
      var s := Rewrite(r.middlewares, r.WithMethod(POST).WithUrl(url).WithBody(body));
      Post(r, url, body).result ==
        Sent(RequestCall(Url.Build(r.baseUrl, url, r.query), body, s.header, Some(POST), s.IsJson()))
    ensures
      var s := Rewrite(r.middlewares, r.WithMethod(PUT).WithUrl(url).WithBody(body));
      Put(r, url, body).result ==
        Sent(RequestCall(Url.Build(r.baseUrl, url, r.query), body, s.header, Some(PUT), s.IsJson()))
  {
    var p := r.WithMethod(POST).WithUrl(url).WithBody(body);
    SendCall(p, RequestTerminal, Rewrite(r.middlewares, p));
    var q := r.WithMethod(PUT).WithUrl(url).WithBody(body);
    SendCall(q, RequestTerminal, Rewrite(r.middlewares, q));
  }

  /**
   * `upload` hands the upload transport the URL built from the new path and
   * the query set earlier, the file and field name, and the headers; with
   * pass-through middlewares the content type is `multipart/form-data`.
   */
  lemma UploadCallMade(r: Request, url: string, filePath: string, name: string)
    requires NoResponder(r.middlewares)
    ensures
      var s := Rewrite(r.middlewares, r.WithUrl(url).AsMultipart());
      Upload(r, url, filePath, name).result ==
        Sent(UploadCall(Url.Build(r.baseUrl, url, r.query), filePath, name, s.header))
    ensures AllPassThrough(r.middlewares) ==>
      Upload(r, url, filePath, name).result.call.header == r.AsMultipart().header
  {
    var u := r.WithUrl(url).AsMultipart();
    SendCall(u, UploadTerminal(name, filePath), Rewrite(r.middlewares, u));
    RewriteOnlyHeaders(r.middlewares, u);
  }

  /** A middleware that adds a header before calling `next` gets that header sent. */
  lemma AddedHeaderIsSent(r: Request, name: string, h: string, v: string,
                          url: string, query: Dict.Dict<string>)
    requires r.middlewares == [Middleware(name, AddHeader(h, v))]
    ensures Get(r, url, query).result.Sent?
    ensures Dict.Get(Get(r, url, query).result.call.header, h) == Some(v)
  {
    var ms := r.middlewares;
    var g := r.WithMethod(GET).WithUrl(url).WithQuery(query);
    QueryVerbCalls(r, url, query);
    assert ms[1..] == [];
    assert Rewrite(ms, g) == g.WithHeader(h, v);
    assert g.WithHeader(h, v).GetHeaderLine(h) == Some(v);
  }

  /** Two logging middlewares A and B run as A in, B in, B out, A out. */
  lemma TwoMiddlewareOrder(r: Request, handler: Handler)
    requires handler(r).log == []
    ensures var ms := [Middleware("A", PassThrough), Middleware("B", PassThrough)];
            Through(ms, handler)(r).log == [Enter("A"), Enter("B"), Leave("B"), Leave("A")]
  {
    var ms := [Middleware("A", PassThrough), Middleware("B", PassThrough)];
    ThroughIsRun(ms, handler);
    Onion(ms, r, handler);
    RewriteOnlyHeaders(ms, r);
    assert ms[1..] == [Middleware("B", PassThrough)];
    assert Enters(ms) == [Enter("A"), Enter("B")];
    assert Leaves(ms) == [Leave("B"), Leave("A")];
  }
}
