/** Client code replaying what the test suite expects of the library. */
module Scenarios {
  import opened Wrappers
  import Dict
  import Url
  import opened Requests
  import opened Dispatch
  import opened Client

  /** A header added to a request does not show up in a later dispatch of the request it came from. */
  method BuilderIsImmutable() returns (o: Outcome)
    ensures o.result.Sent?
    ensures o.result.call.header == [(ContentType, ApplicationJson)]
    ensures Dict.Get(o.result.call.header, "X-Foo") == None
  {
    var factory := new Factory();
    var request := factory.New();
    var withFoo := request.WithHeader("X-Foo", "bar");
    o := request.Get("/");
    QueryVerbCalls(request.State(), "/", []);
  }

  /** The factory's base URL and JSON default reach every request it mints. */
  method FactoryDefaults() returns (root: Outcome, api: Outcome)
    ensures root.result.Sent? && root.result.call.url == "http://example.com"
    ensures api.result.Sent? && api.result.call.url == "http://example.com/api"
    ensures root.result.call.header == [(ContentType, ApplicationJson)]
    ensures root.result.call.RequestCall? && root.result.call.expectJson
  {
    var factory := new Factory();
    var same := factory.BaseUrl("http://example.com");
    var r1 := factory.New();
    root := r1.Get("/");
    var r2 := factory.New();
    api := r2.Get("/api");
    QueryVerbCalls(r1.State(), "/", []);
    QueryVerbCalls(r2.State(), "/api", []);
    Url.ResolveRelativeExamples();
    var g := r1.State().WithMethod(GET).WithUrl("/").WithQuery([]);
    assert Rewrite([], g) == g;
  }

  /** Middleware added to the factory later does not reach a request minted earlier. */
  method MintedRequestsAreSnapshots(m: Middleware) returns (before: PendingRequest, after: PendingRequest)
    ensures before.State().middlewares == []
    ensures after.State().middlewares == [m]
  {
    var factory := new Factory();
    before := factory.New();
    var same := factory.Use(One(m));
    after := factory.New();
  }

  /** A middleware that adds a header before calling `next` changes what is sent. */
  method MiddlewareChangesRequest() returns (o: Outcome)
    ensures o.result.Sent?
    ensures Dict.Get(o.result.call.header, "X-Foo") == Some("bar")
  {
    var factory := new Factory();
    var r0 := factory.New();
    var m := Middleware("foo", AddHeader("X-Foo", "bar"));
    var request := r0.Use(One(m));
    o := request.Get("http://example.com");
    AddedHeaderIsSent(request.State(), "foo", "X-Foo", "bar", "http://example.com", []);
  }
}
