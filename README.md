# wave: a verified model of a mini-program HTTP client

This project models in Dafny the core of a small HTTP client for WeChat
mini-programs, found in `src/index.ts`. It has five parts:

- **Response** wraps one transport result. It reports the status code and
  classifies it (`ok`, `successful`, `clientError`, `serverError`). It also
  hands out the payload and decodes JSON; a parse failure gives `{}`.
- **PendingRequest** is an immutable request builder. Every mutator clones
  the receiver and changes one field of the clone: method, base URL, path,
  query, headers, body or middleware list. `get`/`delete` set the query,
  `post`/`put` set the body, and `upload` sends a multipart file. Each verb
  runs the request through the middleware chain and then hands it to the
  transport.
- **URL building** resolves the path against the base URL and appends an
  `encodeURIComponent`-encoded query string.
- **The middleware chain** is a right fold (`reduceRight`). Each middleware
  receives the request and `next`: the chain that is left, ending in the
  transport call.
- **Factory** holds a base URL and a middleware list, both changed in place.
  It mints JSON requests that carry a snapshot of those two.

The model has two layers. `Requests.Request` is a value that holds every
field of a PendingRequest; its `With…` functions are the specification of
the builder. `Client.PendingRequest` is a class with the same fields. Each
of its mutators allocates a fresh object, leaves the receiver unchanged and
is proved to produce the state the matching `Request` function gives.
`Client.Factory` is a class whose `BaseUrl` and `Use` update its own fields.

The transport is not run. A dispatch ends in a `Dispatch.Outcome`, which
holds:

- the call that would be handed to `wx.request` or `wx.uploadFile`, or the
  response a middleware produced itself, or `UrlUndefined`;
- a log of the order in which middlewares were entered and left.

`UrlUndefined` stands for the TypeError that `#buildUrl` throws when no URL
was ever set.

Middlewares are arbitrary functions in the source. Here they are a datatype
of behaviours:

- pass the request on;
- add a header and pass it on;
- answer with a response without calling `next`.

`JSON.parse` is a function parameter. `encodeURIComponent` is modelled
exactly: the unreserved set of ECMA-262, then UTF-8 and upper-case percent
escapes. A decoder is proved to undo it, and a query parser is proved to
undo the query string.

Behaviour of the code that the model keeps:

- `get`/`delete` keep a body set earlier, and `post`/`put` keep a query set
  earlier. The verbs replace one of the two and never clear the other.
- `upload` builds its URL with the query string, like the other verbs.
- `upload` sets only the path and the multipart content type, and no HTTP method (`src/index.ts:191`): `wx.uploadFile` always posts, as the test titled 'uploads a file with POST request' (`tests/index.test.ts:225`) expects.
- The path loses one trailing slash *before* the absolute-URL test, so
  `"http://"` is treated as relative.
- With a base URL, a path of `"/"` or `""` gives the base URL alone.

## Model

| member | source | states |
|---|---|---|
| Responses.Response.Status | src/index.ts:31-33 | the status is the transport's status code |
| Responses.Response.Ok | src/index.ts:35-37 | ok holds exactly for status 200, and ok implies successful |
| Responses.Response.Successful | src/index.ts:39-42 | successful holds exactly for 200..299 and excludes both error classes |
| Responses.Response.ClientError | src/index.ts:44-47 | client error holds exactly for 400..499 and excludes server error |
| Responses.Response.ServerError | src/index.ts:49-52 | server error holds exactly for 500..599 |
| Responses.StatusClassesDisjoint | tests/index.test.ts:33-114 | no status is in two of the classes success, client error, server error |
| Responses.Response.Data | src/index.ts:54-58 | the payload is returned as delivered |
| Responses.Response.Json | src/index.ts:60-70 | text that parses gives its parse, text that fails gives `{}`, a decoded payload is returned unchanged |
| Responses.JsonRoundTrip | tests/index.test.ts:129-150 | a payload made by encoding a value decodes back to that value |
| Responses.Response.Raw | src/index.ts:72-74 | the whole transport result is returned |
| Dict.Keys | src/index.ts:311 | the keys of an object, in insertion order, one per entry |
| Dict.Get | src/index.ts:126-128 | a lookup succeeds exactly when the key is present |
| Dict.GetAt | src/index.ts:126-128 | the entry at each position is what a lookup of its key gives |
| Dict.Set | src/index.ts:120-124 | assignment keeps an existing key in its place and appends a new key last |
| Dict.SetGet | src/index.ts:120-124 | after assignment the key reads the new value and every other key reads as before |
| Requests.Handlers.AsSeq | src/index.ts:162 | one middleware becomes a one-element list, an array is used as it is |
| Requests.Request.WithMethod | src/index.ts:92-96 | the method is set and no other field changes |
| Requests.Request.WithBaseUrl | src/index.ts:98-102 | the base URL is set (or cleared) and no other field changes |
| Requests.Request.WithUrl | src/index.ts:104-108 | the path is set and no other field changes |
| Requests.Request.WithQuery | src/index.ts:110-114 | the query is replaced as a whole and no other field changes |
| Requests.Request.HasHeader | src/index.ts:116-118 | a header is present exactly when reading it gives a value |
| Requests.Request.WithHeader | src/index.ts:120-124 | the header reads the new value, other headers read as before, key order is kept, nothing but the headers changes |
| Requests.Request.GetHeaderLine | src/index.ts:126-128 | a value exactly when the header is present, and then the value stored under it |
| Requests.Request.AsJson | src/index.ts:134-136 | sets the JSON content type, after which the request is JSON |
| Requests.Request.AsForm | src/index.ts:138-140 | sets the form content type, after which the request is not JSON |
| Requests.Request.AsMultipart | src/index.ts:142-144 | sets the multipart content type, after which the request is not JSON |
| Requests.Request.IsJson | src/index.ts:146-148 | JSON exactly when the content type reads `application/json` |
| Requests.Request.WithBody | src/index.ts:150-154 | the body is replaced as a whole and no other field changes |
| Requests.Request.Use | src/index.ts:160-167 | the handlers are appended in order after the existing middlewares, which stay as they were |
| Requests.Request.BuildUrl | src/index.ts:294-308 | a URL exactly when a path was set, and then the one built from base, path and query |
| Client.PendingRequest.constructor | src/index.ts:77-90 | a new request has nothing set, empty maps and no middleware |
| Client.PendingRequest.Clone | src/index.ts:282-292 | a fresh object with the receiver's state |
| Client.PendingRequest.Method | src/index.ts:92-96 | a fresh request whose state is the receiver's with the method set; the receiver is unchanged |
| Client.PendingRequest.BaseUrl | src/index.ts:98-102 | a fresh request with the base URL set; the receiver is unchanged |
| Client.PendingRequest.Url | src/index.ts:104-108 | a fresh request with the path set; the receiver is unchanged |
| Client.PendingRequest.WithQuery | src/index.ts:110-114 | a fresh request with the query replaced; the receiver is unchanged |
| Client.PendingRequest.WithHeader | src/index.ts:120-124 | a fresh request with the header set; the receiver is unchanged |
| Client.PendingRequest.AsJson | src/index.ts:134-136 | a fresh JSON request; the receiver is unchanged |
| Client.PendingRequest.AsForm | src/index.ts:138-140 | a fresh form request; the receiver is unchanged |
| Client.PendingRequest.AsMultipart | src/index.ts:142-144 | a fresh multipart request; the receiver is unchanged |
| Client.PendingRequest.WithBody | src/index.ts:150-154 | a fresh request with the body replaced; the receiver is unchanged |
| Client.PendingRequest.Use | src/index.ts:160-167 | the loop pushes every handler in order onto a fresh clone's list; the receiver is unchanged |
| Client.PendingRequest.HasHeader | src/index.ts:116-118 | a header is present exactly when its name is among the keys |
| Client.PendingRequest.GetHeaderLine | src/index.ts:126-128 | the value stored under the name, `None` (for `null`) when absent |
| Client.PendingRequest.Header | src/index.ts:130-132 | the request's header map |
| Client.PendingRequest.IsJson | src/index.ts:146-148 | JSON exactly when the content type reads `application/json` |
| Client.PendingRequest.Body | src/index.ts:156-158 | the request's body map |
| Client.PendingRequest.Send | src/index.ts:235-239 | the dispatch of the receiver's state through its own middleware chain |
| Client.PendingRequest.Get | src/index.ts:169-171 | the dispatch of the receiver with GET, the path and the query (empty by default) set |
| Client.PendingRequest.Post | src/index.ts:173-175 | the dispatch of the receiver with POST, the path and the body (empty by default) set |
| Client.PendingRequest.Put | src/index.ts:177-179 | the dispatch of the receiver with PUT, the path and the body (empty by default) set |
| Client.PendingRequest.Delete | src/index.ts:181-183 | the dispatch of the receiver with DELETE, the path and the query (empty by default) set |
| Client.PendingRequest.Upload | src/index.ts:185-196 | the dispatch of the receiver with the path set, as multipart, through the upload terminal |
| Client.Minted | src/index.ts:326-331 | a minted request carries the factory's base URL and middlewares, no method, path, query or body, and the JSON content type only |
| Client.Factory.constructor | src/index.ts:321-324 | a new factory has no base URL and no middleware |
| Client.Factory.New | src/index.ts:326-331 | a fresh request built from the factory's current settings; the factory is unchanged |
| Client.Factory.BaseUrl | src/index.ts:333-336 | the base URL is replaced in place, the middlewares are kept, and the factory itself is returned |
| Client.Factory.Use | src/index.ts:338-344 | the loop appends every handler in order to the factory's own list; the base URL is kept |
| Url.StripTrailingSlash | src/index.ts:295 | removes exactly one trailing slash when there is one |
| Url.StripLeadingSlash | src/index.ts:301 | removes exactly one leading slash when there is one |
| Url.AlnumRun | src/index.ts:297 | the length of the longest alphanumeric prefix |
| Url.IsAbsolute | src/index.ts:297 | an absolute path is at least four characters long and never starts with a slash |
| Url.IsAbsoluteMatchesPattern | src/index.ts:297 | the absolute test holds exactly when `^[0-9a-zA-Z]+://` matches |
| Url.Resolve | src/index.ts:295-303 | a relative path with a base gives a URL that starts with the base minus one trailing slash; otherwise the URL is a prefix of the path |
| Url.ResolveScheme | src/index.ts:295-303 | a path of alphanumerics, `://` and no trailing slash is the URL itself, whatever the base |
| Url.ResolveWithoutBase | src/index.ts:295-303 | without a base, or with an absolute path, the URL is the path minus one trailing slash |
| Url.ResolveRelative | src/index.ts:297-303 | a relative path is joined to the base with exactly one `/`, or gives the base alone when nothing of it remains |
| Url.ResolveBaseSlash | src/index.ts:298-300 | a trailing slash on the base makes no difference |
| Url.ResolvePathSlash | src/index.ts:301 | a leading slash on a relative path makes no difference |
| Url.ResolveRelativeExamples | tests/index.test.ts:280-292 | the base-URL table of the tests for relative paths |
| Url.ResolveAbsoluteExample | tests/index.test.ts:285-287 | the three absolute paths of the base-URL table (`http://other.com`, `https://other.com`, `http://other.com/api`) ignore the base URL |
| Url.EncodePair | src/index.ts:312-316 | an encoded pair holds its `=` and no `&`, `?` or `#` |
| Url.EncodePairs | src/index.ts:311-316 | one encoded pair per query entry, in key order |
| Url.QueryString | src/index.ts:310-318 | empty exactly for an empty query, and never holds `?` or `#` |
| Url.ParseEncodedPair | src/index.ts:312-316 | an encoded pair reads back to the name and value |
| Url.ParseEncodedPairs | src/index.ts:311-316 | the encoded pairs read back to the entries, in order |
| Url.ParseQueryString | src/index.ts:310-318 | the query string reads back to exactly the query |
| Url.Build | src/index.ts:294-308 | the URL starts with the resolved path and equals it exactly when the query is empty |
| Url.BuildParts | src/index.ts:305-307 | the URL is the resolved path, plus `?` and a parseable query string when the query is not empty |
| Url.QueryStringOfUnreserved | tests/index.test.ts:181-195 | two pairs of unreserved names and values give `name=value&name=value` unchanged, as `{foo: 'bar', baz: 'qux'}` gives `foo=bar&baz=qux` |
| UriComponent.Utf8 | src/index.ts:313 | a character takes one to four UTF-8 octets |
| UriComponent.Encode | src/index.ts:313 | the result holds only unreserved characters and `%`, every `%` begins an escape of two hexadecimal digits, and it is no shorter than the input |
| UriComponent.EncodeUnreserved | src/index.ts:313 | text of unreserved characters encodes to itself |
| UriComponent.EncodedHasNoDelimiters | src/index.ts:313-317 | encoded text holds no `=`, `&`, `?` or `#` |
| UriComponent.DecodeEncodedChar | src/index.ts:313 | decoding reads back exactly one encoded character and its length |
| UriComponent.DecodeEncode | src/index.ts:313 | decoding the encoding gives back the text |
| UriComponent.EncodeInjective | src/index.ts:313 | different texts encode differently |
| Text.Join | src/index.ts:317 | joining nothing gives the empty text |
| Text.JoinTwo | src/index.ts:313-317 | two parts are joined with one separator between them |
| Text.SplitJoin | src/index.ts:317 | splitting a join of separator-free parts gives the parts back |
| Text.JoinWithout | src/index.ts:317 | a join holds no character that neither the parts nor the separator hold |
| Dispatch.Describe | src/index.ts:198-271 | the request terminal sends URL, body, headers, method and the JSON flag; the upload terminal sends URL, file, name and headers; an unset URL fails |
| Dispatch.Invoke | src/index.ts:276-277 | an answering middleware ends with its response and never calls `next`; any other one ends with `next`'s result, its log wrapped in the middleware's entry and exit |
| Dispatch.FoldRight | src/index.ts:275-279 | `reduceRight` gives the initial value for no elements and otherwise combines the last element with the initial value first |
| Dispatch.Through | src/index.ts:273-280 | with no middleware the chain is the terminal itself; otherwise the first middleware runs with the chain of the rest as `next` |
| Dispatch.ThroughIsRun | src/index.ts:273-280 | the right fold builds exactly the onion in which each middleware gets the rest of the chain as `next` |
| Dispatch.RewriteOnlyHeaders | src/index.ts:273-280 | the middlewares of this model (pass on, add a header, answer) change only headers, and pass-through ones change nothing; the library allows a middleware to pass on any request |
| Dispatch.EmptyChain | src/index.ts:275-278 | with no middleware the terminal receives the request |
| Dispatch.FirstEnteredFirst | src/index.ts:275-278 | the first middleware attached runs first |
| Dispatch.Onion | src/index.ts:273-280 | when every middleware calls `next`, they are entered first to last, left last to first, and the terminal gets the request as they changed it |
| Dispatch.ShortCircuit | src/index.ts:273-280 | the first middleware that answers ends the dispatch with its response, and the terminal is never reached |
| Dispatch.AppendedIsInnermost | src/index.ts:160-167 | a middleware attached last runs right around the terminal |
| Dispatch.UrlSurvives | src/index.ts:273-280 | with the middlewares of this model, none of which touches the URL, a request dispatched with a path never meets the undefined-URL failure |
| Dispatch.Send | src/index.ts:235-239 | a request with a path never meets the undefined-URL failure, and without middleware it goes straight to the request terminal |
| Dispatch.Dispatched | src/index.ts:273-280 | the same two facts for either terminal |
| Dispatch.Get | src/index.ts:169-171 | `get` never meets the undefined-URL failure |
| Dispatch.Post | src/index.ts:173-175 | `post` never meets the undefined-URL failure |
| Dispatch.Put | src/index.ts:177-179 | `put` never meets the undefined-URL failure |
| Dispatch.Delete | src/index.ts:181-183 | `delete` never meets the undefined-URL failure |
| Dispatch.Upload | src/index.ts:185-196 | `upload` never meets the undefined-URL failure |
| Dispatch.SendCall | src/index.ts:235-239 | with no answering middleware, send hands the terminal the request as the middlewares left it |
| Dispatch.QueryVerbCalls | src/index.ts:169-171 | get and delete send the method, the built URL with the new query, and the body set earlier |
| Dispatch.BodyVerbCalls | src/index.ts:173-179 | post and put send the method, the built URL with the query set earlier, and the new body |
| Dispatch.UploadCallMade | src/index.ts:185-233 | upload sends the built URL, file and name, with the multipart content type under pass-through middlewares |
| Dispatch.AddedHeaderIsSent | tests/index.test.ts:350-360 | a single middleware that adds a header before `next` makes `get` send that header |
| Dispatch.TwoMiddlewareOrder | src/index.ts:273-280 | by the fold, two pass-through middlewares A and B run as A in, B in, B out, A out |
| Scenarios.BuilderIsImmutable | tests/index.test.ts:294-306 | a header added to a derived request is not sent by the original |
| Scenarios.FactoryDefaults | tests/index.test.ts:401-426 | a factory base URL gives `http://example.com` for `/` and `http://example.com/api` for `/api`, with the JSON content type |
| Scenarios.MintedRequestsAreSnapshots | src/index.ts:326-344 | a middleware added to the factory later does not reach a request minted earlier |
| Scenarios.MiddlewareChangesRequest | tests/index.test.ts:350-360 | a middleware that adds a header before `next` gets that header sent |

## Left out

- The transport (`wx.request`, `wx.uploadFile`), promises and the request task handle are left out. A dispatch ends in the call it would make.
- The fixed transport flags (`enableHttp2`, `useHighPerformanceMode`, `responseType`) are left out, and so is the `dataType` value. `dataType` is reduced to the `expectJson` flag, which `isJson()` decides.
- Rejections from the transport and the resolution of responses into `Response` objects are left out, because they happen inside the transport.
- Middlewares are a datatype of three behaviours (pass on, add a header and pass on, answer), not arbitrary functions. A middleware that awaits, inspects the response or calls `next` twice is not modelled.
- `JSON.parse` is a parameter; its grammar is not part of this model. JSON numbers are integers here, not floating point.
- ArrayBuffer payloads are not modelled; a payload is text or an already decoded value.
- The ordering `Object.keys` gives to integer-like keys (ascending, before the others) is not modelled. Keys keep insertion order.
- Keys inherited through the prototype, which the `in` operator of `hasHeader` would also see, are not modelled.
- Lone UTF-16 surrogates, for which `encodeURIComponent` throws a URIError, cannot occur: Dafny characters are Unicode scalar values.
- Sharing between objects is not modelled. Clones copy values, so the shallow copy of nested query or body values is invisible here.
- A status code is an unbounded integer; the transport's range for it is not checked.
- Responses.JsonRoundTrip: assumes of the parser, as a precondition, that it inverts the encoder; `JSON.stringify` is not modelled.
