/**
 * How a request's URL is put together (`#buildUrl` and `#buildQueryString`
 * of PendingRequest): the path is resolved against the optional base URL,
 * and the query component (RFC 3986, section 3.4) is appended when there is
 * one.
 */
module Url {
  import opened Wrappers
  import Dict
  import UriComponent
  import Text

  predicate EndsWithSlash(s: string) {
    s != [] && s[|s| - 1] == '/'
  }

  predicate StartsWithSlash(s: string) {
    s != [] && s[0] == '/'
  }

  /** `s.endsWith('/') ? s.slice(0, -1) : s`: at most one trailing slash goes. */
  function StripTrailingSlash(s: string): (r: string)
    ensures if EndsWithSlash(s) then s == r + "/" else r == s
  {
    if EndsWithSlash(s) then s[..|s| - 1] else s
  }

  /** `s.startsWith('/') ? s.slice(1) : s`: at most one leading slash goes. */
  function StripLeadingSlash(s: string): (r: string)
    ensures if StartsWithSlash(s) then s == "/" + r else r == s
  {
    if StartsWithSlash(s) then s[1..] else s
  }

  /** The character class `[0-9a-zA-Z]`. */
  predicate IsAlnum(c: char) {
    ('0' <= c <= '9') || ('a' <= c <= 'z') || ('A' <= c <= 'Z')
  }

  /** Length of the longest prefix of `s` made of `[0-9a-zA-Z]`. */
  function AlnumRun(s: string): (n: nat)
    ensures n <= |s|
    ensures forall i :: 0 <= i < n ==> IsAlnum(s[i])
    ensures n < |s| ==> !IsAlnum(s[n])
  {
    if s == [] || !IsAlnum(s[0]) then 0 else 1 + AlnumRun(s[1..])
  }

  /** The run is exactly `n` long when `n` alphanumerics are followed by something else. */
  lemma AlnumRunIs(s: string, n: nat)
    requires n <= |s|
    requires forall i :: 0 <= i < n ==> IsAlnum(s[i])
    requires n < |s| ==> !IsAlnum(s[n])
    ensures AlnumRun(s) == n
  {
  }

  /** `s.match(/^[0-9a-zA-Z]+:\/\//)` succeeds: `s` names its own scheme. */
  predicate IsAbsolute(s: string)
    ensures IsAbsolute(s) ==> 4 <= |s| && !StartsWithSlash(s)
  {
    var n := AlnumRun(s);
    1 <= n && n + 3 <= |s| && s[n..n + 3] == "://"
  }

  /** The regular expression matches the first `n + 3` characters of `s`. */
  ghost predicate SchemeAt(s: string, n: nat) {
    && 1 <= n && n + 3 <= |s|
    && (forall i :: 0 <= i < n ==> IsAlnum(s[i]))
    && s[n..n + 3] == "://"
  }

  /**
   * `IsAbsolute` decides the regular expression: some non-empty run of
   * alphanumerics followed by `://` starts the text. (The pattern is a
   * narrower form of the scheme grammar of section 3.1 of RFC 3986.)
   */
  lemma IsAbsoluteMatchesPattern(s: string)
    ensures IsAbsolute(s) <==> exists n :: SchemeAt(s, n)
  {
    if IsAbsolute(s) {
      assert SchemeAt(s, AlnumRun(s));
    }
    if n: nat :| SchemeAt(s, n) {
      assert s[n..n + 3][0] == s[n];
      assert s[n] == ':';
      AlnumRunIs(s, n);
    }
  }

  /**
   * The URL the path stands for. The path first loses one trailing slash.
   * With a base URL and a path that does not name its own scheme, the base
   * loses one trailing slash and the path one leading slash, and the two
   * are joined with `/` (the base alone when nothing of the path remains).
   * Otherwise the path is the URL.
   */
  function Resolve(base: Option<string>, path: string): (url: string)
    ensures base.Some? && !IsAbsolute(StripTrailingSlash(path)) ==> StripTrailingSlash(base.value) <= url
    ensures base.None? || IsAbsolute(StripTrailingSlash(path)) ==> url <= path
  {
    var url := StripTrailingSlash(path);
    if base.Some? && !IsAbsolute(url) then
      var b := StripTrailingSlash(base.value);
      var p := StripLeadingSlash(url);
      if p == "" then b else b + "/" + p
    else url
  }

  /** An absolute path ignores the base URL, and so does every path when no base is set. */
  lemma ResolveWithoutBase(base: Option<string>, path: string)
    requires base.None? || IsAbsolute(StripTrailingSlash(path))
    ensures Resolve(base, path) == Resolve(None, path) == StripTrailingSlash(path)
  {
  }

  /**
   * A relative path is appended to the base: the result is the base without
   * its trailing slash, then (unless the path is only slashes) one `/` and
   * the path without its outer slashes.
   */
  lemma ResolveRelative(b: string, path: string)
    requires !IsAbsolute(StripTrailingSlash(path))
    ensures var r := Resolve(Some(b), path);
            var b' := StripTrailingSlash(b);
            var p' := StripLeadingSlash(StripTrailingSlash(path));
            && r[..|b'|] == b'
            && (p' == "" ==> r == b')
            && (p' != "" ==> |r| == |b'| + 1 + |p'| && r[|b'|] == '/' && r[|b'| + 1..] == p')
  {
  }

  /** One trailing slash on the base URL makes no difference. */
  lemma ResolveBaseSlash(b: string, path: string)
    requires !EndsWithSlash(b)
    ensures Resolve(Some(b + "/"), path) == Resolve(Some(b), path)
  {
    assert StripTrailingSlash(b + "/") == b;
  }

  /** One leading slash on a relative path makes no difference. */
  lemma ResolvePathSlash(b: string, p: string)
    requires !StartsWithSlash(p) && !IsAbsolute(StripTrailingSlash(p))
    ensures Resolve(Some(b), "/" + p) == Resolve(Some(b), p)
  {
    var u := StripTrailingSlash("/" + p);
    if p == "" {
      assert u == "";
    } else {
      assert u == "/" + StripTrailingSlash(p);
      assert AlnumRun(u) == 0;
      assert StripLeadingSlash(u) == StripTrailingSlash(p);
    }
  }

  /** The URLs the test suite expects for a relative path (base, path, URL). */
  lemma ResolveRelativeExamples()
    ensures Resolve(Some("http://example.com"), "/") == "http://example.com"
    ensures Resolve(Some("http://example.com/"), "/") == "http://example.com"
    ensures Resolve(Some("http://example.com/"), "") == "http://example.com"
    ensures Resolve(Some("http://example.com"), "/api") == "http://example.com/api"
  {
    assert AlnumRun("") == 0;
    AlnumRunIs("/api", 0);
    assert StripTrailingSlash("http://example.com/") == "http://example.com";
  }

  /**
   * A path that starts with `n` alphanumerics and `://` and does not end in
   * a slash is the URL itself, whatever the base.
   */
  lemma ResolveScheme(base: Option<string>, p: string, n: nat)
    requires 1 <= n && n + 3 <= |p| && !EndsWithSlash(p)
    requires forall i :: 0 <= i < n ==> IsAlnum(p[i])
    requires p[n] == ':' && p[n + 1] == '/' && p[n + 2] == '/'
    ensures Resolve(base, p) == p
  {
    AlnumRunIs(p, n);
    assert p[n..n + 3] == "://";
  }

  /** The URLs the test suite expects for an absolute path: the base is ignored. */
  lemma ResolveAbsoluteExample()
    ensures Resolve(Some("http://example.com"), "http://other.com") == "http://other.com"
    ensures Resolve(Some("http://example.com"), "https://other.com") == "https://other.com"
    ensures Resolve(Some("http://example.com"), "http://other.com/api") == "http://other.com/api"
  {
    HttpExample();
    HttpsExample();
    HttpPathExample();
  }

  lemma HttpExample()
    ensures Resolve(Some("http://example.com"), "http://other.com") == "http://other.com"
  {
    ResolveScheme(Some("http://example.com"), "http://other.com", 4);
  }

  lemma HttpsExample()
    ensures Resolve(Some("http://example.com"), "https://other.com") == "https://other.com"
  {
    ResolveScheme(Some("http://example.com"), "https://other.com", 5);
  }

  lemma HttpPathExample()
    ensures Resolve(Some("http://example.com"), "http://other.com/api") == "http://other.com/api"
  {
    ResolveScheme(Some("http://example.com"), "http://other.com/api", 4);
  }

  // ---- query component --------------------------------------------------

  /** `[encodeURIComponent(name), encodeURIComponent(value)].join('=')`. */
  function EncodePair(e: (string, string)): (s: string)
    ensures '=' in s && '&' !in s && '?' !in s && '#' !in s
  {
    var k := UriComponent.Encode(e.0);
    var v := UriComponent.Encode(e.1);
    UriComponent.EncodedHasNoDelimiters(k);
    UriComponent.EncodedHasNoDelimiters(v);
    assert (k + "=" + v)[|k|] == '=';
    k + "=" + v
  }

  function EncodePairs(q: seq<(string, string)>): (parts: seq<string>)
    ensures |parts| == |q|
    ensures forall i :: 0 <= i < |q| ==> parts[i] == EncodePair(q[i])
  {
    if q == [] then [] else [EncodePair(q[0])] + EncodePairs(q[1..])
  }

  /** `#buildQueryString`: the encoded pairs in key order, joined by `&`. */
  function QueryString(q: Dict.Dict<string>): (s: string)
    ensures s == "" <==> q == []
    ensures '?' !in s && '#' !in s
  {
    var parts := EncodePairs(q);
    Text.JoinWithout(parts, '&', '?');
    Text.JoinWithout(parts, '&', '#');
    Text.Join(parts, '&')
  }

  function ParsePair(s: string): Option<(string, string)> {
    var kv := Text.Split(s, '=');
    if |kv| != 2 then None
    else match (UriComponent.Decode(kv[0]), UriComponent.Decode(kv[1]))
      case (Some(k), Some(v)) => Some((k, v))
      case _ => None
  }

  function ParsePairs(parts: seq<string>): Option<seq<(string, string)>> {
    if parts == [] then Some([])
    else match (ParsePair(parts[0]), ParsePairs(parts[1..]))
      case (Some(e), Some(rest)) => Some([e] + rest)
      case _ => None
  }

  /** Read a query component back into its name/value pairs. */
  function ParseQuery(s: string): Option<seq<(string, string)>> {
    if s == "" then Some([]) else ParsePairs(Text.Split(s, '&'))
  }

  lemma ParseEncodedPair(e: (string, string))
    ensures ParsePair(EncodePair(e)) == Some(e)
  {
    var k := UriComponent.Encode(e.0);
    var v := UriComponent.Encode(e.1);
    UriComponent.EncodedHasNoDelimiters(k);
    UriComponent.EncodedHasNoDelimiters(v);
    Text.SplitFirst(k, '=', v);
    Text.SplitWithout(v, '=');
    assert Text.Split(EncodePair(e), '=') == [k, v];
    UriComponent.DecodeEncode(e.0);
    UriComponent.DecodeEncode(e.1);
  }

  lemma {:induction false} ParseEncodedPairs(q: seq<(string, string)>)
    ensures ParsePairs(EncodePairs(q)) == Some(q)
  {
    if q != [] {
      ParseEncodedPair(q[0]);
      ParseEncodedPairs(q[1..]);
      assert EncodePairs(q)[1..] == EncodePairs(q[1..]);
      assert [q[0]] + q[1..] == q;
    }
  }

  /** The query string loses nothing: every name and value, in order, reads back. */
  lemma ParseQueryString(q: Dict.Dict<string>)
    ensures ParseQuery(QueryString(q)) == Some(q)
  {
    if q != [] {
      var parts := EncodePairs(q);
      Text.SplitJoin(parts, '&');
      ParseEncodedPairs(q);
    }
  }

  /** `#buildUrl`: the resolved URL, then `?` and the query string when it is not empty. */
  function Build(base: Option<string>, path: string, query: Dict.Dict<string>): (url: string)
    ensures Resolve(base, path) <= url
    ensures url == Resolve(base, path) <==> query == []
  {
    var u := Resolve(base, path);
    var qs := QueryString(query);
    if qs == "" then u else u + "?" + qs
  }

  /**
   * The built URL is the resolved URL, followed by nothing when the query is
   * empty, and otherwise by `?` and a query component that holds no further
   * `?` and parses back into the query.
   */
  lemma BuildParts(base: Option<string>, path: string, query: Dict.Dict<string>)
    ensures query == [] ==> Build(base, path, query) == Resolve(base, path)
    ensures query != [] ==>
      exists qs ::
        && Build(base, path, query) == Resolve(base, path) + "?" + qs
        && '?' !in qs
        && ParseQuery(qs) == Some(query)
  {
    if query != [] {
      ParseQueryString(query);
      var qs := QueryString(query);
      assert Build(base, path, query) == Resolve(base, path) + "?" + qs;
    }
  }

  /** A query of two entries gives their encodings joined by `&`. */
  lemma QueryStringOfTwo(q: Dict.Dict<string>)
    requires |q| == 2
    ensures QueryString(q) == EncodePair(q[0]) + "&" + EncodePair(q[1])
  {
    var parts := EncodePairs(q);
    assert parts == [EncodePair(q[0]), EncodePair(q[1])];
    Text.JoinTwo(EncodePair(q[0]), EncodePair(q[1]), '&');
  }

  /** A name and value made of unreserved characters are written as they are. */
  lemma EncodePairUnreserved(name: string, value: string)
    requires forall i :: 0 <= i < |name| ==> UriComponent.IsUnreserved(name[i])
    requires forall i :: 0 <= i < |value| ==> UriComponent.IsUnreserved(value[i])
    ensures EncodePair((name, value)) == name + "=" + value
  {
    UriComponent.EncodeUnreserved(name);
    UriComponent.EncodeUnreserved(value);
  }

  /**
   * The shape the test suite expects (`{foo: 'bar', baz: 'qux'}` gives
   * `foo=bar&baz=qux`): names and values made of unreserved characters
   * appear as they are, each pair joined by `=` and the pairs by `&`.
   */
  lemma QueryStringOfUnreserved(a: (string, string), b: (string, string))
    requires a.0 != b.0
    requires forall i :: 0 <= i < |a.0| ==> UriComponent.IsUnreserved(a.0[i])
    requires forall i :: 0 <= i < |a.1| ==> UriComponent.IsUnreserved(a.1[i])
    requires forall i :: 0 <= i < |b.0| ==> UriComponent.IsUnreserved(b.0[i])
    requires forall i :: 0 <= i < |b.1| ==> UriComponent.IsUnreserved(b.1[i])
    ensures QueryString([a, b]) == a.0 + "=" + a.1 + "&" + b.0 + "=" + b.1
  {
    var x, y := EncodePair(a), EncodePair(b);
    assert x == a.0 + "=" + a.1 by { EncodePairUnreserved(a.0, a.1); }
    assert y == b.0 + "=" + b.1 by { EncodePairUnreserved(b.0, b.1); }
    var q: Dict.Dict<string> := [a, b];
    QueryStringOfTwo(q);
    Append3(x + "&", b.0, "=", b.1);
  }

  lemma Append3<T>(p: seq<T>, u: seq<T>, v: seq<T>, w: seq<T>)
    ensures p + (u + v + w) == p + u + v + w
  {
  }
}
