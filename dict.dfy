/**
 * The plain JavaScript objects the client uses as string-keyed records
 * (query parameters, headers, request bodies). A record is an
 * insertion-ordered sequence of entries whose keys are pairwise distinct;
 * `Object.keys` lists the keys in that order.
 */
module Dict {
  import opened Wrappers

  predicate DistinctKeys<V>(s: seq<(string, V)>) {
    forall i, j :: 0 <= i < j < |s| ==> s[i].0 != s[j].0
  }

  type Dict<V> = s: seq<(string, V)> | DistinctKeys(s) witness []

  /** `Object.keys(d)`, in insertion order. */
  function Keys<V>(d: Dict<V>): (ks: seq<string>)
    ensures |ks| == |d|
    ensures forall i :: 0 <= i < |d| ==> ks[i] == d[i].0
  {
    if d == [] then [] else [d[0].0] + Keys(d[1..])
  }

  /** The key `k` is present (`k in d`). */
  predicate Has<V>(d: Dict<V>, k: string) {
    k in Keys(d)
  }

  /** `d[k]`, with `None` standing for `undefined`. */
  function Get<V>(d: Dict<V>, k: string): (r: Option<V>)
    ensures r.Some? <==> Has(d, k)
  {
    if d == [] then None
    else if d[0].0 == k then Some(d[0].1)
    else Get(d[1..], k)
  }

  /** The value stored at a position is what `Get` finds under its key. */
  lemma {:induction false} GetAt<V>(d: Dict<V>, i: nat)
    requires i < |d|
    ensures Get(d, d[i].0) == Some(d[i].1)
  {
    if i > 0 {
      GetAt(d[1..], i - 1);
    }
  }

  /** Prepending an entry whose key is new keeps the keys distinct. */
  lemma Cons<V>(e: (string, V), d: Dict<V>)
    requires e.0 !in Keys(d)
    ensures DistinctKeys([e] + d)
  {
    forall j | 0 <= j < |d| ensures d[j].0 != e.0 {
      assert Keys(d)[j] == d[j].0;
    }
  }

  /**
   * `d[k] = v`: an existing key keeps its position, a new key is appended at
   * the end; `SetGet` says what each key reads afterwards.
   */
  function Set<V>(d: Dict<V>, k: string, v: V): (r: Dict<V>)
    ensures Keys(r) == if Has(d, k) then Keys(d) else Keys(d) + [k]
  {
    if d == [] then [(k, v)]
    else if d[0].0 == k then
      var r: Dict<V> := [(k, v)] + d[1..];
      assert r[1..] == d[1..];
      r
    else
      var tail := Set(d[1..], k, v);
      assert Keys(d) == [d[0].0] + Keys(d[1..]);
      assert d[0].0 !in Keys(d[1..]);
      Cons(d[0], tail);
      var r: Dict<V> := [d[0]] + tail;
      assert r[1..] == tail;
      assert Keys(r) == [d[0].0] + Keys(tail);
      r
  }

  /** After `d[k] = v`, `k` reads `v` and every other key reads as before. */
  lemma {:induction false} SetGet<V>(d: Dict<V>, k: string, v: V, k': string)
    ensures Get(Set(d, k, v), k') == if k' == k then Some(v) else Get(d, k')
  {
    if d != [] && d[0].0 != k {
      SetGet(d[1..], k, v, k');
      var r := Set(d, k, v);
      assert r[1..] == Set(d[1..], k, v);
    } else if d != [] {
      var r := Set(d, k, v);
      assert r[1..] == d[1..];
    }
  }
}
