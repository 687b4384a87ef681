/** `Array.prototype.join` with a one-character separator, and its inverse `split`. */
module Text {

  /** `parts.join(sep)`. */
  function Join(parts: seq<string>, sep: char): (s: string)
    ensures parts == [] ==> s == ""
    ensures parts != [] ==> |s| >= |parts[0]|
  {
    if |parts| == 0 then ""
    else if |parts| == 1 then parts[0]
    else parts[0] + [sep] + Join(parts[1..], sep)
  }

  lemma JoinTwo(a: string, b: string, sep: char)
    ensures Join([a, b], sep) == a + [sep] + b
  {
    assert [a, b][1..] == [b];
  }

  /** `s.split(sep)`: the pieces between separators (never empty). */
  function Split(s: string, sep: char): (parts: seq<string>)
    ensures |parts| >= 1
  {
    if s == [] then [""]
    else
      var tail := Split(s[1..], sep);
      if s[0] == sep then [""] + tail else [[s[0]] + tail[0]] + tail[1..]
  }

  lemma {:induction false} SplitWithout(p: string, sep: char)
    requires sep !in p
    ensures Split(p, sep) == [p]
  {
    if p != [] {
      SplitWithout(p[1..], sep);
      assert [p[0]] + p[1..] == p;
    }
  }

  lemma {:induction false} SplitFirst(p: string, sep: char, rest: string)
    requires sep !in p
    ensures Split(p + [sep] + rest, sep) == [p] + Split(rest, sep)
  {
    var s := p + [sep] + rest;
    if p == [] {
      assert s[1..] == rest;
    } else {
      assert s[1..] == p[1..] + [sep] + rest;
      SplitFirst(p[1..], sep, rest);
      assert [p[0]] + p[1..] == p;
    }
  }

  /** Splitting undoes joining when no part contains the separator. */
  lemma {:induction false} SplitJoin(parts: seq<string>, sep: char)
    requires |parts| >= 1
    requires forall i :: 0 <= i < |parts| ==> sep !in parts[i]
    ensures Split(Join(parts, sep), sep) == parts
  {
    if |parts| == 1 {
      SplitWithout(parts[0], sep);
    } else {
      SplitJoin(parts[1..], sep);
      SplitFirst(parts[0], sep, Join(parts[1..], sep));
      assert [parts[0]] + parts[1..] == parts;
    }
  }

  /** A separator occurs in a join only as the join's own separator. */
  lemma {:induction false} JoinWithout(parts: seq<string>, sep: char, c: char)
    requires c != sep
    requires forall i :: 0 <= i < |parts| ==> c !in parts[i]
    ensures c !in Join(parts, sep)
  {
    if |parts| > 1 {
      JoinWithout(parts[1..], sep, c);
    }
  }
}
