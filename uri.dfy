/**
 * `encodeURIComponent` as defined by ECMA-262 (section 19.2.6, URI Handling
 * Functions): characters of the uriUnreserved set are kept, every other
 * character becomes the UTF-8 octets of its code point, each written as
 * `%` followed by two upper-case hexadecimal digits.
 *
 * `Decode` is the partner used to state that the encoding loses nothing.
 */
module UriComponent {
  import opened Wrappers

  type Octet = b: int | 0 <= b < 256

  /** uriAlpha, DecimalDigit and uriMark of ECMA-262. */
  predicate IsUnreserved(c: char) {
    || ('a' <= c <= 'z')
    || ('A' <= c <= 'Z')
    || ('0' <= c <= '9')
    || c in "-_.!~*'()"
  }

  predicate IsHexDigit(c: char) {
    ('0' <= c <= '9') || ('A' <= c <= 'F') || ('a' <= c <= 'f')
  }

  function HexDigit(n: int): (c: char)
    requires 0 <= n < 16
    ensures IsHexDigit(c) && IsUnreserved(c)
  {
    if n < 10 then ('0' as int + n) as char else ('A' as int + n - 10) as char
  }

  function HexValue(c: char): (n: int)
    requires IsHexDigit(c)
    ensures 0 <= n < 16
  {
    if '0' <= c <= '9' then c as int - '0' as int
    else if 'A' <= c <= 'F' then c as int - 'A' as int + 10
    else c as int - 'a' as int + 10
  }

  /** The UTF-8 octets of a Unicode scalar value. */
  function Utf8(c: char): (bytes: seq<Octet>)
    ensures 1 <= |bytes| <= 4
  {
    var cp := c as int;
    if cp < 0x80 then [cp]
    else if cp < 0x800 then [0xC0 + cp / 64, 0x80 + cp % 64]
    else if cp < 0x10000 then
      var y := cp / 64;
      [0xE0 + y / 64, 0x80 + y % 64, 0x80 + cp % 64]
    else
      var y := cp / 64;
      var z := y / 64;
      [0xF0 + z / 64, 0x80 + z % 64, 0x80 + y % 64, 0x80 + cp % 64]
  }

  /**
   * Well-formed percent-encoded text: only unreserved characters and `%`,
   * and every `%` starts an escape `%XY` of two hexadecimal digits.
   */
  predicate IsEncoded(s: string) {
    && (forall i :: 0 <= i < |s| ==> IsUnreserved(s[i]) || s[i] == '%')
    && (forall i :: 0 <= i < |s| && s[i] == '%' ==> i + 2 < |s| && IsHexDigit(s[i + 1]) && IsHexDigit(s[i + 2]))
  }

  /** Encoded pieces put together stay encoded: no escape is split. */
  lemma EncodedConcat(a: string, b: string)
    requires IsEncoded(a) && IsEncoded(b)
    ensures IsEncoded(a + b)
  {
    var ab := a + b;
    forall i | 0 <= i < |ab| && ab[i] == '%'
      ensures i + 2 < |ab| && IsHexDigit(ab[i + 1]) && IsHexDigit(ab[i + 2])
    {
      if i < |a| {
        assert a[i] == '%';
        assert ab[i + 1] == a[i + 1] && ab[i + 2] == a[i + 2];
      } else {
        var j := i - |a|;
        assert b[j] == '%';
        assert ab[i + 1] == b[j + 1] && ab[i + 2] == b[j + 2];
      }
    }
  }

  /** Encoded text holds none of the delimiters of a URL's query component. */
  lemma EncodedHasNoDelimiters(s: string)
    requires IsEncoded(s)
    ensures '=' !in s && '&' !in s && '?' !in s && '#' !in s
  {
    forall i | 0 <= i < |s| ensures s[i] !in "=&?#" {
      assert IsUnreserved(s[i]) || s[i] == '%';
    }
  }

  /** `%XY` for one octet. */
  function Escape(b: Octet): (s: string)
    ensures |s| == 3 && IsEncoded(s)
  {
    ['%', HexDigit(b / 16), HexDigit(b % 16)]
  }

  function EscapeAll(bytes: seq<Octet>): (s: string)
    ensures |s| == 3 * |bytes| && IsEncoded(s)
  {
    if bytes == [] then []
    else
      var head, tail := Escape(bytes[0]), EscapeAll(bytes[1..]);
      EncodedConcat(head, tail);
      head + tail
  }

  function EncodeChar(c: char): (s: string)
    ensures 1 <= |s| && IsEncoded(s)
  {
    if IsUnreserved(c) then [c] else EscapeAll(Utf8(c))
  }

  /** `encodeURIComponent(s)`. */
  function Encode(s: string): (r: string)
    ensures |s| <= |r| && IsEncoded(r)
  {
    if s == [] then []
    else
      var head, tail := EncodeChar(s[0]), Encode(s[1..]);
      EncodedConcat(head, tail);
      head + tail
  }

  // ---- decoding -------------------------------------------------------

  /** The octet written as `%XY` at position `i`, if there is one. */
  function OctetAt(s: string, i: nat): (r: Option<Octet>)
  {
    if i + 3 <= |s| && s[i] == '%' && IsHexDigit(s[i + 1]) && IsHexDigit(s[i + 2])
    then Some(HexValue(s[i + 1]) * 16 + HexValue(s[i + 2]))
    else None
  }

  /** A continuation octet `10xxxxxx` at position `i`, as its six payload bits. */
  function ContinuationAt(s: string, i: nat): (r: Option<int>)
    ensures r.Some? ==> 0 <= r.value < 64
  {
    match OctetAt(s, i)
    case Some(b) => if 0x80 <= b < 0xC0 then Some(b - 0x80) else None
    case None => None
  }

  function Scalar(cp: int, n: nat): Option<(char, nat)> {
    if 0 <= cp < 0xD800 || 0xE000 <= cp < 0x11_0000 then Some((cp as char, n)) else None
  }

  /** The first character of `s` and how many characters of `s` it took. */
  function DecodeChar(s: string): (r: Option<(char, nat)>)
    requires s != []
    ensures r.Some? ==> 1 <= r.value.1 <= |s|
  {
    if IsUnreserved(s[0]) then Some((s[0], 1))
    else match OctetAt(s, 0)
      case None => None
      case Some(b0) =>
        if b0 < 0x80 then Scalar(b0, 3)
        else if 0xC0 <= b0 < 0xE0 then
          match ContinuationAt(s, 3)
          case None => None
          case Some(b1) => Scalar((b0 - 0xC0) * 64 + b1, 6)
        else if 0xE0 <= b0 < 0xF0 then
          match (ContinuationAt(s, 3), ContinuationAt(s, 6))
          case (Some(b1), Some(b2)) => Scalar(((b0 - 0xE0) * 64 + b1) * 64 + b2, 9)
          case _ => None
        else if 0xF0 <= b0 < 0xF8 then
          match (ContinuationAt(s, 3), ContinuationAt(s, 6), ContinuationAt(s, 9))
          case (Some(b1), Some(b2), Some(b3)) =>
            Scalar((((b0 - 0xF0) * 64 + b1) * 64 + b2) * 64 + b3, 12)
          case _ => None
        else None
  }

  /** Text made only of unreserved characters encodes to itself. */
  lemma {:induction false} EncodeUnreserved(s: string)
    requires forall i :: 0 <= i < |s| ==> IsUnreserved(s[i])
    ensures Encode(s) == s
  {
    if s != [] {
      EncodeUnreserved(s[1..]);
      assert [s[0]] + s[1..] == s;
    }
  }

  /** Undo percent-encoding; `None` for text that is not well-formed. */
  function Decode(s: string): (r: Option<string>)
    decreases |s|
  {
    if s == [] then Some([])
    else match DecodeChar(s)
      case None => None
      case Some((c, n)) =>
        match Decode(s[n..])
        case None => None
        case Some(rest) => Some([c] + rest)
  }

  // ---- round trip -----------------------------------------------------

  lemma HexRoundTrip(b: Octet)
    ensures HexValue(HexDigit(b / 16)) * 16 + HexValue(HexDigit(b % 16)) == b
  {
  }

  lemma {:induction false} EscapeAllAt(bytes: seq<Octet>, k: nat)
    requires k < |bytes|
    ensures 3 * k + 3 <= |EscapeAll(bytes)|
    ensures EscapeAll(bytes)[3 * k..3 * k + 3] == Escape(bytes[k])
  {
    if k > 0 {
      var t := EscapeAll(bytes[1..]);
      EscapeAllAt(bytes[1..], k - 1);
      var j := 3 * (k - 1);
      assert 3 * k == j + 3;
      SliceAfter(Escape(bytes[0]), t, j);
    }
  }

  lemma SliceAfter(p: string, t: string, j: nat)
    requires |p| == 3 && j + 3 <= |t|
    ensures (p + t)[j + 3..j + 6] == t[j..j + 3]
  {
  }

  lemma OctetAtEscape(s: string, i: nat, b: Octet)
    requires i + 3 <= |s| && s[i..i + 3] == Escape(b)
    ensures OctetAt(s, i) == Some(b)
  {
    assert s[i] == '%' && s[i + 1] == HexDigit(b / 16) && s[i + 2] == HexDigit(b % 16);
    HexRoundTrip(b);
  }

  /** An escape inside `e` reads back the same with anything appended to `e`. */
  lemma OctetAtPrefix(e: string, rest: string, i: nat, b: Octet)
    requires i + 3 <= |e| && e[i..i + 3] == Escape(b)
    ensures OctetAt(e + rest, i) == Some(b)
  {
    assert (e + rest)[i..i + 3] == e[i..i + 3];
    OctetAtEscape(e + rest, i, b);
  }

  /** The `k`-th escape of `EscapeAll(bytes)` reads back as `bytes[k]`, whatever follows. */
  lemma OctetAtEscapes(bytes: seq<Octet>, rest: string, k: nat)
    requires k < |bytes|
    ensures OctetAt(EscapeAll(bytes) + rest, 3 * k) == Some(bytes[k])
  {
    var e, i := EscapeAll(bytes), 3 * k;
    EscapeAllAt(bytes, k);
    assert i + 3 <= |e| && e[i..i + 3] == Escape(bytes[k]);
    OctetAtPrefix(e, rest, i, bytes[k]);
  }

  lemma DecodeOneOctet(c: char, s: string)
    requires !IsUnreserved(c) && c as int < 0x80
    requires OctetAt(s, 0) == Some(Utf8(c)[0])
    ensures DecodeChar(s) == Some((c, 3))
  {
  }

  lemma DecodeTwoOctets(c: char, s: string)
    requires 0x80 <= c as int < 0x800
    requires OctetAt(s, 0) == Some(Utf8(c)[0])
    requires OctetAt(s, 3) == Some(Utf8(c)[1])
    ensures DecodeChar(s) == Some((c, 6))
  {
    var cp := c as int;
    assert ContinuationAt(s, 3) == Some(cp % 64);
    assert (cp / 64) * 64 + cp % 64 == cp;
  }

  lemma DecodeThreeOctets(c: char, s: string)
    requires 0x800 <= c as int < 0x10000
    requires OctetAt(s, 0) == Some(Utf8(c)[0])
    requires OctetAt(s, 3) == Some(Utf8(c)[1])
    requires OctetAt(s, 6) == Some(Utf8(c)[2])
    ensures DecodeChar(s) == Some((c, 9))
  {
    var cp := c as int;
    var y := cp / 64;
    assert ContinuationAt(s, 3) == Some(y % 64);
    assert ContinuationAt(s, 6) == Some(cp % 64);
    assert (y / 64) * 64 + y % 64 == y;
    assert y * 64 + cp % 64 == cp;
  }

  lemma DecodeFourOctets(c: char, s: string)
    requires 0x10000 <= c as int
    requires OctetAt(s, 0) == Some(Utf8(c)[0])
    requires OctetAt(s, 3) == Some(Utf8(c)[1])
    requires OctetAt(s, 6) == Some(Utf8(c)[2])
    requires OctetAt(s, 9) == Some(Utf8(c)[3])
    ensures DecodeChar(s) == Some((c, 12))
  {
    var cp := c as int;
    var y := cp / 64;
    var z := y / 64;
    assert ContinuationAt(s, 3) == Some(z % 64);
    assert ContinuationAt(s, 6) == Some(y % 64);
    assert ContinuationAt(s, 9) == Some(cp % 64);
    assert (z / 64) * 64 + z % 64 == z;
    assert z * 64 + y % 64 == y;
    assert y * 64 + cp % 64 == cp;
  }

  lemma DecodeEncodedChar(c: char, rest: string)
    ensures DecodeChar(EncodeChar(c) + rest) == Some((c, |EncodeChar(c)|))
  {
    if !IsUnreserved(c) {
      var bytes := Utf8(c);
      var s := EncodeChar(c) + rest;
      assert s == EscapeAll(bytes) + rest;
      forall k | 0 <= k < |bytes| ensures OctetAt(s, 3 * k) == Some(bytes[k]) {
        OctetAtEscapes(bytes, rest, k);
      }
      var cp := c as int;
      if cp < 0x80 {
        DecodeOneOctet(c, s);
      } else if cp < 0x800 {
        DecodeTwoOctets(c, s);
      } else if cp < 0x10000 {
        DecodeThreeOctets(c, s);
      } else {
        DecodeFourOctets(c, s);
      }
    }
  }

  /** Nothing is lost by `encodeURIComponent`: decoding gives the text back. */
  lemma {:induction false} DecodeEncode(s: string)
    ensures Decode(Encode(s)) == Some(s)
  {
    if s != [] {
      var head, tail := EncodeChar(s[0]), Encode(s[1..]);
      var e := head + tail;
      assert Encode(s) == e;
      DecodeEncodedChar(s[0], tail);
      assert e[|head|..] == tail;
      DecodeEncode(s[1..]);
      DecodeStep(e, s[0], |head|, s[1..]);
      assert [s[0]] + s[1..] == s;
    }
  }

  /** One step of `Decode`: the first character, then the decoding of what follows it. */
  lemma DecodeStep(e: string, c: char, n: nat, rest: string)
    requires e != [] && DecodeChar(e) == Some((c, n)) && Decode(e[n..]) == Some(rest)
    ensures Decode(e) == Some([c] + rest)
  {
  }

  /** Hence distinct texts have distinct encodings. */
  lemma EncodeInjective(s: string, t: string)
    requires Encode(s) == Encode(t)
    ensures s == t
  {
    DecodeEncode(s);
    DecodeEncode(t);
  }
}
