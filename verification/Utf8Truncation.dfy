/** Cutting a UTF-8 string to a byte limit without splitting a character. */
module Utf8Truncation {
  import opened Results

  type Byte = b: int | 0 <= b < 256

  /** A Unicode scalar value: any code point that is not a surrogate. */
  type Scalar = c: int | 0 <= c < 0xD800 || 0xE000 <= c < 0x11_0000

  /** The encoding of one character, section 3 of RFC 3629. */
  function Encode(c: Scalar): (bytes: seq<Byte>)
    ensures 1 <= |bytes| <= 4
  {
    if c < 0x80 then [c]
    else if c < 0x800 then [0xC0 + c / 64, 0x80 + c % 64]
    else if c < 0x1_0000 then [0xE0 + c / 4096, 0x80 + c / 64 % 64, 0x80 + c % 64]
    else [0xF0 + c / 262144, 0x80 + c / 4096 % 64, 0x80 + c / 64 % 64, 0x80 + c % 64]
  }

  /** A string: the encodings of its characters, one after the other. */
  function Utf8(text: seq<Scalar>): seq<Byte> {
    if text == [] then [] else Encode(text[0]) + Utf8(text[1..])
  }

  /** A byte that continues a character rather than starting one. */
  predicate Continuation(b: Byte) {
    0x80 <= b < 0xC0
  }

  predicate IsCharBoundary(s: seq<Byte>, n: nat) {
    n == 0 || n == |s| || (n < |s| && !Continuation(s[n]))
  }

  lemma EncodeShape(c: Scalar)
    ensures !Continuation(Encode(c)[0])
    ensures forall i :: 1 <= i < |Encode(c)| ==> Continuation(Encode(c)[i])
  {
  }

  /** The payload of byte `b` above its marker. */
  function Bits(b: Byte, marker: int): int {
    b - marker
  }

  function Value2(a: Byte, b: Byte): int {
    Bits(a, 0xC0) * 64 + Bits(b, 0x80)
  }

  function Value3(a: Byte, b: Byte, c: Byte): int {
    (Bits(a, 0xE0) * 64 + Bits(b, 0x80)) * 64 + Bits(c, 0x80)
  }

  function Value4(a: Byte, b: Byte, c: Byte, d: Byte): int {
    ((Bits(a, 0xF0) * 64 + Bits(b, 0x80)) * 64 + Bits(c, 0x80)) * 64 + Bits(d, 0x80)
  }

  /** The decoder's view of the next character: its scalar value and its length. Overlong forms,
      surrogates and values beyond the last plane are refused. */
  function DecodeFirst(s: seq<Byte>): (r: Option<(Scalar, nat)>)
    ensures r.Some? ==> 1 <= r.value.1 <= |s|
  {
    if |s| >= 1 && s[0] < 0x80 then Some((s[0], 1))
    else if |s| >= 2 && 0xC0 <= s[0] < 0xE0 && Continuation(s[1]) then
      var c := Value2(s[0], s[1]);
      if c < 0x80 then None else Some((c, 2))
    else if |s| >= 3 && 0xE0 <= s[0] < 0xF0 && Continuation(s[1]) && Continuation(s[2]) then
      var c := Value3(s[0], s[1], s[2]);
      if c < 0x800 || 0xD800 <= c < 0xE000 then None else Some((c, 3))
    else if |s| >= 4 && 0xF0 <= s[0] < 0xF8 && Continuation(s[1]) && Continuation(s[2]) && Continuation(s[3]) then
      var c := Value4(s[0], s[1], s[2], s[3]);
      if c < 0x1_0000 || c >= 0x11_0000 then None else Some((c, 4))
    else None
  }

  /** The characters of a byte string, if it is valid UTF-8. */
  function Decode(s: seq<Byte>): Option<seq<Scalar>>
    decreases |s|
  {
    if s == [] then Some([]) else
    match DecodeFirst(s)
    case None => None
    case Some((c, n)) =>
      match Decode(s[n..])
      case None => None
      case Some(rest) => Some([c] + rest)
  }

  lemma Digits(c: nat)
    ensures c == 64 * (c / 64) + c % 64
    ensures c / 64 == 64 * (c / 4096) + c / 64 % 64
    ensures c / 4096 == 64 * (c / 262144) + c / 4096 % 64
  {
    assert c / 64 / 64 == c / 4096;
    assert c / 4096 / 64 == c / 262144;
  }

  lemma DigitsBack(a: nat, b: nat)
    requires b < 64
    ensures (a * 64 + b) / 64 == a && (a * 64 + b) % 64 == b
  {
  }

  lemma DecodeFirstOfEncode(c: Scalar, rest: seq<Byte>)
    ensures DecodeFirst(Encode(c) + rest) == Some((c, |Encode(c)|))
  {
    Digits(c);
    var e := Encode(c);
    var s := e + rest;
    EncodeShape(c);
    assert forall i :: 0 <= i < |e| ==> s[i] == e[i];
    if c < 0x80 {
    } else if c < 0x800 {
      assert Value2(e[0], e[1]) == c;
    } else if c < 0x1_0000 {
      assert Value3(e[0], e[1], e[2]) == c;
    } else {
      assert Value4(e[0], e[1], e[2], e[3]) == c;
    }
  }

  lemma EncodeOfTwo(a: Byte, b: Byte)
    requires 0xC0 <= a < 0xE0 && Continuation(b) && Value2(a, b) >= 0x80
    ensures Value2(a, b) < 0x800 && Encode(Value2(a, b)) == [a, b]
  {
    DigitsBack(Bits(a, 0xC0), Bits(b, 0x80));
  }

  lemma EncodeOfThree(a: Byte, b: Byte, c: Byte)
    requires 0xE0 <= a < 0xF0 && Continuation(b) && Continuation(c)
    requires Value3(a, b, c) >= 0x800 && !(0xD800 <= Value3(a, b, c) < 0xE000)
    ensures Value3(a, b, c) < 0x1_0000 && Encode(Value3(a, b, c)) == [a, b, c]
  {
    var v := Value3(a, b, c);
    DigitsBack(Bits(a, 0xE0) * 64 + Bits(b, 0x80), Bits(c, 0x80));
    DigitsBack(Bits(a, 0xE0), Bits(b, 0x80));
    Digits(v);
  }

  lemma EncodeOfFour(a: Byte, b: Byte, c: Byte, d: Byte)
    requires 0xF0 <= a < 0xF8 && Continuation(b) && Continuation(c) && Continuation(d)
    requires 0x1_0000 <= Value4(a, b, c, d) < 0x11_0000
    ensures Encode(Value4(a, b, c, d)) == [a, b, c, d]
  {
    var v := Value4(a, b, c, d);
    var top := Bits(a, 0xF0) * 64 + Bits(b, 0x80);
    DigitsBack(top * 64 + Bits(c, 0x80), Bits(d, 0x80));
    DigitsBack(top, Bits(c, 0x80));
    DigitsBack(Bits(a, 0xF0), Bits(b, 0x80));
    Digits(v);
  }

  lemma EncodeOfDecodeFirst(s: seq<Byte>)
    requires DecodeFirst(s).Some?
    ensures var (c, n) := DecodeFirst(s).value; Encode(c) == s[..n]
  {
    var n := DecodeFirst(s).value.1;
    match n {
      case 1 =>
      case 2 => EncodeOfTwo(s[0], s[1]);
      case 3 => EncodeOfThree(s[0], s[1], s[2]);
      case 4 => EncodeOfFour(s[0], s[1], s[2], s[3]);
    }
    hide Value2, Value3, Value4;
  }

  // ---------- Encoding and decoding are inverse ----------

  /** Every character list is recovered from its encoding. */
  lemma {:induction false} DecodeOfUtf8(text: seq<Scalar>)
    ensures Decode(Utf8(text)) == Some(text)
  {
    if text != [] {
      var e, rest, s := Encode(text[0]), Utf8(text[1..]), Utf8(text);
      DecodeFirstOfEncode(text[0], rest);
      DecodeOfUtf8(text[1..]);
      hide Encode, DecodeFirst;
      assert s == e + rest && s[|e|..] == rest;
      assert [text[0]] + text[1..] == text;
    }
  }

  lemma DecodeUnfolds(s: seq<Byte>)
    requires s != [] && Decode(s).Some?
    ensures DecodeFirst(s).Some?
    ensures var (c, n) := DecodeFirst(s).value; Decode(s[n..]).Some? && Decode(s).value == [c] + Decode(s[n..]).value
  {
    hide DecodeFirst;
  }

  /** Every valid byte string is the encoding of what it decodes to. */
  lemma {:induction false} Utf8OfDecode(s: seq<Byte>)
    requires Decode(s).Some?
    ensures Utf8(Decode(s).value) == s
    decreases |s|
  {
    hide Encode, DecodeFirst;
    if s != [] {
      DecodeUnfolds(s);
      EncodeOfDecodeFirst(s);
      var (c, n) := DecodeFirst(s).value;
      Utf8OfDecode(s[n..]);
      hide Decode;
      var rest := Decode(s[n..]).value;
      assert ([c] + rest)[1..] == rest;
      assert s == s[..n] + s[n..];
    }
  }

  /** Two examples of section 7 of RFC 3629, with characters of one, two, three and four bytes. */
  lemma StandardExamples()
    ensures Utf8([0x41, 0x2262, 0x391, 0x2E]) == [0x41, 0xE2, 0x89, 0xA2, 0xCE, 0x91, 0x2E]
    ensures Utf8([0xFEFF, 0x2_33B4]) == [0xEF, 0xBB, 0xBF, 0xF0, 0xA3, 0x8E, 0xB4]
  {
    assert Utf8([0x2E]) == [0x2E];
    assert [0x41, 0x2262, 0x391, 0x2E][1..] == [0x2262, 0x391, 0x2E];
  }

  // ---------- Truncation ----------

  /** The largest boundary not above `maxBytes`. */
  ghost predicate IsCut(s: seq<Byte>, maxBytes: nat, n: nat) {
    && n <= |s| && n <= maxBytes && IsCharBoundary(s, n)
    && forall m :: n < m <= |s| && m <= maxBytes ==> !IsCharBoundary(s, m)
  }

  /** `steps` counts the rounds of the loop that backs off to a boundary. */
  method TruncateStr(s: seq<Byte>, maxBytes: nat) returns (r: seq<Byte>, ghost steps: nat)
    ensures IsCut(s, maxBytes, |r|) && r == s[..|r|]
    ensures steps == if |s| <= maxBytes then 0 else maxBytes - |r|
  {
    steps := 0;
    if |s| <= maxBytes {
      assert s[..|s|] == s;
      return s, steps;
    }
    var end: nat := maxBytes;
    while end > 0 && !IsCharBoundary(s, end)
      invariant end <= maxBytes && steps == maxBytes - end
      invariant forall m :: end < m <= maxBytes ==> !IsCharBoundary(s, m)
    {
      end := end - 1;
      steps := steps + 1;
    }
    return s[..end], steps;
  }

  lemma {:induction false} Utf8Concat(a: seq<Scalar>, b: seq<Scalar>)
    ensures Utf8(a + b) == Utf8(a) + Utf8(b)
  {
    hide Encode;
    if a == [] {
      assert a + b == b;
    } else {
      assert (a + b)[1..] == a[1..] + b;
      Utf8Concat(a[1..], b);
    }
  }

  lemma FirstByteStarts(text: seq<Scalar>)
    ensures text != [] ==> Utf8(text) != [] && !Continuation(Utf8(text)[0])
  {
    if text != [] {
      EncodeShape(text[0]);
    }
  }

  lemma PrefixEndsAtBoundary(text: seq<Scalar>, k: nat)
    requires k <= |text|
    ensures |Utf8(text[..k])| <= |Utf8(text)| && Utf8(text)[..|Utf8(text[..k])|] == Utf8(text[..k])
    ensures IsCharBoundary(Utf8(text), |Utf8(text[..k])|)
  {
    assert text == text[..k] + text[k..];
    Utf8Concat(text[..k], text[k..]);
    FirstByteStarts(text[k..]);
  }

  /** Boundaries are where whole characters end. */
  lemma {:induction false} BoundaryEndsPrefix(text: seq<Scalar>, n: nat) returns (k: nat)
    requires n <= |Utf8(text)| && IsCharBoundary(Utf8(text), n)
    ensures k <= |text| && |Utf8(text[..k])| == n
  {
    if n == 0 {
      k := 0;
    } else {
      var e, rest := Encode(text[0]), Utf8(text[1..]);
      EncodeShape(text[0]);
      hide Encode;
      var s := Utf8(text);
      assert s == e + rest;
      if n < |e| {
        assert false;
      } else {
        FirstByteStarts(text[1..]);
        assert n < |s| ==> s[n] == rest[n - |e|];
        var j := BoundaryEndsPrefix(text[1..], n - |e|);
        k := j + 1;
        assert text[..k][1..] == text[1..][..j];
      }
    }
  }

  /** No four bytes in a row continue a character. */
  lemma {:induction false} AStartAmongFour(text: seq<Scalar>, i: nat)
    requires i + 3 < |Utf8(text)|
    ensures exists j :: i <= j <= i + 3 && !Continuation(Utf8(text)[j])
  {
    var e, rest, s := Encode(text[0]), Utf8(text[1..]), Utf8(text);
    EncodeShape(text[0]);
    assert |e| <= 4;
    hide Encode;
    assert s == e + rest;
    FirstByteStarts(text);
    if i >= |e| {
      AStartAmongFour(text[1..], i - |e|);
      var j :| i - |e| <= j <= i - |e| + 3 && !Continuation(rest[j]);
      assert s[j + |e|] == rest[j];
    } else if i > 0 {
      FirstByteStarts(text[1..]);
      assert s[|e|] == rest[0];
    }
  }

  /** Cutting the encoding of a text at a byte limit yields the encoding of its longest prefix of
      whole characters that fits, and takes at most three steps back. */
  lemma CutIsLongestPrefix(text: seq<Scalar>, maxBytes: nat, n: nat) returns (k: nat)
    requires IsCut(Utf8(text), maxBytes, n)
    ensures k <= |text| && Utf8(text)[..n] == Utf8(text[..k])
    ensures Decode(Utf8(text)[..n]) == Some(text[..k])
    ensures forall m :: k < m <= |text| ==> |Utf8(text[..m])| > maxBytes
    ensures |Utf8(text)| > maxBytes ==> maxBytes - n <= 3
  {
    var s := Utf8(text);
    k := BoundaryEndsPrefix(text, n);
    PrefixEndsAtBoundary(text, k);
    DecodeOfUtf8(text[..k]);
    forall m | k < m <= |text| ensures |Utf8(text[..m])| > maxBytes {
      PrefixEndsAtBoundary(text, m);
      PrefixGrows(text, k, m);
    }
    if |s| > maxBytes && maxBytes - n > 3 {
      AStartAmongFour(text, maxBytes - 3);
      var j :| maxBytes - 3 <= j <= maxBytes && !Continuation(s[j]);
      assert IsCharBoundary(s, j);
    }
  }

  lemma PrefixGrows(text: seq<Scalar>, k: nat, m: nat)
    requires k < m <= |text|
    ensures |Utf8(text[..k])| < |Utf8(text[..m])|
  {
    assert text[..m] == text[..k] + text[k..m];
    Utf8Concat(text[..k], text[k..m]);
    FirstByteStarts(text[k..m]);
  }
}
