/** UTF-8 well-formedness (section 4 of RFC 3629) and the coercion that Go's JSON
    encoder applies to a string on its way to the API server. */
module Utf8 {
  import opened Prelude

  predicate Cont(b: Byte) { 0x80 <= b <= 0xBF }

  /** Length of the well-formed sequence that b starts with, or 0. */
  function RuneLength(b: Bytes): (n: nat)
    ensures n <= 4 && n <= |b|
  {
    if |b| == 0 then 0
    else if b[0] < 0x80 then 1
    else if 0xC2 <= b[0] <= 0xDF then
      if |b| >= 2 && Cont(b[1]) then 2 else 0
    else if 0xE0 <= b[0] <= 0xEF then
      if |b| >= 3 && SecondByteOk(b[0], b[1]) && Cont(b[2]) then 3 else 0
    else if 0xF0 <= b[0] <= 0xF4 then
      if |b| >= 4 && SecondByteOk(b[0], b[1]) && Cont(b[2]) && Cont(b[3]) then 4 else 0
    else 0
  }

  predicate SecondByteOk(first: Byte, second: Byte) {
    if first == 0xE0 then 0xA0 <= second <= 0xBF
    else if first == 0xED then 0x80 <= second <= 0x9F
    else if first == 0xF0 then 0x90 <= second <= 0xBF
    else if first == 0xF4 then 0x80 <= second <= 0x8F
    else Cont(second)
  }

  predicate Valid(b: Bytes) {
    b == [] || (RuneLength(b) > 0 && Valid(b[RuneLength(b)..]))
  }

  /** Every byte that starts no well-formed sequence becomes U+FFFD. */
  function Coerce(b: Bytes): Bytes {
    if b == [] then []
    else
      var n := RuneLength(b);
      if n == 0 then [0xEF, 0xBF, 0xBD] + Coerce(b[1..]) else b[..n] + Coerce(b[n..])
  }

  lemma {:induction false} CoerceLength(b: Bytes)
    ensures |Coerce(b)| >= |b|
    ensures |Coerce(b)| == |b| ==> Valid(b)
    decreases |b|
  {
    if b != [] {
      var n := RuneLength(b);
      CoerceLength(if n == 0 then b[1..] else b[n..]);
    }
  }

  lemma {:induction false} CoerceKeepsValid(b: Bytes)
    requires Valid(b)
    ensures Coerce(b) == b
    decreases |b|
  {
    if b != [] {
      CoerceKeepsValid(b[RuneLength(b)..]);
    }
  }

  /** A string survives JSON transport exactly when it is well-formed UTF-8. */
  lemma {:induction false} CoerceIdentity(b: Bytes)
    ensures Coerce(b) == b <==> Valid(b)
  {
    CoerceLength(b);
    if Valid(b) {
      CoerceKeepsValid(b);
    }
  }

  lemma {:induction false} AsciiValid(b: Bytes)
    requires forall i :: 0 <= i < |b| ==> b[i] < 0x80
    ensures Valid(b)
  {
    if b != [] {
      AsciiValid(b[1..]);
    }
  }

  /** What the transport delivers is always well-formed, so a second trip changes nothing. */
  lemma {:induction false} CoerceValid(b: Bytes)
    ensures Valid(Coerce(b))
    decreases |b|
  {
    if b != [] {
      var n := RuneLength(b);
      var rest := if n == 0 then b[1..] else b[n..];
      CoerceValid(rest);
      var c := Coerce(b);
      if n == 0 {
        assert c[..3] == [0xEF, 0xBF, 0xBD];
        assert RuneLength(c) == 3;
        assert c[3..] == Coerce(rest);
      } else {
        assert c[..n] == b[..n];
        assert forall i :: 0 <= i < n ==> c[i] == b[i];
        assert RuneLength(c) == n;
        assert c[n..] == Coerce(rest);
      }
    }
  }

  // ---- The standard itself ----

  /** A code point that UTF-8 can carry: no surrogate. */
  predicate IsScalar(c: int) { 0 <= c < 0x11_0000 && !(0xD800 <= c < 0xE000) }

  /** The table of section 3 of RFC 3629. */
  function Scalar(c: int): Bytes
    requires IsScalar(c)
  {
    if c < 0x80 then [c]
    else if c < 0x800 then [0xC0 + c / 0x40, 0x80 + c % 0x40]
    else if c < 0x1_0000 then [0xE0 + c / 0x1000, 0x80 + c / 0x40 % 0x40, 0x80 + c % 0x40]
    else [0xF0 + c / 0x4_0000, 0x80 + c / 0x1000 % 0x40, 0x80 + c / 0x40 % 0x40, 0x80 + c % 0x40]
  }

  ghost predicate StartsWith(b: Bytes, c: int) { IsScalar(c) && Scalar(c) <= b }

  lemma RuneOfScalar(b: Bytes, c: int)
    requires StartsWith(b, c)
    ensures RuneLength(b) == |Scalar(c)| && b[..RuneLength(b)] == Scalar(c)
  {
    var s := Scalar(c);
    assert b[..|s|] == s && b[0] == s[0];
    assert |s| > 1 ==> b[1] == s[1];
    assert |s| > 2 ==> b[2] == s[2];
    assert |s| > 3 ==> b[3] == s[3];
  }

  /** Six bits at a time. */
  lemma Sixes(a: int, b: int, c: int, d: int)
    requires 0 <= a < 8 && 0 <= b < 64 && 0 <= c < 64 && 0 <= d < 64
    ensures
      var n := ((a * 0x40 + b) * 0x40 + c) * 0x40 + d;
      n / 0x4_0000 == a && n / 0x1000 == a * 0x40 + b && n / 0x1000 % 0x40 == b && n / 0x40 % 0x40 == c && n % 0x40 == d
  {
    var n := ((a * 0x40 + b) * 0x40 + c) * 0x40 + d;
    assert n / 0x40 == (a * 0x40 + b) * 0x40 + c && n % 0x40 == d;
    assert n / 0x40 / 0x40 == a * 0x40 + b && n / 0x40 % 0x40 == c;
    assert n / 0x1000 == n / 0x40 / 0x40 && n / 0x4_0000 == n / 0x1000 / 0x40;
  }

  lemma ScalarOfRune(b: Bytes) returns (c: int)
    requires RuneLength(b) > 0
    ensures StartsWith(b, c)
  {
    var n := RuneLength(b);
    var b0: int := b[0];
    var b1: int, b2: int, b3: int := 0, 0, 0;
    if n > 1 { b1 := b[1] - 0x80; }
    if n > 2 { b2 := b[2] - 0x80; }
    if n > 3 { b3 := b[3] - 0x80; }
    if n == 1 {
      c := b0;
    } else if n == 2 {
      c := (b0 - 0xC0) * 0x40 + b1;
      Sixes(0, 0, b0 - 0xC0, b1);
    } else if n == 3 {
      c := ((b0 - 0xE0) * 0x40 + b1) * 0x40 + b2;
      Sixes(0, b0 - 0xE0, b1, b2);
    } else {
      c := (((b0 - 0xF0) * 0x40 + b1) * 0x40 + b2) * 0x40 + b3;
      Sixes(b0 - 0xF0, b1, b2, b3);
    }
    assert IsScalar(c);
    assert Scalar(c) == b[..n];
  }

  /** Transport follows the standard: it keeps the encoding of a code point wherever one starts,
      and replaces any other byte by U+FFFD. */
  lemma CoerceExact(b: Bytes, c: int)
    requires b != []
    ensures Coerce([]) == [] && Scalar(0xFFFD) == [0xEF, 0xBF, 0xBD]
    ensures StartsWith(b, c) ==> Coerce(b) == Scalar(c) + Coerce(b[|Scalar(c)|..])
    ensures !(exists d :: StartsWith(b, d)) ==> Coerce(b) == Scalar(0xFFFD) + Coerce(b[1..])
  {
    if StartsWith(b, c) {
      RuneOfScalar(b, c);
    }
    if RuneLength(b) > 0 {
      var d := ScalarOfRune(b);
    }
  }
}
