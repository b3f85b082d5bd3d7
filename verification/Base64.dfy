/** Standard base64 (section 4 of RFC 4648) as Go's base64.StdEncoding applies it. */
module Base64 {
  import opened Prelude

  const PAD: Byte := 61

  type Sextet = x: int | 0 <= x < 64

  function Symbol(v: Sextet): Byte {
    if v < 26 then 65 + v
    else if v < 52 then 97 + (v - 26)
    else if v < 62 then 48 + (v - 52)
    else if v == 62 then 43
    else 47
  }

  function Value(c: Byte): Option<Sextet> {
    if 65 <= c <= 90 then Some(c - 65)
    else if 97 <= c <= 122 then Some(c - 97 + 26)
    else if 48 <= c <= 57 then Some(c - 48 + 52)
    else if c == 43 then Some(62)
    else if c == 47 then Some(63)
    else None
  }

  // The four sextets that three bytes x, y, z are cut into ...
  function Cut0(x: Byte): Sextet { x / 4 }
  function Cut1(x: Byte, y: Byte): Sextet { x % 4 * 16 + y / 16 }
  function Cut2(y: Byte, z: Byte): Sextet { y % 16 * 4 + z / 64 }
  function Cut3(z: Byte): Sextet { z % 64 }

  // ... and the three bytes that four sextets are joined into.
  function Join0(v0: Sextet, v1: Sextet): Byte { v0 * 4 + v1 / 16 }
  function Join1(v1: Sextet, v2: Sextet): Byte { v1 % 16 * 16 + v2 / 4 }
  function Join2(v2: Sextet, v3: Sextet): Byte { v2 % 4 * 64 + v3 }

  function Encode(b: Bytes): Bytes {
    if |b| == 0 then []
    else if |b| == 1 then
      [Symbol(Cut0(b[0])), Symbol(Cut1(b[0], 0)), PAD, PAD]
    else if |b| == 2 then
      [Symbol(Cut0(b[0])), Symbol(Cut1(b[0], b[1])), Symbol(Cut2(b[1], 0)), PAD]
    else
      [Symbol(Cut0(b[0])), Symbol(Cut1(b[0], b[1])), Symbol(Cut2(b[1], b[2])), Symbol(Cut3(b[2]))]
      + Encode(b[3..])
  }

  /** Go's decoder skips carriage returns and line feeds wherever they stand. */
  function StripNewlines(s: Bytes): Bytes {
    if s == [] then []
    else (if s[0] == 10 || s[0] == 13 then [] else [s[0]]) + StripNewlines(s[1..])
  }

  /** Decodes quadruple by quadruple; padding may only end the text, and unused
      trailing bits are not checked (the decoder is not Strict). */
  function DecodeQuads(s: Bytes): Option<Bytes> {
    if |s| == 0 then Some([])
    else if |s| < 4 then None
    else
      var v0, v1, v2, v3 := Value(s[0]), Value(s[1]), Value(s[2]), Value(s[3]);
      if v0.None? || v1.None? then None
      else
        if s[2] == PAD then
          if s[3] == PAD && |s| == 4 then Some([Join0(v0.value, v1.value)]) else None
        else if v2.None? then None
        else if s[3] == PAD then
          if |s| == 4 then Some([Join0(v0.value, v1.value), Join1(v1.value, v2.value)]) else None
        else if v3.None? then None
        else
          var rest := DecodeQuads(s[4..]);
          if rest.None? then None
          else
            Some([Join0(v0.value, v1.value), Join1(v1.value, v2.value), Join2(v2.value, v3.value)] + rest.value)
  }

  function Decode(s: Bytes): Option<Bytes> {
    DecodeQuads(StripNewlines(s))
  }

  lemma SymbolValue(v: Sextet)
    ensures Value(Symbol(v)) == Some(v)
    ensures Symbol(v) != PAD && 32 < Symbol(v) < 128
  {
  }

  /** Encoded text is printable ASCII. */
  lemma {:induction false} EncodedAscii(b: Bytes)
    ensures forall i :: 0 <= i < |Encode(b)| ==> 32 < Encode(b)[i] < 128
  {
    if |b| >= 3 {
      EncodedAscii(b[3..]);
    }
  }

  lemma {:induction false} StripPrintable(s: Bytes)
    requires forall i :: 0 <= i < |s| ==> 32 < s[i]
    ensures StripNewlines(s) == s
  {
    if s != [] {
      StripPrintable(s[1..]);
    }
  }

  lemma JoinCut(x: Byte, y: Byte, z: Byte)
    ensures Join0(Cut0(x), Cut1(x, y)) == x
    ensures Join1(Cut1(x, y), Cut2(y, z)) == y
    ensures Join2(Cut2(y, z), Cut3(z)) == z
  {
  }

  lemma DecodeSymbols(v0: Sextet, v1: Sextet, v2: Sextet, v3: Sextet, rest: Bytes)
    ensures DecodeQuads([Symbol(v0), Symbol(v1), PAD, PAD]) == Some([Join0(v0, v1)])
    ensures DecodeQuads([Symbol(v0), Symbol(v1), Symbol(v2), PAD]) == Some([Join0(v0, v1), Join1(v1, v2)])
    ensures DecodeQuads(rest).Some? ==>
      DecodeQuads([Symbol(v0), Symbol(v1), Symbol(v2), Symbol(v3)] + rest)
        == Some([Join0(v0, v1), Join1(v1, v2), Join2(v2, v3)] + DecodeQuads(rest).value)
  {
    SymbolValue(v0);
    SymbolValue(v1);
    SymbolValue(v2);
    SymbolValue(v3);
    assert ([Symbol(v0), Symbol(v1), Symbol(v2), Symbol(v3)] + rest)[4..] == rest;
  }

  // ---- The standard itself ----

  /** The alphabet of section 4 of RFC 4648. */
  const ALPHABET := "ABCDEFGHIJKLMNOPQRSTUVWXYZ" + "abcdefghijklmnopqrstuvwxyz" + "0123456789+/"

  /** The byte of the v-th letter. */
  function Letter(v: Sextet): Byte {
    var c := if v < |ALPHABET| then ALPHABET[v] as int else 0;
    if c < 256 then c else 0
  }

  lemma SymbolIsLetter(v: Sextet)
    ensures Symbol(v) == Letter(v)
  {
    if v < 26 {
      UpperCase(v);
    } else if v < 52 {
      LowerCase(v - 26);
    } else {
      DigitsAndSigns(v - 52);
    }
  }

  lemma UpperCase(i: nat)
    requires i < 26
    ensures Letter(i) == 65 + i
  {
    UpperAt(i);
    assert ALPHABET[i] == "ABCDEFGHIJKLMNOPQRSTUVWXYZ"[i];
  }

  lemma UpperAt(i: nat)
    requires i < 26
    ensures "ABCDEFGHIJKLMNOPQRSTUVWXYZ"[i] as int == 65 + i
  {
  }

  lemma LowerCase(i: nat)
    requires i < 26
    ensures Letter(26 + i) == 97 + i
  {
    LowerAt(i);
    assert ALPHABET[26 + i] == "abcdefghijklmnopqrstuvwxyz"[i];
  }

  lemma LowerAt(i: nat)
    requires i < 26
    ensures "abcdefghijklmnopqrstuvwxyz"[i] as int == 97 + i
  {
  }

  lemma DigitsAndSigns(i: nat)
    requires i < 12
    ensures Letter(52 + i) == if i < 10 then 48 + i else if i == 10 then 43 else 47
  {
    assert "0123456789+/"[i] as int == if i < 10 then 48 + i else if i == 10 then 43 else 47;
  }

  lemma SymbolIsLetter4(v0: Sextet, v1: Sextet, v2: Sextet, v3: Sextet)
    ensures Symbol(v0) == Letter(v0) && Symbol(v1) == Letter(v1) && Symbol(v2) == Letter(v2) && Symbol(v3) == Letter(v3)
  {
    SymbolIsLetter(v0);
    SymbolIsLetter(v1);
    SymbolIsLetter(v2);
    SymbolIsLetter(v3);
  }

  /** The standard, both ways: three bytes are written as the four letters whose places in the
      alphabet have the same 24 bits, the first byte and the first letter highest; a rest of
      two bytes or one as those of three letters or two, with zero bits behind it, and padding.
      Of padded letters the bits beyond the last whole byte may be anything. */
  lemma FollowsStandard(x: Byte, y: Byte, z: Byte, v0: Sextet, v1: Sextet, v2: Sextet, v3: Sextet, b: Bytes, s: Bytes)
    requires v0 * 0x40000 + v1 * 0x1000 + v2 * 0x40 + v3 == x * 0x10000 + y * 0x100 + z
    ensures PAD == '=' as int && Encode([]) == [] && DecodeQuads([]) == Some([])
    ensures Encode([x, y, z] + b) == [Letter(v0), Letter(v1), Letter(v2), Letter(v3)] + Encode(b)
    ensures z == 0 ==> Encode([x, y]) == [Letter(v0), Letter(v1), Letter(v2), PAD]
    ensures y == z == 0 ==> Encode([x]) == [Letter(v0), Letter(v1), PAD, PAD]
    ensures DecodeQuads([Letter(v0), Letter(v1), Letter(v2), Letter(v3)] + s) ==
      match DecodeQuads(s) case None => None case Some(rest) => Some([x, y, z] + rest)
    ensures DecodeQuads([Letter(v0), Letter(v1), Letter(v2), PAD]) == Some([x, y])
    ensures DecodeQuads([Letter(v0), Letter(v1), PAD, PAD]) == Some([x])
  {
    SameBits(x, y, z, v0, v1, v2, v3);
    JoinCut(x, y, z);
    SymbolIsLetter4(v0, v1, v2, v3);
    DecodeSymbols(v0, v1, v2, v3, s);
    SymbolValue(v2);
    SymbolValue(v3);
    assert ([x, y, z] + b)[3..] == b;
    assert ([Symbol(v0), Symbol(v1), Symbol(v2), Symbol(v3)] + s)[4..] == s;
  }

  lemma SameBits(x: Byte, y: Byte, z: Byte, v0: Sextet, v1: Sextet, v2: Sextet, v3: Sextet)
    requires v0 * 0x40000 + v1 * 0x1000 + v2 * 0x40 + v3 == x * 0x10000 + y * 0x100 + z
    ensures v0 == Cut0(x) && v1 == Cut1(x, y) && v2 == Cut2(y, z) && v3 == Cut3(z)
  {
    var a, b, c := z / 64, y / 16, x / 4;
    Low64(v0 * 0x1000 + v1 * 0x40 + v2, v3, x * 0x400 + y * 4 + a, z % 64);
    Low64(v0 * 0x40 + v1, v2, x * 16 + b, y % 16 * 4 + a);
    Low64(v0, v1, c, x % 4 * 16 + b);
  }

  lemma Low64(q: int, r: int, q': int, r': int)
    requires 64 * q + r == 64 * q' + r' && 0 <= r < 64 && 0 <= r' < 64
    ensures q == q' && r == r'
  {
  }

  lemma HasBits(x: Byte, y: Byte, z: Byte)
    ensures Cut0(x) * 0x40000 + Cut1(x, y) * 0x1000 + Cut2(y, z) * 0x40 + Cut3(z) == x * 0x10000 + y * 0x100 + z
  {
  }

  lemma {:induction false} DecodeQuadsEncode(b: Bytes)
    ensures DecodeQuads(Encode(b)) == Some(b)
    decreases |b|
  {
    if |b| >= 3 {
      DecodeQuadsEncode(b[3..]);
      GroupRoundTrip(b[0], b[1], b[2], b[3..]);
      assert [b[0], b[1], b[2]] + b[3..] == b;
    } else if |b| == 2 {
      GroupRoundTrip(b[0], b[1], 0, []);
      assert [b[0], b[1]] == b;
    } else if |b| == 1 {
      GroupRoundTrip(b[0], 0, 0, []);
      assert [b[0]] == b;
    }
  }

  lemma GroupRoundTrip(x: Byte, y: Byte, z: Byte, rest: Bytes)
    requires DecodeQuads(Encode(rest)) == Some(rest)
    ensures DecodeQuads(Encode([x, y, z] + rest)) == Some([x, y, z] + rest)
    ensures DecodeQuads(Encode([x, y])) == Some([x, y]) && DecodeQuads(Encode([x])) == Some([x])
  {
    HasBits(x, y, z);
    HasBits(x, y, 0);
    HasBits(x, 0, 0);
    FollowsStandard(x, y, z, Cut0(x), Cut1(x, y), Cut2(y, z), Cut3(z), rest, Encode(rest));
    FollowsStandard(x, y, 0, Cut0(x), Cut1(x, y), Cut2(y, 0), Cut3(0), rest, []);
    FollowsStandard(x, 0, 0, Cut0(x), Cut1(x, 0), Cut2(0, 0), Cut3(0), rest, []);
  }

  /** Decoding undoes encoding, for every byte string. */
  lemma RoundTrip(b: Bytes)
    ensures Decode(Encode(b)) == Some(b)
  {
    EncodedAscii(b);
    StripPrintable(Encode(b));
    DecodeQuadsEncode(b);
  }

  ghost predicate IsLetter(c: Byte) { exists v: Sextet :: c == Letter(v) }

  lemma LetterIff(c: Byte)
    ensures IsLetter(c) <==> Value(c).Some?
  {
    if Value(c).Some? {
      SymbolIsLetter(Value(c).value);
      assert Symbol(Value(c).value) == c;
    }
    if IsLetter(c) {
      var v: Sextet :| c == Letter(v);
      SymbolIsLetter(v);
      SymbolValue(v);
    }
  }

  /** Whole quadruples of letters, with at most two bytes of padding, at the very end. */
  ghost predicate Padded(s: Bytes, p: nat) {
    && p <= 2 && p <= |s| && |s| % 4 == 0
    && (forall i :: 0 <= i < |s| - p ==> IsLetter(s[i]))
    && (forall i :: |s| - p <= i < |s| ==> s[i] == PAD)
  }

  /** Exactly these texts decode. */
  lemma DecodesIff(s: Bytes)
    ensures DecodeQuads(s).Some? <==> exists p :: Padded(s, p)
  {
    forall i | 0 <= i < |s| ensures IsLetter(s[i]) <==> Value(s[i]).Some? {
      LetterIff(s[i]);
    }
    if DecodeQuads(s).Some? {
      var p := Padding(s);
      assert Padded(s, p);
    }
    if p :| Padded(s, p) {
      PaddedDecodes(s, p);
    }
  }

  predicate HasValues(s: Bytes, p: nat) {
    && p <= 2 && p <= |s| && |s| % 4 == 0
    && (forall i :: 0 <= i < |s| - p ==> Value(s[i]).Some?)
    && (forall i :: |s| - p <= i < |s| ==> s[i] == PAD)
  }

  lemma {:induction false} Padding(s: Bytes) returns (p: nat)
    requires DecodeQuads(s).Some?
    ensures HasValues(s, p)
  {
    if |s| == 0 {
      p := 0;
    } else if s[2] == PAD {
      p := 2;
    } else if s[3] == PAD {
      p := 1;
    } else {
      p := Padding(s[4..]);
      OneMoreQuad(s, p);
    }
  }

  lemma OneMoreQuad(s: Bytes, p: nat)
    requires |s| >= 4 && HasValues(s[4..], p) && forall i :: 0 <= i < 4 ==> Value(s[i]).Some?
    ensures HasValues(s, p)
  {
    var t := s[4..];
    forall i | 0 <= i < |s| - p ensures Value(s[i]).Some? {
      if i >= 4 { assert s[i] == t[i - 4]; }
    }
    forall i | |s| - p <= i < |s| ensures s[i] == PAD {
      assert s[i] == t[i - 4];
    }
  }

  lemma {:induction false} PaddedDecodes(s: Bytes, p: nat)
    requires HasValues(s, p)
    ensures DecodeQuads(s).Some?
  {
    if |s| > 4 {
      PaddedDecodes(s[4..], p);
    }
  }

  /** Line breaks do not count: everything else stays, in order. */
  lemma {:induction false} StripExact(a: Bytes, c: Byte)
    ensures StripNewlines([]) == []
    ensures StripNewlines(a + [c]) == StripNewlines(a) + if c == '\n' as int || c == '\r' as int then [] else [c]
  {
    if a == [] {
      assert [c][1..] == [];
    } else {
      assert (a + [c])[1..] == a[1..] + [c];
      StripExact(a[1..], c);
    }
  }
}
