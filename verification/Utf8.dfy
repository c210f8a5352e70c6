/** Repair of UTF-8 text (adclib/adclib.cpp:77-188), with a wchar_t of 32 bits. The encoding is that of section 3 of
    RFC 3629. Bytes are numbers; a string is followed by a zero. */
module Utf8 {
  import opened Folding

  type Byte = b: nat | b < 256

  /** What the decoder returns: the number of bytes, negative for invalid ones, and the code point. */
  datatype Step = Step(x: int, c: nat)

  // ----- the encoding -----

  predicate Scalar(c: nat) { c <= 0x10ffff && !(0xd800 <= c <= 0xdfff) }

  /** The shortest form of a code point; one that is invalid is replaced (adclib.cpp:130-151). */
  function Encode(c: nat): (s: seq<Byte>)
    ensures 1 <= |s| <= 4
    decreases if Scalar(c) then 0 else 1
  {
    if !Scalar(c) then Encode(0xfffd)
    else if c >= 0x10000 then [0xf0 + c / 0x40000, 0x80 + c / 0x1000 % 0x40, 0x80 + c / 0x40 % 0x40, 0x80 + c % 0x40]
    else if c >= 0x800 then [0xe0 + c / 0x1000, 0x80 + c / 0x40 % 0x40, 0x80 + c % 0x40]
    else if c >= 0x80 then [0xc0 + c / 0x40, 0x80 + c % 0x40]
    else [c]
  }

  function EncodeAll(cs: seq<nat>): seq<Byte> { if cs == [] then [] else Encode(cs[0]) + EncodeAll(cs[1..]) }

  predicate Scalars(cs: seq<nat>) { forall k :: 0 <= k < |cs| ==> Scalar(cs[k]) }

  /** What is no code point is written as U+FFFD, the replacement character. */
  lemma EncodeReplaces(c: nat)
    requires c > 0x10ffff || 0xd800 <= c <= 0xdfff
    ensures Encode(c) == [0xef, 0xbf, 0xbd]
  {
    assert Encode(c) == Encode(0xfffd);
  }

  // ----- the decoder -----

  function ByteAt(s: seq<Byte>, i: nat): Byte
    requires i <= |s|
  {
    if i < |s| then s[i] else 0
  }

  /** The number of bytes that a first byte calls for: 2, 3 or 4. */
  function Announced(c0: Byte): nat {
    2 + (if c0 / 0x20 % 2 == 1 then 1 else 0) + (if c0 / 0x10 % 4 == 3 then 1 else 0)
  }

  function CheckBit(bytes: nat): nat { if bytes == 2 then 0x20 else if bytes == 3 then 0x10 else 0x08 }

  /** Decodes from the first byte on (adclib.cpp:77-127). */
  function Decode(s: seq<Byte>): Step
    requires s != []
  {
    var c0 := s[0];
    if c0 >= 0xc0 then
      var bytes := Announced(c0);
      if c0 / CheckBit(bytes) % 2 == 1 then Step(-1, 0) else Tail(s, c0 % CheckBit(bytes), 1, bytes)
    else if c0 < 0x80 then Step(1, c0)
    else Step(-1, 0)
  }

  /** Decodes the bytes from the `i`-th to the last one announced. */
  function Tail(s: seq<Byte>, c: nat, i: nat, bytes: nat): Step
    requires 1 <= i <= |s|
    decreases bytes - i
  {
    if i >= bytes then
      if !Scalar(c) || (bytes == 2 && c < 0x80) || (bytes == 3 && c < 0x800) then Step(0 - bytes as int, 0xfffd)
        else Step(bytes, c)
    else
      var ci := ByteAt(s, i);
      if 0x80 <= ci < 0xc0 then Tail(s, c * 0x40 + ci % 0x40, i + 1, bytes) else Step(0 - i as int, c)
  }

  lemma {:induction false} TailBounds(s: seq<Byte>, c: nat, i: nat, bytes: nat)
    requires 1 <= i <= |s| && i <= bytes
    ensures var x := Tail(s, c, i, bytes).x; (x == bytes && bytes <= |s|) || (i <= -x <= bytes && -x <= |s|)
    decreases bytes - i
  {
    if i < bytes && i < |s| { TailBounds(s, c * 0x40 + s[i] % 0x40, i + 1, bytes); }
  }

  /** Every step advances, by four bytes at most, and not past the end. */
  lemma Advances(s: seq<Byte>)
    requires s != []
    ensures var x := Decode(s).x; (1 <= x <= 4 && x <= |s|) || (-4 <= x <= -1 && -x <= |s| && s[0] >= 0x80)
  {
    if s[0] >= 0xc0 { TailBounds(s, s[0] % CheckBit(Announced(s[0])), 1, Announced(s[0])); }
  }

  /** The six-bit groups of a code point. */
  lemma Groups(c: nat)
    ensures c == c / 0x40 * 0x40 + c % 0x40 && c / 0x40 == c / 0x1000 * 0x40 + c / 0x40 % 0x40
    ensures c / 0x1000 == c / 0x40000 * 0x40 + c / 0x1000 % 0x40
  {
    assert c / 0x40 / 0x40 == c / 0x1000 && c / 0x1000 / 0x40 == c / 0x40000;
  }

  lemma Joined(q: nat, r: nat)
    requires r < 0x40
    ensures (q * 0x40 + r) / 0x40 == q && (q * 0x40 + r) % 0x40 == r
    ensures (q * 0x40 + r) / 0x1000 == q / 0x40 && (q * 0x40 + r) / 0x40000 == q / 0x1000
  {
    var c := q * 0x40 + r;
    assert c / 0x40 == q;
    assert c / 0x40 / 0x40 == c / 0x1000 && c / 0x40 / 0x1000 == c / 0x40000;
  }

  /** A first byte that announces `bytes` ones, and carries the bits `top`. */
  lemma FirstByte(c0: Byte, bytes: nat, top: nat)
    requires (bytes == 2 && top < 32 && c0 == 0xc0 + top) || (bytes == 3 && top < 16 && c0 == 0xe0 + top) ||
      (bytes == 4 && top < 8 && c0 == 0xf0 + top)
    ensures Announced(c0) == bytes && c0 / CheckBit(bytes) % 2 == 0 && c0 % CheckBit(bytes) == top
  {
  }

  lemma Continues(s: seq<Byte>, c: nat, i: nat, bytes: nat, low: nat)
    requires 1 <= i < bytes && i < |s| && low < 0x40 && s[i] == 0x80 + low
    ensures Tail(s, c, i, bytes) == Tail(s, c * 0x40 + low, i + 1, bytes)
  {
    assert s[i] % 0x40 == low;
  }

  lemma DecodeEncoded4(s: seq<Byte>, c: nat)
    requires Scalar(c) && c >= 0x10000 && |s| >= 4 && s[0] == 0xf0 + c / 0x40000
    requires s[1] == 0x80 + c / 0x1000 % 0x40 && s[2] == 0x80 + c / 0x40 % 0x40 && s[3] == 0x80 + c % 0x40
    ensures Decode(s) == Step(4, c)
  {
    Groups(c);
    FirstByte(s[0], 4, c / 0x40000);
    Continues(s, c / 0x40000, 1, 4, c / 0x1000 % 0x40);
    Continues(s, c / 0x1000, 2, 4, c / 0x40 % 0x40);
    Continues(s, c / 0x40, 3, 4, c % 0x40);
  }

  lemma DecodeEncoded3(s: seq<Byte>, c: nat)
    requires Scalar(c) && 0x800 <= c < 0x10000 && |s| >= 3 && s[0] == 0xe0 + c / 0x1000
    requires s[1] == 0x80 + c / 0x40 % 0x40 && s[2] == 0x80 + c % 0x40
    ensures Decode(s) == Step(3, c)
  {
    Groups(c);
    FirstByte(s[0], 3, c / 0x1000);
    Continues(s, c / 0x1000, 1, 3, c / 0x40 % 0x40);
    Continues(s, c / 0x40, 2, 3, c % 0x40);
  }

  lemma DecodeEncoded2(s: seq<Byte>, c: nat)
    requires 0x80 <= c < 0x800 && |s| >= 2 && s[0] == 0xc0 + c / 0x40 && s[1] == 0x80 + c % 0x40
    ensures Decode(s) == Step(2, c)
  {
    Groups(c);
    FirstByte(s[0], 2, c / 0x40);
    Continues(s, c / 0x40, 1, 2, c % 0x40);
  }

  /** The shortest form is decoded. */
  lemma DecodeEncoded(c: nat, rest: seq<Byte>)
    requires Scalar(c)
    ensures Decode(Encode(c) + rest) == Step(|Encode(c)|, c)
  {
    var s := Encode(c) + rest;
    if c >= 0x10000 {
      DecodeEncoded4(s, c);
    } else if c >= 0x800 {
      DecodeEncoded3(s, c);
    } else if c >= 0x80 {
      DecodeEncoded2(s, c);
    }
  }

  /** A valid sequence continues with its bits. */
  lemma Continued(s: seq<Byte>, c: nat, i: nat, bytes: nat) returns (low: nat)
    requires 1 <= i < bytes && i <= |s| && Tail(s, c, i, bytes).x > 0
    ensures i < |s| && low < 0x40 && s[i] == 0x80 + low && Tail(s, c, i, bytes) == Tail(s, c * 0x40 + low, i + 1, bytes)
  {
    low := ByteAt(s, i) % 0x40;
  }

  lemma Announcing(c0: Byte)
    requires c0 >= 0xc0 && c0 / CheckBit(Announced(c0)) % 2 == 0
    ensures var b := Announced(c0); var top := c0 % CheckBit(b);
      (b == 2 && c0 == 0xc0 + top) || (b == 3 && c0 == 0xe0 + top) || (b == 4 && c0 == 0xf0 + top)
  {
  }

  lemma Decoded2(s: seq<Byte>, top: nat)
    requires |s| > 0 && s[0] == 0xc0 + top && top < 32 && Tail(s, top, 1, 2).x > 0
    ensures var d := Tail(s, top, 1, 2); d.x == 2 <= |s| && Scalar(d.c) && Encode(d.c) == s[..2]
  {
    var a := Continued(s, top, 1, 2);
    Joined(top, a);
    assert s[..2] == [s[0], s[1]];
  }

  lemma Decoded3(s: seq<Byte>, top: nat)
    requires |s| > 0 && s[0] == 0xe0 + top && top < 16 && Tail(s, top, 1, 3).x > 0
    ensures var d := Tail(s, top, 1, 3); d.x == 3 <= |s| && Scalar(d.c) && Encode(d.c) == s[..3]
  {
    var a := Continued(s, top, 1, 3);
    var b := Continued(s, top * 0x40 + a, 2, 3);
    Joined(top, a);
    Joined(top * 0x40 + a, b);
    assert s[..3] == [s[0], s[1], s[2]];
  }

  lemma FourGroups(top: nat, a: nat, b: nat, c: nat)
    requires a < 0x40 && b < 0x40 && c < 0x40
    ensures var d := ((top * 0x40 + a) * 0x40 + b) * 0x40 + c;
      d / 0x40000 == top && d / 0x1000 % 0x40 == a && d / 0x40 % 0x40 == b && d % 0x40 == c
  {
    Joined(top, a);
    Joined(top * 0x40 + a, b);
    Joined((top * 0x40 + a) * 0x40 + b, c);
  }

  lemma Decoded4(s: seq<Byte>, top: nat)
    requires |s| > 0 && s[0] == 0xf0 + top && top < 8 && Tail(s, top, 1, 4).x > 0
    ensures var d := Tail(s, top, 1, 4); d.x == 4 <= |s| && Scalar(d.c) && (Encode(d.c) == s[..4] || d.c < 0x10000)
  {
    var a := Continued(s, top, 1, 4);
    var b := Continued(s, top * 0x40 + a, 2, 4);
    var c := Continued(s, (top * 0x40 + a) * 0x40 + b, 3, 4);
    FourGroups(top, a, b, c);
    assert s[..4] == [s[0], s[1], s[2], s[3]];
  }

  /** What is decoded is a code point, in its shortest form unless there are four bytes. */
  lemma Decoded(s: seq<Byte>)
    requires s != [] && Decode(s).x > 0
    ensures var d := Decode(s); Scalar(d.c) && d.x <= |s| && |Encode(d.c)| <= d.x
    ensures var d := Decode(s); Encode(d.c) == s[..d.x] || (d.x == 4 && d.c < 0x10000)
  {
    if s[0] >= 0xc0 {
      Announcing(s[0]);
      var b := Announced(s[0]);
      var top := s[0] % CheckBit(b);
      if b == 2 { Decoded2(s, top); } else if b == 3 { Decoded3(s, top); } else { Decoded4(s, top); }
    }
  }

  // ----- repair and validation -----

  function Size(s: seq<Byte>): (n: nat)
    requires s != []
    ensures 1 <= n <= |s|
  {
    Advances(s);
    if Decode(s).x < 0 then -Decode(s).x else Decode(s).x
  }

  function Underscores(n: nat): (s: seq<nat>)
    ensures |s| == n && forall k :: 0 <= k < n ==> s[k] == 0x5f
  {
    seq(n, _ => 0x5f)
  }

  /** The code points of a text, where every byte of an invalid sequence counts as an underscore. */
  function Points(s: seq<Byte>): seq<nat>
    decreases |s|
  {
    if s == [] then []
    else (if Decode(s).x < 0 then Underscores(Size(s)) else [Decode(s).c]) + Points(s[Size(s)..])
  }

  /** The text that 'sanitizeUtf8' makes. */
  function Sanitized(s: seq<Byte>): seq<Byte> { EncodeAll(Points(s)) }

  /** Whether 'validateUtf8' accepts the text. */
  predicate Valid(s: seq<Byte>)
    decreases |s|
  {
    s == [] || (Decode(s).x > 0 && Valid(s[Size(s)..]))
  }

  lemma {:induction false} EncodeAllJoined(a: seq<nat>, b: seq<nat>)
    ensures EncodeAll(a + b) == EncodeAll(a) + EncodeAll(b)
  {
    if a == [] {
      assert a + b == b;
    } else {
      EncodeAllJoined(a[1..], b);
      assert (a + b)[1..] == a[1..] + b;
      Joint(Encode(a[0]), EncodeAll(a[1..]), EncodeAll(b));
    }
  }

  lemma Joint(x: seq<Byte>, y: seq<Byte>, z: seq<Byte>)
    ensures x + (y + z) == x + y + z
  {
  }

  lemma {:induction false} PointsAreScalars(s: seq<Byte>)
    ensures Scalars(Points(s))
    decreases |s|
  {
    if s != [] {
      PointsAreScalars(s[Size(s)..]);
      if Decode(s).x > 0 { Decoded(s); }
    }
  }

  /** Text in shortest forms is valid, and its code points are read back. */
  lemma {:induction false} EncodedIsValid(cs: seq<nat>)
    requires Scalars(cs)
    ensures Valid(EncodeAll(cs)) && Points(EncodeAll(cs)) == cs
  {
    if cs != [] {
      var s, rest := EncodeAll(cs), EncodeAll(cs[1..]);
      DecodeEncoded(cs[0], rest);
      assert s[|Encode(cs[0])|..] == rest;
      EncodedIsValid(cs[1..]);
    }
  }

  /** Sanitizing makes text valid, keeps its code points, and does nothing more the second time. */
  lemma SanitizedIsValid(s: seq<Byte>)
    ensures Valid(Sanitized(s)) && Points(Sanitized(s)) == Points(s) && Sanitized(Sanitized(s)) == Sanitized(s)
  {
    PointsAreScalars(s);
    EncodedIsValid(Points(s));
  }

  /** It changes nothing exactly in a text of shortest forms. */
  lemma Unchanged(s: seq<Byte>)
    ensures Sanitized(s) == s <==> exists cs :: Scalars(cs) && s == EncodeAll(cs)
  {
    PointsAreScalars(s);
    if cs :| Scalars(cs) && s == EncodeAll(cs) {
      EncodedIsValid(cs);
    }
  }

  /** Somewhere four bytes encode what needs fewer. */
  predicate HasOverlong(s: seq<Byte>)
    decreases |s|
  {
    s != [] && ((Decode(s).x == 4 && Decode(s).c < 0x10000) || HasOverlong(s[Size(s)..]))
  }

  /** It never makes text longer. */
  lemma {:induction false} NotLonger(s: seq<Byte>)
    ensures |Sanitized(s)| <= |s| && (HasOverlong(s) ==> |Sanitized(s)| < |s|)
    decreases |s|
  {
    if s != [] {
      var rest := s[Size(s)..];
      NotLonger(rest);
      if Decode(s).x < 0 {
        EncodeAllJoined(Underscores(Size(s)), Points(rest));
        EncodeUnderscores(Size(s));
      } else {
        Decoded(s);
        assert [Decode(s).c] + Points(rest) == Points(s) && Points(s)[1..] == Points(rest);
      }
    }
  }

  lemma {:induction false} EncodeUnderscores(n: nat)
    ensures EncodeAll(Underscores(n)) == Dashes(n)
  {
    if n > 0 {
      EncodeUnderscores(n - 1);
      assert Underscores(n)[1..] == Underscores(n - 1);
    }
  }

  function Dashes(n: nat): seq<Byte> { seq(n, _ => 0x5f) }

  /** What one step of sanitizing appends. */
  function Piece(s: seq<Byte>): seq<Byte>
    requires s != []
  {
    if Decode(s).x < 0 then Dashes(Size(s)) else Encode(Decode(s).c)
  }

  lemma PieceOf(s: seq<Byte>, x: int, c: nat)
    requires s != [] && Step(x, if x > 0 then c else Decode(s).c) == Decode(s)
    ensures Size(s) == (if x < 0 then -x else x) && Piece(s) == if x < 0 then Dashes(-x) else Encode(c)
  {
    Advances(s);
  }

  lemma SanitizedStep(s: seq<Byte>, rest: seq<Byte>)
    requires s != [] && rest == s[Size(s)..]
    ensures Sanitized(s) == Piece(s) + Sanitized(rest)
  {
    if Decode(s).x < 0 {
      EncodeAllJoined(Underscores(Size(s)), Points(rest));
      EncodeUnderscores(Size(s));
    } else {
      assert Points(s)[1..] == Points(rest);
    }
  }

  /** Valid text is unchanged exactly if it holds no overlong form of four bytes, which the decoder lets pass. */
  lemma {:induction false} ValidUnchanged(s: seq<Byte>)
    requires Valid(s)
    ensures Sanitized(s) == s <==> !HasOverlong(s)
    decreases |s|
  {
    NotLonger(s);
    if s != [] && !HasOverlong(s) {
      var rest := s[Size(s)..];
      ValidUnchanged(rest);
      SanitizedStep(s, rest);
      ShortestPiece(s);
      assert s == s[..Size(s)] + rest;
    }
  }

  lemma ShortestPiece(s: seq<Byte>)
    requires s != [] && Decode(s).x > 0 && !(Decode(s).x == 4 && Decode(s).c < 0x10000)
    ensures Piece(s) == s[..Size(s)]
  {
    Decoded(s);
  }

  lemma OverlongAccepted()
    ensures Valid([0xf0, 0x80, 0x80, 0x80]) && Sanitized([0xf0, 0x80, 0x80, 0x80]) == [0]
  {
    var s: seq<Byte> := [0xf0, 0x80, 0x80, 0x80];
    Continues(s, 0, 1, 4, 0);
    Continues(s, 0, 2, 4, 0);
    Continues(s, 0, 3, 4, 0);
    assert Decode(s) == Step(4, 0);
    assert s[4..] == [];
  }

  // ----- what repair does, without the decoder -----

  predicate Cont(b: Byte) { 0x80 <= b < 0xc0 }

  /** How many bytes a first byte stands for. */
  function LeadLength(b: Byte): nat
      { if b < 0xc0 then 1 else if b < 0xe0 then 2 else if b < 0xf0 then 3 else if b < 0xf8 then 4 else 1 }

  /** Four bytes that encode less than 0x10000, but no surrogate. */
  predicate OverlongForm(s: seq<Byte>) {
    && |s| >= 4 && s[0] == 0xf0 && Cont(s[1]) && Cont(s[2]) && Cont(s[3])
    && s[1] < 0x90 && !(s[1] == 0x8d && s[2] >= 0xa0)
  }

  lemma OverlongDecodes(s: seq<Byte>)
    requires OverlongForm(s)
    ensures Decode(s).x == 4
  {
    var a: nat, b: nat, c: nat := s[1] - 0x80, s[2] - 0x80, s[3] - 0x80;
    FirstByte(s[0], 4, 0);
    Continues(s, 0, 1, 4, a);
    Continues(s, a, 2, 4, b);
    Continues(s, a * 0x40 + b, 3, 4, c);
  }

  lemma OverlongIsForm(s: seq<Byte>)
    requires s != [] && Decode(s).x == 4 && Decode(s).c < 0x10000
    ensures OverlongForm(s)
  {
    Announcing(s[0]);
    var top := s[0] % CheckBit(Announced(s[0]));
    TailBounds(s, top, 1, Announced(s[0]));
    var a := Continued(s, top, 1, 4);
    var b := Continued(s, top * 0x40 + a, 2, 4);
    var c := Continued(s, (top * 0x40 + a) * 0x40 + b, 3, 4);
  }

  /** The characters of section 4 of RFC 3629, by the number of their bytes. */
  predicate Utf8Two(s: seq<Byte>) { |s| >= 2 && 0xc2 <= s[0] <= 0xdf && Cont(s[1]) }

  predicate Utf8Three(s: seq<Byte>) {
    && |s| >= 3 && Cont(s[1]) && Cont(s[2])
    && ((s[0] == 0xe0 && s[1] >= 0xa0) || 0xe1 <= s[0] <= 0xec || (s[0] == 0xed && s[1] <= 0x9f) || s[0] == 0xee ||
      s[0] == 0xef)
  }

  predicate Utf8Four(s: seq<Byte>) {
    && |s| >= 4 && Cont(s[1]) && Cont(s[2]) && Cont(s[3])
    && ((s[0] == 0xf0 && s[1] >= 0x90) || 0xf1 <= s[0] <= 0xf3 || (s[0] == 0xf4 && s[1] <= 0x8f))
  }

  predicate Utf8Char(s: seq<Byte>) { (s != [] && s[0] < 0x80) || Utf8Two(s) || Utf8Three(s) || Utf8Four(s) }

  /** The code point of such a character. */
  lemma CharOf(s: seq<Byte>) returns (c: nat)
    requires Utf8Char(s)
    ensures Scalar(c) && Encode(c) <= s
  {
    if s[0] < 0x80 {
      c := s[0];
      return;
    }
    var a: nat := s[1] - 0x80;
    if Utf8Two(s) {
      var top: nat := s[0] - 0xc0;
      c := top * 0x40 + a;
      Joined(top, a);
    } else {
      var b: nat := s[2] - 0x80;
      if Utf8Three(s) {
        var top: nat := s[0] - 0xe0;
        c := (top * 0x40 + a) * 0x40 + b;
        Joined(top, a);
        Joined(top * 0x40 + a, b);
      } else {
        var top: nat, d: nat := s[0] - 0xf0, s[3] - 0x80;
        c := ((top * 0x40 + a) * 0x40 + b) * 0x40 + d;
        FourGroups(top, a, b, d);
      }
    }
  }

  /** The shortest forms of the code points are those characters. */
  lemma EncodesChar(c: nat, s: seq<Byte>)
    requires Scalar(c) && Encode(c) <= s
    ensures Utf8Char(s)
  {
    Groups(c);
    if c >= 0x10000 {
      assert s[0] == 0xf0 + c / 0x40000 && s[1] == 0x80 + c / 0x1000 % 0x40 && Cont(s[2]) && Cont(s[3]);
    } else if c >= 0x800 {
      assert s[0] == 0xe0 + c / 0x1000 && s[1] == 0x80 + c / 0x40 % 0x40 && Cont(s[2]);
    } else if c >= 0x80 {
      assert s[0] == 0xc0 + c / 0x40 && Cont(s[1]);
    } else {
      assert s[0] == c;
    }
  }

  /** A step is valid exactly at such a character, and at an overlong form of four bytes. */
  lemma AcceptsExactly(s: seq<Byte>)
    requires s != []
    ensures Decode(s).x > 0 <==> Utf8Char(s) || OverlongForm(s)
  {
    if Decode(s).x > 0 {
      Decoded(s);
      var d := Decode(s);
      if Encode(d.c) == s[..d.x] { EncodesChar(d.c, s); } else { OverlongIsForm(s); }
    }
    if Utf8Char(s) {
      var c := CharOf(s);
      DecodeEncoded(c, s[|Encode(c)|..]);
      assert s == Encode(c) + s[|Encode(c)|..];
    }
    if OverlongForm(s) { OverlongDecodes(s); }
  }

  lemma {:induction false} TailCovers(s: seq<Byte>, c: nat, i: nat, bytes: nat)
    requires 1 <= i <= |s| && i <= bytes && Tail(s, c, i, bytes).x < 0
    ensures var m := -Tail(s, c, i, bytes).x;
      && i <= m <= bytes && m <= |s| && (forall k {:trigger s[k]} :: i <= k < m ==> Cont(s[k]))
      && (m < bytes ==> m == |s| || !Cont(s[m]))
    decreases bytes - i
  {
    if i < bytes && i < |s| && Cont(s[i]) { TailCovers(s, c * 0x40 + s[i] % 0x40, i + 1, bytes); }
  }

  /** An invalid step covers its first byte and the bytes behind it that continue it, as many as it stands for; it
      stops before any other byte. */
  lemma InvalidCovers(s: seq<Byte>)
    requires s != [] && Decode(s).x < 0
    ensures var m := -Decode(s).x;
      && 1 <= m <= LeadLength(s[0]) && m <= |s| && (forall k {:trigger s[k]} :: 1 <= k < m ==> Cont(s[k]))
      && (m < LeadLength(s[0]) ==> m == |s| || !Cont(s[m]))
  {
    var b := Announced(s[0]);
    if s[0] >= 0xc0 && s[0] / CheckBit(b) % 2 == 0 {
      Announcing(s[0]);
      TailCovers(s, s[0] % CheckBit(b), 1, b);
    } else if s[0] >= 0xc0 {
      NoLead(s[0]);
    }
  }

  lemma NoLead(c0: Byte)
    requires c0 >= 0xc0 && c0 / CheckBit(Announced(c0)) % 2 == 1
    ensures LeadLength(c0) == 1
  {
  }

  lemma {:induction false} TailLocal(a: seq<Byte>, t: seq<Byte>, c: nat, i: nat, bytes: nat)
    requires 1 <= i <= |a| && (t == [] || !Cont(t[0]))
    ensures Tail(a + t, c, i, bytes) == Tail(a, c, i, bytes)
    decreases bytes - i
  {
    if i < bytes && i < |a| {
      assert (a + t)[i] == a[i];
      if Cont(a[i]) { TailLocal(a, t, c * 0x40 + a[i] % 0x40, i + 1, bytes); }
    }
  }

  /** What comes behind matters only if it continues. */
  lemma DecodeLocal(a: seq<Byte>, t: seq<Byte>)
    requires a != [] && (t == [] || !Cont(t[0]))
    ensures Decode(a + t) == Decode(a) && Size(a + t) == Size(a)
  {
    if a[0] >= 0xc0 { TailLocal(a, t, a[0] % CheckBit(Announced(a[0])), 1, Announced(a[0])); }
  }

  /** Repair is local: it works on both sides of any byte that starts anew, an ASCII character for example, as if the
      other side were not there. So nothing valid is lost to an invalid sequence before it. */
  lemma {:induction false} Local(a: seq<Byte>, t: seq<Byte>)
    requires t == [] || !Cont(t[0])
    ensures Sanitized(a + t) == Sanitized(a) + Sanitized(t)
    ensures Valid(a + t) <==> Valid(a) && Valid(t)
    decreases |a|
  {
    if a == [] {
      assert a + t == t;
    } else {
      DecodeLocal(a, t);
      var n := Size(a);
      assert (a + t)[n..] == a[n..] + t;
      Local(a[n..], t);
      assert Decode(a + t) == Decode(a) && Piece(a + t) == Piece(a);
      Beside(a, t, a[n..]);
    }
  }

  lemma Beside(a: seq<Byte>, t: seq<Byte>, rest: seq<Byte>)
    requires a != [] && Decode(a + t) == Decode(a) && Size(a + t) == Size(a)
    requires rest == a[Size(a)..] && (a + t)[Size(a)..] == rest + t
    requires Sanitized(rest + t) == Sanitized(rest) + Sanitized(t) && (Valid(rest + t) <==> Valid(rest) && Valid(t))
    ensures Sanitized(a + t) == Sanitized(a) + Sanitized(t)
    ensures Valid(a + t) <==> Valid(a) && Valid(t)
  {
    SanitizedStep(a, rest);
    SanitizedStep(a + t, rest + t);
    Regrouped(Piece(a), Sanitized(rest), Sanitized(t), Sanitized(rest + t), Sanitized(a));
  }

  /** A byte that starts anew with bytes that continue: a valid form at its start is kept, in its shortest form, and
      each other byte becomes an underscore. */
  lemma Chunk(s: seq<Byte>)
    requires s != [] && forall k {:trigger s[k]} :: 1 <= k < |s| ==> Cont(s[k])
    ensures Sanitized(s) == if Decode(s).x > 0 then Encode(Decode(s).c) + Dashes(|s| - Decode(s).x) else Dashes(|s|)
  {
    var n := Size(s);
    Advances(s);
    Strays(s[n..]);
    SanitizedStep(s, s[n..]);
    assert Dashes(n) + Dashes(|s| - n) == Dashes(|s|);
  }

  lemma {:induction false} Strays(s: seq<Byte>)
    requires forall k {:trigger s[k]} :: 0 <= k < |s| ==> Cont(s[k])
    ensures Sanitized(s) == Dashes(|s|)
    decreases |s|
  {
    if s != [] {
      assert Decode(s) == Step(-1, 0);
      Strays(s[1..]);
      SanitizedStep(s, s[1..]);
    }
  }

  lemma Appended(str: seq<Byte>, at: nat, n: nat, tgt0: seq<Byte>, i: int, tgt: seq<Byte>)
    requires at < |str| && n == Size(str[at..]) && i == at + n && tgt == tgt0 + Piece(str[at..])
    ensures tgt + Sanitized(str[i..]) == tgt0 + Sanitized(str[at..])
  {
    assert str[at..][n..] == str[i..];
    SanitizedStep(str[at..], str[i..]);
    Regrouped(tgt0, Piece(str[at..]), Sanitized(str[i..]), Sanitized(str[at..]), tgt);
  }

  lemma Regrouped(before: seq<Byte>, piece: seq<Byte>, rest: seq<Byte>, whole: seq<Byte>, after: seq<Byte>)
    requires whole == piece + rest && after == before + piece
    ensures after + rest == before + whole
  {
  }

  lemma ValidStep(str: seq<Byte>, at: nat, n: nat)
    requires at < |str| && n == Size(str[at..])
    ensures Valid(str[at..]) <==> Decode(str[at..]).x > 0 && Valid(str[at + n..])
  {
    assert str[at..][n..] == str[at + n..];
  }

  // ----- the loops -----

  /** 'utf8ToWc' (adclib.cpp:77-127): the bytes it reads are of the text or the zero after it. */
  method Utf8ToWc(str: seq<Byte>, at: nat) returns (x: int, c: nat)
    requires at < |str|
    ensures Step(x, if x > 0 then c else Decode(str[at..]).c) == Decode(str[at..])
  {
    var c0 := str[at];
    var bytes := 2 + (if c0 / 0x20 % 2 == 1 then 1 else 0) + (if c0 / 0x10 % 4 == 3 then 1 else 0);
    if c0 >= 0xc0 {
      var check_bit := CheckBit(bytes);
      if c0 / check_bit % 2 == 1 {
        return -1, 0;
      }
      x, c := DecodeTail(str, at, c0 % check_bit, bytes);
    } else if c0 < 0x80 {
      return 1, c0;
    } else {
      return -1, 0;
    }
  }

  /** Decodes the bytes after the first one (adclib.cpp:89-120). */
  method DecodeTail(str: seq<Byte>, at: nat, c0: nat, bytes: nat) returns (x: int, c: nat)
    requires at < |str| && 2 <= bytes <= 4
    ensures Step(x, if x > 0 then c else Tail(str[at..], c0, 1, bytes).c) == Tail(str[at..], c0, 1, bytes)
  {
    c := c0;
    var n: int := bytes;
    var i := 1;
    while i < bytes
      invariant 1 <= i <= bytes && at + i <= |str| && Tail(str[at..], c, i, bytes) == Tail(str[at..], c0, 1, bytes)
    {
      var ci := ByteAt(str, at + i);
      assert ci == ByteAt(str[at..], i);
      if !(0x80 <= ci < 0xc0) {
        return -i, c;
      }
      c := c * 0x40 + ci % 0x40;
      i := i + 1;
    }
    if c > 0x10ffff || 0xd800 <= c <= 0xdfff {
      return -n, 0xfffd;
    }
    if (bytes == 2 && c < 0x80) || (bytes == 3 && c < 0x800) {
      return -n, 0xfffd;
    }
    x := n;
  }

  /** 'wcToUtf8' (adclib.cpp:130-151). */
  method WcToUtf8(c: nat, str: seq<Byte>) returns (r: seq<Byte>)
    ensures r == str + Encode(c)
    decreases if Scalar(c) then 0 else 1
  {
    if c > 0x10ffff || 0xd800 <= c <= 0xdfff {
      r := WcToUtf8(0xfffd, str);
    } else if c >= 0x10000 {
      r := str + [0xf0 + c / 0x40000] + [0x80 + c / 0x1000 % 0x40] + [0x80 + c / 0x40 % 0x40] + [0x80 + c % 0x40];
    } else if c >= 0x800 {
      r := str + [0xe0 + c / 0x1000] + [0x80 + c / 0x40 % 0x40] + [0x80 + c % 0x40];
    } else if c >= 0x80 {
      r := str + [0xc0 + c / 0x40] + [0x80 + c % 0x40];
    } else {
      r := str + [c];
    }
  }

  /** What the loops keep. */
  ghost predicate Repaired(str: seq<Byte>, i: nat, tgt: seq<Byte>) {
    i <= |str| && forall k: nat {:trigger Open(k)} :: Open(k) ==> tgt + Sanitized(str[i..]) == Sanitized(str)
  }

  ghost predicate Checked(str: seq<Byte>, i: nat) {
    i <= |str| && forall k: nat {:trigger Open(k)} :: Open(k) ==> Valid(str[i..]) == Valid(str)
  }

  lemma NothingDone(str: seq<Byte>)
    ensures Repaired(str, 0, []) && Checked(str, 0)
  {
    assert str[0..] == str;
  }

  lemma AllDone(str: seq<Byte>, tgt: seq<Byte>)
    ensures Repaired(str, |str|, tgt) ==> tgt == Sanitized(str) && Valid(tgt)
    ensures Checked(str, |str|) ==> Valid(str)
  {
    assert Open(0);
    SanitizedIsValid(str);
  }

  lemma OneRepaired(str: seq<Byte>, at: nat, n: nat, tgt0: seq<Byte>, i: int, tgt: seq<Byte>)
    requires at < |str| && n == Size(str[at..]) && Repaired(str, at, tgt0) && i == at + n
    requires tgt == tgt0 + Piece(str[at..])
    ensures Repaired(str, i, tgt)
  {
    assert Open(0);
    Appended(str, at, n, tgt0, i, tgt);
  }

  lemma StepForward(str: seq<Byte>, at: nat, x: int, c: nat)
    requires at < |str| && Step(x, if x > 0 then c else Decode(str[at..]).c) == Decode(str[at..])
    ensures x != 0
  {
    Advances(str[at..]);
  }

  lemma StepRepaired(str: seq<Byte>, at: nat, x: int, c: nat, tgt0: seq<Byte>, i: int, tgt: seq<Byte>)
    requires at < |str| && Repaired(str, at, tgt0)
    requires Step(x, if x > 0 then c else Decode(str[at..]).c) == Decode(str[at..])
    requires i == at + (if x < 0 then -x else x) && tgt == tgt0 + (if x < 0 then Dashes(-x) else Encode(c))
    ensures at < i && Repaired(str, i, tgt)
  {
    PieceOf(str[at..], x, c);
    OneRepaired(str, at, Size(str[at..]), tgt0, i, tgt);
  }

  lemma OneChecked(str: seq<Byte>, at: nat, n: nat)
    requires at < |str| && n == Size(str[at..]) && Checked(str, at)
    ensures if Decode(str[at..]).x > 0 then Checked(str, at + n) else !Valid(str)
  {
    assert Open(0);
    ValidStep(str, at, n);
  }

  /** 'sanitizeUtf8' (adclib.cpp:153-176). */
  method SanitizeUtf8(str: seq<Byte>) returns (tgt: seq<Byte>)
    ensures tgt == Sanitized(str) && Valid(tgt)
  {
    tgt := [];
    var i := 0;
    NothingDone(str);
    while i < |str|
      invariant Repaired(str, i, tgt)
    {
      tgt, i := RepairOne(str, i, tgt);
    }
    AllDone(str, tgt);
  }

  /** Appends one character, or underscores for the bytes that are not one (adclib.cpp:159-172). */
  method RepairOne(str: seq<Byte>, at: nat, tgt0: seq<Byte>) returns (tgt: seq<Byte>, i: nat)
    requires at < |str| && Repaired(str, at, tgt0)
    ensures at < i && Repaired(str, i, tgt)
  {
    var x, c := Utf8ToWc(str, at);
    StepForward(str, at, x, c);
    if x < 0 {
      tgt := tgt0 + Dashes(-x);
      i := at - x;
    } else {
      tgt := WcToUtf8(c, tgt0);
      i := at + x;
    }
    StepRepaired(str, at, x, c, tgt0, i, tgt);
  }

  /** 'validateUtf8' (adclib.cpp:178-188). */
  method ValidateUtf8(str: seq<Byte>) returns (valid: bool)
    ensures valid == Valid(str)
  {
    var i := 0;
    NothingDone(str);
    while i < |str|
      invariant Checked(str, i)
    {
      var j, c := Utf8ToWc(str, i);
      OneChecked(str, i, Size(str[i..]));
      if j < 0 {
        return false;
      }
      i := i + j;
    }
    AllDone(str, []);
    valid := true;
  }
}
