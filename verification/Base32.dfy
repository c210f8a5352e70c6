/** Base 32 text (adclib/base32.cpp:13-87; the alphabet is that of section 6 of RFC 4648, without padding). Bytes and
    characters are 8-bit vectors; bits are counted from the most significant one. */
module Base32 {
  import opened Folding

  type Byte = bv8

  // ----- bits -----

  /** Bit `k` of a byte. */
  function Bit(b: Byte, k: nat): bool
    requires k < 8
  {
    match k
    case 0 => b & 0x80 != 0
    case 1 => b & 0x40 != 0
    case 2 => b & 0x20 != 0
    case 3 => b & 0x10 != 0
    case 4 => b & 0x08 != 0
    case 5 => b & 0x04 != 0
    case 6 => b & 0x02 != 0
    case 7 => b & 0x01 != 0
  }

  function Shl(b: Byte, k: nat): Byte
    requires k <= 8
  {
    match k
    case 0 => b
    case 1 => b << 1
    case 2 => b << 2
    case 3 => b << 3
    case 4 => b << 4
    case 5 => b << 5
    case 6 => b << 6
    case 7 => b << 7
    case 8 => 0
  }

  function Shr(b: Byte, k: nat): Byte
    requires k <= 8
  {
    match k
    case 0 => b
    case 1 => b >> 1
    case 2 => b >> 2
    case 3 => b >> 3
    case 4 => b >> 4
    case 5 => b >> 5
    case 6 => b >> 6
    case 7 => b >> 7
    case 8 => 0
  }

  /** Bit `n` of a sequence of bytes; there are zeros after the end. */
  function Bit8(s: seq<Byte>, n: nat): bool { n / 8 < |s| && Bit(s[n / 8], n % 8) }

  /** Bit `n` of a sequence of five-bit values. */
  function Bit5(s: seq<Byte>, n: nat): bool { n / 5 < |s| && Bit(s[n / 5], 3 + n % 5) }

  lemma SameBits(a: Byte, b: Byte)
    requires forall k :: 0 <= k < 8 ==> Bit(a, k) == Bit(b, k)
    ensures a == b
  {
    assert Bit(a, 0) == Bit(b, 0) && Bit(a, 1) == Bit(b, 1) && Bit(a, 2) == Bit(b, 2) && Bit(a, 3) == Bit(b, 3);
    assert Bit(a, 4) == Bit(b, 4) && Bit(a, 5) == Bit(b, 5) && Bit(a, 6) == Bit(b, 6) && Bit(a, 7) == Bit(b, 7);
  }

  // ----- the alphabet -----

  /** The character of a value (base32.cpp:23): 'A' to 'Z', '2' to '7'. */
  function Alpha(v: Byte): Byte
    requires v < 32
  {
    if v < 26 then 65 + v else 24 + v
  }

  const NO_VALUE: Byte := 0xff

  /** The value of a character, in upper or lower case (base32.cpp:13-21). */
  function Table(c: Byte): (v: Byte)
    ensures v < 32 || v == NO_VALUE
  {
    if 65 <= c <= 90 then c - 65 else if 97 <= c <= 122 then c - 97 else if 50 <= c <= 55 then c - 24 else NO_VALUE
  }

  lemma TableOfAlpha(v: Byte)
    requires v < 32
    ensures Table(Alpha(v)) == v && Alpha(v) != 0
  {
  }

  const LETTERS := "ABCDEFGHIJKLMNOPQRSTUVWXYZ234567"
  const SMALL_LETTERS := "abcdefghijklmnopqrstuvwxyz"

  /** The characters are those of table 3 of RFC 4648. */
  lemma Alphabet(v: Byte)
    requires v < 32
    ensures |LETTERS| == 32 && Alpha(v) as char == LETTERS[v as nat]
  {
    var k := v as nat;
    assert k < 26 ==> LETTERS[k] as int == 65 + k;
    assert LETTERS[26] == '2' && LETTERS[27] == '3' && LETTERS[28] == '4';
    assert LETTERS[29] == '5' && LETTERS[30] == '6' && LETTERS[31] == '7';
  }

  /** Exactly they have a value, and the small letters the same as the capital ones. */
  lemma ReadAlphabet(c: Byte, v: Byte)
    requires v < 32
    ensures Table(c) == v <==> c as char == LETTERS[v as nat] || (v < 26 && c as char == SMALL_LETTERS[v as nat])
  {
    Alphabet(v);
    var k := v as nat;
    assert k < 26 ==> SMALL_LETTERS[k] as int == 97 + k;
  }

  /** The values of the characters of the alphabet. */
  function Values(s: seq<Byte>): seq<Byte> {
    if s == [] then []
    else
      var v := Table(s[|s| - 1]);
      Values(s[..|s| - 1]) + if v == NO_VALUE then [] else [v]
  }

  /** Where the zero is that ends the text. */
  function TextEnd(src: seq<Byte>): (n: nat)
    ensures n <= |src| && (n < |src| ==> src[n] == 0) && forall k :: 0 <= k < n ==> src[k] != 0
  {
    if src == [] || src[0] == 0 then 0 else 1 + TextEnd(src[1..])
  }

  lemma {:induction false} ValuesSmall(s: seq<Byte>, k: nat)
    requires k < |Values(s)|
    ensures Values(s)[k] < 32
  {
    if k < |Values(s[..|s| - 1])| { ValuesSmall(s[..|s| - 1], k); }
  }

  lemma {:induction false} ValuesSpelled(text: seq<Byte>, vals: seq<Byte>)
    requires Spells(text, vals)
    ensures Values(text) == vals && TextEnd(text) == |text|
  {
    if text != [] {
      var n := |text| - 1;
      ValuesSpelled(text[..n], vals[..n]);
      TableOfAlpha(vals[n]);
      assert vals == vals[..n] + [vals[n]];
    }
    forall k | 0 <= k < |text| ensures text[k] != 0 { TableOfAlpha(vals[k]); }
  }

  // ----- encoding -----

  /** The five bits from position `key` of a byte, the last of which may be in the next byte (base32.cpp:32-48). */
  function Chunk(a: Byte, b: Byte, key: nat): Byte
    requires key < 8
  {
    if key > 3 then Shl(a & Shr(0xff, key), key - 3) | Shr(b, 11 - key) else Shr(a, 3 - key) & 0x1f
  }

  lemma ChunkBits(a: Byte, b: Byte, key: nat, j: nat)
    requires key < 8 && j < 5
    ensures Bit(Chunk(a, b, key), 3 + j) == if key + j < 8 then Bit(a, key + j) else Bit(b, key + j - 8)
    ensures Chunk(a, b, key) < 32
  {
    if key > 3 { ChunkBitsHigh(a, b, key, j); } else { ChunkBitsLow(a, b, key, j); }
  }

  lemma ChunkBitsLow(a: Byte, b: Byte, key: nat, j: nat)
    requires key <= 3 && j < 5
    ensures Bit(Chunk(a, b, key), 3 + j) == Bit(a, key + j) && Chunk(a, b, key) < 32
  {
    match key {
      case 0 => match j { case 0 => case 1 => case 2 => case 3 => case 4 => }
      case 1 => match j { case 0 => case 1 => case 2 => case 3 => case 4 => }
      case 2 => match j { case 0 => case 1 => case 2 => case 3 => case 4 => }
      case 3 => match j { case 0 => case 1 => case 2 => case 3 => case 4 => }
    }
  }

  lemma ChunkBitsHigh(a: Byte, b: Byte, key: nat, j: nat)
    requires 3 < key < 8 && j < 5
    ensures Bit(Chunk(a, b, key), 3 + j) == if key + j < 8 then Bit(a, key + j) else Bit(b, key + j - 8)
    ensures Chunk(a, b, key) < 32
  {
    match key {
      case 4 => match j { case 0 => case 1 => case 2 => case 3 => case 4 => }
      case 5 => match j { case 0 => case 1 => case 2 => case 3 => case 4 => }
      case 6 => match j { case 0 => case 1 => case 2 => case 3 => case 4 => }
      case 7 => match j { case 0 => case 1 => case 2 => case 3 => case 4 => }
    }
  }

  /** The values hold the bits of the bytes, in order, with zeros to a whole number of values. */
  ghost predicate Holds(vals: seq<Byte>, src: seq<Byte>) {
    && (forall k {:trigger vals[k]} :: 0 <= k < |vals| ==> vals[k] < 32)
    && (forall n: nat {:trigger Bit5(vals, n)} :: n < 5 * |vals| ==> Bit5(vals, n) == Bit8(src, n))
  }

  ghost predicate Spells(text: seq<Byte>, vals: seq<Byte>) {
    |text| == |vals| && forall k {:trigger vals[k]} {:trigger text[k]} :: 0 <= k < |vals| ==>
      vals[k] < 32 && text[k] == Alpha(vals[k])
  }

  lemma Bit5Appended(vals: seq<Byte>, v: Byte, n: nat)
    ensures n < 5 * |vals| ==> Bit5(vals + [v], n) == Bit5(vals, n)
    ensures 5 * |vals| <= n < 5 * |vals| + 5 ==> Bit5(vals + [v], n) == Bit(v, 3 + (n - 5 * |vals|))
    ensures n >= 5 * |vals| + 5 ==> !Bit5(vals + [v], n)
  {
    if 5 * |vals| <= n < 5 * |vals| + 5 { assert n / 5 == |vals| && n % 5 == n - 5 * |vals|; }
  }

  lemma HoldsMore(vals: seq<Byte>, src: seq<Byte>, v: Byte, i: nat, key: nat)
    requires Holds(vals, src) && 5 * |vals| == 8 * i + key && i < |src| && key < 8
    requires v == Chunk(src[i], if i + 1 < |src| then src[i + 1] else 0, key)
    ensures Holds(vals + [v], src)
  {
    var vals' := vals + [v];
    var next := if i + 1 < |src| then src[i + 1] else 0;
    ChunkBits(src[i], next, key, 0);
    forall n: nat | n < 5 * |vals'| ensures Bit5(vals', n) == Bit8(src, n) {
      Bit5Appended(vals, v, n);
      if n >= 5 * |vals| {
        var j := n - 5 * |vals|;
        ChunkBits(src[i], next, key, j);
        StreamBit(src, i, key + j);
      } else {
        assert Bit5(vals, n) == Bit8(src, n);
      }
    }
  }

  lemma StreamBit(src: seq<Byte>, i: nat, m: nat)
    requires i < |src| && m < 16
    ensures Bit8(src, 8 * i + m) == if m < 8 then Bit(src[i], m)
      else Bit(if i + 1 < |src| then src[i + 1] else 0, m - 8)
  {
    if m < 8 {
      assert (8 * i + m) / 8 == i && (8 * i + m) % 8 == m;
    } else {
      assert (8 * i + m) / 8 == i + 1 && (8 * i + m) % 8 == m - 8;
      NoBits(m - 8);
    }
  }

  lemma NoBits(k: nat)
    requires k < 8
    ensures !Bit(0, k)
  {
  }

  /** The next five bits: those from position `key` of a byte, the last of which may be in the next byte, or zeros after
      the last byte (base32.cpp:32-48). */
  function NextChunk(src: seq<Byte>, i: nat, key: nat): Byte
    requires i < |src| && key < 8
  {
    if key > 3 then
      var chr := Shl(src[i] & Shr(0xff, key), key - 3);
      if i + 1 < |src| then chr | Shr(src[i + 1], 11 - key) else chr
    else Shr(src[i], 3 - key) & 0x1f
  }

  lemma NextChunkIs(src: seq<Byte>, i: nat, key: nat)
    requires i < |src| && key < 8
    ensures NextChunk(src, i, key) == Chunk(src[i], if i + 1 < |src| then src[i + 1] else 0, key)
    ensures NextChunk(src, i, key) < 32
  {
    if i + 1 == |src| { NoneFollows(src[i], key); }
    ChunkBits(src[i], if i + 1 < |src| then src[i + 1] else 0, key, 0);
  }

  /** Encodes bytes (base32.cpp:25-51). */
  method ToBase32(src: seq<Byte>) returns (ret: seq<Byte>, ghost vals: seq<Byte>)
    ensures Holds(vals, src) && Spells(ret, vals) && 8 * |src| <= 5 * |ret| < 8 * |src| + 5
  {
    var key: nat, i: nat := 0, 0;
    ret, vals := [], [];
    while i < |src|
      invariant key < 8 && i <= |src| && 5 * |vals| == 8 * i + key && 5 * |vals| < 8 * |src| + 5
      invariant Holds(vals, src) && Spells(ret, vals)
      decreases 8 * |src| + 5 - 5 * |vals|
    {
      var chr := NextChunk(src, i, key);
      NextChunkIs(src, i, key);
      HoldsMore(vals, src, chr, i, key);
      SpellsMore(ret, vals, chr);
      vals := vals + [chr];
      ret := ret + [Alpha(chr)];
      i := if key > 3 || (key + 5) % 8 == 0 then i + 1 else i;
      key := (key + 5) % 8;
    }
  }

  lemma SpellsMore(text: seq<Byte>, vals: seq<Byte>, v: Byte)
    requires Spells(text, vals) && v < 32
    ensures Spells(text + [Alpha(v)], vals + [v])
  {
  }

  lemma NoneFollows(a: Byte, key: nat)
    requires key < 8
    ensures key > 3 ==> Chunk(a, 0, key) == Shl(a & Shr(0xff, key), key - 3)
  {
    if key > 3 {
      ShrZero(11 - key);
      OrZero(Shl(a & Shr(0xff, key), key - 3));
    }
  }

  lemma OrZero(x: Byte)
    ensures x | 0 == x
  {
  }

  lemma ShrZero(k: nat)
    requires k <= 8
    ensures Shr(0, k) == 0
  {
  }

  // ----- decoding -----

  /** The part of a value that goes into the byte where it begins, at position `key` (base32.cpp:62-85). */
  function Low(v: Byte, key: nat): Byte
    requires key < 8
  {
    if key > 3 then Shr(v, key - 3) else Shl(v, 3 - key)
  }

  lemma LowBits(b: Byte, v: Byte, key: nat, k: nat)
    requires key < 8 && k < 8 && v < 32
    ensures Bit(b | Low(v, key), k) == (Bit(b, k) || (key <= k < key + 5 && Bit(v, 3 + k - key)))
  {
    OrBit(b, Low(v, key), k);
    LowBit(v, key, k);
  }

  lemma OrBit(a: Byte, b: Byte, k: nat)
    requires k < 8
    ensures Bit(a | b, k) == (Bit(a, k) || Bit(b, k))
  {
    match k { case 0 => case 1 => case 2 => case 3 => case 4 => case 5 => case 6 => case 7 => }
  }

  lemma LowBit(v: Byte, key: nat, k: nat)
    requires key < 8 && k < 8 && v < 32
    ensures Bit(Low(v, key), k) == (key <= k < key + 5 && Bit(v, 3 + k - key))
  {
    match key { case 0 => case 1 => case 2 => case 3 => case 4 => case 5 => case 6 => case 7 => }
  }

  /** The part that goes into the next byte. */
  lemma HighBit(v: Byte, key: nat, k: nat)
    requires 3 < key < 8 && k < 8 && v < 32
    ensures Bit(Shl(v, 11 - key), k) == (k < key - 3 && Bit(v, 11 + k - key))
  {
    match key { case 4 => case 5 => case 6 => case 7 => }
  }

  /** The buffer holds the first bits of the values, and zeros after those. */
  ghost predicate Written(buffer: seq<Byte>, vals: seq<Byte>) {
    forall n: nat {:trigger Bit8(buffer, n)} :: n < 8 * |buffer| ==> Bit8(buffer, n) == Bit5(vals, n)
  }

  function Ored(b: seq<Byte>, at: nat, x: Byte): (c: seq<Byte>)
    requires at < |b|
    ensures |c| == |b|
  {
    b[at := b[at] | x]
  }

  /** The buffer after a value that begins at position `key` of byte `set`. */
  function Put(b: seq<Byte>, v: Byte, at: nat, key: nat): seq<Byte>
    requires at < |b| && key < 8
  {
    var c := Ored(b, at, Low(v, key));
    if key > 3 && at + 1 < |b| then Ored(c, at + 1, Shl(v, 11 - key)) else c
  }

  lemma PutBit(b: seq<Byte>, v: Byte, at: nat, key: nat, m: nat, k: nat)
    requires at < |b| && key < 8 && v < 32 && m < |b| && k < 8
    ensures Bit(Put(b, v, at, key)[m], k) ==
      (Bit(b[m], k) || (m == at && key <= k < key + 5 && Bit(v, 3 + k - key)) ||
        (m == at + 1 && k < key - 3 && Bit(v, 11 + k - key)))
  {
    if m == at {
      LowBits(b[at], v, key, k);
    } else if m == at + 1 && key > 3 {
      OrBit(b[at + 1], Shl(v, 11 - key), k);
      HighBit(v, key, k);
    }
  }

  lemma WrittenMore(b: seq<Byte>, vals: seq<Byte>, v: Byte, at: nat, key: nat)
    requires Written(b, vals) && at < |b| && key < 8 && 5 * |vals| == 8 * at + key && v < 32
    ensures Written(Put(b, v, at, key), vals + [v])
  {
    var c := Put(b, v, at, key);
    forall n: nat | n < 8 * |c| ensures Bit8(c, n) == Bit5(vals + [v], n) {
      Bit5Appended(vals, v, n);
      assert Bit8(b, n) == Bit5(vals, n);
      var m, k := n / 8, n % 8;
      assert n == 8 * m + k;
      PutBit(b, v, at, key, m, k);
      assert Bit8(c, n) == Bit(c[m], k) && Bit8(b, n) == Bit(b[m], k);
      if n < 5 * |vals| {
        assert m < at || (m == at && k < key);
      } else {
        assert Bit5(vals, n) == false;
      }
    }
  }

  /** What is written does not depend on values after the end of the buffer. */
  lemma {:induction false} WrittenAll(b: seq<Byte>, vals: seq<Byte>, more: seq<Byte>)
    requires Written(b, vals) && 8 * |b| <= 5 * |vals|
    ensures Written(b, vals + more)
  {
    forall n: nat | n < 8 * |b|
      ensures Bit8(b, n) == Bit5(vals + more, n) { assert Bit8(b, n) == Bit5(vals, n) && n / 5 < |vals|; }
  }

  lemma {:induction false} ValuesPrefix(s: seq<Byte>, i: nat) returns (more: seq<Byte>)
    requires i <= |s|
    ensures Values(s) == Values(s[..i]) + more
  {
    if i == |s| {
      more := [];
      assert s[..i] == s;
    } else {
      var m := ValuesPrefix(s[..|s| - 1], i);
      assert s[..|s| - 1][..i] == s[..i];
      more := m + if Table(s[|s| - 1]) == NO_VALUE then [] else [Table(s[|s| - 1])];
    }
  }

  // ----- the positions written -----

  /** The positions written for one value, which begins with bit `key` of byte `at` (base32.cpp:62-85). */
  function WritesOne(key: nat, at: nat, size: nat): seq<nat> {
    if key <= 3 || at + 1 == size then [at] else [at, at + 1]
  }

  /** The positions written for `n` values, until a byte has been completed that is the last one of the buffer. */
  function Writes(key: nat, at: nat, n: nat, size: nat): seq<nat>
    requires key < 8
    decreases n
  {
    if n == 0 then []
    else
      var more :=
        if key < 3 then Writes(key + 5, at, n - 1, size)
        else if at + 1 == size then []
        else Writes(key - 3, at + 1, n - 1, size);
      WritesOne(key, at, size) + more
  }

  lemma {:induction false} WritesBelow(key: nat, at: nat, n: nat, size: nat)
    requires key < 8 && at < size
    ensures forall p <- Writes(key, at, n, size) :: p < size
    decreases n
  {
    if n > 0 {
      if key < 3 {
        WritesBelow(key + 5, at, n - 1, size);
      } else if at + 1 < size {
        WritesBelow(key - 3, at + 1, n - 1, size);
      }
    }
  }

  /** All positions are inside the buffer exactly if it is not empty, or there is nothing to write. */
  lemma WritesInside(n: nat, size: nat)
    ensures (forall p <- Writes(0, 0, n, size) :: p < size) <==> (size > 0 || n == 0)
  {
    if size > 0 {
      WritesBelow(0, 0, n, size);
    } else if n > 0 {
      assert Writes(0, 0, n, size)[0] == 0;
      assert 0 in Writes(0, 0, n, size);
    }
  }

  /** The end of an empty buffer is never reached: every value is written, the one that begins with bit `n` to byte
      `n / 8`. */
  lemma {:induction false} NeverFull(key: nat, at: nat, n: nat, m: nat, p: nat, r: nat)
    requires key < 8 && m < n && 8 * at + key + 5 * m == 8 * p + r && r < 8
    ensures p in Writes(key, at, n, 0)
    decreases n
  {
    var more := if key < 3 then Writes(key + 5, at, n - 1, 0) else Writes(key - 3, at + 1, n - 1, 0);
    assert Writes(key, at, n, 0) == WritesOne(key, at, 0) + more;
    if m == 0 {
      assert p == at && WritesOne(key, at, 0)[0] == at;
    } else if key < 3 {
      NeverFull(key + 5, at, n - 1, m - 1, p, r);
    } else {
      NeverFull(key - 3, at + 1, n - 1, m - 1, p, r);
    }
    InEither(WritesOne(key, at, 0), more, p);
  }

  lemma InEither(a: seq<nat>, b: seq<nat>, p: nat)
    requires p in a || p in b
    ensures p in a + b
  {
  }

  /** Three characters, say, are written to positions 0 and 1 of an empty buffer. */
  lemma EmptyBuffer()
    ensures Writes(0, 0, 3, 0) == [0, 0, 1, 1]
  {
    assert Writes(2, 1, 1, 0) == [1];
    assert Writes(5, 0, 2, 0) == [0, 1] + Writes(2, 1, 1, 0);
    assert Writes(0, 0, 3, 0) == [0] + Writes(5, 0, 2, 0);
  }

  // ----- decoding -----

  /** Decodes text into a buffer (base32.cpp:53-87). An empty buffer needs a text without characters of the alphabet.
      The ghost result is the list of the positions written. */
  method FromBase32(src: seq<Byte>, buffer: array<Byte>) returns (ghost log: seq<nat>)
    requires buffer.Length > 0 || Values(src[..TextEnd(src)]) == []
    modifies buffer
    ensures Written(buffer[..], Values(src[..TextEnd(src)]))
    ensures log == Writes(0, 0, |Values(src[..TextEnd(src)])|, buffer.Length) && forall p <- log :: p < buffer.Length
  {
    Clear(buffer);
    log := PutAll(src, buffer, src[..TextEnd(src)]);
    AllDecoded(src[..TextEnd(src)], buffer[..], log);
  }

  /** The first `i` characters have been decoded. */
  ghost predicate Decoded(text: seq<Byte>, i: nat, b: seq<Byte>, at: nat, key: nat, log: seq<nat>) {
    && i <= |text| && key < 8 && (at < |b| || (|b| == 0 && Values(text) == []))
    && forall k: nat {:trigger Open(k)} :: Open(k) ==>
      var vals, all := Values(text[..i]), Values(text);
      && Written(b, vals) && 5 * |vals| == 8 * at + key && |vals| <= |all|
      && Logged(log, key, at, |all| - |vals|, |all|, |b|)
  }

  /** All has been decoded, or as much as there is room for. */
  ghost predicate DecodedAll(text: seq<Byte>, b: seq<Byte>, log: seq<nat>) {
    forall k: nat {:trigger Open(k)} :: Open(k) ==>
      Written(b, Values(text)) && Logged(log, 0, 0, 0, |Values(text)|, |b|)
  }

  lemma NothingDecoded(text: seq<Byte>, b: seq<Byte>)
    requires (|b| > 0 || Values(text) == []) && Written(b, [])
    ensures Decoded(text, 0, b, 0, 0, [])
  {
  }

  lemma EndDecoded(text: seq<Byte>, b: seq<Byte>, at: nat, key: nat, log: seq<nat>)
    requires Decoded(text, |text|, b, at, key, log)
    ensures DecodedAll(text, b, log)
  {
    assert Open(0);
    assert text[..|text|] == text;
    LoggedEnd(log, key, at, |Values(text)|, |b|);
  }

  lemma Skipped(text: seq<Byte>, i: nat, b: seq<Byte>, at: nat, key: nat, log: seq<nat>)
    requires Decoded(text, i, b, at, key, log) && i < |text| && Table(text[i]) == NO_VALUE
    ensures Decoded(text, i + 1, b, at, key, log)
  {
    assert Open(0);
    var more := NextValue(text, i);
  }

  /** Writes all values of the text, which ends at a zero, until the buffer is full. */
  method PutAll(src: seq<Byte>, buffer: array<Byte>, ghost text: seq<Byte>) returns (ghost log: seq<nat>)
    requires text <= src && (|text| < |src| ==> src[|text|] == 0) && forall k :: 0 <= k < |text| ==> src[k] != 0
    requires (buffer.Length > 0 || Values(text) == []) && Written(buffer[..], [])
    modifies buffer
    ensures DecodedAll(text, buffer[..], log)
  {
    var key: nat, at: nat, i: nat := 0, 0, 0;
    log := [];
    NothingDecoded(text, buffer[..]);
    while i < |src| && src[i] != 0
      invariant Decoded(text, i, buffer[..], at, key, log)
    {
      var temp := Table(src[i]);
      if temp != NO_VALUE {
        var stop;
        stop, at, key, log := PutLogged(buffer, temp, at, key, log, text, i);
        if stop {
          return;
        }
      } else {
        Skipped(text, i, buffer[..], at, key, log);
      }
      i := i + 1;
    }
    EndDecoded(text, buffer[..], at, key, log);
  }

  lemma NextValue(text: seq<Byte>, i: nat) returns (more: seq<Byte>)
    requires i < |text|
    ensures Values(text[..i + 1]) == Values(text[..i]) + if Table(text[i]) == NO_VALUE then [] else [Table(text[i])]
    ensures Values(text) == Values(text[..i + 1]) + more && |Values(text)| == |Values(text[..i + 1])| + |more|
  {
    assert text[..i + 1][..i] == text[..i];
    more := ValuesPrefix(text, i + 1);
  }

  /** Writes the value of the next character. */
  method PutLogged(buffer: array<Byte>, temp: Byte, at0: nat, key0: nat, ghost log0: seq<nat>, ghost text: seq<Byte>,
      ghost i: nat)
    returns (full: bool, at: nat, key: nat, ghost log: seq<nat>)
    requires Decoded(text, i, buffer[..], at0, key0, log0) && i < |text| && temp == Table(text[i]) != NO_VALUE
    modifies buffer
    ensures if full then DecodedAll(text, buffer[..], log) else Decoded(text, i + 1, buffer[..], at, key, log)
  {
    ghost var b := buffer[..];
    HasRoom(text, i, b, at0, key0, log0);
    full, at, key, log := PutValue(buffer, temp, at0, key0, log0);
    OneDecoded(text, i, b, at0, key0, log0, full, buffer[..], at, key, log);
  }

  lemma HasRoom(text: seq<Byte>, i: nat, b: seq<Byte>, at: nat, key: nat, log: seq<nat>)
    requires Decoded(text, i, b, at, key, log) && i < |text| && Table(text[i]) != NO_VALUE
    ensures at < |b|
  {
    var more := NextValue(text, i);
  }

  lemma OneDecoded(text: seq<Byte>, i: nat, b: seq<Byte>, at0: nat, key0: nat, log0: seq<nat>, full: bool,
      b': seq<Byte>,
      at: nat, key: nat, log: seq<nat>)
    requires Decoded(text, i, b, at0, key0, log0) && i < |text| && Table(text[i]) != NO_VALUE && at0 < |b|
    requires b' == Put(b, Table(text[i]), at0, key0) && |b'| == |b| && 8 * at + key == 8 * at0 + key0 + 5
    requires key < 8 && (if full then at == |b| else at < |b|) && log == log0 + WritesOne(key0, at0, |b|)
    ensures if full then DecodedAll(text, b', log) else Decoded(text, i + 1, b', at, key, log)
  {
    assert Open(0);
    var more := NextValue(text, i);
    var vals, v := Values(text[..i]), Table(text[i]);
    WrittenMore(b, vals, v, at0, key0);
    LoggedOne(log0, log, key0, at0, key, at, full, |more|, |Values(text)|, |b|);
    if full { WrittenAll(b', vals + [v], more); }
  }

  /** The positions written, and those to come for `n` more values, are all of them. */
  ghost predicate Logged(log: seq<nat>, key: nat, at: nat, n: nat, all: nat, size: nat) {
    key < 8 && forall k: nat {:trigger Open(k)} :: Open(k) ==> log + Writes(key, at, n, size) == Writes(0, 0, all, size)
  }

  lemma LoggedOne(log0: seq<nat>, log: seq<nat>, key0: nat, at0: nat, key: nat, at: nat, full: bool, n: nat, all: nat,
      size: nat)
    requires Logged(log0, key0, at0, n + 1, all, size) && key < 8 && 8 * at + key == 8 * at0 + key0 + 5
    requires at0 < size && (if full then at == size else at < size) && log == log0 + WritesOne(key0, at0, size)
    ensures if full then Logged(log, 0, 0, 0, all, size) else Logged(log, key, at, n, all, size)
  {
    assert Open(0);
    var more := if full then [] else Writes(key, at, n, size);
    WritesStep(key0, at0, key, at, full, n, size);
    Regrouped(log0, WritesOne(key0, at0, size), more, Writes(key0, at0, n + 1, size), log, Writes(0, 0, all, size));
  }

  lemma WritesStep(key0: nat, at0: nat, key: nat, at: nat, full: bool, n: nat, size: nat)
    requires key0 < 8 && key < 8 && 8 * at + key == 8 * at0 + key0 + 5
    requires at0 < size && if full then at == size else at < size
    ensures Writes(key0, at0, n + 1, size) == WritesOne(key0, at0, size) + if full then [] else Writes(key, at, n, size)
  {
    assert if key0 < 3 then key == key0 + 5 && at == at0 else key == key0 - 3 && at == at0 + 1;
  }

  lemma Regrouped(log0: seq<nat>, one: seq<nat>, more: seq<nat>, both: seq<nat>, log: seq<nat>, all: seq<nat>)
    requires log0 + both == all && both == one + more && log == log0 + one
    ensures log + more == all
  {
  }

  lemma LoggedEnd(log: seq<nat>, key: nat, at: nat, all: nat, size: nat)
    requires Logged(log, key, at, 0, all, size)
    ensures Logged(log, 0, 0, 0, all, size)
  {
    assert Open(0);
  }

  lemma AllDecoded(text: seq<Byte>, b: seq<Byte>, log: seq<nat>)
    requires DecodedAll(text, b, log) && (|b| > 0 || Values(text) == [])
    ensures Written(b, Values(text)) && log == Writes(0, 0, |Values(text)|, |b|) && forall p <- log :: p < |b|
  {
    assert Open(0);
    WritesInside(|Values(text)|, |b|);
  }

  lemma LowIs(v: Byte, key: nat)
    requires key < 8
    ensures Low(v, key) == if key < 3 then Shl(v, 3 - key) else if key == 3 then v else Shr(v, key - 3)
  {
  }

  method OrInto(buffer: array<Byte>, at: nat, x: Byte, ghost log0: seq<nat>) returns (ghost log: seq<nat>)
    requires at < buffer.Length
    modifies buffer
    ensures buffer[..] == Ored(old(buffer[..]), at, x) && log == log0 + [at]
  {
    buffer[at] := buffer[at] | x;
    log := log0 + [at];
  }

  /** Writes a value (base32.cpp:62-85), and tells whether the buffer is full. */
  method PutValue(buffer: array<Byte>, temp: Byte, at0: nat, key0: nat, ghost log0: seq<nat>)
      returns (full: bool, at: nat,
      key: nat, ghost log: seq<nat>)
    requires at0 < buffer.Length && key0 < 8
    modifies buffer
    ensures buffer[..] == Put(old(buffer[..]), temp, at0, key0) && 8 * at + key == 8 * at0 + key0 + 5
    ensures key < 8 && (if full then at == buffer.Length else at < buffer.Length)
    ensures log == log0 + WritesOne(key0, at0, buffer.Length)
  {
    full, at, key, log := false, at0, key0, log0;
    LowIs(temp, key);
    if key <= 3 {
      key := (key + 5) % 8;
      if key == 0 {
        log := OrInto(buffer, at, temp, log);
        at := at + 1;
        full := at == buffer.Length;
      } else {
        log := OrInto(buffer, at, Shl(temp, 8 - key), log);
      }
    } else {
      key := (key + 5) % 8;
      log := OrInto(buffer, at, Shr(temp, key), log);
      at := at + 1;
      full := at == buffer.Length;
      if !full {
        log := OrInto(buffer, at, Shl(temp, 8 - key), log);
      }
    }
  }

  method Clear(buffer: array<Byte>)
    modifies buffer
    ensures Written(buffer[..], [])
  {
    var i := 0;
    while i < buffer.Length
      invariant i <= buffer.Length && forall k :: 0 <= k < i ==> buffer[k] == 0
    {
      buffer[i] := 0;
      i := i + 1;
    }
    forall n: nat | n < 8 * buffer.Length ensures !Bit8(buffer[..], n) { NoBits(n % 8); }
  }

  /** Decoding what was encoded gives it back. */
  lemma SameBytes(b: seq<Byte>, src: seq<Byte>, vals: seq<Byte>)
    requires |b| == |src| && Holds(vals, src) && Written(b, vals) && 8 * |src| <= 5 * |vals|
    ensures b == src
  {
    forall i | 0 <= i < |b| ensures b[i] == src[i] {
      forall k: nat | k < 8 ensures Bit(b[i], k) == Bit(src[i], k) {
        StreamBit(b, i, k);
        StreamBit(src, i, k);
        assert Bit8(b, 8 * i + k) == Bit5(vals, 8 * i + k) && Bit5(vals, 8 * i + k) == Bit8(src, 8 * i + k);
      }
      SameBits(b[i], src[i]);
    }
  }

  /** Decoding the encoded bytes into a buffer of their length gives them back. */
  method RoundTrip(src: seq<Byte>) returns (b: seq<Byte>)
    ensures b == src
  {
    var text, vals := ToBase32(src);
    ValuesSpelled(text, vals);
    assert text[..TextEnd(text)] == text;
    var buffer := new Byte[|src|];
    ghost var log := FromBase32(text, buffer);
    SameBytes(buffer[..], src, vals);
    b := buffer[..];
  }
}
