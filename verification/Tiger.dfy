/** Incremental hashing (adclib/tiger.cpp:103-180, adclib/tiger.h:15-55): blocks of 64 bytes are compressed as they
    become complete. The compression may be any function. */
module Tiger {

  type Byte = b: nat | b < 256

  type Piece = seq<Byte>

  datatype State = State(a: nat, b: nat, c: nat)

  const BLOCK_SIZE: nat := 64
  /** The length takes the last eight bytes of a block. */
  const LENGTH_SIZE: nat := 8
  const INITIAL := State(0x0123456789ABCDEF, 0xFEDCBA9876543210, 0xF096A5B4C3B2E187)
  const WORD: nat := 0x1_0000_0000_0000_0000

  type Compression = (seq<Byte>, State) -> State

  // ----- what is computed -----

  /** The state after all whole blocks of a message. */
  function Fold(f: Compression, s: State, m: seq<Byte>): State
    decreases |m|
  {
    if |m| < BLOCK_SIZE then s else Fold(f, f(m[..BLOCK_SIZE], s), m[BLOCK_SIZE..])
  }

  /** A number as eight bytes, the lowest first. */
  function Bytes(v: nat, n: nat): (s: seq<Byte>)
    ensures |s| == n
  {
    if n == 0 then [] else [v % 256] + Bytes(v / 256, n - 1)
  }

  function Number(s: seq<Byte>): nat { if s == [] then 0 else s[0] + 256 * Number(s[1..]) }

  function Zeros(n: nat): (s: seq<Byte>)
    ensures |s| == n
  {
    seq(n, _ => 0)
  }

  /** How many zeros there are between the byte 0x01 and the length. */
  function Gap(n: nat): (z: nat)
    ensures z < BLOCK_SIZE && (n + 1 + z + 8) % BLOCK_SIZE == 0
  {
    (BLOCK_SIZE - 1 - (n + 8) % BLOCK_SIZE)
  }

  /** A message, 0x01, zeros and the length in bits, to whole blocks. */
  function Padded(m: seq<Byte>): (p: seq<Byte>)
    ensures |p| % BLOCK_SIZE == 0
  {
    PaddedWith(m, Bytes(8 * |m| % WORD, LENGTH_SIZE))
  }

  function PaddedWith(m: seq<Byte>, len: seq<Byte>): (p: seq<Byte>)
    requires |len| == 8
    ensures |p| % BLOCK_SIZE == 0
  {
    m + [0x01] + Zeros(Gap(|m|)) + len
  }

  function Flat(pieces: seq<Piece>): seq<Byte> { if pieces == [] then [] else pieces[0] + Flat(pieces[1..]) }

  // ----- lemmas -----

  lemma {:induction false} FoldBlock(f: Compression, s: State, m: seq<Byte>, block: seq<Byte>)
    requires |m| % BLOCK_SIZE == 0 && |block| == BLOCK_SIZE
    ensures Fold(f, s, m + block) == f(block, Fold(f, s, m))
    decreases |m|
  {
    if m == [] {
      assert m + block == block && block[..BLOCK_SIZE] == block && block[BLOCK_SIZE..] == [];
    } else {
      FoldBlock(f, f(m[..BLOCK_SIZE], s), m[BLOCK_SIZE..], block);
      assert (m + block)[..BLOCK_SIZE] == m[..BLOCK_SIZE] && (m + block)[BLOCK_SIZE..] == m[BLOCK_SIZE..] + block;
    }
  }

  /** What comes after the last whole block does not count yet. */
  lemma {:induction false} FoldTail(f: Compression, s: State, m: seq<Byte>, tail: seq<Byte>)
    requires |m| % BLOCK_SIZE == 0 && |tail| < BLOCK_SIZE
    ensures Fold(f, s, m + tail) == Fold(f, s, m)
    decreases |m|
  {
    if m == [] {
      assert m + tail == tail;
    } else {
      FoldTail(f, f(m[..BLOCK_SIZE], s), m[BLOCK_SIZE..], tail);
      assert (m + tail)[..BLOCK_SIZE] == m[..BLOCK_SIZE] && (m + tail)[BLOCK_SIZE..] == m[BLOCK_SIZE..] + tail;
    }
  }

  lemma {:induction false} NumberOfBytes(v: nat, n: nat)
    requires v < Power(n)
    ensures Number(Bytes(v, n)) == v
  {
    if n > 0 {
      NumberOfBytes(v / 256, n - 1);
      assert Bytes(v, n)[1..] == Bytes(v / 256, n - 1);
    }
  }

  function Power(n: nat): nat { if n == 0 then 1 else 256 * Power(n - 1) }

  lemma PowerEight()
    ensures Power(8) == WORD
  {
    assert Power(4) == 0x1_0000_0000;
  }

  lemma {:induction false} BytesOnce(v: nat, w: nat, n: nat)
    requires v < Power(n) && w < Power(n) && Bytes(v, n) == Bytes(w, n)
    ensures v == w
  {
    NumberOfBytes(v, n);
    NumberOfBytes(w, n);
  }

  lemma LengthIn(m: seq<Byte>, len: seq<Byte>, p: seq<Byte>)
    requires |len| == 8 && p == PaddedWith(m, len)
    ensures |p| >= |m| + 8 && p[|p| - 8..] == len && m == p[..|m|]
  {
  }

  lemma PaddedIs(m: seq<Byte>, p: seq<Byte>, v: nat)
    requires p == Padded(m) && v == 8 * |m| % WORD
    ensures |p| >= |m| + 8 && p[|p| - 8..] == Bytes(v, LENGTH_SIZE) && m == p[..|m|]
  {
    LengthIn(m, Bytes(v, LENGTH_SIZE), p);
  }

  /** Messages of less than 2^61 bytes differ after padding if they differ. */
  lemma PaddedOnce(m: seq<Byte>, m': seq<Byte>, p: seq<Byte>)
    requires p == Padded(m) == Padded(m') && 8 * |m| < WORD && 8 * |m'| < WORD
    ensures m == m'
  {
    var v, v' := 8 * |m| % WORD, 8 * |m'| % WORD;
    PaddedIs(m, p, v);
    PaddedIs(m', p, v');
    SmallMod(8 * |m|);
    SmallMod(8 * |m'|);
    PowerEight();
    BytesOnce(v, v', LENGTH_SIZE);
    assert m == p[..|m|] && m' == p[..|m'|] && |m| == |m'|;
  }

  /** What the padded message is, byte by byte: the message, one byte 0x01, zeros, as few as lead to whole blocks, and
      the length in bits, the lowest byte first. */
  lemma PaddedBytes(m: seq<Byte>, p: seq<Byte>, k: nat)
    requires p == Padded(m) && k < |p|
    ensures |p| % 64 == 0 && |m| + 9 <= |p| < |m| + 9 + 64
    ensures k < |m| ==> p[k] == m[k]
    ensures k == |m| ==> p[k] == 0x01
    ensures |m| < k < |p| - 8 ==> p[k] == 0
    ensures Number(p[|p| - 8..]) == 8 * |m| % 0x1_0000_0000_0000_0000
  {
    var v := 8 * |m| % WORD;
    PaddedIs(m, p, v);
    PowerEight();
    NumberOfBytes(v, LENGTH_SIZE);
    assert p == m + [0x01] + Zeros(Gap(|m|)) + Bytes(v, LENGTH_SIZE);
  }

  lemma SmallMod(v: nat)
    requires v < WORD
    ensures v % WORD == v
  {
  }

  lemma Regrouped(m: seq<Byte>, rest: seq<Byte>)
    requires |rest| >= BLOCK_SIZE
    ensures m + rest[..BLOCK_SIZE] + rest[BLOCK_SIZE..] == m + rest
  {
  }

  // ----- the hash -----

  method Copy(dst: array<Byte>, at: nat, src: seq<Byte>)
    requires at + |src| <= dst.Length
    modifies dst
    ensures dst[..] == old(dst[..at]) + src + old(dst[at + |src|..])
  {
    var i := 0;
    while i < |src|
      invariant i <= |src| && dst[..] == old(dst[..at]) + src[..i] + old(dst[at + i..])
    {
      dst[at + i] := src[i];
      i := i + 1;
    }
  }

  lemma Filled(whole: seq<Byte>, tail: seq<Byte>, data: seq<Byte>, n: nat)
    requires n <= |data|
    ensures whole + (tail + data[..n]) + data[n..] == whole + tail + data
    ensures (whole + (tail + data[..n]) + []) + data[n..] == whole + tail + data
  {
    assert data == data[..n] + data[n..];
  }

  class TigerHash {
    const compress: Compression
    const tmp: array<Byte>
    var res: State
    var pos: nat
    /** The message so far: its whole blocks, and the rest, which is in `tmp`. */
    ghost var whole: seq<Byte>
    ghost var tail: seq<Byte>

    ghost function Message(): seq<Byte>
      reads this
    {
      whole + tail
    }

    ghost predicate Valid()
      reads this, tmp
    {
      && tmp.Length == BLOCK_SIZE && |whole| % BLOCK_SIZE == 0 && |tail| < BLOCK_SIZE && pos == |whole + tail| % WORD
      && res == Fold(compress, INITIAL, whole) && tmp[..|tail|] == tail
    }

    constructor (compress: Compression)
      ensures Valid() && Message() == [] && fresh(tmp) && this.compress == compress
    {
      this.compress := compress;
      tmp := new Byte[BLOCK_SIZE];
      res, pos, whole, tail := INITIAL, 0, [], [];
    }

    /** Compresses a block that completes what is there. */
    method Compress(block: seq<Byte>)
      requires |block| == BLOCK_SIZE && |whole| % BLOCK_SIZE == 0 && res == Fold(compress, INITIAL, whole)
      modifies this`res, this`whole
      ensures whole == old(whole) + block && |whole| % BLOCK_SIZE == 0 && res == Fold(compress, INITIAL, whole)
    {
      FoldBlock(compress, INITIAL, whole, block);
      res := compress(block, res);
      whole := whole + block;
    }

    /** Adds data to the message (tiger.cpp:103-143). */
    method Update(data: seq<Byte>)
      requires Valid()
      modifies this, tmp
      ensures Valid() && Message() == old(Message()) + data
    {
      var tmppos := pos % BLOCK_SIZE;
      assert tmppos == |tail|;
      var rest := data;
      if tmppos > 0 {
        rest := FillBlock(data);
      }
      WholeBlocks(rest);
    }

    /** Completes the block in `tmp`, or as much as there is (tiger.cpp:118-132). */
    method FillBlock(data: seq<Byte>) returns (rest: seq<Byte>)
      requires Valid() && |tail| > 0
      modifies this, tmp
      ensures Valid() && Message() + rest == old(Message()) + data && (tail == [] || rest == [])
    {
      var tmppos := pos % BLOCK_SIZE;
      assert tmppos == |tail|;
      var n := if |data| <= BLOCK_SIZE - tmppos then |data| else BLOCK_SIZE - tmppos;
      Copy(tmp, tmppos, data[..n]);
      rest := data[n..];
      ghost var t := tail + data[..n];
      assert tmp[..tmppos + n] == t;
      Filled(whole, tail, data, n);
      PosMore(|whole + tail|, n);
      pos := (pos + n) % WORD;
      if tmppos + n == BLOCK_SIZE {
        tail := [];
        assert tmp[..] == t;
        Compress(tmp[..]);
      } else {
        tail := t;
      }
    }

    /** Compresses whole blocks and keeps the rest (tiger.cpp:133-142). */
    method WholeBlocks(data: seq<Byte>)
      requires Valid() && (tail == [] || data == [])
      modifies this, tmp
      ensures Valid() && Message() == old(Message()) + data
    {
      var rest := data;
      while |rest| >= BLOCK_SIZE
        invariant Valid() && Message() + rest == old(Message()) + data && (tail == [] || rest == [])
        decreases |rest|
      {
        Regrouped(Message(), rest);
        OneBlock(rest[..BLOCK_SIZE]);
        rest := rest[BLOCK_SIZE..];
      }
      KeepRest(rest);
    }

    method OneBlock(block: seq<Byte>)
      requires Valid() && tail == [] && |block| == BLOCK_SIZE
      modifies this`res, this`whole, this`pos
      ensures Valid() && Message() == old(Message()) + block
    {
      PosMore(|whole + tail|, BLOCK_SIZE);
      Compress(block);
      pos := (pos + BLOCK_SIZE) % WORD;
      assert old(whole) + block + [] == old(whole + tail) + block;
    }

    method KeepRest(rest: seq<Byte>)
      requires Valid() && |rest| < BLOCK_SIZE && (tail == [] || rest == [])
      modifies this`pos, this`tail, tmp
      ensures Valid() && Message() == old(Message()) + rest
    {
      Copy(tmp, 0, rest);
      assert tmp[..|rest|] == rest;
      PosMore(|whole + tail|, |rest|);
      pos := (pos + |rest|) % WORD;
      if rest == [] {
        assert tmp[..] == old(tmp[..]);
        assert whole + tail + [] == whole + tail;
      } else {
        assert whole + tail == whole;
        tail := rest;
      }
    }

    /** Pads the message and compresses the rest (tiger.cpp:145-180). The object is of no use after that. */
    method Finalize() returns (r: State)
      requires Valid()
      modifies this, tmp
      ensures r == Fold(compress, INITIAL, Padded(old(Message())))
    {
      LastBlocks(whole, tail, Bytes(8 * |whole + tail| % WORD, LENGTH_SIZE));
      LengthMod(|whole + tail|);
      ghost var head := PadHead();
      var bit_length := pos * 8 % WORD;
      Copy(tmp, BLOCK_SIZE - 8, Bytes(bit_length, LENGTH_SIZE));
      assert tmp[..] == head + Bytes(bit_length, LENGTH_SIZE);
      Compress(tmp[..]);
      r := res;
    }

    /** Writes 0x01 and the zeros; the length has no place in this block any more if there are more than 56 bytes
        (tiger.cpp:157-167). */
    method PadHead() returns (ghost head: seq<Byte>)
      requires Valid()
      modifies this`res, this`whole, tmp
      ensures |whole| % BLOCK_SIZE == 0 && res == Fold(compress, INITIAL, whole) && head == tmp[..BLOCK_SIZE - 8]
      ensures if |tail| + 1 > BLOCK_SIZE - 8 then
          whole == old(whole) + (tail + [0x01] + Zeros(BLOCK_SIZE - |tail| - 1)) && head == Zeros(BLOCK_SIZE - 8)
        else whole == old(whole) && head == tail + [0x01] + Zeros(BLOCK_SIZE - |tail| - 9)
    {
      var tmppos := pos % BLOCK_SIZE;
      assert tmppos == |tail|;
      tmp[tmppos] := 0x01;
      tmppos := tmppos + 1;
      assert tmp[..tmppos] == tail + [0x01];
      if tmppos > BLOCK_SIZE - 8 {
        Copy(tmp, tmppos, Zeros(BLOCK_SIZE - tmppos));
        assert tmp[..] == tail + [0x01] + Zeros(BLOCK_SIZE - tmppos);
        Compress(tmp[..]);
        Copy(tmp, 0, Zeros(BLOCK_SIZE));
        assert tmp[..BLOCK_SIZE - 8] == Zeros(BLOCK_SIZE - 8);
      } else {
        Copy(tmp, tmppos, Zeros(BLOCK_SIZE - tmppos - 8));
        assert tmp[..BLOCK_SIZE - 8] == tail + [0x01] + Zeros(BLOCK_SIZE - tmppos - 8);
      }
      head := tmp[..BLOCK_SIZE - 8];
    }

    /** Hashes a message that comes in any pieces. */
    method HashPieces(pieces: seq<Piece>) returns (r: State)
      requires Valid() && Message() == []
      modifies this, tmp
      ensures r == Fold(compress, INITIAL, Padded(Flat(pieces)))
    {
      var i := 0;
      while i < |pieces|
        invariant i <= |pieces| && Valid() && Message() + Flat(pieces[i..]) == Flat(pieces)
      {
        assert pieces[i..][1..] == pieces[i + 1..];
        ghost var before, rest := Message(), Flat(pieces[i + 1..]);
        Update(pieces[i]);
        assert before + (pieces[i] + rest) == before + pieces[i] + rest;
        i := i + 1;
      }
      assert Message() + [] == Message();
      r := Finalize();
    }
  }

  lemma PosMore(n: nat, k: nat)
    ensures (n % WORD + k) % WORD == (n + k) % WORD
  {
    assert n + k == n % WORD + k + n / WORD * WORD;
    ModPlus(n % WORD + k, n / WORD);
  }

  lemma LengthMod(n: nat)
    ensures 8 * (n % WORD) % WORD == 8 * n % WORD
  {
    var q := n / WORD;
    assert 8 * n == 8 * (n % WORD) + 8 * q * WORD;
    ModPlus(8 * (n % WORD), 8 * q);
  }

  lemma ModPlus(a: nat, k: nat)
    ensures (a + k * WORD) % WORD == a % WORD
  {
  }

  /** The last block, or two, of a padded message. */
  lemma LastBlocks(whole: seq<Byte>, tail: seq<Byte>, len: seq<Byte>)
    requires |whole| % BLOCK_SIZE == 0 && |tail| < BLOCK_SIZE && |len| == 8
    ensures if |tail| + 1 > BLOCK_SIZE - 8 then
        PaddedWith(whole + tail, len) ==
          whole + (tail + [0x01] + Zeros(BLOCK_SIZE - |tail| - 1)) + (Zeros(BLOCK_SIZE - 8) + len)
      else PaddedWith(whole + tail, len) == whole + (tail + [0x01] + Zeros(BLOCK_SIZE - |tail| - 9) + len)
  {
    GapOf(|whole|, |tail|);
    if |tail| + 1 > BLOCK_SIZE - 8 {
      ZerosJoined(BLOCK_SIZE - |tail| - 1, BLOCK_SIZE - 8);
      Grouped(whole, tail, [0x01], Zeros(BLOCK_SIZE - |tail| - 1), Zeros(BLOCK_SIZE - 8), len);
    } else {
      Grouped(whole, tail, [0x01], Zeros(BLOCK_SIZE - |tail| - 9), [], len);
    }
  }

  lemma GapOf(n: nat, t: nat)
    requires n % BLOCK_SIZE == 0 && t < BLOCK_SIZE
    ensures Gap(n + t) == if t + 1 > BLOCK_SIZE - 8 then BLOCK_SIZE - t - 1 + (BLOCK_SIZE - 8) else BLOCK_SIZE - t - 9
  {
    assert (n + t + 8) % BLOCK_SIZE == (t + 8) % BLOCK_SIZE;
  }

  lemma ZerosJoined(a: nat, b: nat)
    ensures Zeros(a + b) == Zeros(a) + Zeros(b)
  {
  }

  lemma Grouped(w: seq<Byte>, t: seq<Byte>, one: seq<Byte>, z: seq<Byte>, z': seq<Byte>, len: seq<Byte>)
    ensures w + t + one + (z + z') + len == w + (t + one + z) + (z' + len)
    ensures w + t + one + z + len == w + (t + one + z + len)
  {
  }
}
