/** The table of short strings (lstring.c:62-216): buckets of chained strings, rehashed in place. */
module StringTable {
  import opened Folding

  class TString {
    const content: string
    const hash: nat
    var hnext: TString?

    constructor (content: string, hash: nat, hnext: TString?)
      ensures this.content == content && this.hash == hash && this.hnext == hnext
    {
      this.content, this.hash, this.hnext := content, hash, hnext;
    }
  }

  type Chain = seq<TString>

  // ----- chains as values -----

  /** All strings in the chains. */
  ghost function All(cs: seq<Chain>): multiset<TString> {
    if |cs| == 0 then multiset{} else All(cs[..|cs| - 1]) + multiset(cs[|cs| - 1])
  }

  lemma {:induction false} AllChanged(cs: seq<Chain>, i: nat, c: Chain)
    requires i < |cs|
    ensures All(cs[i := c]) + multiset(cs[i]) == All(cs) + multiset(c)
  {
    var n, cs' := |cs| - 1, cs[i := c];
    assert All(cs') == All(cs'[..n]) + multiset(cs'[n]);
    if i < n {
      AllChanged(cs[..n], i, c);
      var b, a, z := All(cs'[..n]), All(cs[..n]), multiset(cs[n]);
      assert cs'[..n] == cs[..n][i := c] && cs[..n][i] == cs[i];
      assert (b + z) + multiset(cs[i]) == (b + multiset(cs[i])) + z && (a + multiset(c)) + z == (a + z) + multiset(c);
    } else {
      assert cs'[..n] == cs[..n];
    }
  }

  lemma AllPushed(cs: seq<Chain>, h: nat, p: TString)
    requires h < |cs|
    ensures All(cs[h := [p] + cs[h]]) == All(cs) + multiset{p}
  {
    var before, after, c := All(cs), All(cs[h := [p] + cs[h]]), multiset(cs[h]);
    AllChanged(cs, h, [p] + cs[h]);
    assert multiset([p] + cs[h]) == multiset{p} + c;
    assert after == (after + c) - c;
    assert after + c == (before + multiset{p}) + c;
  }

  lemma {:induction false} AllMembers(cs: seq<Chain>, s: TString)
    ensures s in All(cs) <==> exists j :: 0 <= j < |cs| && s in cs[j]
  {
    if |cs| > 0 {
      var n := |cs| - 1;
      AllMembers(cs[..n], s);
      assert cs[n] == cs[|cs| - 1];
      if s in All(cs[..n]) {
        var j :| 0 <= j < n && s in cs[..n][j];
        assert s in cs[j];
      }
    }
  }

  /** Empty chains at the end do not matter. */
  lemma {:induction false} AllPadded(cs: seq<Chain>, n: nat)
    requires n <= |cs| && forall j :: n <= j < |cs| ==> cs[j] == []
    ensures All(cs[..n]) == All(cs)
  {
    if n < |cs| {
      var m := |cs| - 1;
      AllPadded(cs[..m], n);
      assert cs[..m][..n] == cs[..n];
    } else {
      assert cs[..n] == cs;
    }
  }

  /** No string is there twice. */
  ghost predicate Once(m: multiset<TString>) { forall s <- m :: m[s] <= 1 }

  lemma {:induction false} Twice(c: Chain, a: nat, b: nat)
    requires a < b < |c| && c[a] == c[b]
    ensures multiset(c)[c[a]] >= 2
  {
    assert c == c[..b] + c[b..] && c[..b][a] == c[a] && c[b..][0] == c[a];
    assert c[a] in multiset(c[..b]) && c[a] in multiset(c[b..]);
  }

  /** The first of the strings that are still to be moved is nowhere else. */
  lemma OnlyHere(cs: seq<Chain>, rest: Chain)
    requires |rest| > 0 && Once(All(cs) + multiset(rest))
    ensures forall j {:trigger cs[j]} :: 0 <= j < |cs| ==> rest[0] !in cs[j]
    ensures rest[0] !in rest[1..]
  {
    var s := rest[0];
    assert s in multiset(rest);
    assert s in All(cs) + multiset(rest);
    AllMembers(cs, s);
    if s in rest[1..] {
      var k :| 0 <= k < |rest[1..]| && rest[1..][k] == s;
      Twice(rest, 0, k + 1);
    }
  }

  /** Every string is in the bucket of its hash, except where buckets are still to be rehashed. */
  ghost predicate Placed(cs: seq<Chain>, n: nat, from: nat, to: nat)
    requires n > 0
  {
    forall j, k {:trigger cs[j][k]} :: 0 <= j < |cs| && 0 <= k < |cs[j]| ==> cs[j][k].hash % n == j || from <= j < to
  }

  // ----- chains in memory -----

  /** Memory holds this chain, starting at `head`. */
  ghost predicate Linked(head: TString?, c: Chain)
    reads c
  {
    && head == (if c == [] then null else c[0])
    && forall k {:trigger LinkAt(c, k)} :: 0 <= k < |c| ==> LinkAt(c, k)
  }

  ghost predicate LinkAt(c: Chain, k: nat)
    requires k < |c|
    reads c[k]
  {
    c[k].hnext == if k + 1 < |c| then c[k + 1] else null
  }

  lemma LinkedRest(head: TString?, c: Chain)
    requires Linked(head, c) && |c| > 0
    ensures Linked(c[0].hnext, c[1..])
  {
    assert LinkAt(c, 0);
    forall k | 0 <= k < |c[1..]| ensures LinkAt(c[1..], k) { assert LinkAt(c, k + 1); }
  }

  /** Memory holds these chains of these strings. */
  ghost predicate AllLinked(strings: set<TString>, heads: seq<TString?>, cs: seq<Chain>)
    reads strings
  {
    |cs| <= |heads| && Within(strings, cs) && forall j {:trigger cs[j]} :: 0 <= j < |cs| ==> Linked(heads[j], cs[j])
  }

  ghost predicate Within(strings: set<TString>, cs: seq<Chain>) {
    forall j, k {:trigger cs[j][k]} :: 0 <= j < |cs| && 0 <= k < |cs[j]| ==> cs[j][k] in strings
  }

  lemma LinkedBefore(p: TString, head: TString?, c: Chain)
    requires Linked(head, c) && p !in c && p.hnext == head
    ensures Linked(p, [p] + c)
  {
    var d := [p] + c;
    forall k | 0 <= k < |d| ensures LinkAt(d, k) {
      if k > 0 { assert d[k] == c[k - 1] && LinkAt(c, k - 1); }
    }
  }

  /** Puts a string before a chain. */
  method Push(vect: array<TString?>, p: TString, h: nat, ghost strings: set<TString>, ghost cs: seq<Chain>)
    returns (ghost cs': seq<Chain>)
    requires h < |cs| && p in strings && AllLinked(strings, vect[..], cs)
    requires forall j {:trigger cs[j]} :: 0 <= j < |cs| ==> p !in cs[j]
    modifies vect, p`hnext
    ensures cs' == cs[h := [p] + cs[h]] && AllLinked(strings, vect[..], cs') && All(cs') == All(cs) + multiset{p}
  {
    AllPushed(cs, h, p);
    p.hnext := vect[h];
    vect[h] := p;
    cs' := cs[h := [p] + cs[h]];
    forall j | 0 <= j < |cs| ensures Linked(vect[j], cs'[j]) {
      assert cs[j] in cs && Linked(old(vect[j]), cs[j]);
      if j == h { LinkedBefore(p, old(vect[h]), cs[h]); }
    }
  }

  lemma PlacedPushed(cs: seq<Chain>, p: TString, n: nat, from: nat, to: nat)
    requires 0 < n <= |cs| && Placed(cs, n, from, to)
    ensures Placed(cs[p.hash % n := [p] + cs[p.hash % n]], n, from, to)
  {
    var h := p.hash % n;
    var cs': seq<Chain> := cs[h := [p] + cs[h]];
    forall j, k | 0 <= j < |cs'| && 0 <= k < |cs'[j]| ensures cs'[j][k].hash % n == j || from <= j < to {
      if j != h { assert cs[j][k].hash % n == j || from <= j < to; }
      else if k > 0 { assert cs[j][k - 1].hash % n == j || from <= j < to; }
    }
  }

  /** The first of the strings still to be moved, the others, and all of them. */
  lemma FirstMoved(m: multiset<TString>, rest: Chain)
    requires |rest| > 0
    ensures (m + multiset{rest[0]}) + multiset(rest[1..]) == m + multiset(rest)
  {
    assert rest == [rest[0]] + rest[1..];
    assert multiset(rest) == multiset{rest[0]} + multiset(rest[1..]);
  }

  /** Moves each string of a chain to its bucket (lstring.c:69-75). */
  method Distribute(vect: array<TString?>, head: TString?, nsize: nat, ghost strings: set<TString>,
      ghost rest0: Chain, ghost cs0: seq<Chain>, ghost from: nat, ghost to: nat) returns (ghost cs: seq<Chain>)
    requires 0 < nsize <= |cs0| && AllLinked(strings, vect[..], cs0) && Linked(head, rest0)
    requires Once(All(cs0) + multiset(rest0))
    requires Placed(cs0, nsize, from, to) && forall s <- rest0 :: s in strings
    modifies vect, strings`hnext
    ensures |cs| == |cs0| && AllLinked(strings, vect[..], cs) && Placed(cs, nsize, from, to)
    ensures All(cs) == All(cs0) + multiset(rest0)
  {
    var p := head;
    ghost var rest := rest0;
    cs := cs0;
    while p != null
      invariant |cs| == |cs0| && All(cs) + multiset(rest) == All(cs0) + multiset(rest0)
      invariant AllLinked(strings, vect[..], cs) && Linked(p, rest) && Placed(cs, nsize, from, to)
      invariant forall s <- rest :: s in strings
      decreases |rest|
    {
      var hnext := p.hnext;
      OnlyHere(cs, rest);
      LinkedRest(p, rest);
      PlacedPushed(cs, p, nsize, from, to);
      FirstMoved(All(cs), rest);
      cs := Push(vect, p, p.hash % nsize, strings, cs);
      rest := rest[1..];
      p := hnext;
    }
  }

  lemma NothingInPlace(cs: seq<Chain>, osize: nat, n: nat)
    requires n > 0 && forall j {:trigger cs[j]} :: osize <= j < |cs| ==> cs[j] == []
    ensures Placed(cs, n, 0, osize)
  {
  }

  /** Clears the new buckets (lstring.c:64-65). */
  method ClearNew(vect: array<TString?>, osize: nat, nsize: nat, ghost strings: set<TString>, ghost cs0: seq<Chain>)
    returns (ghost cs: seq<Chain>)
    requires osize <= vect.Length && nsize <= vect.Length && |cs0| == osize && AllLinked(strings, vect[..], cs0)
    modifies vect
    ensures |cs| == (if osize < nsize then nsize else osize) && AllLinked(strings, vect[..], cs) && All(cs) == All(cs0)
    ensures nsize > 0 ==> Placed(cs, nsize, 0, osize)
  {
    var i := osize;
    cs := cs0;
    while i < nsize
      invariant osize <= i && |cs| == i && AllLinked(strings, vect[..], cs) && All(cs) == All(cs0)
      invariant (i <= nsize || i == osize) && forall j {:trigger cs[j]} :: osize <= j < i ==> cs[j] == []
    {
      vect[i] := null;
      assert (cs + [[]])[..i] == cs;
      cs := cs + [[]];
      i := i + 1;
    }
    if nsize > 0 { NothingInPlace(cs, osize, nsize); }
  }

  lemma Emptied(cs: seq<Chain>, i: nat, n: nat, to: nat)
    requires i < |cs| && 0 < n && Placed(cs, n, i, to)
    ensures Placed(cs[i := []], n, i + 1, to) && All(cs[i := []]) + multiset(cs[i]) == All(cs)
  {
    AllChanged(cs, i, []);
    var cs': seq<Chain> := cs[i := []];
    forall j, k | 0 <= j < |cs'| && 0 <= k < |cs'[j]| ensures cs'[j][k].hash % n == j || i + 1 <= j < to {
      assert cs[j][k].hash % n == j || i <= j < to;
    }
  }

  /** Empties a bucket and rehashes its chain (lstring.c:67-75). */
  method RehashBucket(vect: array<TString?>, i: nat, osize: nat, nsize: nat, ghost strings: set<TString>,
      ghost cs0: seq<Chain>) returns (ghost cs: seq<Chain>)
    requires i < osize && i < |cs0| && 0 < nsize <= |cs0| && AllLinked(strings, vect[..], cs0) && Once(All(cs0))
    requires Placed(cs0, nsize, i, osize)
    modifies vect, strings`hnext
    ensures |cs| == |cs0| && AllLinked(strings, vect[..], cs) && Placed(cs, nsize, i + 1, osize) && All(cs) == All(cs0)
  {
    var p := vect[i];
    ghost var rest := cs0[i];
    Emptied(cs0, i, nsize, osize);
    cs := cs0[i := []];
    vect[i] := null;
    cs := Distribute(vect, p, nsize, strings, rest, cs, i + 1, osize);
  }

  lemma BucketBelow(cs: seq<Chain>, n: nat, m: nat, j: nat)
    requires 0 < n && Placed(cs, n, m, m) && j < |cs|
    ensures j < n || cs[j] == []
  {
    if cs[j] != [] {
      var s := cs[j][0];
      assert s.hash % n == j;
    }
  }

  lemma AllInPlace(cs: seq<Chain>, n: nat, m: nat)
    requires 0 < n <= |cs| && Placed(cs, n, m, m)
    ensures Placed(cs[..n], n, 0, 0) && All(cs[..n]) == All(cs)
  {
    forall j | n <= j < |cs| ensures cs[j] == [] { BucketBelow(cs, n, m, j); }
    AllPadded(cs, n);
  }

  /** Rehashes `osize` buckets to `nsize` ones in place (lstring.c:62-77). A string may be moved to a bucket that is
      rehashed later, and then again. */
  method TableRehash(vect: array<TString?>, osize: nat, nsize: nat, ghost strings: set<TString>,
      ghost cs0: seq<Chain>) returns (ghost cs: seq<Chain>)
    requires 0 < nsize && osize <= vect.Length && nsize <= vect.Length
    requires |cs0| == osize && AllLinked(strings, vect[..], cs0) && Once(All(cs0))
    modifies vect, strings`hnext
    ensures |cs| == nsize && AllLinked(strings, vect[..], cs) && Placed(cs, nsize, 0, 0) && All(cs) == All(cs0)
  {
    cs := ClearNew(vect, osize, nsize, strings, cs0);
    var i := 0;
    while i < osize
      invariant i <= osize && |cs| == (if osize < nsize then nsize else osize) && All(cs) == All(cs0)
      invariant AllLinked(strings, vect[..], cs) && Placed(cs, nsize, i, osize)
    {
      cs := RehashBucket(vect, i, osize, nsize, strings, cs);
      i := i + 1;
    }
    AllInPlace(cs, nsize, osize);
    cs := cs[..nsize];
  }

  // ----- the table -----

  const MINSTRTABSIZE: nat := 128
  const MAX_INT: nat := 0x7fff_ffff

  lemma ChainRemoved(c: Chain, k: nat)
    requires k < |c|
    ensures multiset(c) == multiset(c[..k] + c[k + 1..]) + multiset{c[k]}
  {
    assert c == c[..k] + ([c[k]] + c[k + 1..]);
  }

  lemma AllRemoved(cs: seq<Chain>, h: nat, k: nat)
    requires h < |cs| && k < |cs[h]|
    ensures All(cs) == All(cs[h := cs[h][..k] + cs[h][k + 1..]]) + multiset{cs[h][k]}
  {
    var c' := cs[h][..k] + cs[h][k + 1..];
    AllChanged(cs, h, c');
    ChainRemoved(cs[h], k);
    Cancelled(All(cs), All(cs[h := c']) + multiset{cs[h][k]}, multiset(c'));
  }

  lemma Cancelled(m: multiset<TString>, n: multiset<TString>, others: multiset<TString>)
    requires m + others == n + others
    ensures m == n
  {
    assert m == (m + others) - others;
  }

  /** A string is in the bucket of its hash. */
  lemma Found(cs: seq<Chain>, n: nat, s: TString) returns (k: nat)
    requires 0 < n == |cs| && Placed(cs, n, 0, 0) && s in All(cs)
    ensures k < |cs[s.hash % n]| && cs[s.hash % n][k] == s
  {
    AllMembers(cs, s);
    var j :| 0 <= j < |cs| && s in cs[j];
    k :| 0 <= k < |cs[j]| && cs[j][k] == s;
    assert cs[j][k].hash % n == j;
  }

  lemma PlacedRemoved(cs: seq<Chain>, h: nat, k: nat, n: nat)
    requires n > 0 && h < |cs| && k < |cs[h]| && Placed(cs, n, 0, 0)
    ensures Placed(cs[h := cs[h][..k] + cs[h][k + 1..]], n, 0, 0)
  {
    var cs': seq<Chain> := cs[h := cs[h][..k] + cs[h][k + 1..]];
    forall j, m | 0 <= j < |cs'| && 0 <= m < |cs'[j]| ensures cs'[j][m].hash % n == j {
      assert cs[j][if j == h && k <= m then m + 1 else m].hash % n == j;
    }
  }

  /** The strings have their hash, and there are no two of a content. */
  ghost predicate Unique(hashOf: string -> nat, strings: set<TString>) {
    forall k: nat {:trigger Open(k)} :: Open(k) ==>
      && (forall s <- strings :: s.hash == hashOf(s.content))
      && (forall s <- strings, t <- strings :: s.content == t.content ==> s == t)
  }

  /** The chains hold these strings, each one in the bucket of its hash. */
  ghost predicate Holds(hashOf: string -> nat, strings: set<TString>, cs: seq<Chain>, n: nat) {
    n > 0 && |cs| == n && Placed(cs, n, 0, 0) && All(cs) == multiset(strings) && Unique(hashOf, strings)
  }

  lemma Removed(hashOf: string -> nat, strings: set<TString>, cs: seq<Chain>, h: nat, k: nat, n: nat)
    requires Holds(hashOf, strings, cs, n) && h < n && k < |cs[h]|
    ensures Holds(hashOf, strings - {cs[h][k]}, cs[h := cs[h][..k] + cs[h][k + 1..]], n)
  {
    assert Open(0);
    AllRemoved(cs, h, k);
    PlacedRemoved(cs, h, k, n);
    var m := All(cs[h := cs[h][..k] + cs[h][k + 1..]]);
    assert m == multiset(strings) - multiset{cs[h][k]};
    assert cs[h][k] in All(cs);
    assert m == multiset(strings - {cs[h][k]});
  }

  method Rehash(vect: array<TString?>, osize: nat, nsize: nat, ghost hashOf: string -> nat,
      ghost strings: set<TString>, ghost cs0: seq<Chain>) returns (ghost cs: seq<Chain>)
    requires 0 < nsize <= vect.Length && osize <= vect.Length && Holds(hashOf, strings, cs0, osize)
    requires AllLinked(strings, vect[..], cs0)
    modifies vect, strings`hnext
    ensures Holds(hashOf, strings, cs, nsize) && AllLinked(strings, vect[..], cs)
  {
    assert forall s <- All(cs0) :: s in strings;
    cs := TableRehash(vect, osize, nsize, strings, cs0);
  }

  class StrTab {
    /** The string hash with the seed of this state. */
    const hashOf: string -> nat
    var hash: array<TString?>
    var size: nat
    var nuse: nat
    ghost var chains: seq<Chain>
    ghost var strings: set<TString>

    ghost predicate Valid()
      reads this, hash, strings
    {
      size == hash.Length && AllLinked(strings, hash[..], chains) && Holds(hashOf, strings, chains, size) &&
        nuse == |strings|
    }

    /** The contents of the strings in the table. */
    ghost function Contents(): set<string>
      reads this
    {
      ContentsOf(strings)
    }

    /** The table as its users see it: the contents in it and its size. */
    ghost function Table(): Contained
      reads this
    {
      Contained(Contents(), size)
    }

    /** Of every content there is one string, and they are counted exactly. */
    lemma Counted()
      requires Valid()
      ensures nuse == |Contents()|
      ensures forall s <- strings, t <- strings :: s == t <==> s.content == t.content
    {
      assert Open(0);
      CountContents(strings);
    }

    constructor (hashOf: string -> nat)
      ensures Valid() && fresh(hash) && this.hashOf == hashOf && strings == {} && size == MINSTRTABSIZE
    {
      this.hashOf := hashOf;
      var vect := new TString?[MINSTRTABSIZE];
      hash, size, nuse, strings, chains := vect, MINSTRTABSIZE, 0, {}, [];
      new;
      chains := ClearNew(vect, 0, MINSTRTABSIZE, {}, []);
      assert All(chains) == multiset{};
    }

    /** Resizes the table; if the allocation fails it stays as it was (lstring.c:85-103). */
    method Resize(nsize: nat, granted: bool)
      requires Valid() && nsize > 0
      modifies this`hash, this`size, this`chains, hash, strings`hnext
      ensures Valid() && size == (if granted then nsize else old(size)) && (hash == old(hash) || fresh(hash))
    {
      var vect, osize := hash, size;
      if nsize < osize {
        chains := Rehash(vect, osize, nsize, hashOf, strings, chains);
      }
      if granted {
        hash, chains := Reallocated(vect, osize, nsize, hashOf, strings, chains);
        size := nsize;
      } else if nsize < osize {
        chains := Rehash(vect, nsize, osize, hashOf, strings, chains);
      }
    }

    /** Unlinks a string from its chain (lstring.c:165-172). */
    method Remove(ts: TString)
      requires Valid() && ts in strings
      modifies this`nuse, this`chains, this`strings, hash, strings`hnext
      ensures Valid() && strings == old(strings) - {ts} && nuse == old(nuse) - 1
    {
      var h := ts.hash % size;
      ghost var at := Found(chains, size, ts);
      Removed(hashOf, strings, chains, h, at, size);
      chains := Unlink(hash, h, ts, at, strings, chains);
      nuse := nuse - 1;
      strings := strings - {ts};
    }

    /** Looks a content up in its bucket (lstring.c:193-203). */
    method Lookup(str: string) returns (ts: TString?)
      requires Valid()
      ensures ts == null <==> str !in Contents()
      ensures ts != null ==> ts in strings && ts.content == str
    {
      assert Open(0);
      ts := hash[hashOf(str) % size];
      ghost var c := chains[hashOf(str) % size];
      ghost var k := 0;
      assert Linked(ts, c);
      while ts != null && ts.content != str
        invariant k <= |c| && ts == (if k < |c| then c[k] else null) && forall m :: 0 <= m < k ==> c[m].content != str
        decreases |c| - k
      {
        assert LinkAt(c, k);
        ts, k := ts.hnext, k + 1;
      }
      if ts == null {
        forall s <- strings ensures s.content != str {
          assert s in All(chains);
          var n := Found(chains, size, s);
        }
      } else {
        AllMembers(chains, ts);
        assert ts in multiset(strings);
      }
    }

    /** Makes room: a full collection, of the strings with the contents `dead`, if there are too many strings to count,
        and a larger table if there can be one (lstring.c:175-183). */
    method Grow(dead: seq<string>, granted: bool) returns (ok: bool)
      requires Valid()
      modifies this, hash, strings`hnext
      ensures Valid() && strings == (if old(nuse) == MAX_INT then Spared(old(strings), dead) else old(strings))
      ensures (hash == old(hash) || fresh(hash))
      ensures ok <==> old(nuse) != MAX_INT || nuse != MAX_INT
      ensures size == if ok && granted && old(size) <= MAX_INT / 2 then old(size) * 2 else old(size)
    {
      if nuse == MAX_INT {
        Collect(dead);
        if nuse == MAX_INT {
          return false;
        }
      }
      if size <= MAX_INT / 2 {
        Resize(size * 2, granted);
      }
      ok := true;
    }

    /** Removes the string of this content, if there is one. */
    method Discard(str: string)
      requires Valid()
      modifies this`nuse, this`chains, this`strings, hash, strings`hnext
      ensures Valid() && strings == Spared(old(strings), [str]) && Table() == Next(old(Table()), Discarding(str))
    {
      var ts := Lookup(str);
      OneDead(hashOf, strings, str, ts);
      if ts != null {
        Remove(ts);
      }
      SparedContents(old(strings), [str]);
    }

    /** The part of a collection that concerns the table: the strings that are dead are removed (lgc.c:801-806). */
    method Collect(dead: seq<string>)
      requires Valid()
      modifies this`nuse, this`chains, this`strings, hash, strings`hnext
      ensures Valid() && strings == Spared(old(strings), dead)
    {
      var i := 0;
      while i < |dead|
        invariant i <= |dead| && Valid() && hash == old(hash) && size == old(size)
        invariant strings == Spared(old(strings), dead[..i])
      {
        OneMoreDead(old(strings), dead, i);
        Discard(dead[i]);
        i := i + 1;
      }
      assert dead[..|dead|] == dead;
    }

    /** Finds a string of this content, or makes one (lstring.c:189-216). It fails exactly if there is none and memory
        is short, or there are too many strings even after a collection. */
    method Intern(str: string, dead: seq<string>, granted: bool, created: bool) returns (ts: TString?)
      requires Valid()
      modifies this, hash, strings`hnext
      ensures Valid() && (hash == old(hash) || fresh(hash))
      ensures ts == null <==> Fails(old(Table()), Interning(str, dead, granted, created))
      ensures Table() == Next(old(Table()), Interning(str, dead, granted, created))
      ensures str in old(Contents()) ==> ts != null && ts in old(strings) && strings == old(strings)
      ensures str !in old(Contents()) ==>
        strings == Left(old(strings), old(nuse), old(size), dead) + (if ts == null then {} else {ts})
      ensures ts != null ==> ts.content == str && ts in strings && (str !in old(Contents()) ==> fresh(ts))
    {
      ts := Lookup(str);
      if ts == null {
        ts := Make(str, dead, granted, created);
      }
    }

    method Make(str: string, dead: seq<string>, granted: bool, created: bool) returns (ts: TString?)
      requires Valid() && str !in Contents()
      modifies this, hash, strings`hnext
      ensures Valid() && (hash == old(hash) || fresh(hash))
      ensures ts == null <==> Fails(old(Table()), Interning(str, dead, granted, created))
      ensures Table() == Next(old(Table()), Interning(str, dead, granted, created))
      ensures strings == Left(old(strings), old(nuse), old(size), dead) + (if ts == null then {} else {ts})
      ensures ts != null ==> ts.content == str && fresh(ts)
    {
      var ok := MakeRoom(dead, granted);
      Outcome(old(Table()), str, dead, granted, created, ok, size);
      if !ok || !created {
        return null;
      }
      ts := Create(str);
    }

    /** Room for another string, if there is none (lstring.c:204-207). */
    method MakeRoom(dead: seq<string>, granted: bool) returns (ok: bool)
      requires Valid()
      modifies this, hash, strings`hnext
      ensures Valid() && (hash == old(hash) || fresh(hash))
      ensures strings == Left(old(strings), old(nuse), old(size), dead) && Contents() == Kept(old(Table()), dead)
      ensures ok <==> !(|old(Contents())| >= old(size) && |Contents()| == MAX_INT)
      ensures size == if |old(Contents())| >= old(size) && ok && granted && old(size) <= MAX_INT / 2 then 2 * old(size)
        else old(size)
    {
      Counted();
      SparedContents(strings, dead);
      ok := true;
      if nuse >= size {
        ok := Grow(dead, granted);
        Counted();
      }
    }

    /** Creates a string and chains it into its bucket (lstring.c:209-215). */
    method Create(str: string) returns (ts: TString)
      requires Valid() && str !in Contents()
      modifies this`nuse, this`chains, this`strings, hash, strings`hnext
      ensures Valid() && fresh(ts) && ts.content == str && strings == old(strings) + {ts}
      ensures Contents() == old(Contents()) + {str}
    {
      ts := new TString(str, hashOf(str), null);
      ghost var before := strings;
      nuse, strings := nuse + 1, strings + {ts};
      chains := AddToChain(hash, size, ts, hashOf, before, chains);
      OneMore(before, ts);
    }

    /** One use of the table. */
    method Do(use: Use) returns (r: TString?)
      requires Valid()
      modifies this, hash, strings`hnext
      ensures Valid() && (hash == old(hash) || fresh(hash)) && (forall s <- strings :: s in old(strings) || fresh(s))
      ensures Stay(old(strings), strings, [use]) && Table() == Next(old(Table()), use)
      ensures r != null <==> use.Interning? && !Fails(old(Table()), use)
      ensures r != null ==> r.content == use.str && r in strings
    {
      r := null;
      if use.Interning? {
        r := Intern(use.str, use.dead, use.granted, use.created);
      } else if use.Discarding? {
        Discard(use.str);
      } else {
        Resize(use.n, use.granted);
      }
      assert forall s <- old(strings) :: !use.Drops(s.content) ==> s in strings;
      assert [use][0] == use;
    }

    /** Any sequence of uses of the table. A string that is not removed stays, the same object, so that interning its
        content again gives it back. */
    method Run(script: seq<Use>) returns (results: seq<TString?>)
      requires Valid()
      modifies this, hash, strings`hnext
      ensures Valid() && (hash == old(hash) || fresh(hash)) && (forall s <- strings :: s in old(strings) || fresh(s))
      ensures Stay(old(strings), strings, script) && Answered(script, results, strings)
      ensures Table() == After(old(Table()), script) && Succeed(old(Table()), script, results)
      decreases |script|
    {
      if |script| == 0 {
        return [];
      }
      var r := Do(script[0]);
      ghost var between := strings;
      var rest := Run(script[1..]);
      results := [r] + rest;
      StayLonger(old(strings), between, strings, script);
      AnsweredFirst(script, r, rest, between, strings);
    }
  }

  type Positive = n: nat | n > 0 witness 1

  datatype Use = Interning(str: string, dead: seq<string>, granted: bool, created: bool) | Discarding(str: string)
    | Resizing(n: Positive, granted: bool)
  {
    predicate Drops(c: string) { (Discarding? && str == c) || (Interning? && c in dead) }
  }

  // ----- what a use does, for its users -----

  datatype Contained = Contained(contents: set<string>, size: nat)

  /** What is left when there are too many strings to count another one, and the table is full. */
  function Kept(t: Contained, dead: seq<string>): set<string> {
    if |t.contents| >= t.size && |t.contents| == MAX_INT then set c <- t.contents | c !in dead else t.contents
  }

  /** A string cannot be interned: it is not there, and there is no memory for it, or no number to count it. */
  predicate Fails(t: Contained, use: Use) {
    use.Interning? && use.str !in t.contents &&
      (!use.created || (|t.contents| >= t.size && |Kept(t, use.dead)| == MAX_INT))
  }

  function Next(t: Contained, use: Use): Contained {
    match use
    case Discarding(str) => t.(contents := t.contents - {str})
    case Resizing(n, granted) => if granted then t.(size := n) else t
    case Interning(str, dead, granted, created) =>
      if str in t.contents then t
      else
        var kept := Kept(t, dead);
        var grows := |t.contents| >= t.size && |kept| != MAX_INT && granted && t.size <= MAX_INT / 2;
        Contained(if Fails(t, use) then kept else kept + {str}, if grows then 2 * t.size else t.size)
  }

  function After(t: Contained, script: seq<Use>): Contained
    decreases |script|
  {
    if script == [] then t else After(Next(t, script[0]), script[1..])
  }

  /** There is an answer for exactly those contents that can be interned when their turn comes. */
  ghost predicate Succeed(t: Contained, script: seq<Use>, results: seq<TString?>)
    decreases |script|
  {
    && |results| == |script|
    && (script != [] ==> (results[0] != null <==> script[0].Interning? && !Fails(t, script[0])))
    && (script != [] ==> Succeed(Next(t, script[0]), script[1..], results[1..]))
  }

  lemma {:induction false} SucceedAt(t: Contained, script: seq<Use>, results: seq<TString?>, k: nat)
    requires Succeed(t, script, results) && k < |script|
    ensures results[k] != null <==> script[k].Interning? && !Fails(After(t, script[..k]), script[k])
    decreases |script|
  {
    if k > 0 {
      SucceedAt(Next(t, script[0]), script[1..], results[1..], k - 1);
      assert script[..k][1..] == script[1..][..k - 1];
    }
  }

  predicate Drops(script: seq<Use>, c: string) { exists k :: 0 <= k < |script| && script[k].Drops(c) }

  /** The strings that the script does not remove are still there. */
  ghost predicate Stay(before: set<TString>, after: set<TString>, script: seq<Use>) {
    forall s <- before :: !Drops(script, s.content) ==> s in after
  }

  /** What was interned has the content asked for, and is in the table unless it was removed later. */
  ghost predicate Answered(script: seq<Use>, results: seq<TString?>, strings: set<TString>) {
    && |results| == |script|
    && forall k {:trigger results[k]} :: 0 <= k < |script| && results[k] != null ==>
        script[k].Interning? && results[k].content == script[k].str &&
          (!Drops(script[k + 1..], script[k].str) ==> results[k] in strings)
  }

  lemma StayLonger(before: set<TString>, between: set<TString>, after: set<TString>, script: seq<Use>)
    requires |script| > 0 && Stay(before, between, [script[0]]) && Stay(between, after, script[1..])
    ensures Stay(before, after, script)
  {
    forall s <- before | !Drops(script, s.content) ensures s in after {
      forall k | 0 <= k < |script[1..]|
        ensures !script[1..][k].Drops(s.content) { assert script[1..][k] == script[k + 1]; }
    }
  }

  lemma AnsweredFirst(script: seq<Use>, r: TString?, rest: seq<TString?>, between: set<TString>, strings: set<TString>)
    requires |script| > 0 && Answered(script[1..], rest, strings) && Stay(between, strings, script[1..])
    requires r != null ==> script[0].Interning? && r.content == script[0].str && r in between
    ensures Answered(script, [r] + rest, strings)
  {
    var results := [r] + rest;
    forall k | 0 <= k < |script| && results[k] != null
      ensures script[k].Interning? && results[k].content == script[k].str &&
      (!Drops(script[k + 1..], script[k].str) ==> results[k] in strings)
    {
      if k > 0 {
        assert rest[k - 1] == results[k] && script[1..][k - 1] == script[k] && script[1..][k..] == script[k + 1..];
      }
    }
  }

  /** Any two contents that could be interned, and were not removed since, gave the same object exactly if they are the
      same. */
  lemma SameObject(hashOf: string -> nat, t: Contained, script: seq<Use>, results: seq<TString?>, strings: set<TString>,
      i: nat, j: nat)
    requires Unique(hashOf, strings) && Answered(script, results, strings) && Succeed(t, script, results)
    requires i < |script| && script[i].Interning? && !Fails(After(t, script[..i]), script[i])
    requires j < |script| && script[j].Interning? && !Fails(After(t, script[..j]), script[j])
    requires !Drops(script[i + 1..], script[i].str) && !Drops(script[j + 1..], script[j].str)
    ensures results[i] != null && results[j] != null
    ensures results[i] == results[j] <==> script[i].str == script[j].str
  {
    SucceedAt(t, script, results, i);
    SucceedAt(t, script, results, j);
    assert Open(0);
  }

  /** The strings whose content is not among these. */
  ghost function Spared(strings: set<TString>, dead: seq<string>): set<TString> {
    set s <- strings | s.content !in dead
  }

  /** The strings that are left when room was made for another one. */
  ghost function Left(strings: set<TString>, nuse: nat, size: nat, dead: seq<string>): set<TString> {
    if nuse >= size && nuse == MAX_INT then Spared(strings, dead) else strings
  }

  lemma SparedContents(strings: set<TString>, dead: seq<string>)
    ensures ContentsOf(Spared(strings, dead)) == set c <- ContentsOf(strings) | c !in dead
  {
    forall c | c in ContentsOf(strings) && c !in dead ensures c in ContentsOf(Spared(strings, dead)) {
      var s :| s in strings && s.content == c;
      assert s in Spared(strings, dead);
    }
  }

  lemma Outcome(t: Contained, str: string, dead: seq<string>, granted: bool, created: bool, ok: bool, size: nat)
    requires str !in t.contents && (ok <==> !(|t.contents| >= t.size && |Kept(t, dead)| == MAX_INT))
    requires size == if |t.contents| >= t.size && ok && granted && t.size <= MAX_INT / 2 then 2 * t.size else t.size
    ensures Fails(t, Interning(str, dead, granted, created)) <==> !ok || !created
    ensures Next(t, Interning(str, dead, granted, created)) ==
      Contained(if ok && created then Kept(t, dead) + {str} else Kept(t, dead), size)
  {
  }

  lemma OneMore(strings: set<TString>, ts: TString)
    ensures ContentsOf(strings + {ts}) == ContentsOf(strings) + {ts.content}
  {
    forall c | c in ContentsOf(strings) ensures c in ContentsOf(strings + {ts}) {
      var s :| s in strings && s.content == c;
      assert s in strings + {ts};
    }
    assert ts in strings + {ts};
  }

  lemma OneDead(hashOf: string -> nat, strings: set<TString>, str: string, ts: TString?)
    requires (ts == null <==> str !in ContentsOf(strings)) && (ts != null ==> ts in strings && ts.content == str)
    requires Unique(hashOf, strings)
    ensures Spared(strings, [str]) == if ts == null then strings else strings - {ts}
  {
    assert Open(0);
    forall s <- strings ensures s.content == str ==> s == ts { assert s.content in ContentsOf(strings); }
  }

  lemma OneMoreDead(strings: set<TString>, dead: seq<string>, i: nat)
    requires i < |dead|
    ensures Spared(strings, dead[..i + 1]) == Spared(Spared(strings, dead[..i]), [dead[i]])
  {
    assert dead[..i + 1] == dead[..i] + [dead[i]];
  }

  method AddToChain(vect: array<TString?>, n: nat, ts: TString, ghost hashOf: string -> nat,
      ghost strings: set<TString>, ghost cs0: seq<Chain>) returns (ghost cs: seq<Chain>)
    requires Holds(hashOf, strings, cs0, n) && AllLinked(strings, vect[..], cs0)
    requires ts !in strings && ts.hash == hashOf(ts.content) && ts.content !in ContentsOf(strings)
    modifies vect, ts`hnext
    ensures Holds(hashOf, strings + {ts}, cs, n) && AllLinked(strings + {ts}, vect[..], cs)
  {
    Added(hashOf, strings, cs0, ts, n);
    LinkedAmong(strings, ts, vect[..], cs0);
    cs := Push(vect, ts, ts.hash % n, strings + {ts}, cs0);
  }

  lemma LinkedAmong(strings: set<TString>, ts: TString, heads: seq<TString?>, cs: seq<Chain>)
    requires AllLinked(strings, heads, cs)
    ensures AllLinked(strings + {ts}, heads, cs)
  {
  }

  lemma Added(hashOf: string -> nat, strings: set<TString>, cs: seq<Chain>, ts: TString, n: nat)
    requires Holds(hashOf, strings, cs, n) && ts !in strings && ts.hash == hashOf(ts.content)
    requires ts.content !in ContentsOf(strings)
    ensures Holds(hashOf, strings + {ts}, cs[ts.hash % n := [ts] + cs[ts.hash % n]], n)
    ensures forall j {:trigger cs[j]} :: 0 <= j < |cs| ==> ts !in cs[j]
  {
    assert Open(0);
    AllMembers(cs, ts);
    AllPushed(cs, ts.hash % n, ts);
    PlacedPushed(cs, ts, n, 0, 0);
    assert multiset(strings + {ts}) == multiset(strings) + multiset{ts};
    forall s <- strings ensures s.content != ts.content { assert s.content in ContentsOf(strings); }
  }

  lemma {:induction false} OneChain(cs: seq<Chain>, h: nat, k: nat)
    requires h < |cs| && k < |cs[h]| && Once(All(cs))
    ensures forall j {:trigger cs[j]} :: 0 <= j < |cs| && j != h ==> cs[h][k] !in cs[j]
    ensures forall m {:trigger cs[h][m]} :: 0 <= m < |cs[h]| && m != k ==> cs[h][m] != cs[h][k]
  {
    var s, c, cs' := cs[h][k], cs[h], cs[h := []];
    AllChanged(cs, h, []);
    assert All(cs) == All(cs') + multiset(c);
    assert s in multiset(c) && All(cs)[s] == All(cs')[s] + multiset(c)[s];
    AllMembers(cs', s);
    forall j | 0 <= j < |cs| && j != h ensures s !in cs[j] { assert cs'[j] == cs[j]; }
    forall m | 0 <= m < |c| && m != k ensures c[m] != s {
      if c[m] == s { Twice(c, if m < k then m else k, if m < k then k else m); }
    }
  }

  /** Unlinks the string at position `at` of a chain (lstring.c:167-171). */
  method Unlink(vect: array<TString?>, h: nat, ts: TString, ghost at: nat, ghost strings: set<TString>,
      ghost cs: seq<Chain>) returns (ghost cs': seq<Chain>)
    requires h < |cs| && at < |cs[h]| && cs[h][at] == ts && AllLinked(strings, vect[..], cs) && Once(All(cs))
    modifies vect, strings`hnext
    ensures cs' == cs[h := cs[h][..at] + cs[h][at + 1..]] && AllLinked(strings - {ts}, vect[..], cs')
  {
    ghost var c := cs[h];
    OneChain(cs, h, at);
    assert Linked(vect[h], c);
    var prev: TString?, p := null, vect[h];
    ghost var k := 0;
    while p != ts
      invariant k <= at && p == c[k] && prev == if k == 0 then null else c[k - 1]
      decreases at - k
    {
      assert LinkAt(c, k);
      prev, p := p, p.hnext;
      k := k + 1;
    }
    cs' := cs[h := c[..k] + c[k + 1..]];
    assert LinkAt(c, k);
    if prev == null {
      vect[h] := ts.hnext;
      LinkedRest(ts, c);
      assert c[..0] + c[1..] == c[1..];
    } else {
      OneChain(cs, h, k - 1);
      prev.hnext := ts.hnext;
      ghost var d := c[..k] + c[k + 1..];
      assert old(LinkAt(c, k));
      forall m | 0 <= m < |d| ensures LinkAt(d, m) {
        assert old(LinkAt(c, if m < k then m else m + 1));
      }
    }
  }

  ghost function ContentsOf(strings: set<TString>): set<string> { set s <- strings :: s.content }

  lemma {:induction false} CountContents(strings: set<TString>)
    requires forall s <- strings, t <- strings :: s.content == t.content ==> s == t
    ensures |strings| == |ContentsOf(strings)|
  {
    if strings != {} {
      var x :| x in strings;
      CountContents(strings - {x});
      assert x.content !in ContentsOf(strings - {x});
      assert ContentsOf(strings) == ContentsOf(strings - {x}) + {x.content};
    }
  }

  /** A copy of the buckets that both vectors have, rehashed if there are more now. */
  method Reallocated(vect: array<TString?>, osize: nat, nsize: nat, ghost hashOf: string -> nat,
      ghost strings: set<TString>, ghost cs0: seq<Chain>)
    returns (newvect: array<TString?>, ghost cs: seq<Chain>)
    requires 0 < nsize && osize <= vect.Length && AllLinked(strings, vect[..], cs0)
    requires Holds(hashOf, strings, cs0, if osize < nsize then osize else nsize)
    modifies strings`hnext
    ensures fresh(newvect) && newvect.Length == nsize && AllLinked(strings, newvect[..], cs)
    ensures Holds(hashOf, strings, cs, nsize)
  {
    newvect := Copied(vect, osize, nsize, strings, cs0);
    cs := cs0;
    if nsize > osize {
      cs := Rehash(newvect, osize, nsize, hashOf, strings, cs);
    }
  }

  method Copied(vect: array<TString?>, osize: nat, nsize: nat, ghost strings: set<TString>, ghost cs: seq<Chain>)
    returns (newvect: array<TString?>)
    requires osize <= vect.Length && |cs| == (if osize < nsize then osize else nsize)
    requires AllLinked(strings, vect[..], cs)
    ensures fresh(newvect) && newvect.Length == nsize && AllLinked(strings, newvect[..], cs)
  {
    newvect := new TString?[nsize];
    var i := 0;
    while i < osize && i < nsize
      invariant i <= osize && i <= nsize && forall j :: 0 <= j < i ==> newvect[j] == vect[j]
    {
      newvect[i] := vect[i];
      i := i + 1;
    }
  }
}
