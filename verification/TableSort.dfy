/** 'table.sort' (ltablib.c:265-409): quicksort in place, with any comparison function at all. The comparison is
    `cmp(k, x, y)` for its `k`-th call, so that it need not even answer twice the same. Positions count from 0. */
module TableSort {
  import opened Folding

  type Cmp<!T> = (nat, T, T) -> bool

  const RANLIMIT: nat := 100

  // ----- orders -----

  predicate Le<T>(cmp: Cmp<T>, x: T, y: T) { !cmp(0, y, x) }

  /** The comparison always answers the same, and is a strict weak order. */
  ghost predicate IsOrder<T(!new)>(cmp: Cmp<T>) {
    && (forall k, x, y {:trigger cmp(k, x, y)} :: cmp(k, x, y) == cmp(0, x, y))
    && (forall x {:trigger cmp(0, x, x)} :: !cmp(0, x, x))
    && (forall x, y, z {:trigger Le(cmp, x, y), Le(cmp, y, z)} :: Le(cmp, x, y) && Le(cmp, y, z) ==> Le(cmp, x, z))
    && (forall x, y {:trigger Le(cmp, x, y)} :: Le(cmp, x, y) || Le(cmp, y, x))
  }

  /** The comparison puts everything before everything. */
  ghost predicate AlwaysTrue<T(!new)>(cmp: Cmp<T>) { forall k, x, y {:trigger cmp(k, x, y)} :: cmp(k, x, y) }

  /** The elements from `lo` to `hi`, exclusive, are in order. */
  ghost predicate Sorted<T(!new)>(cmp: Cmp<T>, s: seq<T>, lo: nat, hi: nat) {
    forall i, j {:trigger s[i], s[j]} :: 0 <= lo <= i < j < hi <= |s| ==> Le(cmp, s[i], s[j])
  }

  ghost predicate Below<T(!new)>(cmp: Cmp<T>, s: seq<T>, lo: nat, hi: nat, x: T) {
    forall i {:trigger s[i]} :: 0 <= lo <= i < hi <= |s| ==> Le(cmp, s[i], x)
  }

  ghost predicate Above<T(!new)>(cmp: Cmp<T>, s: seq<T>, lo: nat, hi: nat, x: T) {
    forall i {:trigger s[i]} :: 0 <= lo <= i < hi <= |s| ==> Le(cmp, x, s[i])
  }

  /** The interval from `lo` to `hi`, exclusive, is partitioned at `p`. */
  ghost predicate Split<T(!new)>(cmp: Cmp<T>, s: seq<T>, lo: nat, p: nat, hi: nat) {
    lo <= p < hi <= |s| && Below(cmp, s, lo, p, s[p]) && Above(cmp, s, p + 1, hi, s[p])
  }

  /** What lies outside the interval from `lo` to `hi`, exclusive, which is still to be sorted, is in its place. */
  ghost predicate Rest<T(!new)>(cmp: Cmp<T>, s: seq<T>, lo0: nat, lo: nat, hi: nat, hi0: nat) {
    forall i, j {:trigger s[i], s[j]} :: 0 <= lo0 <= i < j < hi0 <= |s| && (i < lo || hi <= j) ==> Le(cmp, s[i], s[j])
  }

  function Pow2(n: nat): nat { if n == 0 then 1 else 2 * Pow2(n - 1) }

  // ----- permutations -----

  /** The elements are the same ones, and only positions from `lo` to `hi`, exclusive, changed. */
  predicate PermIn<T(==)>(b: seq<T>, c: seq<T>, lo: nat, hi: nat) {
    |b| == |c| && lo <= hi <= |b| && multiset(c) == multiset(b) &&
      (forall k {:trigger c[k]} :: 0 <= k < |c| && (k < lo || hi <= k) ==> c[k] == b[k])
  }

  lemma Parts<T>(s: seq<T>, lo: nat, hi: nat)
    requires lo <= hi <= |s|
    ensures multiset(s) == multiset(s[..lo]) + multiset(s[hi..]) + multiset(s[lo..hi])
  {
    assert s == s[..lo] + (s[lo..hi] + s[hi..]);
  }

  lemma Cancelled<T>(m: multiset<T>, n: multiset<T>, others: multiset<T>)
    requires others + m == others + n
    ensures m == n
  {
    assert m == others + m - others;
  }

  lemma PermMultiset<T>(b: seq<T>, c: seq<T>, lo: nat, hi: nat)
    requires PermIn(b, c, lo, hi)
    ensures multiset(c[lo..hi]) == multiset(b[lo..hi])
  {
    Parts(b, lo, hi);
    Parts(c, lo, hi);
    assert c[..lo] == b[..lo] && c[hi..] == b[hi..];
    Cancelled(multiset(c[lo..hi]), multiset(b[lo..hi]), multiset(b[..lo]) + multiset(b[hi..]));
  }

  /** Every element of the interval comes from the interval. */
  lemma PermFrom<T>(b: seq<T>, c: seq<T>, lo: nat, hi: nat, i: nat) returns (k: nat)
    requires PermIn(b, c, lo, hi) && lo <= i < hi
    ensures lo <= k < hi && b[k] == c[i]
  {
    PermMultiset(b, c, lo, hi);
    assert c[lo..hi][i - lo] in multiset(c[lo..hi]);
    assert c[i] in b[lo..hi];
    var m :| 0 <= m < hi - lo && b[lo..hi][m] == c[i];
    k := lo + m;
  }

  lemma SplitPermuted<T(!new)>(cmp: Cmp<T>, b: seq<T>, c: seq<T>, lo: nat, p: nat, hi: nat)
    requires Split(cmp, b, lo, p, hi) && (PermIn(b, c, lo, p) || PermIn(b, c, p + 1, hi))
    ensures Split(cmp, c, lo, p, hi)
  {
    forall i | lo <= i < p ensures Le(cmp, c[i], b[p]) {
      if PermIn(b, c, lo, p) {
        var k := PermFrom(b, c, lo, p, i);
        assert Le(cmp, b[k], b[p]);
      } else {
        assert c[i] == b[i];
      }
    }
    forall i | p + 1 <= i < hi ensures Le(cmp, b[p], c[i]) {
      if PermIn(b, c, lo, p) {
        assert c[i] == b[i];
      } else {
        var k := PermFrom(b, c, p + 1, hi, i);
        assert Le(cmp, b[p], b[k]);
      }
    }
  }

  lemma RestPermuted<T(!new)>(cmp: Cmp<T>, b: seq<T>, c: seq<T>, lo0: nat, lo: nat, hi: nat, hi0: nat)
    requires lo0 <= lo && hi <= hi0 <= |b| && PermIn(b, c, lo, hi) && Rest(cmp, b, lo0, lo, hi, hi0)
    ensures Rest(cmp, c, lo0, lo, hi, hi0)
  {
    forall i, j | 0 <= i && lo0 <= i < j < hi0 && (i < lo || hi <= j) ensures Le(cmp, c[i], c[j]) {
      if lo <= j < hi { var k := PermFrom(b, c, lo, hi, j); assert Le(cmp, b[i], b[k]); }
      else if lo <= i < hi { var k := PermFrom(b, c, lo, hi, i); assert Le(cmp, b[k], b[j]); }
      else { assert Le(cmp, b[i], b[j]); }
    }
  }

  lemma SwapPermutes<T>(s: seq<T>, s': seq<T>, i: nat, j: nat)
    requires i < |s| && j < |s| && s' == s[i := s[j]][j := s[i]]
    ensures multiset(s') == multiset(s)
  {
  }

  method Swap<T>(a: array<T>, lo: nat, up: nat, i: nat, j: nat)
    requires lo <= i <= up < a.Length && lo <= j <= up
    modifies a
    ensures a[i] == old(a[j]) && a[j] == old(a[i])
    ensures forall k :: 0 <= k < a.Length && k != i && k != j ==> a[k] == old(a[k])
    ensures PermIn(old(a[..]), a[..], lo, up + 1)
  {
    ghost var s := a[..];
    a[i], a[j] := a[j], a[i];
    SwapPermutes(s, a[..], i, j);
  }

  // ----- partition -----

  /** Repeats ++i while a[i] < P; a comparison that puts the pivot before itself is an error (ltablib.c:303-308). */
  method ScanUp<T(!new)>(a: array<T>, lo: nat, up: nat, i0: nat, p: T, cmp: Cmp<T>, calls0: nat) returns (ok: bool,
      i: nat, calls: nat)
    requires lo <= i0 < up - 1 && up < a.Length
    requires IsOrder(cmp) ==> a[up - 1] == p && Below(cmp, a[..], lo, i0 + 1, p)
    ensures i0 < i <= up - 1
    ensures IsOrder(cmp) ==> ok && Below(cmp, a[..], lo, i, p) && Le(cmp, p, a[i])
    ensures AlwaysTrue(cmp) ==> !ok
  {
    ok, i, calls := true, i0 + 1, calls0;
    while cmp(calls, a[i], p)
      invariant i0 < i <= up - 1
      invariant IsOrder(cmp) ==> Below(cmp, a[..], lo, i, p)
      decreases up - i
    {
      calls := calls + 1;
      if i == up - 1 {
        ok := false;
        return;
      }
      assert IsOrder(cmp) ==> Le(cmp, a[i], p) by {
        if IsOrder(cmp) { assert cmp(0, a[i], p) && (Le(cmp, a[i], p) || Le(cmp, p, a[i])); }
      }
      i := i + 1;
    }
    assert IsOrder(cmp) ==> cmp(calls, a[i], p) == cmp(0, a[i], p);
    calls := calls + 1;
  }

  lemma BelowAll<T(!new)>(cmp: Cmp<T>, s: seq<T>, lo: nat, hi: nat, p: T)
    ensures IsOrder(cmp) && Below(cmp, s, lo, hi, p) ==>
      forall k, j {:trigger cmp(k, p, s[j])} :: 0 <= lo <= j < hi <= |s| ==> !cmp(k, p, s[j])
  {
  }

  /** Repeats --j while P < a[j]; never below the interval (ltablib.c:310-315). */
  method ScanDown<T(!new)>(a: array<T>, lo: nat, up: nat, i: nat, j0: nat, p: T, cmp: Cmp<T>, calls0: nat)
    returns (ok: bool, j: nat, calls: nat)
    requires lo < i <= up - 1 && lo < j0 <= up - 1 && up < a.Length
    requires IsOrder(cmp) ==> Below(cmp, a[..], lo, i, p) && Above(cmp, a[..], j0, up + 1, p)
    ensures lo <= j < j0
    ensures IsOrder(cmp) ==> ok && Le(cmp, a[j], p) && Above(cmp, a[..], j + 1, up + 1, p)
  {
    ok, j, calls := true, j0 - 1, calls0;
    BelowAll(cmp, a[..], lo, i, p);
    while cmp(calls, p, a[j])
      invariant lo <= j < j0
      invariant IsOrder(cmp) ==> Above(cmp, a[..], j + 1, up + 1, p)
      decreases j
    {
      calls := calls + 1;
      if j < i {
        ok := false;
        return;
      }
      assert IsOrder(cmp) ==> Le(cmp, p, a[j]) by {
        if IsOrder(cmp) { assert cmp(0, p, a[j]) && (Le(cmp, a[j], p) || Le(cmp, p, a[j])); }
      }
      j := j - 1;
    }
    assert IsOrder(cmp) ==> cmp(calls, p, a[j]) == cmp(0, p, a[j]);
    calls := calls + 1;
  }

  /** Partition around the pivot, which is at up - 1 (ltablib.c:298-327). With any comparison the elements stay the same
      and every access is inside the interval; with an order the result is a partition. */
  method Partition<T(!new)>(a: array<T>, lo: nat, up: nat, cmp: Cmp<T>, calls0: nat) returns (ok: bool, i: nat,
      calls: nat)
    requires lo + 3 <= up < a.Length
    requires IsOrder(cmp) ==> Le(cmp, a[lo], a[up - 1]) && Le(cmp, a[up - 1], a[up])
    modifies a
    ensures PermIn(old(a[..]), a[..], lo, up + 1) && lo < i <= up - 1
    ensures IsOrder(cmp) ==> ok && Split(cmp, a[..], lo, i, up + 1)
    ensures AlwaysTrue(cmp) ==> !ok
  {
    var p := a[up - 1];
    var j := up - 1;
    i, calls := lo, calls0;
    while true
      invariant lo <= i <= j <= up - 1 && i < up - 1 && (i == lo ==> j == up - 1) && a[up - 1] == p
      invariant PermIn(old(a[..]), a[..], lo, up + 1)
      invariant IsOrder(cmp) ==> Below(cmp, a[..], lo, i + 1, p) && Above(cmp, a[..], j, up + 1, p)
      decreases j - i
    {
      ok, i, calls := ScanUp(a, lo, up, i, p, cmp, calls);
      if !ok { return; }
      ok, j, calls := ScanDown(a, lo, up, i, j, p, cmp, calls);
      if !ok { return; }
      ghost var b := a[..];
      if j < i {
        Swap(a, lo, up, up - 1, i);
        Partitioned(cmp, b, a[..], lo, up, i, j, p);
        return;
      }
      Swap(a, lo, up, i, j);
      Repartitioned(cmp, b, a[..], lo, up, i, j, p);
    }
  }

  lemma Partitioned<T(!new)>(cmp: Cmp<T>, b: seq<T>, c: seq<T>, lo: nat, up: nat, i: nat, j: nat, p: T)
    requires lo <= j < i <= up - 1 && up < |b| == |c| && b[up - 1] == p && c[i] == p && c[up - 1] == b[i]
    requires forall k :: 0 <= k < |b| && k != i && k != up - 1 ==> c[k] == b[k]
    ensures IsOrder(cmp) && Below(cmp, b, lo, i, p) && Above(cmp, b, j + 1, up + 1, p) ==> Split(cmp, c, lo, i, up + 1)
  {
  }

  lemma Repartitioned<T(!new)>(cmp: Cmp<T>, b: seq<T>, c: seq<T>, lo: nat, up: nat, i: nat, j: nat, p: T)
    requires lo < i <= j < up - 1 && up < |b| == |c| && c[i] == b[j] && c[j] == b[i]
    requires forall k :: 0 <= k < |b| && k != i && k != j ==> c[k] == b[k]
    ensures IsOrder(cmp) && Below(cmp, b, lo, i, p) && Le(cmp, p, b[i]) ==>
      Le(cmp, b[j], p) && Above(cmp, b, j + 1, up + 1, p) ==>
      Below(cmp, c, lo, i + 1, p) && Above(cmp, c, j, up + 1, p)
  {
  }

  // ----- one step of the sort -----

  /** An element in the middle quarters of the interval (ltablib.c:334-339). */
  function ChoosePivot(lo: nat, up: nat, rnd: nat): (p: nat)
    requires lo + 4 <= up
    ensures lo + (up - lo) / 4 <= p <= up - (up - lo) / 4
  {
    var r4 := (up - lo) / 4;
    rnd % (r4 * 2) + (lo + r4)
  }

  /** Sorts positions `lo` and `up` (ltablib.c:351-356). */
  method SortTwo<T(!new)>(a: array<T>, lo: nat, up: nat, cmp: Cmp<T>, calls0: nat) returns (calls: nat)
    requires lo < up < a.Length
    modifies a
    ensures PermIn(old(a[..]), a[..], lo, up + 1) && (IsOrder(cmp) ==> Le(cmp, a[lo], a[up]))
  {
    var less := cmp(calls0, a[up], a[lo]);
    assert IsOrder(cmp) ==>
      cmp(calls0, a[up], a[lo]) == cmp(0, a[up], a[lo]) && (Le(cmp, a[lo], a[up]) || Le(cmp, a[up], a[lo]));
    calls := calls0 + 1;
    if less {
      Swap(a, lo, up, lo, up);
    }
  }

  /** Sorts the middle one among positions `lo`, `p` and `up`, of which `lo` and `up` are sorted (ltablib.c:363-374). */
  method SortThree<T(!new)>(a: array<T>, lo: nat, p: nat, up: nat, cmp: Cmp<T>, calls0: nat) returns (calls: nat)
    requires lo < p < up < a.Length && (IsOrder(cmp) ==> Le(cmp, a[lo], a[up]))
    modifies a
    ensures PermIn(old(a[..]), a[..], lo, up + 1)
    ensures (IsOrder(cmp) ==> Le(cmp, a[lo], a[p]) && Le(cmp, a[p], a[up]) && Le(cmp, a[lo], a[up]))
  {
    var less := cmp(calls0, a[p], a[lo]);
    ghost var x, y, z := a[lo], a[p], a[up];
    assert IsOrder(cmp) ==>
      cmp(calls0, y, x) == cmp(0, y, x) && (Le(cmp, y, x) || Le(cmp, x, y)) && (Le(cmp, y, z) || Le(cmp, z, y));
    calls := calls0 + 1;
    if less {
      Swap(a, lo, up, p, lo);
    } else {
      less := cmp(calls, a[up], a[p]);
      assert IsOrder(cmp) ==> cmp(calls, z, y) == cmp(0, z, y);
      calls := calls + 1;
      if less {
        Swap(a, lo, up, p, up);
      }
    }
  }

  /** Sorts the ends of the interval and an element between them (ltablib.c:350-376); `done` if there are no others. */
  method MedianOfThree<T(!new)>(a: array<T>, lo: nat, up: nat, rnd: nat, cmp: Cmp<T>, calls0: nat)
    returns (done: bool, p: nat, calls: nat)
    requires lo < up < a.Length
    modifies a
    ensures PermIn(old(a[..]), a[..], lo, up + 1)
    ensures done ==> (IsOrder(cmp) ==> Sorted(cmp, a[..], lo, up + 1))
    ensures done == (up - lo <= 2)
    ensures !done ==> lo + 3 <= up && lo < p < up && (IsOrder(cmp) ==> Le(cmp, a[lo], a[p]) && Le(cmp, a[p], a[up]))
  {
    done, p := true, lo;
    calls := SortTwo(a, lo, up, cmp, calls0);
    if up - lo == 1 {
      return;
    }
    p := if up - lo < RANLIMIT || rnd == 0 then (lo + up) / 2 else ChoosePivot(lo, up, rnd);
    calls := SortThree(a, lo, p, up, cmp, calls);
    done := up - lo == 2;
  }

  /** What one step did to an interval that ends before `hi`: it is sorted if `done`, and otherwise partitioned at
      `p`. */
  ghost predicate Stepped<T(!new)>(cmp: Cmp<T>, ok: bool, done: bool, b: seq<T>, c: seq<T>, lo: nat, p: nat, hi: nat) {
    forall k: nat {:trigger Open(k)} :: Open(k) ==>
      && PermIn(b, c, lo, hi) && (IsOrder(cmp) ==> ok)
      && (ok && !done && IsOrder(cmp) ==> Split(cmp, c, lo, p, hi))
      && (ok && done && IsOrder(cmp) ==> Sorted(cmp, c, lo, hi))
  }

  /** Brings the pivot next to the end, and partitions (ltablib.c:377-381). */
  method Step<T(!new)>(a: array<T>, lo: nat, up: nat, rnd: nat, cmp: Cmp<T>, calls0: nat) returns (ok: bool,
      done: bool, p: nat, calls: nat)
    requires lo < up < a.Length
    modifies a
    ensures Stepped(cmp, ok, done, old(a[..]), a[..], lo, p, up + 1) && (ok && !done ==> lo < p < up)
    ensures if AlwaysTrue(cmp) then ok == (up < lo + 3) else !ok ==> lo + 3 <= up
  {
    ok := true;
    done, p, calls := MedianOfThree(a, lo, up, rnd, cmp, calls0);
    if !done {
      Swap(a, lo, up, p, up - 1);
      ok, p, calls := Partition(a, lo, up, cmp, calls);
    }
  }

  // ----- the sort -----

  /** Elements only moved since `a0`, and with an order all but those from `lo` to `hi` are in their place. */
  ghost predicate Pending<T(!new)>(cmp: Cmp<T>, a0: seq<T>, s: seq<T>, lo0: nat, lo: nat, hi: nat, hi0: nat) {
    forall k: nat {:trigger Open(k)} :: Open(k) ==>
      lo0 <= lo <= hi <= hi0 <= |s| && PermIn(a0, s, lo0, hi0) && (IsOrder(cmp) ==> Rest(cmp, s, lo0, lo, hi, hi0))
  }

  /** Moreover, those are partitioned at `p`. */
  ghost predicate Parted<T(!new)>(cmp: Cmp<T>, a0: seq<T>, s: seq<T>, lo0: nat, lo: nat, p: nat, hi: nat, hi0: nat) {
    && Pending(cmp, a0, s, lo0, lo, hi, hi0)
    && forall k: nat {:trigger Open(k)} :: Open(k) ==> (IsOrder(cmp) ==> Split(cmp, s, lo, p, hi))
  }

  /** The interval was sorted in place: whatever the comparison answers the elements are the same ones, and nothing
      outside changed; with an order there is no error and the interval is sorted. */
  ghost predicate SortedInPlace<T(!new)>(cmp: Cmp<T>, ok: bool, b: seq<T>, c: seq<T>, lo: nat, hi: nat) {
    forall k: nat {:trigger Open(k)} :: Open(k) ==>
      PermIn(b, c, lo, hi) && (IsOrder(cmp) ==> ok && Sorted(cmp, c, lo, hi))
  }

  /** Sorts an interval; recursion is for the smaller part only, so that its depth is logarithmic (ltablib.c:345-396).
      Whatever the comparison answers, the elements stay the same ones and the call ends; it reports an invalid order
      only if the comparison is not a strict weak order. */
  method AuxSort<T(!new)>(a: array<T>, lo0: nat, up0: nat, rnd0: nat, cmp: Cmp<T>, random: nat -> nat, calls0: nat)
    returns (ok: bool, calls: nat, ghost depth: nat)
    requires lo0 <= up0 + 1 <= a.Length
    modifies a
    ensures SortedInPlace(cmp, ok, old(a[..]), a[..], lo0, up0 + 1)
    ensures (depth == 0 || Pow2(depth) <= up0 + 1 - lo0) && (!ok ==> lo0 + 3 <= up0)
    ensures AlwaysTrue(cmp) && lo0 + 3 <= up0 ==> !ok
    decreases up0 + 1 - lo0, 1
  {
    var lo, up, rnd := lo0, up0, rnd0;
    ghost var a0 := a[..];
    ok, calls, depth := true, calls0, 0;
    PendingAtFirst(cmp, a0, lo0, up0 + 1);
    while lo < up
      invariant lo0 <= lo <= up + 1 <= up0 + 1 && ok && Pending(cmp, a0, a[..], lo0, lo, up + 1, up0 + 1)
      invariant depth == 0 || Pow2(depth) <= up0 + 1 - lo0
      invariant AlwaysTrue(cmp) && lo0 + 3 <= up0 ==> lo == lo0 && up == up0
      decreases up + 1 - lo
    {
      ghost var b := a[..];
      var done, p, n;
      ok, done, p, calls := Step(a, lo, up, rnd, cmp, calls);
      StepDone(cmp, ok, done, a0, b, a[..], lo0, lo, p, up + 1, up0 + 1);
      if !ok || done {
        return;
      }
      ghost var d;
      ok, calls, d, n, lo, up := SmallerPart(a, a0, lo0, lo, p, up, up0, rnd, cmp, random, calls);
      depth := if depth < d + 1 then d + 1 else depth;
      if !ok {
        return;
      }
      if (up - lo) / 128 > n {
        rnd := random(calls);
      }
    }
    ShortDone(cmp, a0, a[..], lo0, lo, up + 1, up0 + 1);
  }

  /** Sorts the smaller part, of size `n`, by recursion, and goes on with the other one (ltablib.c:383-394). */
  method SmallerPart<T(!new)>(a: array<T>, ghost a0: seq<T>, ghost lo0: nat, lo: nat, p: nat, up: nat,
      ghost up0: nat, rnd: nat, cmp: Cmp<T>, random: nat -> nat, calls0: nat)
    returns (ok: bool, calls: nat, ghost d: nat, n: nat, lo': nat, up': nat)
    requires lo < p < up <= up0 < a.Length && Parted(cmp, a0, a[..], lo0, lo, p, up + 1, up0 + 1)
    modifies a
    ensures ok ==> Pending(cmp, a0, a[..], lo0, lo', up' + 1, up0 + 1)
    ensures !ok ==> SortedInPlace(cmp, ok, a0, a[..], lo0, up0 + 1) && lo + 3 <= up
    ensures lo <= lo' <= up' <= up && up' - lo' < up - lo && Pow2(d + 1) <= up + 1 - lo
    decreases up + 1 - lo, 0
  {
    ghost var b := a[..];
    if p - lo < up - p {
      ok, calls, d := AuxSort(a, lo, p - 1, rnd, cmp, random, calls0);
      LowerDone(cmp, ok, a0, b, a[..], lo0, lo, p, up + 1, up0 + 1);
      Deeper(d, p - lo, up + 1 - lo);
      n, lo', up' := p - lo, p + 1, up;
    } else {
      ok, calls, d := AuxSort(a, p + 1, up, rnd, cmp, random, calls0);
      UpperDone(cmp, ok, a0, b, a[..], lo0, lo, p, up + 1, up0 + 1);
      Deeper(d, up - p, up + 1 - lo);
      n, lo', up' := up - p, lo, p - 1;
    }
  }

  lemma Deeper(d: nat, part: nat, whole: nat)
    requires (d == 0 || Pow2(d) <= part) && 2 * part <= whole && 2 <= whole
    ensures Pow2(d + 1) <= whole
  {
  }

  lemma PendingAtFirst<T(!new)>(cmp: Cmp<T>, s: seq<T>, lo: nat, hi: nat)
    requires lo <= hi <= |s|
    ensures Pending(cmp, s, s, lo, lo, hi, hi)
  {
  }

  /** After a step the rest is still in its place; if all is sorted, the whole is. */
  lemma StepDone<T(!new)>(cmp: Cmp<T>, ok: bool, done: bool, a0: seq<T>, b: seq<T>, c: seq<T>, lo0: nat, lo: nat,
      p: nat, hi: nat, hi0: nat)
    requires Pending(cmp, a0, b, lo0, lo, hi, hi0) && Stepped(cmp, ok, done, b, c, lo, p, hi)
    ensures ok && !done ==> Parted(cmp, a0, c, lo0, lo, p, hi, hi0)
    ensures !ok || done ==> SortedInPlace(cmp, ok, a0, c, lo0, hi0)
  {
    assert Open(0);
    if IsOrder(cmp) { RestPermuted(cmp, b, c, lo0, lo, hi, hi0); }
  }

  /** The lower part of a partition was sorted, or reported an error. */
  lemma LowerDone<T(!new)>(cmp: Cmp<T>, ok: bool, a0: seq<T>, b: seq<T>, c: seq<T>, lo0: nat, lo: nat, p: nat,
      hi: nat, hi0: nat)
    requires lo < p < hi && Parted(cmp, a0, b, lo0, lo, p, hi, hi0) && SortedInPlace(cmp, ok, b, c, lo, p)
    ensures ok ==> Pending(cmp, a0, c, lo0, p + 1, hi, hi0)
    ensures !ok ==> SortedInPlace(cmp, ok, a0, c, lo0, hi0)
  {
    assert Open(0);
    if IsOrder(cmp) {
      RestPermuted(cmp, b, c, lo0, lo, hi, hi0);
      SplitPermuted(cmp, b, c, lo, p, hi);
      RestLower(cmp, c, lo0, lo, p, hi, hi0);
    }
  }

  lemma UpperDone<T(!new)>(cmp: Cmp<T>, ok: bool, a0: seq<T>, b: seq<T>, c: seq<T>, lo0: nat, lo: nat, p: nat,
      hi: nat, hi0: nat)
    requires lo < p < hi && Parted(cmp, a0, b, lo0, lo, p, hi, hi0) && SortedInPlace(cmp, ok, b, c, p + 1, hi)
    ensures ok ==> Pending(cmp, a0, c, lo0, lo, p, hi0)
    ensures !ok ==> SortedInPlace(cmp, ok, a0, c, lo0, hi0)
  {
    assert Open(0);
    if IsOrder(cmp) {
      RestPermuted(cmp, b, c, lo0, lo, hi, hi0);
      SplitPermuted(cmp, b, c, lo, p, hi);
      RestUpper(cmp, c, lo0, lo, p, hi, hi0);
    }
  }

  lemma ShortDone<T(!new)>(cmp: Cmp<T>, a0: seq<T>, s: seq<T>, lo0: nat, lo: nat, hi: nat, hi0: nat)
    requires Pending(cmp, a0, s, lo0, lo, hi, hi0) && hi <= lo + 1
    ensures SortedInPlace(cmp, true, a0, s, lo0, hi0)
  {
    assert Open(0);
  }

  lemma RestLower<T(!new)>(cmp: Cmp<T>, s: seq<T>, lo0: nat, lo: nat, p: nat, hi: nat, hi0: nat)
    requires lo0 <= lo <= p < hi <= hi0 <= |s| && IsOrder(cmp) && Rest(cmp, s, lo0, lo, hi, hi0)
    requires Split(cmp, s, lo, p, hi) && Sorted(cmp, s, lo, p)
    ensures Rest(cmp, s, lo0, p + 1, hi, hi0)
  {
    forall i, j | 0 <= i && lo0 <= i < j < hi0 && (i < p + 1 || hi <= j) ensures Le(cmp, s[i], s[j]) {
      if lo <= i < p <= j { assert Le(cmp, s[i], s[p]) && (j == p || Le(cmp, s[p], s[j])); }
    }
  }

  lemma RestUpper<T(!new)>(cmp: Cmp<T>, s: seq<T>, lo0: nat, lo: nat, p: nat, hi: nat, hi0: nat)
    requires lo0 <= lo <= p < hi <= hi0 <= |s| && IsOrder(cmp) && Rest(cmp, s, lo0, lo, hi, hi0)
    requires Split(cmp, s, lo, p, hi) && Sorted(cmp, s, p + 1, hi)
    ensures Rest(cmp, s, lo0, lo, p, hi0)
  {
    forall i, j | 0 <= i && lo0 <= i < j < hi0 && (i < lo || p <= j) ensures Le(cmp, s[i], s[j]) {
      if lo <= i <= p < j < hi { assert Le(cmp, s[p], s[j]) && (i == p || Le(cmp, s[i], s[p])); }
    }
  }

  /** 'table.sort' (ltablib.c:399-409). No error is found in less than four elements; in four or more one is, if the
      comparison puts everything before everything. */
  method Sort<T(!new)>(a: array<T>, cmp: Cmp<T>, random: nat -> nat) returns (ok: bool)
    modifies a
    ensures multiset(a[..]) == multiset(old(a[..])) && (IsOrder(cmp) ==> ok && Sorted(cmp, a[..], 0, a.Length))
    ensures a.Length <= 3 ==> ok
    ensures a.Length > 3 && AlwaysTrue(cmp) ==> !ok
  {
    ok := true;
    if a.Length > 1 {
      var calls;
      ghost var depth;
      ok, calls, depth := AuxSort(a, 0, a.Length - 1, 0, cmp, random, 0);
      assert Open(0);
    }
  }

  /** A comparison that is always true is no order, and no error is reported for two elements. */
  method Unreported() returns (ok: bool)
    ensures ok && !IsOrder((k: nat, x: int, y: int) => true)
  {
    var cmp := (k: nat, x: int, y: int) => true;
    var a := new int[2](i => i);
    ok := Sort(a, cmp, k => k);
    assert cmp(0, 1, 1);
  }
}
