/** Names: locals, and chains of upvalues through the functions that enclose a use (lparser.c:193-475). */
module Scoping {

  const MAXUPVAL: nat := 255
  const MAXVARS: nat := 200
  const ENV: string := "_ENV"

  /** A compile-time constant has no register. */
  datatype Kind = Regular | ReadOnly | ToClose | CompileConst

  datatype Var = Var(name: string, kind: Kind, ridx: nat)
  datatype Upvaldesc = Upvaldesc(name: string, instack: bool, idx: nat, kind: Kind)
  datatype Block = Block(nactvar: nat, upval: bool)

  /** A function being compiled; the last block is the innermost one. */
  datatype Func = Func(vars: seq<Var>, ups: seq<Upvaldesc>, blocks: seq<Block>, needclose: bool)

  datatype Exp = VVoid | VConst(depth: nat, cidx: nat) | VLocal(vidx: nat, ridx: nat) | VUpval(idx: nat)

  // ----- lexical scoping -----

  /** What a name denotes: a local variable of one of the functions, the environment of the chunk, or a global. */
  datatype Meaning = Global | Environment | Variable(depth: nat, vidx: nat)

  /** The latest active variable with a name. */
  function FindVar(vars: seq<Var>, n: string): (i: int)
    ensures -1 <= i < |vars| && (i >= 0 ==> vars[i].name == n)
    ensures forall j :: i < j < |vars| ==> vars[j].name != n
  {
    if vars == [] then -1 else if vars[|vars| - 1].name == n then |vars| - 1 else FindVar(vars[..|vars| - 1], n)
  }

  /** The innermost function around depth `d` that has a variable with the name. */
  function Lookup(fss: seq<Func>, d: int, n: string): Meaning
    requires -1 <= d < |fss|
    decreases d + 1
  {
    if d < 0 then (if n == ENV then Environment else Global)
    else if FindVar(fss[d].vars, n) >= 0 then Variable(d, FindVar(fss[d].vars, n))
    else Lookup(fss, d - 1, n)
  }

  lemma {:induction false} LookupDepth(fss: seq<Func>, d: int, n: string)
    requires -1 <= d < |fss|
    ensures var m := Lookup(fss, d, n);
      m.Variable? ==> m.depth <= d && m.vidx < |fss[m.depth].vars| && fss[m.depth].vars[m.vidx].name == n
    decreases d + 1
  {
    if d >= 0 && FindVar(fss[d].vars, n) < 0 { LookupDepth(fss, d - 1, n); }
  }

  // ----- registers -----

  /** The number of variables in registers. */
  function RegLevel(vars: seq<Var>): nat {
    if vars == [] then 0 else RegLevel(vars[..|vars| - 1]) + if vars[|vars| - 1].kind == CompileConst then 0 else 1
  }

  predicate InRegister(vars: seq<Var>, i: nat, r: nat) {
    i < |vars| && vars[i].kind != CompileConst && vars[i].ridx == r
  }

  predicate VarsOk(vars: seq<Var>) {
    forall i {:trigger vars[i]} :: 0 <= i < |vars| && vars[i].kind != CompileConst ==>
      vars[i].ridx == RegLevel(vars[..i])
  }

  lemma {:induction false} RegLevelGrows(vars: seq<Var>, i: nat, j: nat)
    requires i < j <= |vars|
    ensures RegLevel(vars[..i]) <= RegLevel(vars[..j])
    ensures vars[i].kind != CompileConst ==> RegLevel(vars[..i]) < RegLevel(vars[..j])
    decreases j
  {
    assert vars[..j][..j - 1] == vars[..j - 1];
    if i < j - 1 { RegLevelGrows(vars, i, j - 1); }
  }

  /** No two active variables share a register. */
  lemma RegisterOnce(vars: seq<Var>, i: nat, j: nat, r: nat)
    requires VarsOk(vars) && InRegister(vars, i, r) && InRegister(vars, j, r)
    ensures i == j
  {
    if i < j { RegLevelGrows(vars, i, j); } else if j < i { RegLevelGrows(vars, j, i); }
  }

  // ----- following upvalues -----

  /** The variable that an upvalue of function `d` leads to, through registers and upvalues of enclosing functions. */
  ghost function Follow(fss: seq<Func>, d: nat, idx: nat): Meaning
    requires d < |fss| && Chained(fss) && idx < |fss[d].ups|
    decreases d
  {
    if d == 0 then Environment
    else
      var up := fss[d].ups[idx];
      assert UpOk(fss, d, idx);
      if up.instack then
        var i: nat :| InRegister(fss[d - 1].vars, i, up.idx);
        Variable(d - 1, i)
      else Follow(fss, d - 1, up.idx)
  }

  ghost predicate HasRegister(vars: seq<Var>, r: nat) { exists i: nat :: InRegister(vars, i, r) }

  /** An upvalue is in a register of the enclosing function, or is one of its upvalues. */
  ghost predicate UpOk(fss: seq<Func>, d: nat, idx: nat)
    requires d < |fss| && idx < |fss[d].ups|
  {
    d > 0 ==> if fss[d].ups[idx].instack then HasRegister(fss[d - 1].vars, fss[d].ups[idx].idx)
              else fss[d].ups[idx].idx < |fss[d - 1].ups|
  }

  ghost predicate Chained(fss: seq<Func>) {
    forall d, idx {:trigger UpOk(fss, d, idx)} :: 0 <= d < |fss| && 0 <= idx < |fss[d].ups| ==> UpOk(fss, d, idx)
  }

  /** The chain of an upvalue leads to what its name means in the enclosing function. */
  ghost predicate UpRight(fss: seq<Func>, d: nat, idx: nat)
    requires d < |fss| && idx < |fss[d].ups| && Chained(fss)
  {
    var up := fss[d].ups[idx];
    var m := Follow(fss, d, idx);
    m == Lookup(fss, d - 1, up.name) &&
      (m.Variable? ==>
        m.depth < d && m.vidx < |fss[m.depth].vars| && up.kind == fss[m.depth].vars[m.vidx].kind != CompileConst)
  }

  /** The block in which variable `i` was declared is marked, so that the variable is closed when the block ends. */
  predicate BlockMarked(f: Func, i: nat) {
    f.needclose && exists b :: 0 <= b < |f.blocks| && MarkedIn(f, b, i)
  }

  predicate MarkedIn(f: Func, b: nat, i: nat)
    requires b < |f.blocks|
  {
    f.blocks[b].upval && f.blocks[b].nactvar <= i && (b + 1 < |f.blocks| ==> i < f.blocks[b + 1].nactvar)
  }

  /** No two upvalues of a function have the same name, so that a variable is captured once. */
  predicate Distinct(ups: seq<Upvaldesc>) {
    forall i, j {:trigger ups[i], ups[j]} :: 0 <= i < j < |ups| ==> ups[i].name != ups[j].name
  }

  predicate FuncOk(f: Func) {
    && VarsOk(f.vars) && Distinct(f.ups) && |f.blocks| > 0 && f.blocks[0].nactvar == 0
    && (forall b {:trigger f.blocks[b]} :: 0 <= b < |f.blocks| ==> f.blocks[b].nactvar <= |f.vars|)
    && (forall b, c {:trigger f.blocks[b], f.blocks[c]} :: 0 <= b < c < |f.blocks| ==>
      f.blocks[b].nactvar <= f.blocks[c].nactvar)
  }

  ghost predicate Captures(fss: seq<Func>, d: nat, idx: nat)
    requires d < |fss| && idx < |fss[d].ups|
  {
    d > 0 && fss[d].ups[idx].instack ==>
      forall i: nat {:trigger InRegister(fss[d - 1].vars, i, fss[d].ups[idx].idx)} ::
        InRegister(fss[d - 1].vars, i, fss[d].ups[idx].idx) ==> BlockMarked(fss[d - 1], i)
  }

  /** The invariant of the parser. */
  ghost predicate Valid(fss: seq<Func>) {
    && |fss| > 0 && |fss[0].ups| == 1 && fss[0].ups[0].name == ENV && Chained(fss)
    && (forall d {:trigger fss[d]} :: 0 <= d < |fss| ==> FuncOk(fss[d]))
    && (forall d, idx {:trigger UpRight(fss, d, idx)} :: 0 <= d < |fss| && 0 <= idx < |fss[d].ups| ==>
      UpRight(fss, d, idx))
    && (forall d, idx {:trigger Captures(fss, d, idx)} :: 0 <= d < |fss| && 0 <= idx < |fss[d].ups| ==>
      Captures(fss, d, idx))
  }

  // ----- what does not disturb enclosing functions -----

  /** Functions 0..`n` have the same variables, and at least the same upvalues. */
  predicate Frozen(fss: seq<Func>, fss': seq<Func>, n: nat) {
    n <= |fss| && n <= |fss'| && forall d {:trigger fss'[d]} :: 0 <= d < n ==>
      fss'[d].vars == fss[d].vars && fss[d].ups <= fss'[d].ups
  }

  lemma {:induction false} LookupFrozen(fss: seq<Func>, fss': seq<Func>, n: nat, d: int, name: string)
    requires Frozen(fss, fss', n) && -1 <= d < n
    ensures Lookup(fss', d, name) == Lookup(fss, d, name)
    decreases d + 1
  {
    if d >= 0 { assert fss'[d].vars == fss[d].vars; LookupFrozen(fss, fss', n, d - 1, name); }
  }

  /** A chain that existed still leads to the same variable. */
  lemma {:induction false} FollowFrozen(fss: seq<Func>, fss': seq<Func>, n: nat, d: nat, idx: nat)
    requires Frozen(fss, fss', n) && d < |fss| && d < |fss'| && d <= n && Chained(fss) && Chained(fss')
    requires idx < |fss[d].ups| && idx < |fss'[d].ups| && fss'[d].ups[idx] == fss[d].ups[idx]
    requires forall e :: 0 <= e < d ==> VarsOk(fss[e].vars)
    ensures Follow(fss', d, idx) == Follow(fss, d, idx)
    decreases d
  {
    if d > 0 {
      var up := fss[d].ups[idx];
      assert UpOk(fss, d, idx) && UpOk(fss', d, idx);
      assert fss'[d - 1].vars == fss[d - 1].vars;
      if up.instack {
        assert VarsOk(fss[d - 1].vars);
        var i := Follow(fss, d, idx).vidx;
        var j := Follow(fss', d, idx).vidx;
        RegisterOnce(fss[d - 1].vars, i, j, up.idx);
      } else {
        FollowFrozen(fss, fss', n, d - 1, up.idx);
      }
    }
  }

  /** Only the locals and blocks of the innermost function change. */
  lemma TopChanged(fss: seq<Func>, fss': seq<Func>)
    requires Valid(fss) && |fss'| == |fss| && fss'[..|fss| - 1] == fss[..|fss| - 1]
    requires FuncOk(fss'[|fss| - 1]) && fss'[|fss| - 1].ups == fss[|fss| - 1].ups
    ensures Valid(fss')
  {
    var n := |fss| - 1;
    forall d | 0 <= d < n ensures fss'[d] == fss[d] { assert fss'[..n][d] == fss[..n][d]; }
    forall d, idx | 0 <= d <= n && 0 <= idx < |fss'[d].ups| ensures UpOk(fss', d, idx) && Captures(fss', d, idx) {
      assert UpOk(fss, d, idx) && Captures(fss, d, idx);
    }
    forall d, idx | 0 <= d <= n && 0 <= idx < |fss'[d].ups| ensures UpRight(fss', d, idx) {
      UpRightFrozen(fss, fss', n, d, idx);
    }
  }

  lemma UpRightFrozen(fss: seq<Func>, fss': seq<Func>, n: nat, d: nat, idx: nat)
    requires Valid(fss) && Chained(fss') && Frozen(fss, fss', n) && d <= n && d < |fss| && d < |fss'|
    requires idx < |fss[d].ups| && idx < |fss'[d].ups| && fss'[d].ups[idx] == fss[d].ups[idx]
    ensures UpRight(fss', d, idx)
  {
    forall e | 0 <= e < d
      ensures VarsOk(fss[e].vars) && fss'[e].vars == fss[e].vars
      { assert FuncOk(fss[e]) && fss'[e].vars == fss[e].vars; }
    assert UpRight(fss, d, idx);
    FollowFrozen(fss, fss', n, d, idx);
    LookupFrozen(fss, fss', n, d - 1, fss[d].ups[idx].name);
  }

  /** A new function has no variables yet. */
  lemma Pushed(fss: seq<Func>)
    requires Valid(fss)
    ensures Valid(fss + [Func([], [], [Block(0, false)], false)])
  {
    var n := |fss|;
    var fss' := fss + [Func([], [], [Block(0, false)], false)];
    forall d, idx | 0 <= d <= n && 0 <= idx < |fss'[d].ups| ensures UpOk(fss', d, idx) && Captures(fss', d, idx) {
      assert UpOk(fss, d, idx) && Captures(fss, d, idx);
    }
    forall d, idx | 0 <= d <= n && 0 <= idx < |fss'[d].ups|
      ensures UpRight(fss', d, idx) { UpRightFrozen(fss, fss', n, d, idx); }
  }

  lemma Popped(fss: seq<Func>)
    requires Valid(fss) && |fss| > 1
    ensures Valid(fss[..|fss| - 1])
  {
    var n := |fss| - 1;
    var fss' := fss[..n];
    forall d, idx | 0 <= d < n && 0 <= idx < |fss'[d].ups| ensures UpOk(fss', d, idx) && Captures(fss', d, idx) {
      assert UpOk(fss, d, idx) && Captures(fss, d, idx);
    }
    forall d, idx | 0 <= d < n && 0 <= idx < |fss'[d].ups|
      ensures UpRight(fss', d, idx) { UpRightFrozen(fss, fss', n, d, idx); }
  }

  // ----- capturing a variable -----

  /** The block of a variable is marked, here or before. */
  lemma Marked(fss: seq<Func>, d: nat, b: nat, i: nat)
    requires Valid(fss) && d < |fss| && b < |fss[d].blocks| && i < |fss[d].vars|
    requires fss[d].blocks[b].nactvar <= i && (b + 1 < |fss[d].blocks| ==> i < fss[d].blocks[b + 1].nactvar)
    ensures var f := fss[d].(blocks := fss[d].blocks[b := fss[d].blocks[b].(upval := true)], needclose := true);
      Valid(fss[d := f]) && BlockMarked(f, i) && Frozen(fss, fss[d := f], |fss|)
  {
    var f := fss[d].(blocks := fss[d].blocks[b := fss[d].blocks[b].(upval := true)], needclose := true);
    var fss' := fss[d := f];
    assert MarkedIn(f, b, i);
    assert FuncOk(fss[d]);
    forall e, idx | 0 <= e < |fss| && 0 <= idx < |fss'[e].ups| ensures UpOk(fss', e, idx) && Captures(fss', e, idx) {
      assert UpOk(fss, e, idx) && Captures(fss, e, idx);
      if e > 0 && e - 1 == d {
        forall j: nat | InRegister(fss'[d].vars, j, fss'[e].ups[idx].idx) && fss'[e].ups[idx].instack
          ensures BlockMarked(f, j) {
          StillMarked(fss[d], f, b, j);
        }
      }
    }
    forall e, idx | 0 <= e < |fss| && 0 <= idx < |fss'[e].ups|
      ensures UpRight(fss', e, idx) { UpRightFrozen(fss, fss', |fss|, e, idx); }
  }

  lemma StillMarked(f: Func, f': Func, b: nat, j: nat)
    requires b < |f.blocks| && f' == f.(blocks := f.blocks[b := f.blocks[b].(upval := true)], needclose := true)
    requires BlockMarked(f, j)
    ensures BlockMarked(f', j)
  {
    var c :| 0 <= c < |f.blocks| && MarkedIn(f, c, j);
    assert MarkedIn(f', c, j);
  }

  lemma SameBlocks(f: Func, f': Func, i: nat)
    requires f'.blocks == f.blocks && f'.needclose == f.needclose && BlockMarked(f, i)
    ensures BlockMarked(f', i)
  {
    var b :| 0 <= b < |f.blocks| && MarkedIn(f, b, i);
    assert MarkedIn(f', b, i);
  }

  predicate NoUpvalue(ups: seq<Upvaldesc>, n: string) { forall i :: 0 <= i < |ups| ==> ups[i].name != n }

  /** The only upvalues added are ones with a given name, to functions up to `d`, and one to a function. */
  predicate Added(fss: seq<Func>, fss': seq<Func>, d: int, n: string) {
    |fss'| == |fss| && forall c {:trigger fss'[c]} :: 0 <= c < |fss| ==>
      fss'[c].ups == fss[c].ups || (c <= d && |fss'[c].ups| == |fss[c].ups| + 1 && fss[c].ups <= fss'[c].ups &&
        fss'[c].ups[|fss[c].ups|].name == n)
  }

  predicate SameUps(fss: seq<Func>, fss': seq<Func>) {
    |fss'| == |fss| && forall c {:trigger fss'[c]} :: 0 <= c < |fss| ==> fss'[c].ups == fss[c].ups
  }

  /** What a descriptor found for function `d` stands for. */
  ghost predicate Means(fss: seq<Func>, d: int, e: Exp, m: Meaning)
    requires -1 <= d < |fss| && Chained(fss)
  {
    match e
    case VVoid => m == Global
    case VConst(depth, c) => m == Variable(depth, c) && depth <= d && c < |fss[depth].vars| &&
      fss[depth].vars[c].kind == CompileConst
    case VLocal(i, r) => d >= 0 && m == Variable(d, i) && InRegister(fss[d].vars, i, r)
    case VUpval(idx) => d >= 0 && idx < |fss[d].ups| && m == Follow(fss, d, idx) && UpRight(fss, d, idx)
  }

  function KindOf(fss: seq<Func>, d: nat, e: Exp): Kind
    requires d < |fss|
  {
    if e.VLocal? && e.vidx < |fss[d].vars| then fss[d].vars[e.vidx].kind else if e.VUpval? && e.idx < |fss[d].ups|
      then fss[d].ups[e.idx].kind else Regular
  }

  /** A new upvalue for a variable, or an upvalue, of the enclosing function. */
  lemma UpvalueAdded(fss: seq<Func>, d: nat, n: string, e: Exp, up: Upvaldesc)
    requires d < |fss| && NoUpvalue(fss[d].ups, n)
    requires Valid(fss) && 0 < d < |fss| && (e.VLocal? || e.VUpval?) && Means(fss, d - 1, e, Lookup(fss, d - 1, n))
    requires e.VLocal? ==> BlockMarked(fss[d - 1], e.vidx)
    requires up == Upvaldesc(n, e.VLocal?, if e.VLocal? then e.ridx else e.idx, KindOf(fss, d - 1, e))
    ensures var fss' := fss[d := fss[d].(ups := fss[d].ups + [up])];
      Valid(fss') && Frozen(fss, fss', |fss|) && Means(fss', d, VUpval(|fss[d].ups|), Lookup(fss, d - 1, n))
  {
    var fss' := fss[d := fss[d].(ups := fss[d].ups + [up])];
    var k := |fss[d].ups|;
    assert FuncOk(fss[d - 1]) && FuncOk(fss[d]);
    forall c, idx | 0 <= c < |fss| && 0 <= idx < |fss'[c].ups| ensures UpOk(fss', c, idx) {
      if c == d && idx == k {
        assert e.VLocal? ==> InRegister(fss[d - 1].vars, e.vidx, e.ridx);
      } else {
        assert UpOk(fss, c, idx);
      }
    }
    forall c, idx | 0 <= c < |fss| && 0 <= idx < |fss'[c].ups| ensures Captures(fss', c, idx) {
      if c == d && idx == k {
        if e.VLocal? {
          var outer, r := fss'[d - 1], fss'[d].ups[k].idx;
          assert outer == fss[d - 1] && r == e.ridx;
          forall i: nat {:trigger InRegister(outer.vars, i, r)} | InRegister(outer.vars, i, r)
            ensures BlockMarked(outer, i) {
            RegisterOnce(outer.vars, i, e.vidx, r);
          }
        }
      } else {
        assert Captures(fss, c, idx);
        if c == d + 1 {
          forall i: nat | BlockMarked(fss[d], i) ensures BlockMarked(fss'[d], i) { SameBlocks(fss[d], fss'[d], i); }
        }
      }
    }
    UpvalueRight(fss, d, n, e, up);
    forall c, idx | 0 <= c < |fss| && 0 <= idx < |fss'[c].ups| ensures UpRight(fss', c, idx) {
      if !(c == d && idx == k) { UpRightFrozen(fss, fss', |fss|, c, idx); }
    }
  }

  lemma UpvalueRight(fss: seq<Func>, d: nat, n: string, e: Exp, up: Upvaldesc)
    requires Valid(fss) && 0 < d < |fss| && (e.VLocal? || e.VUpval?) && Means(fss, d - 1, e, Lookup(fss, d - 1, n))
    requires up == Upvaldesc(n, e.VLocal?, if e.VLocal? then e.ridx else e.idx, KindOf(fss, d - 1, e))
    requires Chained(fss[d := fss[d].(ups := fss[d].ups + [up])])
    ensures var fss' := fss[d := fss[d].(ups := fss[d].ups + [up])];
      UpRight(fss', d, |fss[d].ups|) && Follow(fss', d, |fss[d].ups|) == Lookup(fss, d - 1, n)
  {
    var fss' := fss[d := fss[d].(ups := fss[d].ups + [up])];
    var k := |fss[d].ups|;
    assert UpOk(fss', d, k);
    LookupFrozen(fss, fss', |fss|, d - 1, n);
    if e.VLocal? {
      assert VarsOk(fss[d - 1].vars) by { assert FuncOk(fss[d - 1]); }
      RegisterOnce(fss[d - 1].vars, e.vidx, Follow(fss', d, k).vidx, e.ridx);
    } else {
      forall c | 0 <= c < d ensures VarsOk(fss[c].vars) { assert FuncOk(fss[c]); }
      FollowFrozen(fss, fss', |fss|, d - 1, e.idx);
    }
  }

  // ----- the parser's functions -----

  class Parser {
    var fss: seq<Func>

    /** The main function, whose one upvalue is the environment (lparser.c:1923-1938). */
    constructor ()
      ensures Valid(fss) && fss == [Func([], [Upvaldesc(ENV, true, 0, Regular)], [Block(0, false)], false)]
    {
      fss := [Func([], [Upvaldesc(ENV, true, 0, Regular)], [Block(0, false)], false)];
      assert UpOk([Func([], [Upvaldesc(ENV, true, 0, Regular)], [Block(0, false)], false)], 0, 0);
    }

    /** A function inside the innermost one. */
    method OpenFunction()
      requires Valid(fss)
      modifies this
      ensures Valid(fss) && fss == old(fss) + [Func([], [], [Block(0, false)], false)]
    {
      Pushed(fss);
      fss := fss + [Func([], [], [Block(0, false)], false)];
    }

    method CloseFunction()
      requires Valid(fss) && |fss| > 1
      modifies this
      ensures Valid(fss) && fss == old(fss)[..|old(fss)| - 1]
    {
      Popped(fss);
      fss := fss[..|fss| - 1];
    }

    method EnterBlock()
      requires Valid(fss)
      modifies this
      ensures Valid(fss) && |fss| == |old(fss)| && fss[..|fss| - 1] == old(fss)[..|fss| - 1]
      ensures var f := old(fss)[|fss| - 1];
        fss[|fss| - 1] == f.(blocks := f.blocks + [Block(|f.vars|, false)])
    {
      var n := |fss| - 1;
      assert FuncOk(fss[n]);
      var f := fss[n].(blocks := fss[n].blocks + [Block(|fss[n].vars|, false)]);
      TopChanged(fss, fss[n := f]);
      fss := fss[n := f];
    }

    /** The variables of the block go out of scope; says whether they have to be closed (lparser.c:672-692). */
    method LeaveBlock() returns (close: bool)
      requires Valid(fss) && |fss[|fss| - 1].blocks| > 1
      modifies this
      ensures Valid(fss) && |fss| == |old(fss)| && fss[..|fss| - 1] == old(fss)[..|fss| - 1]
      ensures var f := old(fss)[|fss| - 1]; var bl := f.blocks[|f.blocks| - 1];
        bl.nactvar <= |f.vars| && close == bl.upval &&
        fss[|fss| - 1] == f.(blocks := f.blocks[..|f.blocks| - 1], vars := f.vars[..bl.nactvar])
    {
      var n := |fss| - 1;
      var f := fss[n];
      assert FuncOk(f);
      var bl := f.blocks[|f.blocks| - 1];
      close := bl.upval;
      var f' := f.(blocks := f.blocks[..|f.blocks| - 1], vars := f.vars[..bl.nactvar]);
      forall i | 0 <= i < |f'.vars| && f'.vars[i].kind != CompileConst
        ensures f'.vars[i].ridx == RegLevel(f'.vars[..i]) {
        assert f'.vars[..i] == f.vars[..i] && f'.vars[i] == f.vars[i];
      }
      TopChanged(fss, fss[n := f']);
      fss := fss[n := f'];
    }

    /** The register level of the innermost function (lparser.c:229-236). */
    method NVarStack() returns (r: nat)
      requires Valid(fss)
      ensures r == RegLevel(fss[|fss| - 1].vars)
    {
      var vars := fss[|fss| - 1].vars;
      assert FuncOk(fss[|fss| - 1]);
      var nvar := |vars|;
      assert vars[..nvar] == vars;
      while nvar > 0
        invariant 0 <= nvar <= |vars| && RegLevel(vars[..nvar]) == RegLevel(vars)
      {
        nvar := nvar - 1;
        assert vars[..nvar + 1][..nvar] == vars[..nvar];
        if vars[nvar].kind != CompileConst {
          return vars[nvar].ridx + 1;
        }
      }
      r := 0;
    }

    /** Declares a local variable and starts its scope; too many are an error (lparser.c:193-206, 311-321). */
    method NewLocal(name: string, kind: Kind) returns (ok: bool)
      requires Valid(fss)
      modifies this
      ensures Valid(fss) && |fss| == |old(fss)| && ok == (|old(fss)[|fss| - 1].vars| < MAXVARS)
      ensures ok ==> Lookup(fss, |fss| - 1, name) == Variable(|fss| - 1, |old(fss)[|fss| - 1].vars|)
      ensures ok ==> fss[..|fss| - 1] == old(fss)[..|fss| - 1] && var f := old(fss)[|fss| - 1];
        fss[|fss| - 1] == f.(vars := f.vars + [Var(name, kind, RegLevel(f.vars))])
      ensures !ok ==> fss == old(fss)
    {
      var n := |fss| - 1;
      var f := fss[n];
      ok := |f.vars| < MAXVARS;
      if ok {
        var r := NVarStack();
        var f' := f.(vars := f.vars + [Var(name, kind, r)]);
        assert FuncOk(f);
        forall i | 0 <= i < |f'.vars| && f'.vars[i].kind != CompileConst
          ensures f'.vars[i].ridx == RegLevel(f'.vars[..i]) {
          assert f'.vars[..i] == if i < |f.vars| then f.vars[..i] else f.vars;
          assert i < |f.vars| ==> f'.vars[i] == f.vars[i];
        }
        TopChanged(fss, fss[n := f']);
        fss := fss[n := f'];
      }
    }

    /** Marks the block in which a variable was declared (lparser.c:410-416). */
    method MarkUpval(d: nat, level: nat)
      requires Valid(fss) && d < |fss| && level < |fss[d].vars|
      modifies this
      ensures Valid(fss) && |fss| == |old(fss)| && Frozen(old(fss), fss, |fss|) && BlockMarked(fss[d], level)
      ensures forall c :: 0 <= c < |fss| ==> fss[c].ups == old(fss)[c].ups
    {
      var bs := fss[d].blocks;
      assert FuncOk(fss[d]);
      var b := |bs| - 1;
      while bs[b].nactvar > level
        invariant 0 <= b < |bs| && (b + 1 < |bs| ==> level < bs[b + 1].nactvar)
        decreases b
      {
        b := b - 1;
      }
      Marked(fss, d, b, level);
      fss := fss[d := fss[d].(blocks := bs[b := bs[b].(upval := true)], needclose := true)];
    }

    /** Searches the active variables of a function, the latest first (lparser.c:390-403). */
    method SearchVar(d: nat, n: string) returns (found: bool, e: Exp)
      requires Valid(fss) && d < |fss|
      ensures found == (FindVar(fss[d].vars, n) >= 0)
      ensures found ==> Means(fss, d, e, Variable(d, FindVar(fss[d].vars, n))) && (e.VLocal? || e.VConst?)
    {
      var vars := fss[d].vars;
      var i := |vars| - 1;
      assert vars[..i + 1] == vars;
      while i >= 0
        invariant -1 <= i < |vars| && FindVar(vars[..i + 1], n) == FindVar(vars, n)
      {
        if vars[i].name == n {
          e := if vars[i].kind == CompileConst then VConst(d, i) else VLocal(i, vars[i].ridx);
          return true, e;
        }
        assert vars[..i + 1][..i] == vars[..i];
        i := i - 1;
      }
      found, e := false, VVoid;
    }

    /** Searches the upvalues of a function by name (lparser.c:342-349). */
    method SearchUpvalue(d: nat, n: string) returns (found: bool, idx: nat)
      requires d < |fss|
      ensures found ==> idx < |fss[d].ups| && fss[d].ups[idx].name == n
      ensures !found ==> NoUpvalue(fss[d].ups, n)
    {
      idx := 0;
      while idx < |fss[d].ups|
        invariant idx <= |fss[d].ups| && forall i :: 0 <= i < idx ==> fss[d].ups[i].name != n
      {
        if fss[d].ups[idx].name == n {
          return true, idx;
        }
        idx := idx + 1;
      }
      found := false;
    }

    /** Adds an upvalue; too many are an error (lparser.c:352-382). */
    method NewUpvalue(d: nat, n: string, e: Exp) returns (ok: bool, idx: nat)
      requires Valid(fss) && 0 < d < |fss| && (e.VLocal? || e.VUpval?) && Means(fss, d - 1, e, Lookup(fss, d - 1, n))
      requires (e.VLocal? ==> BlockMarked(fss[d - 1], e.vidx)) && NoUpvalue(fss[d].ups, n)
      modifies this
      ensures ok ==> idx == |old(fss)[d].ups| && Added(old(fss), fss, d, n)
      ensures ok ==> forall c :: 0 <= c < |fss| && c != d ==> fss[c] == old(fss)[c]
      ensures ok == (|old(fss)[d].ups| < MAXUPVAL) && (!ok ==> fss == old(fss))
      ensures ok ==>
        Valid(fss) && Frozen(old(fss), fss, |fss|) && |fss| == |old(fss)| &&
        Means(fss, d, VUpval(idx), Lookup(old(fss), d - 1, n))
    {
      idx := |fss[d].ups|;
      ok := idx < MAXUPVAL;
      if ok {
        var up := if e.VLocal? then Upvaldesc(n, true, e.ridx, fss[d - 1].vars[e.vidx].kind)
          else Upvaldesc(n, false, e.idx, fss[d - 1].ups[e.idx].kind);
        UpvalueAdded(fss, d, n, e, up);
        fss := fss[d := fss[d].(ups := fss[d].ups + [up])];
      }
    }

    /** Finds what a name means in function `d`, adding upvalues to the functions on the way (lparser.c:435-456). The
        answer is that of lexical scoping, and it takes nothing from the functions' variables. */
    method SingleVarAux(d: int, n: string, base: bool) returns (ok: bool, e: Exp)
      requires Valid(fss) && -1 <= d < |fss| && (d < 0 ==> n != ENV)
      modifies this
      ensures ok ==> Valid(fss) && |fss| == |old(fss)| && Frozen(old(fss), fss, |fss|)
      ensures ok ==> Means(fss, d, e, Lookup(old(fss), d, n))
      ensures ok && !base && e.VLocal? ==> BlockMarked(fss[d], e.vidx)
      ensures ok ==> Added(old(fss), fss, d, n) && (!e.VUpval? ==> SameUps(old(fss), fss))
      ensures !ok ==> Full(fss)
      decreases d + 1, 1
    {
      if d < 0 {
        return true, VVoid;
      }
      var found;
      ok := true;
      found, e := SearchVar(d, n);
      if found {
        if e.VLocal? && !base {
          ghost var before := fss;
          MarkUpval(d, e.vidx);
          assert fss[d].vars == before[d].vars;
        }
      } else {
        ok, e := Upwards(d, n);
      }
    }

    /** The name is no local variable of function `d`. */
    method Upwards(d: nat, n: string) returns (ok: bool, e: Exp)
      requires Valid(fss) && d < |fss| && FindVar(fss[d].vars, n) < 0
      modifies this
      ensures ok ==> Valid(fss) && |fss| == |old(fss)| && Frozen(old(fss), fss, |fss|)
      ensures ok ==> Means(fss, d, e, Lookup(old(fss), d, n)) && !e.VLocal?
      ensures ok ==> Added(old(fss), fss, d, n) && (!e.VUpval? ==> SameUps(old(fss), fss))
      ensures !ok ==> Full(fss)
      decreases d + 1, 0
    {
      var found, idx := SearchUpvalue(d, n);
      ok := true;
      if found {
        assert UpRight(fss, d, idx);
        e := VUpval(idx);
        return;
      }
      assert n != ENV || d > 0 by { assert d == 0 ==> fss[0].ups[0].name == ENV; }
      ok, e := SingleVarAux(d - 1, n, false);
      if ok && (e.VLocal? || e.VUpval?) {
        ok, e := Capture(old(fss), d, n, e);
      }
    }

    /** A variable of the enclosing function becomes an upvalue. */
    method Capture(ghost before: seq<Func>, d: nat, n: string, outer: Exp) returns (ok: bool, e: Exp)
      requires Valid(fss) && d < |fss| && |before| == |fss| && Frozen(before, fss, |fss|)
      requires FindVar(before[d].vars, n) < 0 && Added(before, fss, d - 1, n) && NoUpvalue(before[d].ups, n)
      requires (outer.VLocal? || outer.VUpval?) && Means(fss, d - 1, outer, Lookup(before, d - 1, n))
      requires (outer.VLocal? ==> BlockMarked(fss[d - 1], outer.vidx))
      modifies this
      ensures ok ==> Valid(fss) && |fss| == |before| && Frozen(before, fss, |fss|)
      ensures ok ==> Means(fss, d, e, Lookup(before, d, n)) && e.VUpval? && Added(before, fss, d, n)
      ensures !ok ==> Full(fss)
    {
      LookupFrozen(before, fss, |fss|, d - 1, n);
      var idx;
      ok, idx := NewUpvalue(d, n, outer);
      e := VUpval(idx);
    }

    /** A name in the innermost function: a variable, or an entry of the environment (lparser.c:463-475). */
    method SingleVar(n: string) returns (ok: bool, e: Exp, global: bool)
      requires Valid(fss)
      modifies this
      ensures ok ==> Valid(fss) && |fss| == |old(fss)| && Frozen(old(fss), fss, |fss|)
      ensures ok ==> !e.VVoid? && global == (Lookup(old(fss), |fss| - 1, n) == Global)
      ensures ok && !global ==> Means(fss, |fss| - 1, e, Lookup(old(fss), |fss| - 1, n))
      ensures ok && global ==> Means(fss, |fss| - 1, e, Lookup(old(fss), |fss| - 1, ENV))
      ensures ok ==> Added(old(fss), fss, |fss| - 1, if global then ENV else n)
      ensures !ok ==> Full(fss)
    {
      global := false;
      ok, e := SingleVarAux(|fss| - 1, n, true);
      if ok {
        ok, e, global := Qualified(old(fss), n, e);
      }
    }

    /** A name that is no variable is an entry of the environment. */
    method Qualified(ghost before: seq<Func>, n: string, e0: Exp) returns (ok: bool, e: Exp, global: bool)
      requires Valid(fss) && |before| == |fss| && Frozen(before, fss, |fss|)
      requires Added(before, fss, |fss| - 1, n) && (!e0.VUpval? ==> SameUps(before, fss))
      requires Means(fss, |fss| - 1, e0, Lookup(before, |fss| - 1, n))
      modifies this
      ensures ok ==> Valid(fss) && |fss| == |before| && Frozen(before, fss, |fss|)
      ensures ok ==> !e.VVoid? && global == (Lookup(before, |fss| - 1, n) == Global)
      ensures ok && !global ==> Means(fss, |fss| - 1, e, Lookup(before, |fss| - 1, n))
      ensures ok && global ==> Means(fss, |fss| - 1, e, Lookup(before, |fss| - 1, ENV))
      ensures ok ==> Added(before, fss, |fss| - 1, if global then ENV else n)
      ensures !ok ==> Full(fss)
    {
      NotVoid(fss, |fss| - 1, e0, Lookup(before, |fss| - 1, n));
      ok, e, global := true, e0, e0.VVoid?;
      if global {
        ok, e := Environment(before);
      }
    }

    /** The environment, which is an upvalue of the outermost function at least. */
    method Environment(ghost before: seq<Func>) returns (ok: bool, e: Exp)
      requires Valid(fss) && |before| == |fss| && Frozen(before, fss, |fss|) && SameUps(before, fss)
      modifies this
      ensures ok ==> Added(before, fss, |fss| - 1, ENV)
      ensures ok ==> Valid(fss) && |fss| == |before| && Frozen(before, fss, |fss|)
      ensures ok ==> Means(fss, |fss| - 1, e, Lookup(before, |fss| - 1, ENV)) && !e.VVoid?
      ensures !ok ==> Full(fss)
    {
      ghost var now := fss;
      ok, e := SingleVarAux(|fss| - 1, ENV, true);
      if ok { EnvironmentFound(before, now, fss, e); }
    }
  }

  /** Some function has as many upvalues as it can have. */
  predicate Full(fss: seq<Func>) { exists d {:trigger fss[d]} :: 0 <= d < |fss| && |fss[d].ups| >= MAXUPVAL }

  lemma {:induction false} EnvExists(fss: seq<Func>, d: int)
    requires -1 <= d < |fss|
    ensures Lookup(fss, d, ENV) != Global
    decreases d + 1
  {
    if d >= 0 && FindVar(fss[d].vars, ENV) < 0 { EnvExists(fss, d - 1); }
  }

  lemma {:induction false} FollowNotGlobal(fss: seq<Func>, d: nat, idx: nat)
    requires d < |fss| && Chained(fss) && idx < |fss[d].ups|
    ensures Follow(fss, d, idx) != Global
    decreases d
  {
    assert UpOk(fss, d, idx);
    if d > 0 && !fss[d].ups[idx].instack { FollowNotGlobal(fss, d - 1, fss[d].ups[idx].idx); }
  }

  lemma EnvironmentFound(before: seq<Func>, now: seq<Func>, fss: seq<Func>, e: Exp)
    requires 0 < |before| == |now| == |fss| && Chained(fss) && Frozen(before, now, |now|) && Frozen(now, fss, |fss|)
    requires Means(fss, |fss| - 1, e, Lookup(now, |fss| - 1, ENV))
    ensures Frozen(before, fss, |fss|) && Means(fss, |fss| - 1, e, Lookup(before, |fss| - 1, ENV)) && !e.VVoid?
  {
    var d := |fss| - 1;
    FrozenTrans(before, now, fss);
    LookupFrozen(before, now, |now|, d, ENV);
    var m := Lookup(now, d, ENV);
    assert m == Lookup(before, d, ENV) != Global by { EnvExists(before, d); }
    NotVoid(fss, d, e, m);
  }

  lemma FrozenTrans(before: seq<Func>, now: seq<Func>, fss: seq<Func>)
    requires |before| == |now| == |fss| && Frozen(before, now, |now|) && Frozen(now, fss, |fss|)
    ensures Frozen(before, fss, |fss|)
  {
    forall d | 0 <= d < |fss| ensures fss[d].vars == before[d].vars && before[d].ups <= fss[d].ups {
      assert now[d].vars == before[d].vars && before[d].ups <= now[d].ups <= fss[d].ups;
    }
  }

  lemma NotVoid(fss: seq<Func>, d: int, e: Exp, m: Meaning)
    requires -1 <= d < |fss| && Chained(fss) && Means(fss, d, e, m)
    ensures e.VVoid? <==> m == Global
  {
    if e.VUpval? { FollowNotGlobal(fss, d, e.idx); }
  }
}
