/** Why each operation of the code generator keeps the meaning of the expression being compiled. */
module ExprLemmas {
  import opened JumpCode
  import opened ExprSpec

  // ----- starting -----

  function NoJumps(k: Kind): Exp { Exp(k, -1, -1) }

  predicate Plain(k: Kind) { !k.VReloc? && !k.VJmp? }

  lemma GivesLeaf(c: Fs, p: set<nat>, k: Kind, x: Expr)
    requires Start(c, p) && Tail(c, k) && Plain(k)
    requires forall env, r :: Final(env, c, k, r) == Eval(env, x, r)
    ensures Good(c, p, c, NoJumps(k), [], []) && Gives(c, p, c, NoJumps(k), [], [], x, NO_REG)
  {
    assert p + SetOf([]) + SetOf([]) == p;
    forall env: Env, o: Out | Agrees(env, c.k) && Entry(c.code, c.last, o.pc)
      ensures Result(env, c, p, c, NoJumps(k), [], [], x, NO_REG, o)
    {
      RunInside(env, c.code, p, c.last, o);
    }
  }

  /** Another description of the same code. */
  lemma GivesSame(c0: Fs, p0: set<nat>, c: Fs, e: Exp, c': Fs, e': Exp, tl: seq<nat>, fl: seq<nat>, x: Expr, hole: nat)
    requires Good(c0, p0, c, e, tl, fl) && Gives(c0, p0, c, e, tl, fl, x, hole)
    requires Tail(c', e'.k) && Body(c', e'.k) == Body(c, e.k) && e'.t == e.t && e'.f == e.f
    requires c'.nact == c.nact && c'.last == c.last && c.k <= c'.k
    requires forall env, r :: Agrees(env, c'.k) ==> Final(env, c', e'.k, r) == Final(env, c, e.k, r)
    ensures Good(c0, p0, c', e', tl, fl) && Gives(c0, p0, c', e', tl, fl, x, hole)
  {
    forall env: Env, o: Out | Agrees(env, c'.k) && Entry(c0.code, c0.last, o.pc)
      ensures Result(env, c0, p0, c', e', tl, fl, x, hole, o)
    {
      AgreesLess(env, c.k, c'.k);
      assert Result(env, c0, p0, c, e, tl, fl, x, hole, o);
      LeavingSame(c, e, c', e', |c0.code|, tl, fl);
    }
  }

  lemma AgreesLess(env: Env, k: seq<Value>, k': seq<Value>)
    requires k <= k' && Agrees(env, k')
    ensures Agrees(env, k)
  {
    forall i | 0 <= i < |k| ensures env.k(i) == k[i] { assert env.k(i) == k'[i]; }
  }

  lemma LeavingSame(c: Fs, e: Exp, c': Fs, e': Exp, n: nat, tl: seq<nat>, fl: seq<nat>)
    requires Tail(c, e.k) && Tail(c', e'.k) && Body(c', e'.k) == Body(c, e.k) && Lists(Body(c, e.k), n, e, tl, fl)
    ensures forall j, r, b :: j in tl || j in fl ==> Leaving(c'.code, j, r, b) == Leaving(c.code, j, r, b)
  {
    forall j, r, b | j in tl || j in fl ensures Leaving(c'.code, j, r, b) == Leaving(c.code, j, r, b) {
      assert PendAt(Body(c, e.k), n, j);
      assert c.code[j - 1] == Body(c, e.k)[j - 1] && c'.code[j - 1] == Body(c', e'.k)[j - 1];
    }
  }

  // ----- putting a value in a register -----

  /** 'luaK_codek': the constant is in the table (lcode.c:452-460). */
  predicate ConstLoaded(b: seq<Instr>, reg: nat, kx: nat, b': seq<Instr>) {
    b' == b + [LoadK(reg, kx)] || b' == b + [LoadKX(reg), ExtraArg(kx)]
  }

  /** The code after 'discharge2reg' (lcode.c:827-874), `ks` being the constants then. */
  predicate Discharged(c: Fs, k: Kind, reg: nat, b': seq<Instr>, ks: seq<Value>)
    requires Tail(c, k)
  {
    match k
    case VNil => NilLoaded(c.code, c.last, reg, b')
    case VFalse => b' == c.code + [LoadFalse(reg)]
    case VTrue => b' == c.code + [LoadTrue(reg)]
    case VKInt(n) => b' == c.code + [LoadI(reg, n)] ||
      exists i {:trigger ks[i]} :: 0 <= i < |ks| && ks[i] == Int(n) && ConstLoaded(c.code, reg, i, b')
    case VKStr(s) => exists i {:trigger ks[i]} :: 0 <= i < |ks| && ks[i] == Str(s) && ConstLoaded(c.code, reg, i, b')
    case VK(i) => ConstLoaded(c.code, reg, i, b')
    case VNonReloc(r) => b' == if r == reg then c.code else c.code + [Move(reg, r)]
    case VReloc(pc) => b' == Body(c, k) + [if c.code[pc].GetUpval? then GetUpval(reg, c.code[pc].b)
      else Not(reg, c.code[pc].b)]
    case _ => false
  }

  ghost predicate Loaded(env: Env, c: Fs, k: Kind, p: set<nat>, reg: nat, b': seq<Instr>, o: Out)
    requires Tail(c, k)
  {
    var o0, o1 := Run(env, Body(c, k), p, o), Run(env, b', p, o);
    if o0.pc != |Body(c, k)| then o1 == o0
    else o1.pc == |b'| && Get(o1.r, reg) == Final(env, c, k, o0.r) && SameBut(o0.r, o1.r, reg)
  }

  lemma ConstLoadedRun(env: Env, c: Fs, k: Kind, p: set<nat>, reg: nat, b': seq<Instr>, i: nat, o: Out)
    requires Tail(c, k) && Plain(k) && Wf(c.code, p, c.last) && o.pc <= |c.code| && ConstLoaded(c.code, reg, i, b')
    requires reg < NO_REG
    requires forall r :: Final(env, c, k, r) == env.k(i)
    ensures Loaded(env, c, k, p, reg, b', o) && Wf(b', p, c.last)
  {
    if b' == c.code + [LoadK(reg, i)] {
      EmitSimple(env, c.code, p, c.last, LoadK(reg, i), o);
      WfAppend(c.code, p, c.last, [LoadK(reg, i)], p, c.last);
    } else {
      EmitKX(env, c.code, p, c.last, reg, i, o);
      WfAppend(c.code, p, c.last, [LoadKX(reg), ExtraArg(i)], p, c.last);
    }
  }

  lemma DischargedRun(env: Env, c: Fs, k: Kind, p: set<nat>, reg: nat, b': seq<Instr>, ks: seq<Value>, o: Out)
    requires Tail(c, k) && Discharged(c, k, reg, b', ks) && Wf(Body(c, k), p, c.last) && Agrees(env, ks) && reg < NO_REG
    requires Entry(Body(c, k), c.last, o.pc)
    ensures Loaded(env, c, k, p, reg, b', o) && Wf(b', p, c.last)
  {
    var b := Body(c, k);
    match k
    case VNil =>
      RunNil(env, b, p, c.last, reg, b', o);
      WfNil(b, p, c.last, reg, b');
    case VKInt(n) =>
      if b' == b + [LoadI(reg, n)] {
        SimpleLoaded(env, c, k, p, reg, LoadI(reg, n), o);
      } else {
        var i :| 0 <= i < |ks| && ks[i] == Int(n) && ConstLoaded(c.code, reg, i, b');
        ConstLoadedRun(env, c, k, p, reg, b', i, o);
      }
    case VKStr(s) =>
      var i :| 0 <= i < |ks| && ks[i] == Str(s) && ConstLoaded(c.code, reg, i, b');
      ConstLoadedRun(env, c, k, p, reg, b', i, o);
    case VK(i) => ConstLoadedRun(env, c, k, p, reg, b', i, o);
    case VFalse => SimpleLoaded(env, c, k, p, reg, LoadFalse(reg), o);
    case VTrue => SimpleLoaded(env, c, k, p, reg, LoadTrue(reg), o);
    case VReloc(pc) =>
      SimpleLoaded(env, c, k, p, reg, if c.code[pc].GetUpval? then GetUpval(reg, c.code[pc].b)
        else Not(reg, c.code[pc].b), o);
    case VNonReloc(r) =>
      if r != reg { SimpleLoaded(env, c, k, p, reg, Move(reg, r), o); } else { RunInside(env, b, p, c.last, o); }
  }

  lemma SimpleLoaded(env: Env, c: Fs, k: Kind, p: set<nat>, reg: nat, i: Instr, o: Out)
    requires Tail(c, k) && Wf(Body(c, k), p, c.last) && o.pc <= |Body(c, k)| && IsSimple(i) && reg < NO_REG
    requires forall r :: Effect(env, i, r) == Set(r, reg, Final(env, c, k, r))
    ensures Loaded(env, c, k, p, reg, Body(c, k) + [i], o) && Wf(Body(c, k) + [i], p, c.last)
  {
    EmitSimple(env, Body(c, k), p, c.last, i, o);
    WfAppend(Body(c, k), p, c.last, [i], p, c.last);
  }

  lemma DischargedKeeps(c: Fs, k: Kind, reg: nat, b': seq<Instr>, ks: seq<Value>)
    requires Tail(c, k) && Discharged(c, k, reg, b', ks)
    ensures Keeps(Body(c, k), b')
  {
    if k.VNil? && b' != c.code + [LoadNil(reg, 0)] {
      forall i | 0 <= i < |c.code|
        ensures b'[i] == c.code[i] || (i == |c.code| - 1 && c.code[i].LoadNil? && b'[i].LoadNil?) {
        if i < |c.code| - 1 { assert b'[i] == b'[..|c.code| - 1][i] && c.code[i] == c.code[..|c.code| - 1][i]; }
      }
    }
  }

  lemma KeepsTrans(a: seq<Instr>, b: seq<Instr>, c: seq<Instr>)
    requires Keeps(a, b) && Keeps(b, c)
    ensures Keeps(a, c)
  {
    forall i | 0 <= i < |a| ensures c[i] == a[i] || (i == |a| - 1 && a[i].LoadNil? && c[i].LoadNil?) {
      assert b[i] == a[i] || (i == |a| - 1 && a[i].LoadNil? && b[i].LoadNil?);
      assert c[i] == b[i] || (i == |b| - 1 && b[i].LoadNil? && c[i].LoadNil?);
    }
  }

  /** The lists stay what they are when the code only grows. */
  lemma ListsKept(b: seq<Instr>, b': seq<Instr>, n: nat, e: Exp, tl: seq<nat>, fl: seq<nat>)
    requires Lists(b, n, e, tl, fl) && Keeps(b, b')
    ensures Lists(b', n, e, tl, fl)
    ensures forall j :: j in tl || j in fl ==> n < j < |b| && b'[j] == b[j] && b'[j - 1] == b[j - 1]
  {
    forall j | j in tl || j in fl ensures n < j < |b| && PendAt(b', n, j) && b'[j] == b[j] && b'[j - 1] == b[j - 1] {
      assert PendAt(b, n, j);
      assert b'[j - 1] == b[j - 1];
    }
    ListSame(b, b', e.t, tl);
    ListSame(b, b', e.f, fl);
  }

  /** After 'discharge2reg'. */
  lemma GivesLoaded(c0: Fs, p0: set<nat>, c: Fs, e: Exp, c': Fs, reg: nat, tl: seq<nat>, fl: seq<nat>, x: Expr)
    requires Good(c0, p0, c, e, tl, fl) && Gives(c0, p0, c, e, tl, fl, x, NO_REG) && Start(c0, p0)
    requires Discharged(c, e.k, reg, c'.code, c'.k) && c.k <= c'.k && c'.nact == c.nact && c'.last == c.last
    requires reg < NO_REG
    ensures Good(c0, p0, c', e.(k := VNonReloc(reg)), tl, fl)
    ensures Gives(c0, p0, c', e.(k := VNonReloc(reg)), tl, fl, x, reg)
  {
    var b, b', e' := Body(c, e.k), c'.code, e.(k := VNonReloc(reg));
    var p := p0 + SetOf(tl) + SetOf(fl);
    DischargedKeeps(c, e.k, reg, b', c'.k);
    KeepsTrans(c0.code, b, b');
    ListsKept(b, b', |c0.code|, e, tl, fl);
    DischargedWf(c, e.k, p, reg, b', c'.k);
    forall env: Env, o: Out | Agrees(env, c'.k) && Entry(c0.code, c0.last, o.pc)
      ensures Result(env, c0, p0, c', e', tl, fl, x, reg, o)
    {
      AgreesLess(env, c.k, c'.k);
      assert Result(env, c0, p0, c, e, tl, fl, x, NO_REG, o);
      DischargedRun(env, c, e.k, p, reg, b', c'.k, o);
      RunInside(env, c0.code, p0, c0.last, o);
      LoadedMeets(env, c0, p0, c, e, c', reg, tl, fl, x, o);
    }
  }

  lemma DischargedWf(c: Fs, k: Kind, p: set<nat>, reg: nat, b': seq<Instr>, ks: seq<Value>)
    requires Tail(c, k) && Discharged(c, k, reg, b', ks) && Wf(Body(c, k), p, c.last)
    ensures Wf(b', p, c.last)
  {
    var b := Body(c, k);
    if k.VNil? {
      WfNil(b, p, c.last, reg, b');
    } else if b' != b {
      assert b' == b + b'[|b|..];
      WfAppend(b, p, c.last, b'[|b|..], p, c.last);
    }
  }

  lemma LoadedMeets(env: Env, c0: Fs, p0: set<nat>, c: Fs, e: Exp, c': Fs, reg: nat, tl: seq<nat>, fl: seq<nat>,
      x: Expr, o: Out)
    requires Good(c0, p0, c, e, tl, fl) && Result(env, c0, p0, c, e, tl, fl, x, NO_REG, o)
    requires Loaded(env, c, e.k, p0 + SetOf(tl) + SetOf(fl), reg, c'.code, o) && Keeps(Body(c, e.k), c'.code)
    requires Run(env, c0.code, p0, o).pc <= |c0.code| && c0.free <= NO_REG
    ensures Result(env, c0, p0, c', e.(k := VNonReloc(reg)), tl, fl, x, reg, o)
  {
    LeavingKept(c, e, c'.code, |c0.code|, tl, fl);
    var p := p0 + SetOf(tl) + SetOf(fl);
    var o0, o1, out := Run(env, c0.code, p0, o), Run(env, Body(c, e.k), p, o), Run(env, c'.code, p, o);
    if o0.pc == |c0.code| {
      MeetsLoaded(env, c, e, c', reg, tl, fl, Eval(env, x, o0.r), o0.r, c0.free, o1, out);
    }
  }

  lemma MeetsLoaded(env: Env, c: Fs, e: Exp, c': Fs, reg: nat, tl: seq<nat>, fl: seq<nat>, v: Value, r0: Regs,
      n: nat, o1: Out, o2: Out)
    requires Tail(c, e.k) && Meets(env, c, e, tl, fl, v, r0, n, NO_REG, o1) && n <= NO_REG
    requires forall j :: j in tl || j in fl ==> j < |Body(c, e.k)| <= |c'.code|
    requires forall j, r, b :: j in tl || j in fl ==> Leaving(c'.code, j, r, b) == Leaving(c.code, j, r, b)
    requires if o1.pc != |Body(c, e.k)| then o2 == o1
      else o2.pc == |c'.code| && Get(o2.r, reg) == Final(env, c, e.k, o1.r) && SameBut(o1.r, o2.r, reg)
    ensures Meets(env, c', e.(k := VNonReloc(reg)), tl, fl, v, r0, n, reg, o2)
  {
  }

  lemma LeavingKept(c: Fs, e: Exp, b': seq<Instr>, n: nat, tl: seq<nat>, fl: seq<nat>)
    requires Tail(c, e.k) && Lists(Body(c, e.k), n, e, tl, fl) && Keeps(Body(c, e.k), b')
    ensures forall j :: j in tl || j in fl ==> j < |Body(c, e.k)|
    ensures forall j, r, b :: j in tl || j in fl ==> Leaving(b', j, r, b) == Leaving(c.code, j, r, b)
  {
    ListsKept(Body(c, e.k), b', n, e, tl, fl);
    forall j | j in tl || j in fl ensures j < |Body(c, e.k)| && j >= 1 && b'[j - 1] == c.code[j - 1] {
      assert Body(c, e.k)[j - 1] == c.code[j - 1];
    }
  }

  // ----- the end of an expression with jumps -----

  lemma PendFacts(code: seq<Instr>, n: nat, e: Exp, tl: seq<nat>, fl: seq<nat>)
    requires Lists(code, n, e, tl, fl)
    ensures forall j :: j in tl || j in fl ==> n < j < |code| && code[j].Jmp? && IsTest(code[j - 1])
  {
    forall j | j in tl || j in fl
      ensures n < j < |code| && code[j].Jmp? && IsTest(code[j - 1]) { assert PendAt(code, n, j); }
  }

  lemma Pends(code: seq<Instr>, p0: set<nat>, n: nat, e: Exp, tl: seq<nat>, fl: seq<nat>)
    requires Lists(code, n, e, tl, fl) && forall j :: j in p0 ==> j < n
    ensures AllControlled(code, p0 + SetOf(tl) + SetOf(fl), fl) && AllControlled(code, p0 + SetOf(tl) + SetOf(fl), tl)
    ensures p0 + SetOf(tl) + SetOf(fl) - SetOf(fl) == p0 + SetOf(tl) && p0 + SetOf(tl) - SetOf(tl) == p0
    ensures forall j :: j in tl || j in fl ==> n < j < |code|
  {
    forall j | j in tl || j in fl
      ensures n < j < |code| && Controlled(code, p0 + SetOf(tl) + SetOf(fl), j) { assert PendAt(code, n, j); }
  }

  /** Patching both lists (lcode.c:931-933). */
  function PatchBoth(code: seq<Instr>, tl: seq<nat>, fl: seq<nat>, reg: nat, df: Dest, dt: Dest): (code': seq<Instr>)
    requires (forall j :: j in tl || j in fl ==> j < |code|) && (df != Here || dt != Here ==> |code| >= 2)
    ensures |code'| == |code|
  {
    PatchAll(PatchAll(code, fl, reg, df), tl, reg, dt)
  }

  lemma Untouched(code: seq<Instr>, n: nat, e: Exp, tl: seq<nat>, fl: seq<nat>, reg: nat, df: Dest, dt: Dest)
    requires Lists(code, n, e, tl, fl) && DestOk(code, reg, df) && DestOk(code, reg, dt)
    ensures forall j :: j in tl || j in fl ==> n < j < |code|
    ensures var code1 := PatchAll(code, fl, reg, df);
      DestOk(code1, reg, dt) && forall j :: j in tl ==> code1[j] == code[j] && code1[j - 1] == code[j - 1]
  {
    PendFacts(code, n, e, tl, fl);
    var code1 := PatchAll(code, fl, reg, df);
    forall j | j in tl ensures code1[j] == code[j] && code1[j - 1] == code[j - 1] {
      UntouchedAt(code, fl, reg, df, j);
      UntouchedAt(code, fl, reg, df, j - 1);
    }
    if dt != Here { DestUntouched(code, n, fl, reg, df, dt); }
  }

  /** The loads of booleans at the end are no part of a list. */
  lemma DestUntouched(code: seq<Instr>, n: nat, fl: seq<nat>, reg: nat, df: Dest, dt: Dest)
    requires dt != Here && DestOk(code, reg, df) && DestOk(code, reg, dt)
    requires forall j :: j in fl ==> j < |code| && code[j].Jmp?
    ensures DestOk(PatchAll(code, fl, reg, df), reg, dt)
  {
    UntouchedAt(code, fl, reg, df, |code| - 2);
    UntouchedAt(code, fl, reg, df, |code| - 1);
  }

  lemma UntouchedAt(code: seq<Instr>, fl: seq<nat>, reg: nat, df: Dest, i: nat)
    requires (forall j :: j in fl ==> j < |code|) && (df != Here ==> |code| >= 2) && i < |code|
    requires i !in fl && !(i + 1 in fl && code[i].TestSet?)
    ensures PatchAll(code, fl, reg, df)[i] == code[i]
  {
    PatchAllFrame(code, fl, reg, df);
  }

  lemma TrueAfterFalse(code: seq<Instr>, p0: set<nat>, n: nat, e: Exp, tl: seq<nat>, fl: seq<nat>, reg: nat,
      df: Dest, dt: Dest)
    requires Lists(code, n, e, tl, fl) && DestOk(code, reg, df) && DestOk(code, reg, dt)
    requires AllControlled(code, p0 + SetOf(tl) + SetOf(fl), tl)
    ensures forall j :: j in tl || j in fl ==> n < j < |code|
    ensures var code1 := PatchAll(code, fl, reg, df);
      AllControlled(code1, p0 + SetOf(tl), tl) && DestOk(code1, reg, dt)
      && forall j :: j in tl ==> HasValue(code1, j) == HasValue(code, j) && code1[j - 1] == code[j - 1]
  {
    Untouched(code, n, e, tl, fl, reg, df, dt);
  }

  lemma PatchedBoth(env: Env, code: seq<Instr>, p0: set<nat>, n: nat, e: Exp, tl: seq<nat>, fl: seq<nat>, reg: nat,
      df: Dest, dt: Dest, o: Out)
    requires Lists(code, n, e, tl, fl) && (forall j :: j in p0 ==> j < n) && DestOk(code, reg, df)
    requires DestOk(code, reg, dt)
    requires Wf(code, p0 + SetOf(tl) + SetOf(fl), |code|) && o.pc <= n
    ensures forall j :: j in tl || j in fl ==> j < |code|
    ensures var c := Run(env, code, p0 + SetOf(tl) + SetOf(fl), o);
      Run(env, PatchBoth(code, tl, fl, reg, df, dt), p0, o) ==
        if c.pc in fl then Landing(code, reg, df, c) else if c.pc in tl then Landing(code, reg, dt, c) else c
    ensures Wf(PatchBoth(code, tl, fl, reg, df, dt), p0, |code|)
  {
    Pends(code, p0, n, e, tl, fl);
    TrueAfterFalse(code, p0, n, e, tl, fl, reg, df, dt);
    var p := p0 + SetOf(tl) + SetOf(fl);
    PatchedAll(env, code, p, fl, reg, df, o);
    var code1 := PatchAll(code, fl, reg, df);
    assert p - SetOf(fl) == p0 + SetOf(tl);
    PatchedRest(env, code1, p0, tl, reg, dt, o);
    LandingSame(code, code1, tl, reg, dt);
    var c := Run(env, code, p, o);
    if c.pc in fl { assert Landing(code, reg, df, c).pc !in tl; }
  }

  lemma PatchedRest(env: Env, code: seq<Instr>, p0: set<nat>, tl: seq<nat>, reg: nat, dt: Dest, o: Out)
    requires Wf(code, p0 + SetOf(tl), |code|) && AllControlled(code, p0 + SetOf(tl), tl) && DestOk(code, reg, dt)
    requires o.pc !in tl
    requires p0 + SetOf(tl) - SetOf(tl) == p0
    ensures Wf(PatchAll(code, tl, reg, dt), p0, |code|)
    ensures var c := Run(env, code, p0 + SetOf(tl), o);
      Run(env, PatchAll(code, tl, reg, dt), p0, o) == if c.pc in tl then Landing(code, reg, dt, c) else c
  {
    PatchedAll(env, code, p0 + SetOf(tl), tl, reg, dt, o);
  }

  lemma LandingSame(code: seq<Instr>, code1: seq<Instr>, tl: seq<nat>, reg: nat, dt: Dest)
    requires |code1| == |code|
    requires forall j :: j in tl ==>
      1 <= j < |code| && HasValue(code1, j) == HasValue(code, j) && code1[j - 1] == code[j - 1]
    ensures forall c: Out {:trigger Landing(code1, reg, dt, c)} :: c.pc in tl ==>
      Landing(code1, reg, dt, c) == Landing(code, reg, dt, c)
  {
  }

  lemma BothKeeps(c0: seq<Instr>, code: seq<Instr>, e: Exp, tl: seq<nat>, fl: seq<nat>, reg: nat, df: Dest, dt: Dest)
    requires Lists(code, |c0|, e, tl, fl) && Keeps(c0, code) && (df != Here || dt != Here ==> |code| >= 2)
    requires forall j :: j in tl || j in fl ==> j < |code|
    ensures Keeps(c0, PatchBoth(code, tl, fl, reg, df, dt))
  {
    var code1, code2 := PatchAll(code, fl, reg, df), PatchBoth(code, tl, fl, reg, df, dt);
    PendFacts(code, |c0|, e, tl, fl);
    PatchAllFrame(code, fl, reg, df);
    PatchAllFrame(code1, tl, reg, dt);
    forall i | 0 <= i < |c0| ensures code2[i] == c0[i] || (i == |c0| - 1 && c0[i].LoadNil? && code2[i].LoadNil?) {
      assert i !in tl && i + 1 !in tl && i !in fl && i + 1 !in fl;
      assert code2[i] == code[i];
    }
  }

  /** Jumps without a value exist only if there is something to load for them. */
  predicate DestsServe(code: seq<Instr>, tl: seq<nat>, fl: seq<nat>, df: Dest, dt: Dest) {
    && (df == AtFalse || (df == Here && forall j :: j in fl ==> HasValue(code, j)))
    && (dt == AtTrue || (dt == Here && forall j :: j in tl ==> HasValue(code, j)))
  }

  /** A run that ends with the value in the register. */
  lemma InRegister(env: Env, c0: Fs, p0: set<nat>, c: Fs, x: Expr, reg: nat, o: Out)
    requires var o0, o1 := Run(env, c0.code, p0, o), Run(env, c.code, p0, o);
      if o0.pc != |c0.code| then o1 == o0
      else Keep(o0.r, o1.r, c0.free, reg) && o1.pc == |c.code| && Get(o1.r, reg) == Eval(env, x, o0.r)
    ensures Result(env, c0, p0, c, NoJumps(VNonReloc(reg)), [], [], x, reg, o)
  {
    assert p0 + SetOf([]) + SetOf([]) == p0;
  }

  lemma GoodPatched(c0: Fs, p0: set<nat>, c: Fs, k: Kind, e: Exp, code: seq<Instr>, tl: seq<nat>, fl: seq<nat>,
      reg: nat, df: Dest, dt: Dest)
    requires Start(c0, p0) && e.k == k && Good(c0, p0, c, e, tl, fl) && Plain(k) && reg < NO_REG
    requires Keeps(c.code, code) && Wf(code, p0 + SetOf(tl) + SetOf(fl), |code|)
    requires DestOk(code, reg, df) && DestOk(code, reg, dt)
    ensures var c' := c.(code := PatchBoth(code, tl, fl, reg, df, dt), last := |code|);
      Good(c0, p0, c', NoJumps(VNonReloc(reg)), [], [])
  {
    ListsKept(c.code, code, |c0.code|, e, tl, fl);
    Pends(code, p0, |c0.code|, e, tl, fl);
    KeepsTrans(c0.code, c.code, code);
    BothKeeps(c0.code, code, e, tl, fl, reg, df, dt);
    PatchedBoth(AnyEnv(), code, p0, |c0.code|, e, tl, fl, reg, df, dt, Out(0, map[]));
    assert p0 + SetOf([]) + SetOf([]) == p0;
  }

  /** The end of 'exp2reg': all jumps lead to the end of the code, with the value in the register. */
  lemma GivesPatched(c0: Fs, p0: set<nat>, c: Fs, k: Kind, e: Exp, code: seq<Instr>, tl: seq<nat>, fl: seq<nat>,
      x: Expr, reg: nat, df: Dest, dt: Dest)
    requires Start(c0, p0) && e.k == k && Good(c0, p0, c, e, tl, fl) && Gives(c0, p0, c, e, tl, fl, x, reg)
    requires Plain(k) && reg < NO_REG
    requires Keeps(c.code, code) && Wf(code, p0 + SetOf(tl) + SetOf(fl), |code|) && DestOk(code, reg, df)
    requires DestOk(code, reg, dt)
    requires DestsServe(code, tl, fl, df, dt)
    requires forall env: Env, o: Out :: o.pc <= |c.code| ==>
      EndsWith(env, c, k, p0 + SetOf(tl) + SetOf(fl), code, reg, o)
    ensures forall j :: j in tl || j in fl ==> j < |code|
    ensures var c' := c.(code := PatchBoth(code, tl, fl, reg, df, dt), last := |code|);
      Good(c0, p0, c', NoJumps(VNonReloc(reg)), [], []) && Gives(c0, p0, c', NoJumps(VNonReloc(reg)), [], [], x, reg)
  {
    ListsKept(c.code, code, |c0.code|, e, tl, fl);
    Pends(code, p0, |c0.code|, e, tl, fl);
    var c' := c.(code := PatchBoth(code, tl, fl, reg, df, dt), last := |code|);
    GoodPatched(c0, p0, c, k, e, code, tl, fl, reg, df, dt);
    forall env: Env, o: Out | Agrees(env, c'.k) && Entry(c0.code, c0.last, o.pc)
      ensures Result(env, c0, p0, c', NoJumps(VNonReloc(reg)), [], [], x, reg, o)
    {
      assert Result(env, c0, p0, c, e, tl, fl, x, reg, o);
      RunInside(env, c0.code, p0, c0.last, o);
      assert EndsWith(env, c, k, p0 + SetOf(tl) + SetOf(fl), code, reg, o);
      PatchedResult(env, c0, p0, c, e, code, tl, fl, x, reg, df, dt, o);
      InRegister(env, c0, p0, c', x, reg, o);
    }
  }

  /** A run of the patched code: with the value in the register, or as before the expression. */
  lemma PatchedResult(env: Env, c0: Fs, p0: set<nat>, c: Fs, e: Exp, code: seq<Instr>, tl: seq<nat>, fl: seq<nat>,
      x: Expr, reg: nat, df: Dest, dt: Dest, o: Out)
    requires Plain(e.k) && reg < NO_REG && Tail(c, e.k) && Lists(c.code, |c0.code|, e, tl, fl)
    requires Lists(code, |c0.code|, e, tl, fl)
    requires (forall j :: j in p0 ==> j < |c0.code|) && Keeps(c.code, code)
    requires Wf(code, p0 + SetOf(tl) + SetOf(fl), |code|)
    requires DestOk(code, reg, df) && DestOk(code, reg, dt) && DestsServe(code, tl, fl, df, dt)
    requires o.pc <= |c0.code| && Run(env, c0.code, p0, o).pc <= |c0.code| <= |c.code|
    requires EndsWith(env, c, e.k, p0 + SetOf(tl) + SetOf(fl), code, reg, o)
    requires Result(env, c0, p0, c, e, tl, fl, x, reg, o)
    requires forall j :: j in tl || j in fl ==> |c0.code| < j < |code|
    ensures var o0, o3 := Run(env, c0.code, p0, o), Run(env, PatchBoth(code, tl, fl, reg, df, dt), p0, o);
      if o0.pc != |c0.code| then o3 == o0
        else Keep(o0.r, o3.r, c0.free, reg) && o3.pc == |code| && Get(o3.r, reg) == Eval(env, x, o0.r)
  {
    PatchedBoth(env, code, p0, |c0.code|, e, tl, fl, reg, df, dt, o);
    var o0, o1 := Run(env, c0.code, p0, o), Run(env, c.code, p0 + SetOf(tl) + SetOf(fl), o);
    var o2, o3 := Run(env, code, p0 + SetOf(tl) + SetOf(fl), o), Run(env, PatchBoth(code, tl, fl, reg, df, dt), p0, o);
    if o0.pc == |c0.code| {
      LeavingKept(c, e, code, |c0.code|, tl, fl);
      MeetsPatched(env, c, e, code, reg, tl, fl, df, dt, Eval(env, x, o0.r), o0.r, c0.free, o1, o2, o3);
    }
  }

  function AnyEnv(): Env { Env(i => Nil, i => Nil, (v, w) => true, (v, w) => true) }

  /** Where `c` ends with its value, `code` ends with the value in the register. */
  ghost predicate EndsWith(env: Env, c: Fs, k: Kind, p: set<nat>, code: seq<Instr>, reg: nat, o: Out)
    requires Tail(c, k)
  {
    var o1, o2 := Run(env, c.code, p, o), Run(env, code, p, o);
    if o1.pc != |c.code| then o2 == o1 else o2 == Out(|code|, Set(o1.r, reg, Final(env, c, k, o1.r)))
  }

  lemma MeetsPatched(env: Env, c: Fs, e: Exp, code: seq<Instr>, reg: nat, tl: seq<nat>, fl: seq<nat>, df: Dest,
      dt: Dest,
                     v: Value, r0: Regs, n: nat, o1: Out, o2: Out, o3: Out)
    requires Tail(c, e.k) && Plain(e.k) && Meets(env, c, e, tl, fl, v, r0, n, reg, o1) && reg < NO_REG
    requires forall j :: j in tl || j in fl ==> j < |c.code| <= |code|
    requires forall j, r, b :: j in tl || j in fl ==> Leaving(code, j, r, b) == Leaving(c.code, j, r, b)
    requires if o1.pc != |c.code| then o2 == o1 else o2 == Out(|code|, Set(o1.r, reg, Final(env, c, e.k, o1.r)))
    requires o3 == if o2.pc in fl then Landing(code, reg, df, o2) else if o2.pc in tl then Landing(code, reg, dt, o2)
      else o2
    requires DestsServe(code, tl, fl, df, dt)
    ensures Keep(r0, o3.r, n, reg) && o3.pc == |code| && Get(o3.r, reg) == v
  {
    if o1.pc == |c.code| {
      assert o2.pc !in tl && o2.pc !in fl && o1.pc !in tl && o1.pc !in fl;
    }
  }
}
