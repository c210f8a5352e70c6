/** Conditions: comparisons that jump, 'not', 'and' and 'or' (lcode.c:1103-1216, 1637-1723). */
module ExprLogic {
  import opened JumpCode
  import opened ExprSpec
  import opened ExprLemmas

  // ----- links of pending jumps do not matter -----

  /** The same code, but for the links of jumps that are pending. */
  predicate Relinked(b: seq<Instr>, b': seq<Instr>, p: set<nat>) {
    |b'| == |b| && forall i {:trigger b'[i]} :: 0 <= i < |b| ==> b'[i] == b[i] || (i in p && b[i].Jmp? && b'[i].Jmp?)
  }

  lemma RelinkedRun(env: Env, b: seq<Instr>, b': seq<Instr>, p: set<nat>, last: nat, o: Out)
    requires Wf(b, p, last) && Relinked(b, b', p)
    ensures Run(env, b', p, o) == Run(env, b, p, o)
  {
    RunFixed(env, b, p, last, b', p, o);
  }

  lemma RelinkedWf(b: seq<Instr>, b': seq<Instr>, p: set<nat>, last: nat)
    requires Wf(b, p, last) && Relinked(b, b', p)
    ensures Wf(b', p, last)
  {
    forall i | 0 <= i < |b'| ensures WfAt(b', p, last, i) { assert WfAt(b, p, last, i); }
    forall i | i in p ensures i < |b'| && b'[i].Jmp? { assert b[i].Jmp?; }
  }

  lemma RelinkedKeeps(c: seq<Instr>, b: seq<Instr>, b': seq<Instr>, p: set<nat>)
    requires Keeps(c, b) && Relinked(b, b', p) && forall i :: i in p && i < |c| ==> b'[i] == b[i]
    ensures Keeps(c, b')
  {
  }

  // ----- the value of a comparison as jumps -----

  /** The descriptor is a comparison with its pending jump at the end of the code; `b` is the code before it. */
  predicate AtJump(c: Fs, pc: nat, b: seq<Instr>) {
    Tail(c, VJmp(pc)) && b == c.code[..pc - 1] && c.code == b + [c.code[pc - 1], Jmp(-1)]
  }

  lemma JmpBody(c: Fs, k: Kind)
    requires Tail(c, k) && k.VJmp?
    ensures AtJump(c, k.pc, Body(c, k))
  {
  }

  lemma JmpRun(env: Env, c: Fs, pc: nat, b: seq<Instr>, p: set<nat>, tl: seq<nat>, code': seq<Instr>, o: Out)
    requires AtJump(c, pc, b) && Wf(b, p, c.last) && SetOf(tl) <= p && Relinked(c.code, code', SetOf(tl)) && o.pc <= |b|
    ensures Wf(code', p + {pc}, c.last)
    ensures var o1, o2 := Run(env, b, p, o), Run(env, code', p + {pc}, o);
      o2 == if o1.pc != |b| then o1 else if Cond(env, c.code[pc - 1], o1.r) then Out(pc, o1.r) else Out(pc + 1, o1.r)
  {
    WfAppend(b, p, c.last, [c.code[pc - 1], Jmp(-1)], p + {pc}, c.last);
    RelinkedWf(c.code, code', p + {pc}, c.last);
    EmitCond(env, b, p, c.last, c.code[pc - 1], o);
    RelinkedRun(env, c.code, code', p + {pc}, c.last, o);
  }

  lemma JmpPends(c: Fs, pc: nat, b: seq<Instr>, n: nat, e: Exp, tl: seq<nat>, fl: seq<nat>, code': seq<Instr>)
    requires AtJump(c, pc, b) && Lists(b, n, e, tl, fl) && n <= |b| && Relinked(c.code, code', SetOf(tl))
    ensures forall j :: j in tl || j in fl ==> n < j < |b| && code'[j - 1] == c.code[j - 1] && PendAt(code', n, j)
    ensures PendAt(code', n, pc) && pc !in tl && pc !in fl && !HasValue(code', pc)
  {
    PendFacts(b, n, e, tl, fl);
    forall j | j in tl || j in fl ensures code'[j - 1] == c.code[j - 1] && PendAt(code', n, j) {
      assert PendAt(b, n, j) && c.code[j - 1] == b[j - 1] && c.code[j] == b[j];
    }
    assert code'[pc - 1] == c.code[pc - 1];
  }

  lemma JmpLists(c: Fs, pc: nat, b: seq<Instr>, n: nat, e: Exp, tl: seq<nat>, fl: seq<nat>, code': seq<Instr>, t': int)
    requires AtJump(c, pc, b) && Lists(b, n, e, tl, fl) && n <= |b| && Relinked(c.code, code', SetOf(tl))
    requires IsList(code', t', tl + [pc])
    ensures Lists(code', n, Exp(VFalse, t', e.f), tl + [pc], fl)
  {
    JmpPends(c, pc, b, n, e, tl, fl, code');
    forall j | j in fl ensures code'[j] == b[j] {
      assert j !in tl && c.code[j] == b[j] && j !in SetOf(tl);
    }
    ListSame(b, code', e.f, fl);
  }

  /** A comparison whose jump joins the list of true values: where the code ends now, the value is false
      (lcode.c:918-919). */
  lemma JmpToList(c0: Fs, p0: set<nat>, c: Fs, e: Exp, c': Fs, t': int, tl: seq<nat>, fl: seq<nat>, x: Expr)
    requires Start(c0, p0) && Good(c0, p0, c, e, tl, fl) && Gives(c0, p0, c, e, tl, fl, x, NO_REG) && e.k.VJmp?
    requires c' == c.(code := c'.code) && Relinked(c.code, c'.code, SetOf(tl)) && IsList(c'.code, t', tl + [e.k.pc])
    ensures Good(c0, p0, c', Exp(VFalse, t', e.f), tl + [e.k.pc], fl)
    ensures Gives(c0, p0, c', Exp(VFalse, t', e.f), tl + [e.k.pc], fl, x, NO_REG)
  {
    var b, pc := Body(c, e.k), e.k.pc;
    JmpBody(c, e.k);
    assert p0 + SetOf(tl + [pc]) + SetOf(fl) == p0 + SetOf(tl) + SetOf(fl) + {pc};
    JmpPends(c, pc, b, |c0.code|, e, tl, fl, c'.code);
    JmpLists(c, pc, b, |c0.code|, e, tl, fl, c'.code, t');
    JmpGood(c0, p0, c, e, c', t', tl, fl);
    forall env: Env, o: Out | Agrees(env, c'.k) && Entry(c0.code, c0.last, o.pc)
      ensures Result(env, c0, p0, c', Exp(VFalse, t', e.f), tl + [pc], fl, x, NO_REG, o)
    {
      assert Result(env, c0, p0, c, e, tl, fl, x, NO_REG, o);
      RunInside(env, c0.code, p0, c0.last, o);
      JmpRun(env, c, pc, b, p0 + SetOf(tl) + SetOf(fl), tl, c'.code, o);
      var o0 := Run(env, c0.code, p0, o);
      if o0.pc == |c0.code| {
        JmpMeets(env, c, e, c', t', tl, fl, Eval(env, x, o0.r), o0.r, c0.free,
          Run(env, b, p0 + SetOf(tl) + SetOf(fl), o),
          Run(env, c'.code, p0 + SetOf(tl) + SetOf(fl) + {pc}, o));
      }
    }
  }

  lemma JmpGood(c0: Fs, p0: set<nat>, c: Fs, e: Exp, c': Fs, t': int, tl: seq<nat>, fl: seq<nat>)
    requires Start(c0, p0) && Good(c0, p0, c, e, tl, fl) && e.k.VJmp? && c' == c.(code := c'.code)
    requires Relinked(c.code, c'.code, SetOf(tl)) && Lists(c'.code, |c0.code|, Exp(VFalse, t', e.f), tl + [e.k.pc], fl)
    requires forall j :: j in tl ==> |c0.code| < j
    ensures Good(c0, p0, c', Exp(VFalse, t', e.f), tl + [e.k.pc], fl)
  {
    var b, pc := Body(c, e.k), e.k.pc;
    JmpBody(c, e.k);
    assert p0 + SetOf(tl + [pc]) + SetOf(fl) == p0 + SetOf(tl) + SetOf(fl) + {pc};
    JmpRun(AnyEnv(), c, pc, b, p0 + SetOf(tl) + SetOf(fl), tl, c'.code, Out(0, map[]));
    RelinkedKeeps(c0.code, c.code, c'.code, SetOf(tl));
  }

  lemma JmpMeets(env: Env, c: Fs, e: Exp, c': Fs, t': int, tl: seq<nat>, fl: seq<nat>, v: Value, r0: Regs, n: nat,
      o1: Out, o2: Out)
    requires Tail(c, e.k) && e.k.VJmp? && Meets(env, c, e, tl, fl, v, r0, n, NO_REG, o1) && |c'.code| == |c.code|
    requires forall j :: j in tl || j in fl ==> 1 <= j < |Body(c, e.k)| && c'.code[j - 1] == c.code[j - 1]
    requires e.k.pc !in tl && e.k.pc !in fl && !HasValue(c'.code, e.k.pc)
    requires o2 == if o1.pc != |Body(c, e.k)| then o1 else if Cond(env, c.code[e.k.pc - 1], o1.r)
      then Out(e.k.pc, o1.r) else Out(e.k.pc + 1, o1.r)
    ensures Meets(env, c', Exp(VFalse, t', e.f), tl + [e.k.pc], fl, v, r0, n, NO_REG, o2)
  {
    assert |Body(c, e.k)| == e.k.pc - 1;
    assert o2.pc in tl + [e.k.pc] <==> o2.pc in tl || o2.pc == e.k.pc;
  }

  /** A register that was not in use is no exception. */
  lemma NoHole(c0: Fs, p0: set<nat>, c: Fs, e: Exp, tl: seq<nat>, fl: seq<nat>, x: Expr, reg: nat)
    requires Tail(c, e.k) && Gives(c0, p0, c, e, tl, fl, x, reg) && reg >= c0.free
    ensures Gives(c0, p0, c, e, tl, fl, x, NO_REG)
  {
    forall env: Env, o: Out | Agrees(env, c.k) && Entry(c0.code, c0.last, o.pc)
      ensures Result(env, c0, p0, c, e, tl, fl, x, NO_REG, o)
    {
      assert Result(env, c0, p0, c, e, tl, fl, x, reg, o);
    }
  }

  // ----- going on if a condition holds -----

  /** A run goes on at the end of the code if the truth of the value is `b`, and leaves through a jump of the list
      with the value otherwise. */
  ghost predicate Gated(c: Fs, l: seq<nat>, b: bool, v: Value, r0: Regs, n: nat, out: Out) {
    && Keep(r0, out.r, n, NO_REG)
    && (out.pc in l ==> Truthy(v) != b && v == Leaving(c.code, out.pc, out.r, !b))
    && (out.pc !in l ==> out.pc == |c.code| && Truthy(v) == b)
  }

  ghost predicate Passes(env: Env, c0: Fs, p0: set<nat>, c: Fs, l: seq<nat>, b: bool, x: Expr, o: Out) {
    var o0, out := Run(env, c0.code, p0, o), Run(env, c.code, p0 + SetOf(l), o);
    if o0.pc != |c0.code| then out == o0 else Gated(c, l, b, Eval(env, x, o0.r), o0.r, c0.free, out)
  }

  ghost predicate OneList(code: seq<Instr>, n: nat, h: int, l: seq<nat>) {
    IsList(code, h, l) && forall j {:trigger PendAt(code, n, j)} :: j in l ==> PendAt(code, n, j)
  }

  /** After 'luaK_goiftrue' (b) or 'luaK_goiffalse' (not b): `l` is the list of the jumps taken otherwise. */
  ghost predicate Gate(c0: Fs, p0: set<nat>, c: Fs, h: int, l: seq<nat>, b: bool, x: Expr) {
    && c.nact == c0.nact && c0.last <= c.last && c0.k <= c.k
    && Keeps(c0.code, c.code) && Wf(c.code, p0 + SetOf(l), c.last) && OneList(c.code, |c0.code|, h, l)
    && forall env: Env, o: Out {:trigger Passes(env, c0, p0, c, l, b, x, o)} ::
        Agrees(env, c.k) && Entry(c0.code, c0.last, o.pc) ==> Passes(env, c0, p0, c, l, b, x, o)
  }

  /** The same while jumps of the other list still wait to lead to the end of the code. */
  ghost predicate HalfGated(c: Fs, l: seq<nat>, m: seq<nat>, b: bool, v: Value, r0: Regs, n: nat, out: Out) {
    && Keep(r0, out.r, n, NO_REG)
    && (out.pc in l ==> Truthy(v) != b && v == Leaving(c.code, out.pc, out.r, !b))
    && (out.pc in m ==> Truthy(v) == b)
    && (out.pc !in l && out.pc !in m ==> out.pc == |c.code| && Truthy(v) == b)
  }

  ghost predicate HalfPasses(env: Env, c0: Fs, p0: set<nat>, c: Fs, l: seq<nat>, m: seq<nat>, b: bool, x: Expr,
      o: Out) {
    var o0, out := Run(env, c0.code, p0, o), Run(env, c.code, p0 + SetOf(l) + SetOf(m), o);
    if o0.pc != |c0.code| then out == o0 else HalfGated(c, l, m, b, Eval(env, x, o0.r), o0.r, c0.free, out)
  }

  predicate Apart(l: seq<nat>, m: seq<nat>) { forall j :: j in l ==> j !in m }

  ghost predicate HalfGate(c0: Fs, p0: set<nat>, c: Fs, h: int, l: seq<nat>, m: seq<nat>, b: bool, x: Expr) {
    && c.nact == c0.nact && c0.last <= c.last && c0.k <= c.k
    && Keeps(c0.code, c.code) && Wf(c.code, p0 + SetOf(l) + SetOf(m), c.last) && OneList(c.code, |c0.code|, h, l)
    && Apart(l, m) && (exists hm :: OneList(c.code, |c0.code|, hm, m))
    && forall env: Env, o: Out {:trigger HalfPasses(env, c0, p0, c, l, m, b, x, o)} ::
        Agrees(env, c.k) && Entry(c0.code, c0.last, o.pc) ==> HalfPasses(env, c0, p0, c, l, m, b, x, o)
  }

  lemma WfLabel(code: seq<Instr>, p: set<nat>, last: nat)
    requires Wf(code, p, last)
    ensures Wf(code, p, |code|)
  {
    forall i | 0 <= i < |code| ensures WfAt(code, p, |code|, i) { assert WfAt(code, p, last, i); }
  }

  /** 'luaK_patchtohere' for the other list (lcode.c:1154-1155, 1180-1181). */
  lemma GatePatched(c0: Fs, p0: set<nat>, c: Fs, h: int, l: seq<nat>, m: seq<nat>, b: bool, x: Expr)
    requires Start(c0, p0) && HalfGate(c0, p0, c, h, l, m, b, x)
    ensures forall j :: j in m ==> j < |c.code|
    ensures Gate(c0, p0, c.(code := PatchAll(c.code, m, NO_REG, Here), last := |c.code|), h, l, b, x)
  {
    var hm :| OneList(c.code, |c0.code|, hm, m);
    var p := p0 + SetOf(l) + SetOf(m);
    OnePending(c.code, p, |c0.code|, hm, m);
    OnePending(c.code, p, |c0.code|, h, l);
    WfLabel(c.code, p, c.last);
    var c' := c.(code := PatchAll(c.code, m, NO_REG, Here), last := |c.code|);
    GatePatchedGood(c0, p0, c, h, l, m, hm);
    assert p - SetOf(m) == p0 + SetOf(l);
    forall env: Env, o: Out | Agrees(env, c'.k) && Entry(c0.code, c0.last, o.pc)
      ensures Passes(env, c0, p0, c', l, b, x, o) {
      assert HalfPasses(env, c0, p0, c, l, m, b, x, o);
      RunInside(env, c0.code, p0, c0.last, o);
      PatchedAll(env, c.code, p, m, NO_REG, Here, o);
      var o0 := Run(env, c0.code, p0, o);
      if o0.pc == |c0.code| {
        GatePatchedMeets(c, c', l, m, b, Eval(env, x, o0.r), o0.r, c0.free, Run(env, c.code, p, o),
          Run(env, c'.code, p0 + SetOf(l), o));
      }
    }
    PatchedAll(AnyEnv(), c.code, p, m, NO_REG, Here, Out(0, map[]));
  }

  lemma OnePending(code: seq<Instr>, p: set<nat>, n: nat, h: int, l: seq<nat>)
    requires OneList(code, n, h, l) && SetOf(l) <= p
    ensures AllControlled(code, p, l) && forall j :: j in l ==> n < j < |code| && code[j].Jmp? && IsTest(code[j - 1])
  {
    forall j | j in l ensures n < j < |code| && code[j].Jmp? && IsTest(code[j - 1]) && Controlled(code, p, j) {
      assert PendAt(code, n, j) && j in SetOf(l);
    }
  }

  lemma GatePatchedMeets(c: Fs, c': Fs, l: seq<nat>, m: seq<nat>, b: bool, v: Value, r0: Regs, n: nat, o1: Out, o2: Out)
    requires HalfGated(c, l, m, b, v, r0, n, o1) && |c'.code| == |c.code|
    requires o2 == if o1.pc in m then Landing(c.code, NO_REG, Here, o1) else o1
    requires forall j :: j in l ==> 1 <= j < |c.code| && c'.code[j - 1] == c.code[j - 1]
    requires forall j :: j in m ==> j < |c.code|
    ensures Gated(c', l, b, v, r0, n, o2)
  {
    if o1.pc in m { assert o2.pc == |c.code| && o2.r == o1.r; }
  }

  lemma GatePatchedGood(c0: Fs, p0: set<nat>, c: Fs, h: int, l: seq<nat>, m: seq<nat>, hm: int)
    requires Keeps(c0.code, c.code) && OneList(c.code, |c0.code|, h, l) && OneList(c.code, |c0.code|, hm, m)
    requires forall j :: j in l ==> j !in m
    requires forall j :: j in l || j in m ==> |c0.code| < j < |c.code| && c.code[j].Jmp? && IsTest(c.code[j - 1])
    ensures var code := PatchAll(c.code, m, NO_REG, Here);
      Keeps(c0.code, code) && OneList(code, |c0.code|, h, l) && forall j :: j in l ==> code[j - 1] == c.code[j - 1]
  {
    var code := PatchAll(c.code, m, NO_REG, Here);
    forall j | j in l ensures code[j - 1] == c.code[j - 1] && code[j] == c.code[j] && PendAt(code, |c0.code|, j) {
      OtherUntouched(c0.code, c.code, m, j);
    }
    ListSame(c.code, code, h, l);
    forall i | 0 <= i < |c0.code| ensures code[i] == c.code[i] { UntouchedAt(c.code, m, NO_REG, Here, i); }
  }

  /** A pending jump that is not patched keeps its test. */
  lemma OtherUntouched(c0: seq<Instr>, c: seq<Instr>, m: seq<nat>, j: nat)
    requires (forall x :: x in m ==> |c0| < x < |c| && c[x].Jmp? && IsTest(c[x - 1])) && PendAt(c, |c0|, j) && j !in m
    ensures var code := PatchAll(c, m, NO_REG, Here);
      code[j - 1] == c[j - 1] && code[j] == c[j] && PendAt(code, |c0|, j)
  {
    UntouchedAt(c, m, NO_REG, Here, j);
    UntouchedAt(c, m, NO_REG, Here, j - 1);
  }

  // ----- emitting the jump -----

  function Own<T>(b: bool, tl: T, fl: T): T { if b then fl else tl }

  /** The test jumps if the truth of the value is not `b`, and then tells the value. */
  ghost predicate Decides(c: Fs, k: Kind, i: Instr, b: bool)
    requires Tail(c, k)
  {
    IsTest(i) && (i.TestSet? ==> i.a == NO_REG) && forall env, r {:trigger Final(env, c, k, r)} :: Agrees(env, c.k) ==>
      DecidesIn(env, c, k, i, b, r)
  }

  ghost predicate DecidesIn(env: Env, c: Fs, k: Kind, i: Instr, b: bool, r: Regs)
    requires Tail(c, k) && IsTest(i)
  {
    var v := Final(env, c, k, r);
    Cond(env, i, r) == (Truthy(v) != b) && if i.TestSet? then Get(r, i.b) == v else Truthy(v) != b ==> v == Bool(!b)
  }

  /** The code with the test, its jump being linked to the end of the list. */
  predicate Emitted(b0: seq<Instr>, i: Instr, own: seq<nat>, m: seq<Instr>, h: int) {
    Relinked(b0 + [i, Jmp(-1)], m, SetOf(own)) && IsList(m, h, own + [|b0| + 1])
  }

  lemma EmittedRun(env: Env, b0: seq<Instr>, p: set<nat>, last: nat, i: Instr, own: seq<nat>, m: seq<Instr>, h: int,
      o: Out)
    requires Wf(b0, p, last) && SetOf(own) <= p && IsTest(i) && (i.TestSet? ==> i.a == NO_REG)
    requires Emitted(b0, i, own, m, h) && o.pc <= |b0|
    ensures Wf(m, p + {|b0| + 1}, last)
    ensures var o1, o2 := Run(env, b0, p, o), Run(env, m, p + {|b0| + 1}, o);
      o2 == if o1.pc != |b0| then o1 else if Cond(env, i, o1.r) then Out(|b0| + 1, o1.r) else Out(|b0| + 2, o1.r)
  {
    WfAppend(b0, p, last, [i, Jmp(-1)], p + {|b0| + 1}, last);
    RelinkedWf(b0 + [i, Jmp(-1)], m, p + {|b0| + 1}, last);
    EmitCond(env, b0, p, last, i, o);
    RelinkedRun(env, b0 + [i, Jmp(-1)], m, p + {|b0| + 1}, last, o);
  }

  lemma EmittedAt(b0: seq<Instr>, i: Instr, own: seq<nat>, m: seq<Instr>, h: int)
    requires Emitted(b0, i, own, m, h) && forall j :: j in own ==> j < |b0| && b0[j].Jmp?
    ensures |m| == |b0| + 2 && m[|b0|] == i && m[|b0| + 1] == Jmp(-1)
    ensures forall j :: 0 <= j < |b0| && j !in own ==> m[j] == b0[j]
    ensures forall j :: j in own ==> m[j].Jmp?
  {
    var all := b0 + [i, Jmp(-1)];
    forall j | 0 <= j < |b0| && j !in own ensures m[j] == b0[j] { assert all[j] == b0[j] && j !in SetOf(own); }
    forall j | j in own ensures m[j].Jmp? { assert all[j] == b0[j]; }
    assert m[|b0|] == all[|b0|] && m[|b0| + 1] == all[|b0| + 1];
  }

  lemma EmittedPends(b0: seq<Instr>, n: nat, e: Exp, tl: seq<nat>, fl: seq<nat>, b: bool, i: Instr, m: seq<Instr>,
      h: int)
    requires Lists(b0, n, e, tl, fl) && n <= |b0| && IsTest(i) && (i.TestSet? ==> i.a == NO_REG)
    requires Emitted(b0, i, Own(b, tl, fl), m, h)
    ensures forall j :: j in tl || j in fl ==> n < j < |b0| && m[j - 1] == b0[j - 1] && PendAt(m, n, j)
    ensures |m| == |b0| + 2 && PendAt(m, n, |b0| + 1) && m[|b0|] == i
    ensures forall j :: j in Own(!b, tl, fl) ==> m[j] == b0[j]
  {
    PendFacts(b0, n, e, tl, fl);
    EmittedAt(b0, i, Own(b, tl, fl), m, h);
    forall j | j in tl || j in fl ensures n < j < |b0| && m[j - 1] == b0[j - 1] && PendAt(m, n, j) {
      assert PendAt(b0, n, j) && !b0[j - 1].Jmp?;
    }
  }

  lemma EmittedLists(b0: seq<Instr>, n: nat, e: Exp, tl: seq<nat>, fl: seq<nat>, b: bool, i: Instr, m: seq<Instr>,
      h: int)
    requires Lists(b0, n, e, tl, fl) && n <= |b0| && IsTest(i) && (i.TestSet? ==> i.a == NO_REG)
    requires Emitted(b0, i, Own(b, tl, fl), m, h)
    ensures OneList(m, n, h, Own(b, tl, fl) + [|b0| + 1]) && OneList(m, n, Own(!b, e.t, e.f), Own(!b, tl, fl))
    ensures Apart(Own(b, tl, fl) + [|b0| + 1], Own(!b, tl, fl))
  {
    EmittedPends(b0, n, e, tl, fl, b, i, m, h);
    ListSame(b0, m, Own(!b, e.t, e.f), Own(!b, tl, fl));
  }

  lemma EmittedMeets(env: Env, c: Fs, e: Exp, tl: seq<nat>, fl: seq<nat>, b: bool, i: Instr, cm: Fs, v: Value,
      r0: Regs, n: nat, o1: Out, o2: Out)
    requires Tail(c, e.k) && Meets(env, c, e, tl, fl, v, r0, n, NO_REG, o1)
    requires var b0 := Body(c, e.k);
      && (forall j :: j in tl || j in fl ==> 1 <= j < |b0| && |b0| < |cm.code| && cm.code[j - 1] == b0[j - 1])
      && |cm.code| == |b0| + 2 && cm.code[|b0|] == i && IsTest(i)
      && (o1.pc == |b0| ==> DecidesIn(env, c, e.k, i, b, o1.r))
      && o2 == if o1.pc != |b0| then o1 else if Cond(env, i, o1.r) then Out(|b0| + 1, o1.r) else Out(|b0| + 2, o1.r)
    ensures HalfGated(cm, Own(b, tl, fl) + [|Body(c, e.k)| + 1], Own(!b, tl, fl), b, v, r0, n, o2)
  {
    var b0 := Body(c, e.k);
    var l := Own(b, tl, fl) + [|b0| + 1];
    assert o2.pc in l <==> o2.pc in Own(b, tl, fl) || o2.pc == |b0| + 1;
    if o1.pc in tl || o1.pc in fl {
      assert c.code[o1.pc - 1] == b0[o1.pc - 1];
    }
  }

  lemma EmittedSets(p0: set<nat>, tl: seq<nat>, fl: seq<nat>, b: bool, j: nat)
    ensures p0 + SetOf(Own(b, tl, fl) + [j]) + SetOf(Own(!b, tl, fl)) == p0 + SetOf(tl) + SetOf(fl) + {j}
  {
  }

  /** 'jumponcond' and the concatenation of its jump to the list (lcode.c:1117-1129, 1153). */
  lemma GateEmitted(c0: Fs, p0: set<nat>, c: Fs, e: Exp, tl: seq<nat>, fl: seq<nat>, x: Expr, b: bool, i: Instr,
      cm: Fs, h: int)
    requires Start(c0, p0) && Good(c0, p0, c, e, tl, fl) && Gives(c0, p0, c, e, tl, fl, x, NO_REG)
    requires Decides(c, e.k, i, b)
    requires cm.nact == c.nact && cm.last == c.last && cm.k == c.k
    requires Emitted(Body(c, e.k), i, Own(b, tl, fl), cm.code, h)
    ensures HalfGate(c0, p0, cm, h, Own(b, tl, fl) + [|Body(c, e.k)| + 1], Own(!b, tl, fl), b, x)
  {
    var b0, p := Body(c, e.k), p0 + SetOf(tl) + SetOf(fl);
    var l, m := Own(b, tl, fl) + [|b0| + 1], Own(!b, tl, fl);
    EmittedGood(c0, p0, c, e, tl, fl, b, i, cm, h);
    forall env: Env, o: Out | Agrees(env, cm.k) && Entry(c0.code, c0.last, o.pc)
      ensures HalfPasses(env, c0, p0, cm, l, m, b, x, o) {
      assert Result(env, c0, p0, c, e, tl, fl, x, NO_REG, o);
      EmittedPasses(env, c0, p0, c, e, tl, fl, x, b, i, cm, h, o);
    }
  }

  lemma EmittedGood(c0: Fs, p0: set<nat>, c: Fs, e: Exp, tl: seq<nat>, fl: seq<nat>, b: bool, i: Instr, cm: Fs, h: int)
    requires Start(c0, p0) && Good(c0, p0, c, e, tl, fl) && IsTest(i) && (i.TestSet? ==> i.a == NO_REG)
    requires cm.last == c.last && Emitted(Body(c, e.k), i, Own(b, tl, fl), cm.code, h)
    ensures var l, m := Own(b, tl, fl) + [|Body(c, e.k)| + 1], Own(!b, tl, fl);
      Keeps(c0.code, cm.code) && Wf(cm.code, p0 + SetOf(l) + SetOf(m), cm.last) && OneList(cm.code, |c0.code|, h, l)
      && Apart(l, m) && OneList(cm.code, |c0.code|, Own(!b, e.t, e.f), m)
  {
    var b0 := Body(c, e.k);
    EmittedSets(p0, tl, fl, b, |b0| + 1);
    EmittedPends(b0, |c0.code|, e, tl, fl, b, i, cm.code, h);
    EmittedLists(b0, |c0.code|, e, tl, fl, b, i, cm.code, h);
    EmittedRun(AnyEnv(), b0, p0 + SetOf(tl) + SetOf(fl), c.last, i, Own(b, tl, fl), cm.code, h, Out(0, map[]));
    EmittedKeeps(c0.code, b0, i, Own(b, tl, fl), cm.code, h);
  }

  lemma EmittedPasses(env: Env, c0: Fs, p0: set<nat>, c: Fs, e: Exp, tl: seq<nat>, fl: seq<nat>, x: Expr, b: bool,
      i: Instr, cm: Fs, h: int, o: Out)
    requires Start(c0, p0) && Good(c0, p0, c, e, tl, fl) && Decides(c, e.k, i, b) && Agrees(env, c.k)
    requires Entry(c0.code, c0.last, o.pc)
    requires Emitted(Body(c, e.k), i, Own(b, tl, fl), cm.code, h) && Result(env, c0, p0, c, e, tl, fl, x, NO_REG, o)
    ensures HalfPasses(env, c0, p0, cm, Own(b, tl, fl) + [|Body(c, e.k)| + 1], Own(!b, tl, fl), b, x, o)
  {
    var b0, p := Body(c, e.k), p0 + SetOf(tl) + SetOf(fl);
    EmittedSets(p0, tl, fl, b, |b0| + 1);
    EmittedPends(b0, |c0.code|, e, tl, fl, b, i, cm.code, h);
    RunInside(env, c0.code, p0, c0.last, o);
    EmittedRun(env, b0, p, c.last, i, Own(b, tl, fl), cm.code, h, o);
    var o0, o1, o2 := Run(env, c0.code, p0, o), Run(env, b0, p, o), Run(env, cm.code, p + {|b0| + 1}, o);
    DecidesAt(env, c, e.k, i, b, o1.r);
    if o0.pc == |c0.code| {
      EmittedMeets(env, c, e, tl, fl, b, i, cm, Eval(env, x, o0.r), o0.r, c0.free, o1, o2);
    }
  }

  lemma DecidesAt(env: Env, c: Fs, k: Kind, i: Instr, b: bool, r: Regs)
    requires Tail(c, k) && Decides(c, k, i, b) && Agrees(env, c.k)
    ensures DecidesIn(env, c, k, i, b, r)
  {
    var v := Final(env, c, k, r);
  }

  lemma EmittedKeeps(code: seq<Instr>, b0: seq<Instr>, i: Instr, own: seq<nat>, m: seq<Instr>, h: int)
    requires Keeps(code, b0) && Emitted(b0, i, own, m, h) && forall j :: j in own ==> |code| < j
    ensures Keeps(code, m)
  {
    RelinkedKeeps(code, b0 + [i, Jmp(-1)], m, SetOf(own));
  }

  /** A constant needs no jump (lcode.c:1144-1147, 1170-1173). */
  lemma GateConstant(c0: Fs, p0: set<nat>, c: Fs, e: Exp, tl: seq<nat>, fl: seq<nat>, x: Expr, b: bool)
    requires Start(c0, p0) && Good(c0, p0, c, e, tl, fl) && Gives(c0, p0, c, e, tl, fl, x, NO_REG) && Plain(e.k)
    requires forall env, r :: Agrees(env, c.k) ==> Truthy(Final(env, c, e.k, r)) == b
    ensures HalfGate(c0, p0, c, Own(b, e.t, e.f), Own(b, tl, fl), Own(!b, tl, fl), b, x)
  {
    var l, m := Own(b, tl, fl), Own(!b, tl, fl);
    assert p0 + SetOf(l) + SetOf(m) == p0 + SetOf(tl) + SetOf(fl);
    assert OneList(c.code, |c0.code|, Own(!b, e.t, e.f), m);
    forall env: Env, o: Out | Agrees(env, c.k) && Entry(c0.code, c0.last, o.pc)
      ensures HalfPasses(env, c0, p0, c, l, m, b, x, o) {
      assert Result(env, c0, p0, c, e, tl, fl, x, NO_REG, o);
    }
  }
}
