/** Joining the operands of 'and' and 'or', negation, and comparisons (lcode.c:1188-1216, 1553-1780). */
module ExprJoin {
  import opened JumpCode
  import opened ExprSpec
  import opened ExprLemmas
  import opened ExprLogic

  // ----- 'and' and 'or' -----

  function Join(b: bool, x1: Expr, x2: Expr): Expr { if b then EAnd(x1, x2) else EOr(x1, x2) }

  /** The list of jumps out of the first operand goes behind one list of the second. */
  function JoinT(b: bool, tl: seq<nat>, l: seq<nat>): seq<nat> { if b then tl else tl + l }
  function JoinF(b: bool, fl: seq<nat>, l: seq<nat>): seq<nat> { if b then fl + l else fl }

  ghost predicate Joined(c1: Fs, l: seq<nat>, b: bool, c2: Fs, e2: Exp, tl: seq<nat>, fl: seq<nat>, c3: Fs, e3: Exp)
    requires Tail(c2, e2.k)
  {
    && c3 == c2.(code := c3.code) && e3.k == e2.k && Tail(c3, e3.k) && Relinked(c2.code, c3.code, SetOf(Own(b, tl, fl)))
    && IsList(Body(c3, e3.k), e3.t, JoinT(b, tl, l)) && IsList(Body(c3, e3.k), e3.f, JoinF(b, fl, l))
  }

  lemma JoinSets(p0: set<nat>, l: seq<nat>, b: bool, tl: seq<nat>, fl: seq<nat>)
    ensures p0 + SetOf(JoinT(b, tl, l)) + SetOf(JoinF(b, fl, l)) == p0 + SetOf(l) + SetOf(tl) + SetOf(fl)
  {
  }

  /** Jumps of either operand keep their tests. */
  lemma JoinPends(c0: Fs, p0: set<nat>, c1: Fs, h: int, l: seq<nat>, b: bool, c2: Fs, e2: Exp, tl: seq<nat>,
      fl: seq<nat>, c3: Fs, e3: Exp)
    requires OneList(c1.code, |c0.code|, h, l) && |c0.code| <= |c1.code| && Good(c1, p0 + SetOf(l), c2, e2, tl, fl)
    requires Joined(c1, l, b, c2, e2, tl, fl, c3, e3)
    requires Tail(c2, e2.k) && Tail(c3, e3.k)
    ensures forall j :: j in l ==> |c0.code| < j < |c1.code| && j <= |c3.code| && c3.code[j - 1] == c1.code[j - 1]
    ensures forall j :: j in tl || j in fl ==>
      |c1.code| < j < |Body(c2, e2.k)| && j <= |c3.code| && j <= |c2.code| && c3.code[j - 1] == c2.code[j - 1]
    ensures forall j :: j in l || j in tl || j in fl ==> PendAt(Body(c3, e3.k), |c0.code|, j)
  {
    var b2, b3 := Body(c2, e2.k), Body(c3, e3.k);
    PendFacts(b2, |c1.code|, e2, tl, fl);
    Bodies(c2, c3, e2.k);
    forall j | j in l
      ensures |c0.code| < j < |c1.code| && c3.code[j - 1] == c1.code[j - 1] && PendAt(b3, |c0.code|, j) {
      assert PendAt(c1.code, |c0.code|, j);
      JoinOuter(c1.code, |c0.code|, j, b2, Own(b, tl, fl), c2.code, c3.code, b3);
    }
    forall j | j in tl || j in fl ensures c3.code[j - 1] == c2.code[j - 1] && PendAt(b3, |c0.code|, j) {
      assert PendAt(b2, |c1.code|, j);
      JoinInner(|c0.code|, |c1.code|, j, b2, Own(b, tl, fl), c2.code, c3.code, b3);
    }
  }

  lemma Bodies(c: Fs, c': Fs, k: Kind)
    requires Tail(c, k) && Tail(c', k) && |c.code| == |c'.code|
    ensures Body(c, k) <= c.code && Body(c', k) <= c'.code && |Body(c', k)| == |Body(c, k)|
  {
  }

  lemma JoinInner(n: nat, n1: nat, j: nat, b2: seq<Instr>, own: seq<nat>, code2: seq<Instr>, code3: seq<Instr>,
      b3: seq<Instr>)
    requires PendAt(b2, n1, j) && n <= n1 && b2 <= code2 && |b3| == |b2| && b3 <= code3
    requires Relinked(code2, code3, SetOf(own))
    ensures code3[j - 1] == code2[j - 1] && PendAt(b3, n, j)
  {
    assert code2[j - 1] == b2[j - 1] && code2[j] == b2[j];
    assert code3[j - 1] == b3[j - 1] && code3[j] == b3[j];
  }

  lemma JoinOuter(code1: seq<Instr>, n: nat, j: nat, b2: seq<Instr>, own: seq<nat>, code2: seq<Instr>,
      code3: seq<Instr>, b3: seq<Instr>)
    requires PendAt(code1, n, j) && Keeps(code1, b2) && b2 <= code2 && |b3| == |b2| && b3 <= code3
    requires Relinked(code2, code3, SetOf(own))
    requires forall x :: x in own ==> |code1| < x
    ensures code3[j - 1] == code1[j - 1] && PendAt(b3, n, j)
  {
    assert b2[j - 1] == code1[j - 1] && b2[j] == code1[j];
    assert code3[j - 1] == code2[j - 1] && code3[j] == code2[j];
  }

  lemma JoinRun(env: Env, c1: Fs, p: set<nat>, l: seq<nat>, b: bool, c2: Fs, e2: Exp, tl: seq<nat>, fl: seq<nat>,
      c3: Fs, e3: Exp, o: Out)
    requires Tail(c2, e2.k) && Joined(c1, l, b, c2, e2, tl, fl, c3, e3) && Wf(Body(c2, e2.k), p, c2.last)
    requires SetOf(Own(b, tl, fl)) <= p
    ensures Wf(Body(c3, e3.k), p, c3.last) && Run(env, Body(c3, e3.k), p, o) == Run(env, Body(c2, e2.k), p, o)
  {
    var b2, b3 := Body(c2, e2.k), Body(c3, e3.k);
    assert b2 == c2.code[..|b2|];
    forall i | 0 <= i < |b2| ensures b3[i] == b2[i] || (i in p && b2[i].Jmp? && b3[i].Jmp?) {
      assert b3[i] == c3.code[i] && b2[i] == c2.code[i];
    }
    assert Relinked(b2, b3, p);
    RelinkedWf(b2, b3, p, c2.last);
    RelinkedRun(env, b2, b3, p, c2.last, o);
  }

  lemma JoinFinal(env: Env, c2: Fs, k: Kind, own: seq<nat>, c3: Fs, r: Regs)
    requires Tail(c2, k) && Tail(c3, k) && Relinked(c2.code, c3.code, SetOf(own))
    requires forall j :: j in own ==> j < |Body(c2, k)|
    ensures Final(env, c3, k, r) == Final(env, c2, k, r)
  {
    if k.VReloc? { assert c3.code[k.pc] == c2.code[k.pc]; }
    if k.VJmp? { assert c3.code[k.pc - 1] == c2.code[k.pc - 1]; }
  }

  /** What the second operand yields is what the whole yields. */
  lemma JoinMeets(env: Env, l: seq<nat>, b: bool, c2: Fs, e2: Exp, tl: seq<nat>, fl: seq<nat>, c3: Fs, e3: Exp,
      v: Value, r0: Regs, n: nat, out: Out)
    requires Tail(c2, e2.k) && Tail(c3, e3.k) && e3.k == e2.k && |Body(c3, e3.k)| == |Body(c2, e2.k)|
    requires Meets(env, c2, e2, tl, fl, v, r0, n, NO_REG, out)
    requires forall j :: j in tl || j in fl ==>
      1 <= j < |c2.code| && |c3.code| == |c2.code| && c3.code[j - 1] == c2.code[j - 1]
    requires Final(env, c3, e3.k, out.r) == Final(env, c2, e2.k, out.r) && out.pc !in l
    ensures Meets(env, c3, e3, JoinT(b, tl, l), JoinF(b, fl, l), v, r0, n, NO_REG, out)
  {
  }

  lemma JoinLists(c0: Fs, p0: set<nat>, c1: Fs, h: int, l: seq<nat>, b: bool, c2: Fs, e2: Exp, tl: seq<nat>,
      fl: seq<nat>, c3: Fs, e3: Exp)
    requires OneList(c1.code, |c0.code|, h, l) && Keeps(c0.code, c1.code) && Good(c1, p0 + SetOf(l), c2, e2, tl, fl)
    requires Joined(c1, l, b, c2, e2, tl, fl, c3, e3)
    ensures Lists(Body(c3, e3.k), |c0.code|, e3, JoinT(b, tl, l), JoinF(b, fl, l)) && Keeps(c0.code, Body(c3, e3.k))
  {
    JoinPends(c0, p0, c1, h, l, b, c2, e2, tl, fl, c3, e3);
    var b2, b3 := Body(c2, e2.k), Body(c3, e3.k);
    KeepsTrans(c0.code, c1.code, b2);
    forall i | 0 <= i < |c0.code| ensures b3[i] == b2[i] {
      assert c3.code[i] == c2.code[i] && b2[i] == c2.code[i];
    }
  }

  /** 'luaK_infix' with 'luaK_posfix' for 'and' and 'or' (lcode.c:1640-1647, 1712-1723). */
  lemma GivesJoined(c0: Fs, p0: set<nat>, c1: Fs, h: int, l: seq<nat>, b: bool, x1: Expr,
                    c2: Fs, e2: Exp, tl: seq<nat>, fl: seq<nat>, x2: Expr, c3: Fs, e3: Exp)
    requires Start(c0, p0) && Gate(c0, p0, c1, h, l, b, x1) && c1.free == c0.free
    requires Good(c1, p0 + SetOf(l), c2, e2, tl, fl) && Gives(c1, p0 + SetOf(l), c2, e2, tl, fl, x2, NO_REG)
    requires Scoped(x2, c0.nact)
    requires Joined(c1, l, b, c2, e2, tl, fl, c3, e3)
    ensures Good(c0, p0, c3, e3, JoinT(b, tl, l), JoinF(b, fl, l))
    ensures Gives(c0, p0, c3, e3, JoinT(b, tl, l), JoinF(b, fl, l), Join(b, x1, x2), NO_REG)
  {
    JoinSets(p0, l, b, tl, fl);
    JoinPends(c0, p0, c1, h, l, b, c2, e2, tl, fl, c3, e3);
    Bodies(c2, c3, e2.k);
    JoinLists(c0, p0, c1, h, l, b, c2, e2, tl, fl, c3, e3);
    JoinRun(AnyEnv(), c1, p0 + SetOf(l) + SetOf(tl) + SetOf(fl), l, b, c2, e2, tl, fl, c3, e3, Out(0, map[]));
    forall env: Env, o: Out | Agrees(env, c3.k) && Entry(c0.code, c0.last, o.pc)
      ensures Result(env, c0, p0, c3, e3, JoinT(b, tl, l), JoinF(b, fl, l), Join(b, x1, x2), NO_REG, o)
    {
      AgreesLess(env, c1.k, c3.k);
      assert Passes(env, c0, p0, c1, l, b, x1, o);
      assert Result(env, c1, p0 + SetOf(l), c2, e2, tl, fl, x2, NO_REG, o);
      RunInside(env, c0.code, p0, c0.last, o);
      JoinRun(env, c1, p0 + SetOf(l) + SetOf(tl) + SetOf(fl), l, b, c2, e2, tl, fl, c3, e3, o);
      forall r ensures Final(env, c3, e3.k, r) == Final(env, c2, e2.k, r) {
        JoinFinal(env, c2, e2.k, Own(b, tl, fl), c3, r);
      }
      JoinResult(env, c0, p0, c1, l, b, x1, c2, e2, tl, fl, x2, c3, e3, o);
    }
  }

  lemma JoinResult(env: Env, c0: Fs, p0: set<nat>, c1: Fs, l: seq<nat>, b: bool, x1: Expr,
                   c2: Fs, e2: Exp, tl: seq<nat>, fl: seq<nat>, x2: Expr, c3: Fs, e3: Exp, o: Out)
    requires |c0.code| <= |c1.code| && c1.free == c0.free && Scoped(x2, c0.nact) && c0.nact <= c0.free <= NO_REG
    requires Run(env, c0.code, p0, o).pc <= |c0.code|
    requires Passes(env, c0, p0, c1, l, b, x1, o)
    requires Tail(c2, e2.k) && Result(env, c1, p0 + SetOf(l), c2, e2, tl, fl, x2, NO_REG, o)
    requires Tail(c3, e3.k) && e3.k == e2.k && |Body(c3, e3.k)| == |Body(c2, e2.k)| >= |c1.code|
    requires |c3.code| == |c2.code|
    requires var p := p0 + SetOf(l) + SetOf(tl) + SetOf(fl);
      Run(env, Body(c3, e3.k), p, o) == Run(env, Body(c2, e2.k), p, o)
    requires forall r :: Final(env, c3, e3.k, r) == Final(env, c2, e2.k, r)
    requires forall j :: j in l ==> 1 <= j < |c1.code| && c3.code[j - 1] == c1.code[j - 1]
    requires forall j :: j in tl || j in fl ==> |c1.code| < j < |c2.code| && c3.code[j - 1] == c2.code[j - 1]
    ensures Result(env, c0, p0, c3, e3, JoinT(b, tl, l), JoinF(b, fl, l), Join(b, x1, x2), NO_REG, o)
  {
    JoinSets(p0, l, b, tl, fl);
    var o0, o1, o2 := Run(env, c0.code, p0, o), Run(env, c1.code, p0 + SetOf(l), o),
      Run(env, Body(c2, e2.k), p0 + SetOf(l) + SetOf(tl) + SetOf(fl), o);
    if o0.pc == |c0.code| {
      SecondMeets(env, c0.nact, c1, p0 + SetOf(l), c2, e2, tl, fl, x2, o0.r, o);
      EvalJoin(env, b, x1, x2, o0.r);
      JoinOutcome(env, l, b, c1, Eval(env, x1, o0.r), Eval(env, x2, o1.r), Eval(env, Join(b, x1, x2), o0.r), c2, e2,
        tl, fl, c3, e3, o0.r, c0.free, o1, o2);
    }
  }

  /** The second operand has the value that it has where the first one begins. */
  lemma SecondMeets(env: Env, nact: nat, c1: Fs, p1: set<nat>, c2: Fs, e2: Exp, tl: seq<nat>, fl: seq<nat>, x2: Expr,
      r0: Regs, o: Out)
    requires Tail(c2, e2.k) && Result(env, c1, p1, c2, e2, tl, fl, x2, NO_REG, o)
    requires Scoped(x2, nact) && nact <= c1.free <= NO_REG && Keep(r0, Run(env, c1.code, p1, o).r, c1.free, NO_REG)
    ensures var o1, o2 := Run(env, c1.code, p1, o), Run(env, Body(c2, e2.k), p1 + SetOf(tl) + SetOf(fl), o);
      if o1.pc != |c1.code| then o2 == o1 else Meets(env, c2, e2, tl, fl, Eval(env, x2, r0), o1.r, c1.free, NO_REG, o2)
  {
    EvalIf(env, x2, r0, Run(env, c1.code, p1, o).r, nact, c1.free);
  }

  lemma EvalJoin(env: Env, b: bool, x1: Expr, x2: Expr, r: Regs)
    ensures Eval(env, Join(b, x1, x2), r) == if Truthy(Eval(env, x1, r)) == b then Eval(env, x2, r)
      else Eval(env, x1, r)
  {
  }

  lemma EvalIf(env: Env, x: Expr, r: Regs, r': Regs, nact: nat, n: nat)
    requires Scoped(x, nact) && nact <= n <= NO_REG && Keep(r, r', n, NO_REG)
    ensures Eval(env, x, r') == Eval(env, x, r)
  {
    EvalKept(env, x, r, r', nact);
  }

  lemma JoinOutcome(env: Env, l: seq<nat>, b: bool, c1: Fs, v1: Value, v2: Value, v: Value, c2: Fs, e2: Exp,
      tl: seq<nat>, fl: seq<nat>,
                    c3: Fs, e3: Exp, r0: Regs, n: nat, o1: Out, o2: Out)
    requires Gated(c1, l, b, v1, r0, n, o1) && n == c1.free && v == (if Truthy(v1) == b then v2 else v1)
    requires Tail(c2, e2.k)
    requires if o1.pc != |c1.code| then o2 == o1 else Meets(env, c2, e2, tl, fl, v2, o1.r, n, NO_REG, o2)
    requires Tail(c3, e3.k) && e3.k == e2.k && |Body(c3, e3.k)| == |Body(c2, e2.k)| >= |c1.code|
    requires |c3.code| == |c2.code| >= |c1.code|
    requires Final(env, c3, e3.k, o2.r) == Final(env, c2, e2.k, o2.r)
    requires forall j :: j in l ==> 1 <= j < |c1.code| && c3.code[j - 1] == c1.code[j - 1]
    requires forall j :: j in tl || j in fl ==> |c1.code| < j < |c2.code| && c3.code[j - 1] == c2.code[j - 1]
    ensures Meets(env, c3, e3, JoinT(b, tl, l), JoinF(b, fl, l), v, r0, n, NO_REG, o2)
  {
    if o1.pc in l {
      JoinLeaves(env, l, b, c1, v1, v, tl, fl, c3, e3, r0, n, o1);
    } else {
      JoinMeets(env, l, b, c2, e2, tl, fl, c3, e3, v2, o1.r, n, o2);
    }
  }

  /** The first operand decides. */
  lemma JoinLeaves(env: Env, l: seq<nat>, b: bool, c1: Fs, v1: Value, v: Value, tl: seq<nat>, fl: seq<nat>, c3: Fs,
      e3: Exp, r0: Regs, n: nat, o1: Out)
    requires Tail(c3, e3.k) && o1.pc in l
    requires forall j :: j in l ==> 1 <= j < |c1.code| <= |c3.code| && c3.code[j - 1] == c1.code[j - 1]
    requires forall j :: j in tl || j in fl ==> |c1.code| < j
    requires Gated(c1, l, b, v1, r0, n, o1) && (Truthy(v1) != b ==> v == v1)
    ensures Meets(env, c3, e3, JoinT(b, tl, l), JoinF(b, fl, l), v, r0, n, NO_REG, o1)
  {
    assert o1.pc !in tl && o1.pc !in fl;
  }

  // ----- 'not' -----

  /** All tests of both lists, without values ('removevalues', lcode.c:1214-1215). */
  ghost predicate Stripped(b: seq<Instr>, tl: seq<nat>, fl: seq<nat>, b': seq<Instr>) {
    |b'| == |b| && forall i {:trigger b'[i]} :: 0 <= i < |b| ==>
      b'[i] == if (i + 1 in tl || i + 1 in fl) && b[i].TestSet? then Test(b[i].b, b[i].k) else b[i]
  }

  lemma DevaluedBoth(b: seq<Instr>, p: set<nat>, last: nat, n: nat, e: Exp, tl: seq<nat>, fl: seq<nat>)
    requires Wf(b, p, last) && Lists(b, n, e, tl, fl) && SetOf(tl) <= p && SetOf(fl) <= p
    ensures Stripped(b, tl, fl, Devalue(Devalue(b, tl), fl)) && Wf(Devalue(Devalue(b, tl), fl), p, last)
  {
    var b1 := Devalue(b, tl);
    forall j | j in tl || j in fl
      ensures Controlled(b, p, j) { assert PendAt(b, n, j) && (j in SetOf(tl) || j in SetOf(fl)); }
    Devalued(b, p, last, tl);
    forall j | j in fl ensures Controlled(b1, p, j) { assert Controlled(b, p, j) && b1[j] == b[j]; }
    Devalued(b1, p, last, fl);
  }

  lemma StrippedLists(b: seq<Instr>, n: nat, e: Exp, tl: seq<nat>, fl: seq<nat>, b': seq<Instr>, k': Kind)
    requires Lists(b, n, e, tl, fl) && Stripped(b, tl, fl, b')
    ensures Lists(b', n, Exp(k', e.f, e.t), fl, tl)
    ensures forall j :: j in tl || j in fl ==> 1 <= j <= |b'| && !HasValue(b', j)
  {
    forall j | j in tl || j in fl ensures 1 <= j <= |b'| && !HasValue(b', j) && b'[j] == b[j] && PendAt(b', n, j) {
      assert PendAt(b, n, j);
      assert b'[j - 1] == if b[j - 1].TestSet? then Test(b[j - 1].b, b[j - 1].k) else b[j - 1];
    }
    ListSame(b, b', e.t, tl);
    ListSame(b, b', e.f, fl);
  }

  lemma StrippedKeeps(c: seq<Instr>, b: seq<Instr>, e: Exp, tl: seq<nat>, fl: seq<nat>, b': seq<Instr>)
    requires Keeps(c, b) && Lists(b, |c|, e, tl, fl) && Stripped(b, tl, fl, b')
    ensures Keeps(c, b')
  {
    PendFacts(b, |c|, e, tl, fl);
    forall i | 0 <= i < |c| ensures b'[i] == b[i] { assert i + 1 !in tl && i + 1 !in fl; }
  }

  lemma StrippedRun(env: Env, b: seq<Instr>, p: set<nat>, n: nat, e: Exp, tl: seq<nat>, fl: seq<nat>, b': seq<Instr>,
      o: Out)
    requires Lists(b, n, e, tl, fl) && Stripped(b, tl, fl, b')
    ensures Run(env, b', p, o) == Run(env, b, p, o)
  {
    forall i | 0 <= i < |b|
      ensures b'[i] == b[i] || (b[i].TestSet? && b[i].a == NO_REG && b'[i] == Test(b[i].b, b[i].k)) {
      if (i + 1 in tl || i + 1 in fl) && b[i].TestSet? { assert PendAt(b, n, i + 1); }
    }
    RunDevalued(env, b, b', p, o);
  }

  lemma NotMeets(env: Env, c: Fs, e: Exp, tl: seq<nat>, fl: seq<nat>, c': Fs, k': Kind, v: Value, r0: Regs, n: nat,
      out: Out)
    requires Tail(c, e.k) && Tail(c', k') && Meets(env, c, e, tl, fl, v, r0, n, NO_REG, out)
    requires |Body(c', k')| == |Body(c, e.k)|
    requires forall j :: j in tl || j in fl ==> !HasValue(c'.code, j)
    requires Final(env, c', k', out.r) == Bool(!Truthy(Final(env, c, e.k, out.r)))
    ensures Meets(env, c', Exp(k', e.f, e.t), fl, tl, Bool(!Truthy(v)), r0, n, NO_REG, out)
  {
  }

  /** The descriptor `k'` has the negated value of `k`; `rest` is the code behind the lists. */
  ghost predicate Negated(c: Fs, k: Kind, rest: seq<Instr>, c': Fs, k': Kind) {
    && Tail(c, k) && Tail(c', k') && c' == c.(code := Body(c, k) + rest) && Body(c', k') == Body(c, k)
    && forall env, r :: Agrees(env, c'.k) ==> Final(env, c', k', r) == Bool(!Truthy(Final(env, c, k, r)))
  }

  lemma NegatedConstant(c: Fs, k: Kind)
    requires k.VNil? || k.VFalse? || k.VTrue? || k.VKInt? || k.VKStr?
    ensures Negated(c, k, [], c, if k.VNil? || k.VFalse? then VTrue else VFalse)
  {
  }

  /** 'codenot' (lcode.c:1188-1216): the descriptor yields the negated value, the lists change places and their
      tests yield no values. */
  lemma GivesNot(c0: Fs, p0: set<nat>, c: Fs, e: Exp, tl: seq<nat>, fl: seq<nat>, x: Expr, c': Fs, k': Kind)
    requires Start(c0, p0) && Good(c0, p0, c, e, tl, fl) && Gives(c0, p0, c, e, tl, fl, x, NO_REG)
    requires Tail(c', k') && c'.nact == c.nact && c'.last == c.last && c.k <= c'.k
    requires Body(c', k') == Devalue(Devalue(Body(c, e.k), tl), fl)
    requires forall env, r :: Agrees(env, c'.k) ==> Final(env, c', k', r) == Bool(!Truthy(Final(env, c, e.k, r)))
    ensures Good(c0, p0, c', Exp(k', e.f, e.t), fl, tl) && Gives(c0, p0, c', Exp(k', e.f, e.t), fl, tl, ENot(x), NO_REG)
  {
    var b, b', p := Body(c, e.k), Body(c', k'), p0 + SetOf(tl) + SetOf(fl);
    assert p0 + SetOf(fl) + SetOf(tl) == p;
    DevaluedBoth(b, p, c.last, |c0.code|, e, tl, fl);
    StrippedLists(b, |c0.code|, e, tl, fl, b', k');
    StrippedKeeps(c0.code, b, e, tl, fl, b');
    BodyPrefix(c', k');
    forall env: Env, o: Out | Agrees(env, c'.k) && Entry(c0.code, c0.last, o.pc)
      ensures Result(env, c0, p0, c', Exp(k', e.f, e.t), fl, tl, ENot(x), NO_REG, o)
    {
      AgreesLess(env, c.k, c'.k);
      assert Result(env, c0, p0, c, e, tl, fl, x, NO_REG, o);
      StrippedRun(env, b, p, |c0.code|, e, tl, fl, b', o);
      NotResult(env, c0, p0, c, e, tl, fl, x, c', k', o);
    }
  }

  lemma NotResult(env: Env, c0: Fs, p0: set<nat>, c: Fs, e: Exp, tl: seq<nat>, fl: seq<nat>, x: Expr, c': Fs,
      k': Kind, o: Out)
    requires Tail(c, e.k) && Tail(c', k') && |Body(c', k')| == |Body(c, e.k)|
    requires Result(env, c0, p0, c, e, tl, fl, x, NO_REG, o)
    requires var p := p0 + SetOf(tl) + SetOf(fl); Run(env, Body(c', k'), p, o) == Run(env, Body(c, e.k), p, o)
    requires forall j :: j in tl || j in fl ==> !HasValue(c'.code, j)
    requires forall r :: Final(env, c', k', r) == Bool(!Truthy(Final(env, c, e.k, r)))
    ensures Result(env, c0, p0, c', Exp(k', e.f, e.t), fl, tl, ENot(x), NO_REG, o)
  {
    var p := p0 + SetOf(tl) + SetOf(fl);
    assert p0 + SetOf(fl) + SetOf(tl) == p;
    var o0 := Run(env, c0.code, p0, o);
    if o0.pc == |c0.code| {
      NotMeets(env, c, e, tl, fl, c', k', Eval(env, x, o0.r), o0.r, c0.free, Run(env, Body(c, e.k), p, o));
    }
  }

  lemma BodyPrefix(c: Fs, k: Kind)
    requires Tail(c, k)
    ensures Body(c, k) <= c.code
    ensures forall j :: 1 <= j <= |Body(c, k)| ==> HasValue(c.code, j) == HasValue(Body(c, k), j)
  {
  }

  // ----- comparisons -----

  /** Both operands are at hand where the code ends, without jumps. */
  ghost predicate PairIn(env: Env, c0: Fs, p0: set<nat>, c: Fs, k1: Kind, k2: Kind, x1: Expr, x2: Expr, o: Out)
    requires Tail(c, k1) && Tail(c, k2)
  {
    var o0, out := Run(env, c0.code, p0, o), Run(env, c.code, p0, o);
    if o0.pc != |c0.code| then out == o0
    else
      && out.pc == |c.code| && Keep(o0.r, out.r, c0.free, NO_REG)
      && Final(env, c, k1, out.r) == Eval(env, x1, o0.r) && Final(env, c, k2, out.r) == Eval(env, x2, o0.r)
  }

  ghost predicate Pair(c0: Fs, p0: set<nat>, c: Fs, k1: Kind, k2: Kind, x1: Expr, x2: Expr) {
    && Tail(c, k1) && Tail(c, k2) && Plain(k1) && Plain(k2)
    && c.nact == c0.nact && c0.last <= c.last && c0.k <= c.k && Keeps(c0.code, c.code) && Wf(c.code, p0, c.last)
    && forall env: Env, o: Out {:trigger PairIn(env, c0, p0, c, k1, k2, x1, x2, o)} ::
        Agrees(env, c.k) && Entry(c0.code, c0.last, o.pc) ==> PairIn(env, c0, p0, c, k1, k2, x1, x2, o)
  }

  lemma PairSwapped(c0: Fs, p0: set<nat>, c: Fs, k1: Kind, k2: Kind, x1: Expr, x2: Expr)
    requires Pair(c0, p0, c, k1, k2, x1, x2)
    ensures Pair(c0, p0, c, k2, k1, x2, x1)
  {
    forall env: Env, o: Out | Agrees(env, c.k) && Entry(c0.code, c0.last, o.pc)
      ensures PairIn(env, c0, p0, c, k2, k1, x2, x1, o) {
      assert PairIn(env, c0, p0, c, k1, k2, x1, x2, o);
    }
  }

  /** The value of the first operand does not change while the second is compiled. */
  predicate Stays(c1: Fs, k1: Kind) { Plain(k1) && !k1.VLocal? && (k1.VNonReloc? ==> k1.reg < c1.free) }

  lemma PairUp(c0: Fs, p0: set<nat>, c1: Fs, k1: Kind, x1: Expr, c2: Fs, k2: Kind, x2: Expr)
    requires Start(c0, p0) && Good(c0, p0, c1, NoJumps(k1), [], [])
    requires Gives(c0, p0, c1, NoJumps(k1), [], [], x1, NO_REG)
    requires Good(c1, p0, c2, NoJumps(k2), [], []) && Gives(c1, p0, c2, NoJumps(k2), [], [], x2, NO_REG) && Plain(k2)
    requires Scoped(x2, c0.nact) && c0.free <= c1.free <= NO_REG && Stays(c1, k1)
    ensures Pair(c0, p0, c2, k1, k2, x1, x2)
  {
    PairUpGood(c0, p0, c1, k1, c2, k2);
    forall env: Env, o: Out | Agrees(env, c2.k) && Entry(c0.code, c0.last, o.pc)
      ensures PairIn(env, c0, p0, c2, k1, k2, x1, x2, o) {
      AgreesLess(env, c1.k, c2.k);
      assert Result(env, c0, p0, c1, NoJumps(k1), [], [], x1, NO_REG, o);
      assert Result(env, c1, p0, c2, NoJumps(k2), [], [], x2, NO_REG, o);
      RunInside(env, c0.code, p0, c0.last, o);
      PairUpIn(env, c0, p0, c1, k1, x1, c2, k2, x2, o);
    }
  }

  lemma PairUpGood(c0: Fs, p0: set<nat>, c1: Fs, k1: Kind, c2: Fs, k2: Kind)
    requires Good(c0, p0, c1, NoJumps(k1), [], []) && Good(c1, p0, c2, NoJumps(k2), [], []) && Plain(k1) && Plain(k2)
    ensures Tail(c2, k1) && Keeps(c0.code, c2.code) && Wf(c2.code, p0, c2.last) && |c0.code| <= |c1.code|
    ensures c2.nact == c0.nact && c0.last <= c2.last && c0.k <= c1.k <= c2.k && c0.last <= c1.last
  {
    assert p0 + SetOf([]) + SetOf([]) == p0;
    KeepsTrans(c0.code, c1.code, c2.code);
  }

  lemma PairUpIn(env: Env, c0: Fs, p0: set<nat>, c1: Fs, k1: Kind, x1: Expr, c2: Fs, k2: Kind, x2: Expr, o: Out)
    requires Tail(c1, k1) && Plain(k1) && Tail(c2, k1) && Tail(c2, k2) && Plain(k2)
    requires Result(env, c0, p0, c1, NoJumps(k1), [], [], x1, NO_REG, o)
    requires Result(env, c1, p0, c2, NoJumps(k2), [], [], x2, NO_REG, o)
    requires Run(env, c0.code, p0, o).pc <= |c0.code| <= |c1.code|
    requires Scoped(x2, c0.nact) && c0.nact <= c0.free <= c1.free <= NO_REG && !k1.VLocal?
    requires (k1.VNonReloc? ==> k1.reg < c1.free)
    ensures PairIn(env, c0, p0, c2, k1, k2, x1, x2, o)
  {
    assert p0 + SetOf([]) + SetOf([]) == p0;
    var o0, o1 := Run(env, c0.code, p0, o), Run(env, c1.code, p0, o);
    if o0.pc == |c0.code| { EvalIf(env, x2, o0.r, o1.r, c0.nact, c0.free); }
  }

  /** The comparison says how the operands compare. */
  ghost predicate Tells(c: Fs, k1: Kind, k2: Kind, op: CmpOp, i: Instr)
    requires Tail(c, k1) && Tail(c, k2)
  {
    IsCompare(i) && forall env, r :: Agrees(env, c.k) ==>
      Cond(env, i, r) == Compare(env, op, Final(env, c, k1, r), Final(env, c, k2, r))
  }

  /** 'codeorder' and 'codeeq': a comparison with its jump, to be taken when it holds (lcode.c:1553-1610). */
  lemma GivesCompared(c0: Fs, p0: set<nat>, c: Fs, k1: Kind, k2: Kind, x1: Expr, x2: Expr, op: CmpOp, i: Instr,
      free: nat)
    requires Start(c0, p0) && Pair(c0, p0, c, k1, k2, x1, x2) && Tells(c, k1, k2, op, i)
    ensures var c' := c.(code := c.code + [i, Jmp(-1)], free := free); var k := VJmp(|c.code| + 1);
      Good(c0, p0, c', NoJumps(k), [], []) && Gives(c0, p0, c', NoJumps(k), [], [], ECmp(op, x1, x2), NO_REG)
  {
    var c', k := c.(code := c.code + [i, Jmp(-1)], free := free), VJmp(|c.code| + 1);
    assert p0 + SetOf([]) + SetOf([]) == p0 && Body(c', k) == c.code;
    forall env: Env, o: Out | Agrees(env, c'.k) && Entry(c0.code, c0.last, o.pc)
      ensures Result(env, c0, p0, c', NoJumps(k), [], [], ECmp(op, x1, x2), NO_REG, o)
    {
      assert PairIn(env, c0, p0, c, k1, k2, x1, x2, o);
      var out := Run(env, c.code, p0, o);
      assert Cond(env, i, out.r) == Compare(env, op, Final(env, c, k1, out.r), Final(env, c, k2, out.r));
      ComparedResult(env, c0, p0, c, k1, k2, x1, x2, op, i, c', k, o);
    }
  }

  lemma ComparedResult(env: Env, c0: Fs, p0: set<nat>, c: Fs, k1: Kind, k2: Kind, x1: Expr, x2: Expr, op: CmpOp,
      i: Instr, c': Fs, k: Kind, o: Out)
    requires Tail(c, k1) && Tail(c, k2) && PairIn(env, c0, p0, c, k1, k2, x1, x2, o) && IsCompare(i)
    requires c'.code == c.code + [i, Jmp(-1)] && k == VJmp(|c.code| + 1)
    requires var r := Run(env, c.code, p0, o).r;
      Cond(env, i, r) == Compare(env, op, Final(env, c, k1, r), Final(env, c, k2, r))
    ensures Result(env, c0, p0, c', NoJumps(k), [], [], ECmp(op, x1, x2), NO_REG, o)
  {
    assert p0 + SetOf([]) + SetOf([]) == p0 && Body(c', k) == c.code;
  }
}
