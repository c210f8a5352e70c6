/** The claims about partly compiled expressions, folded: the code generator composes them without looking inside. */
module ExprHas {
  import opened JumpCode
  import opened ExprSpec
  import opened ExprLemmas
  import opened ExprLogic
  import opened ExprJoin
  import opened Folding

  /** The code so far computes `x`, as the descriptor says; only register `hole` may have lost its value. Folded. */
  ghost predicate HasBut(c0: Fs, p0: set<nat>, c: Fs, e: Exp, tl: seq<nat>, fl: seq<nat>, x: Expr, hole: nat) {
    forall n: nat {:trigger Open(n)} :: Open(n) ==>
      Start(c0, p0) && Good(c0, p0, c, e, tl, fl) && Gives(c0, p0, c, e, tl, fl, x, hole)
  }

  ghost predicate Has(c0: Fs, p0: set<nat>, c: Fs, e: Exp, tl: seq<nat>, fl: seq<nat>, x: Expr) {
    HasBut(c0, p0, c, e, tl, fl, x, NO_REG)
  }

  /** The value is in the register. */
  ghost predicate InReg(c0: Fs, p0: set<nat>, c: Fs, reg: nat, x: Expr, hole: nat) {
    HasBut(c0, p0, c, NoJumps(VNonReloc(reg)), [], [], x, hole)
  }

  lemma HasTail(c0: Fs, p0: set<nat>, c: Fs, e: Exp, tl: seq<nat>, fl: seq<nat>, x: Expr, hole: nat)
    requires HasBut(c0, p0, c, e, tl, fl, x, hole)
    ensures Tail(c, e.k) && c.last <= |c.code| && c.nact == c0.nact && c0.nact <= c0.free < MAXREGS
    ensures |c0.code| <= |Body(c, e.k)| && c0.last <= c.last && c0.k <= c.k
  {
    assert Open(0);
  }

  lemma HasCode(c0: Fs, p0: set<nat>, c: Fs, e: Exp, tl: seq<nat>, fl: seq<nat>, x: Expr, hole: nat)
    requires HasBut(c0, p0, c, e, tl, fl, x, hole) && Plain(e.k)
    ensures Wf(c.code, p0 + SetOf(tl) + SetOf(fl), c.last) && Lists(c.code, |c0.code|, e, tl, fl)
    ensures c.code != [] ==> !c.code[|c.code| - 1].TestSet?
  {
    assert Open(0);
    if c.code != [] { WfNoTestLast(c.code, p0 + SetOf(tl) + SetOf(fl), c.last); }
  }

  lemma HasLists(c0: Fs, p0: set<nat>, c: Fs, e: Exp, tl: seq<nat>, fl: seq<nat>, x: Expr, hole: nat)
    requires HasBut(c0, p0, c, e, tl, fl, x, hole)
    ensures Tail(c, e.k) && IsList(c.code, e.t, tl) && IsList(c.code, e.f, fl) && Apart(tl, fl)
    ensures forall j :: j in tl || j in fl ==> |c0.code| < j < |Body(c, e.k)|
    ensures e.t == e.f ==> tl == [] && fl == [] && e.t == -1 && e.f == -1
    ensures (e.t == -1 <==> tl == []) && (e.f == -1 <==> fl == [])
  {
    assert Open(0);
    var b := Body(c, e.k);
    PendFacts(b, |c0.code|, e, tl, fl);
    ListSame(b, c.code, e.t, tl);
    ListSame(b, c.code, e.f, fl);
    ListHead(b, e.t, tl);
    ListHead(b, e.f, fl);
  }

  lemma ListHead(code: seq<Instr>, h: int, s: seq<nat>)
    requires IsList(code, h, s)
    ensures (h == -1 && s == []) || (h >= 0 && h in s)
  {
  }

  lemma HasLeaf(c: Fs, p: set<nat>, kd: Kind, x: Expr)
    requires Start(c, p) && Tail(c, kd) && Plain(kd)
    requires forall env, r :: Final(env, c, kd, r) == Eval(env, x, r)
    ensures Has(c, p, c, NoJumps(kd), [], [], x)
  {
    GivesLeaf(c, p, kd, x);
  }

  /** Another description of the same code. */
  lemma HasSame(c0: Fs, p0: set<nat>, c: Fs, e: Exp, c': Fs, e': Exp, tl: seq<nat>, fl: seq<nat>, x: Expr, hole: nat)
    requires HasBut(c0, p0, c, e, tl, fl, x, hole) && Tail(c, e.k)
    requires Tail(c', e'.k) && Body(c', e'.k) == Body(c, e.k) && e'.t == e.t && e'.f == e.f
    requires c'.nact == c.nact && c'.last == c.last && c.k <= c'.k
    requires forall env, r :: Agrees(env, c'.k) ==> Final(env, c', e'.k, r) == Final(env, c, e.k, r)
    ensures HasBut(c0, p0, c', e', tl, fl, x, hole)
  {
    assert Open(0);
    GivesSame(c0, p0, c, e, c', e', tl, fl, x, hole);
  }

  /** The number of registers in use does not matter. */
  lemma HasFree(c0: Fs, p0: set<nat>, c: Fs, e: Exp, c': Fs, tl: seq<nat>, fl: seq<nat>, x: Expr, hole: nat)
    requires HasBut(c0, p0, c, e, tl, fl, x, hole) && c' == c.(free := c'.free)
    ensures HasBut(c0, p0, c', e, tl, fl, x, hole)
  {
    HasTail(c0, p0, c, e, tl, fl, x, hole);
    HasSame(c0, p0, c, e, c', e, tl, fl, x, hole);
  }

  lemma HasLoaded(c0: Fs, p0: set<nat>, c: Fs, e: Exp, c': Fs, reg: nat, tl: seq<nat>, fl: seq<nat>, x: Expr)
    requires Has(c0, p0, c, e, tl, fl, x) && Tail(c, e.k)
    requires Discharged(c, e.k, reg, c'.code, c'.k) && c.k <= c'.k && c'.nact == c.nact && c'.last == c.last
    requires reg < NO_REG
    ensures HasBut(c0, p0, c', e.(k := VNonReloc(reg)), tl, fl, x, reg)
  {
    assert Open(0);
    GivesLoaded(c0, p0, c, e, c', reg, tl, fl, x);
  }

  /** A register that was not in use is no exception. */
  lemma HasAll(c0: Fs, p0: set<nat>, c: Fs, e: Exp, tl: seq<nat>, fl: seq<nat>, x: Expr, reg: nat)
    requires HasBut(c0, p0, c, e, tl, fl, x, reg) && reg >= c0.free
    ensures Has(c0, p0, c, e, tl, fl, x)
  {
    assert Open(0);
    NoHole(c0, p0, c, e, tl, fl, x, reg);
  }

  lemma HasWeaker(c0: Fs, p0: set<nat>, c: Fs, e: Exp, tl: seq<nat>, fl: seq<nat>, x: Expr, reg: nat)
    requires Has(c0, p0, c, e, tl, fl, x)
    ensures HasBut(c0, p0, c, e, tl, fl, x, reg)
  {
    assert Open(0);
    AnyHole(c0, p0, c, e, tl, fl, x, reg);
  }

  lemma AnyHole(c0: Fs, p0: set<nat>, c: Fs, e: Exp, tl: seq<nat>, fl: seq<nat>, x: Expr, reg: nat)
    requires Tail(c, e.k) && Gives(c0, p0, c, e, tl, fl, x, NO_REG) && c0.free <= NO_REG
    ensures Gives(c0, p0, c, e, tl, fl, x, reg)
  {
    forall env: Env, o: Out | Agrees(env, c.k) && Entry(c0.code, c0.last, o.pc)
      ensures Result(env, c0, p0, c, e, tl, fl, x, reg, o) {
      assert Result(env, c0, p0, c, e, tl, fl, x, NO_REG, o);
    }
  }

  // ----- jumps at the end of an expression -----

  lemma JumpListed(c: Fs, e: Exp, n: nat, tl: seq<nat>, fl: seq<nat>)
    requires Tail(c, e.k) && e.k.VJmp? && Lists(Body(c, e.k), n, e, tl, fl)
    ensures IsList(c.code, e.k.pc, [e.k.pc]) && e.k.pc !in tl && e.k.pc !in fl
  {
    PendFacts(Body(c, e.k), n, e, tl, fl);
  }

  lemma HasJump(c0: Fs, p0: set<nat>, c: Fs, e: Exp, tl: seq<nat>, fl: seq<nat>, x: Expr)
    requires Has(c0, p0, c, e, tl, fl, x) && e.k.VJmp?
    ensures Tail(c, e.k) && IsList(c.code, e.k.pc, [e.k.pc]) && Apart(tl, [e.k.pc]) && Apart(fl, [e.k.pc])
  {
    assert Open(0);
    JumpListed(c, e, |c0.code|, tl, fl);
  }

  lemma HasJmpToList(c0: Fs, p0: set<nat>, c: Fs, e: Exp, c': Fs, t': int, tl: seq<nat>, fl: seq<nat>, x: Expr)
    requires Has(c0, p0, c, e, tl, fl, x) && e.k.VJmp? && Tail(c, e.k)
    requires c' == c.(code := c'.code) && Relinked(c.code, c'.code, SetOf(tl)) && IsList(c'.code, t', tl + [e.k.pc])
    ensures Has(c0, p0, c', Exp(VFalse, t', e.f), tl + [e.k.pc], fl, x)
    ensures e.k.pc in tl + [e.k.pc] && !HasValue(c'.code, e.k.pc)
  {
    assert Open(0);
    JmpToList(c0, p0, c, e, c', t', tl, fl, x);
    assert c'.code[e.k.pc - 1] == c.code[e.k.pc - 1];
  }

  /** The code ends with what the jumps without a value need. */
  ghost predicate Served(c: Fs, k: Kind, p: set<nat>, reg: nat, code: seq<Instr>, tl: seq<nat>, fl: seq<nat>,
      df: Dest, dt: Dest)
    requires Tail(c, k)
  {
    && Keeps(c.code, code) && Wf(code, p, |code|) && DestOk(code, reg, df) && DestOk(code, reg, dt)
    && DestsServe(code, tl, fl, df, dt)
    && forall env: Env, o: Out :: o.pc <= |c.code| ==> EndsWith(env, c, k, p, code, reg, o)
  }

  lemma HasServed(c0: Fs, p0: set<nat>, c: Fs, e: Exp, code: seq<Instr>, tl: seq<nat>, fl: seq<nat>, x: Expr,
      reg: nat, df: Dest, dt: Dest)
    requires HasBut(c0, p0, c, e, tl, fl, x, reg) && Plain(e.k) && Tail(c, e.k) && reg < NO_REG
    requires Served(c, e.k, p0 + SetOf(tl) + SetOf(fl), reg, code, tl, fl, df, dt)
    ensures Lists(code, |c0.code|, e, tl, fl) && DestOk(code, reg, df) && DestOk(code, reg, dt)
    ensures forall j :: j in tl || j in fl ==> j < |code|
    ensures InReg(c0, p0, c.(code := PatchBoth(code, tl, fl, reg, df, dt), last := |code|), reg, x, reg)
  {
    assert Open(0);
    ListsKept(c.code, code, |c0.code|, e, tl, fl);
    GivesPatched(c0, p0, c, e.k, e, code, tl, fl, x, reg, df, dt);
  }

  lemma BoolsEnd(c: Fs, k: Kind, p: set<nat>, reg: nat, isjmp: bool, code: seq<Instr>, tl: seq<nat>, fl: seq<nat>)
    requires Wf(c.code, p, c.last) && k == (if isjmp then VFalse else VNonReloc(reg)) && reg < NO_REG
    requires code == c.code + (if isjmp then [] else [Jmp(2)]) + [LFalseSkip(reg), LoadTrue(reg)]
    ensures Served(c, k, p, reg, code, tl, fl, AtFalse, AtTrue)
  {
    if isjmp {
      assert code == c.code + [LFalseSkip(reg), LoadTrue(reg)];
    } else {
      assert code == c.code + [Jmp(2), LFalseSkip(reg), LoadTrue(reg)];
    }
    forall env: Env, o: Out | o.pc <= |c.code| ensures EndsWith(env, c, k, p, code, reg, o) {
      if isjmp { FallThrough(env, c.code, p, c.last, reg, o); } else { JumpAround(env, c.code, p, c.last, reg, o); }
    }
    if isjmp {
      FallThrough(AnyEnv(), c.code, p, c.last, reg, Out(0, map[]));
    } else {
      JumpAround(AnyEnv(), c.code, p, c.last, reg, Out(0, map[]));
    }
  }

  lemma NothingLoaded(c: Fs, k: Kind, p: set<nat>, reg: nat, tl: seq<nat>, fl: seq<nat>)
    requires k == VNonReloc(reg) && Wf(c.code, p, c.last) && forall j :: j in tl || j in fl ==> HasValue(c.code, j)
    ensures Served(c, k, p, reg, c.code, tl, fl, Here, Here)
  {
    WfLabel(c.code, p, c.last);
  }

  // ----- going on if a condition holds -----

  /** The run goes on if the truth of `x` is `b`, and takes a jump of the list otherwise. Folded. */
  ghost predicate GateIs(c0: Fs, p0: set<nat>, c: Fs, h: int, l: seq<nat>, b: bool, x: Expr) {
    forall n: nat {:trigger Open(n)} :: Open(n) ==> Start(c0, p0) && Gate(c0, p0, c, h, l, b, x)
  }

  /** The same while the jumps of list `m` wait to be patched. Folded. */
  ghost predicate HalfGateIs(c0: Fs, p0: set<nat>, c: Fs, h: int, l: seq<nat>, m: seq<nat>, b: bool, x: Expr) {
    forall n: nat {:trigger Open(n)} :: Open(n) ==> Start(c0, p0) && HalfGate(c0, p0, c, h, l, m, b, x)
  }

  /** The test that is emitted for the value `kd` of state `c` decides whether to jump. Folded. */
  ghost predicate DecidesIt(c: Fs, kd: Kind, i: Instr, b: bool)
    requires Tail(c, kd)
  {
    forall n: nat {:trigger Open(n)} :: Open(n) ==> Decides(c, kd, i, b)
  }

  function Flip(i: Instr): (j: Instr)
    requires IsCompare(i)
    ensures IsCompare(j) && forall env, r :: Cond(env, j, r) == !Cond(env, i, r)
  {
    match i
    case Eq(a, b, k) => Eq(a, b, !k)
    case Lt(a, b, k) => Lt(a, b, !k)
    case Le(a, b, k) => Le(a, b, !k)
    case EqK(a, b, k) => EqK(a, b, !k)
    case EqI(a, n, k) => EqI(a, n, !k)
    case LtI(a, n, k) => LtI(a, n, !k)
    case LeI(a, n, k) => LeI(a, n, !k)
    case GtI(a, n, k) => GtI(a, n, !k)
    case GeI(a, n, k) => GeI(a, n, !k)
  }

  lemma DecideJump(c: Fs, kd: Kind, b: bool)
    requires Tail(c, kd) && kd.VJmp?
    ensures DecidesIt(c, kd, if b then Flip(c.code[kd.pc - 1]) else c.code[kd.pc - 1], b)
  {
    var i := if b then Flip(c.code[kd.pc - 1]) else c.code[kd.pc - 1];
    assert IsTest(i) && !i.TestSet?;
    forall env, r | Agrees(env, c.k) ensures DecidesIn(env, c, kd, i, b, r) {
      assert Cond(env, i, r) == (Cond(env, c.code[kd.pc - 1], r) != b);
    }
  }

  lemma DecideNot(c: Fs, kd: Kind, b: bool)
    requires Tail(c, kd) && kd.VReloc? && c.code[kd.pc].Not?
    ensures DecidesIt(c, kd, Test(c.code[kd.pc].b, b), b)
  {
    var i := Test(c.code[kd.pc].b, b);
    assert IsTest(i) && !i.TestSet?;
    forall env, r | Agrees(env, c.k) ensures DecidesIn(env, c, kd, i, b, r) {
      assert Cond(env, i, r) == (Truthy(Get(r, c.code[kd.pc].b)) == b);
    }
  }

  lemma DecideReg(c: Fs, reg: nat, b: bool)
    ensures DecidesIt(c, VNonReloc(reg), TestSet(NO_REG, reg, !b), b)
  {
    var i := TestSet(NO_REG, reg, !b);
    assert IsTest(i) && i.TestSet? && i.a == NO_REG;
    forall env, r | Agrees(env, c.k) ensures DecidesIn(env, c, VNonReloc(reg), i, b, r) {
      assert Cond(env, i, r) == (Truthy(Get(r, reg)) == !b);
    }
  }

  lemma HasEmitted(c0: Fs, p0: set<nat>, c: Fs, e: Exp, tl: seq<nat>, fl: seq<nat>, x: Expr, b: bool, i: Instr,
      cm: Fs, h: int)
    requires Has(c0, p0, c, e, tl, fl, x) && Tail(c, e.k) && DecidesIt(c, e.k, i, b)
    requires cm.nact == c.nact && cm.last == c.last && cm.k == c.k
    requires Emitted(Body(c, e.k), i, Own(b, tl, fl), cm.code, h)
    ensures HalfGateIs(c0, p0, cm, h, Own(b, tl, fl) + [|Body(c, e.k)| + 1], Own(!b, tl, fl), b, x)
  {
    assert Open(0);
    GateEmitted(c0, p0, c, e, tl, fl, x, b, i, cm, h);
  }

  lemma HasDecided(c0: Fs, p0: set<nat>, c: Fs, e: Exp, tl: seq<nat>, fl: seq<nat>, x: Expr, b: bool)
    requires Has(c0, p0, c, e, tl, fl, x) && Plain(e.k)
    requires if b then e.k.VKStr? || e.k.VKInt? || e.k.VTrue? else e.k.VNil? || e.k.VFalse?
    ensures HalfGateIs(c0, p0, c, Own(b, e.t, e.f), Own(b, tl, fl), Own(!b, tl, fl), b, x)
  {
    assert Open(0);
    GateConstant(c0, p0, c, e, tl, fl, x, b);
  }

  lemma HalfGateList(c0: Fs, p0: set<nat>, c: Fs, h: int, l: seq<nat>, m: seq<nat>, b: bool, x: Expr, hm: int, c': Fs)
    requires HalfGateIs(c0, p0, c, h, l, m, b, x) && IsList(c.code, hm, m) && JumpsIn(c.code, m)
    requires c'.code == PatchAll(c.code, m, NO_REG, Here)
    requires c' == c.(code := c'.code, last := |c.code|, free := c'.free)
    ensures GateIs(c0, p0, c', h, l, b, x)
  {
    assert Open(0);
    GatePatched(c0, p0, c, h, l, m, b, x);
    var c1 := c.(code := PatchAll(c.code, m, NO_REG, Here), last := |c.code|);
    forall env: Env, o: Out | Agrees(env, c'.k) && Entry(c0.code, c0.last, o.pc)
      ensures Passes(env, c0, p0, c', l, b, x, o) {
      assert Passes(env, c0, p0, c1, l, b, x, o);
    }
  }

  predicate JumpsIn(code: seq<Instr>, s: seq<nat>) {
    forall j :: j in s ==> j < |code| && code[j].Jmp?
  }

  lemma GateStart(c0: Fs, p0: set<nat>, c: Fs, h: int, l: seq<nat>, b: bool, x: Expr)
    requires GateIs(c0, p0, c, h, l, b, x) && c.free == c0.free
    ensures Start(c, p0 + SetOf(l)) && IsList(c.code, h, l) && c.nact == c0.nact
    ensures forall j :: j in l ==> j < |c.code|
  {
    assert Open(0);
    OnePending(c.code, p0 + SetOf(l), |c0.code|, h, l);
  }

  /** The lists when a test and its jump have been emitted behind the value. */
  lemma EmittedPending(c0: Fs, p0: set<nat>, c: Fs, e: Exp, tl: seq<nat>, fl: seq<nat>, x: Expr, i: Instr,
      code: seq<Instr>, b: bool)
    requires Has(c0, p0, c, e, tl, fl, x) && Tail(c, e.k) && code == Body(c, e.k) + [i, Jmp(-1)]
    ensures IsList(code, Own(b, e.t, e.f), Own(b, tl, fl)) && IsList(code, Own(!b, e.t, e.f), Own(!b, tl, fl))
    ensures Apart(tl, fl)
    ensures var pc := |Body(c, e.k)| + 1;
      IsList(code, pc, [pc]) && Apart(Own(b, tl, fl), [pc]) && pc !in Own(!b, tl, fl)
  {
    assert Open(0);
    var b0 := Body(c, e.k);
    PendFacts(b0, |c0.code|, e, tl, fl);
    ListSame(b0, code, e.t, tl);
    ListSame(b0, code, e.f, fl);
  }

  /** Linking the own list leaves the other one alone. */
  lemma OtherList(code: seq<Instr>, code': seq<Instr>, own: seq<nat>, h: int, m: seq<nat>)
    requires Relinked(code, code', SetOf(own)) && IsList(code, h, m) && Apart(own, m)
    ensures IsList(code', h, m) && JumpsIn(code', m)
  {
    forall j | j in m ensures j < |code'| && code'[j] == code[j] && code'[j].Jmp? { assert j !in own && code[j].Jmp?; }
    ListSame(code, code', h, m);
  }

  // ----- joining operands -----

  lemma HasJoined(c0: Fs, p0: set<nat>, c1: Fs, h: int, l: seq<nat>, b: bool, x1: Expr,
                  c2: Fs, e2: Exp, tl: seq<nat>, fl: seq<nat>, x2: Expr, c3: Fs, e3: Exp)
    requires GateIs(c0, p0, c1, h, l, b, x1) && c1.free == c0.free && Has(c1, p0 + SetOf(l), c2, e2, tl, fl, x2)
    requires Scoped(x2, c0.nact)
    requires Tail(c2, e2.k) && c3 == c2.(code := c3.code) && e3.k == e2.k
    requires Relinked(c2.code, c3.code, SetOf(Own(b, tl, fl)))
    requires IsList(c3.code, e3.t, JoinT(b, tl, l)) && IsList(c3.code, e3.f, JoinF(b, fl, l))
    ensures Has(c0, p0, c3, e3, JoinT(b, tl, l), JoinF(b, fl, l), Join(b, x1, x2))
  {
    HasTail(c1, p0 + SetOf(l), c2, e2, tl, fl, x2, NO_REG);
    HasLists(c1, p0 + SetOf(l), c2, e2, tl, fl, x2, NO_REG);
    GateStart(c0, p0, c1, h, l, b, x1);
    JoinedReady(c1, l, b, c2, e2, tl, fl, c3, e3);
    JoinedHas(c0, p0, c1, h, l, b, x1, c2, e2, tl, fl, x2, c3, e3);
  }

  lemma JoinedHas(c0: Fs, p0: set<nat>, c1: Fs, h: int, l: seq<nat>, b: bool, x1: Expr,
                  c2: Fs, e2: Exp, tl: seq<nat>, fl: seq<nat>, x2: Expr, c3: Fs, e3: Exp)
    requires GateIs(c0, p0, c1, h, l, b, x1) && c1.free == c0.free && Has(c1, p0 + SetOf(l), c2, e2, tl, fl, x2)
    requires Scoped(x2, c0.nact)
    requires Tail(c2, e2.k) && Joined(c1, l, b, c2, e2, tl, fl, c3, e3)
    ensures Has(c0, p0, c3, e3, JoinT(b, tl, l), JoinF(b, fl, l), Join(b, x1, x2))
  {
    assert Open(0);
    GivesJoined(c0, p0, c1, h, l, b, x1, c2, e2, tl, fl, x2, c3, e3);
  }

  lemma JoinedReady(c1: Fs, l: seq<nat>, b: bool, c2: Fs, e2: Exp, tl: seq<nat>, fl: seq<nat>, c3: Fs, e3: Exp)
    requires Tail(c2, e2.k) && c3 == c2.(code := c3.code) && e3.k == e2.k
    requires Relinked(c2.code, c3.code, SetOf(Own(b, tl, fl)))
    requires IsList(c3.code, e3.t, JoinT(b, tl, l)) && IsList(c3.code, e3.f, JoinF(b, fl, l))
    requires forall j :: j in l || j in tl || j in fl ==> j < |Body(c2, e2.k)|
    ensures Joined(c1, l, b, c2, e2, tl, fl, c3, e3)
  {
    RelinkedTail(c2, c3, e2.k, Own(b, tl, fl));
    Bodies(c2, c3, e2.k);
    ListShort(c3.code, Body(c3, e3.k), e3.t, JoinT(b, tl, l));
    ListShort(c3.code, Body(c3, e3.k), e3.f, JoinF(b, fl, l));
  }

  lemma ListShort(code: seq<Instr>, b: seq<Instr>, h: int, s: seq<nat>)
    requires IsList(code, h, s) && b <= code && forall j :: j in s ==> j < |b|
    ensures IsList(b, h, s)
  {
    forall i | 0 <= i < |s| ensures s[i] < |b| && b[s[i]] == code[s[i]] { assert s[i] in s; }
  }

  lemma RelinkedTail(c: Fs, c': Fs, kd: Kind, own: seq<nat>)
    requires Tail(c, kd) && c' == c.(code := c'.code) && Relinked(c.code, c'.code, SetOf(own))
    requires forall j :: j in own ==> j < |Body(c, kd)|
    ensures Tail(c', kd)
  {
    if kd.VReloc? { assert c'.code[kd.pc] == c.code[kd.pc]; }
    if kd.VJmp? { assert c'.code[kd.pc - 1] == c.code[kd.pc - 1] && c'.code[kd.pc] == c.code[kd.pc]; }
  }

  lemma HasNot(c0: Fs, p0: set<nat>, c: Fs, e: Exp, tl: seq<nat>, fl: seq<nat>, x: Expr, c': Fs, k': Kind)
    requires Has(c0, p0, c, e, tl, fl, x) && Tail(c, e.k)
    requires Tail(c', k') && c'.nact == c.nact && c'.last == c.last && c.k <= c'.k
    requires Body(c', k') == Devalue(Devalue(Body(c, e.k), tl), fl)
    requires forall env, r :: Agrees(env, c'.k) ==> Final(env, c', k', r) == Bool(!Truthy(Final(env, c, e.k, r)))
    ensures Has(c0, p0, c', Exp(k', e.f, e.t), fl, tl, ENot(x))
  {
    assert Open(0);
    GivesNot(c0, p0, c, e, tl, fl, x, c', k');
  }

  /** Both operands of a comparison are at hand. Folded. */
  ghost predicate PairIs(c0: Fs, p0: set<nat>, c: Fs, k1: Kind, k2: Kind, x1: Expr, x2: Expr) {
    forall n: nat {:trigger Open(n)} :: Open(n) ==> Start(c0, p0) && Pair(c0, p0, c, k1, k2, x1, x2)
  }

  lemma PairTails(c0: Fs, p0: set<nat>, c: Fs, k1: Kind, k2: Kind, x1: Expr, x2: Expr)
    requires PairIs(c0, p0, c, k1, k2, x1, x2)
    ensures Tail(c, k1) && Tail(c, k2) && Plain(k1) && Plain(k2) && c.last <= |c.code| && c.nact == c0.nact
  {
    assert Open(0);
  }

  lemma PairTurned(c0: Fs, p0: set<nat>, c: Fs, k1: Kind, k2: Kind, x1: Expr, x2: Expr)
    requires PairIs(c0, p0, c, k1, k2, x1, x2)
    ensures PairIs(c0, p0, c, k2, k1, x2, x1)
  {
    assert Open(0);
    PairSwapped(c0, p0, c, k1, k2, x1, x2);
  }

  lemma HasPair(c0: Fs, p0: set<nat>, c1: Fs, k1: Kind, x1: Expr, c2: Fs, k2: Kind, x2: Expr)
    requires Has(c0, p0, c1, NoJumps(k1), [], [], x1) && Has(c1, p0, c2, NoJumps(k2), [], [], x2) && Plain(k2)
    requires Scoped(x2, c0.nact) && c0.free <= c1.free && Stays(c1, k1)
    ensures PairIs(c0, p0, c2, k1, k2, x1, x2)
  {
    assert Open(0);
    PairUp(c0, p0, c1, k1, x1, c2, k2, x2);
  }

  /** Another description of an operand. */
  lemma PairSame(c0: Fs, p0: set<nat>, c: Fs, k1: Kind, k2: Kind, x1: Expr, x2: Expr, c': Fs, k2': Kind)
    requires PairIs(c0, p0, c, k1, k2, x1, x2) && Tail(c, k2) && Tail(c', k2') && Plain(k2') && Tail(c', k1)
    requires c' == c.(k := c'.k, free := c'.free) && c.k <= c'.k
    requires forall env, r :: Agrees(env, c'.k) ==> Final(env, c', k2', r) == Final(env, c, k2, r)
    ensures PairIs(c0, p0, c', k1, k2', x1, x2)
  {
    assert Open(0);
    forall env: Env, o: Out | Agrees(env, c'.k) && Entry(c0.code, c0.last, o.pc)
      ensures PairIn(env, c0, p0, c', k1, k2', x1, x2, o) {
      AgreesLess(env, c.k, c'.k);
      assert PairIn(env, c0, p0, c, k1, k2, x1, x2, o);
      PairSameIn(env, c0, p0, c, k1, k2, x1, x2, c', k2', o);
    }
  }

  lemma PairSameIn(env: Env, c0: Fs, p0: set<nat>, c: Fs, k1: Kind, k2: Kind, x1: Expr, x2: Expr, c': Fs, k2': Kind,
      o: Out)
    requires Tail(c, k1) && Tail(c, k2) && Tail(c', k1) && Tail(c', k2') && Plain(k1) && c'.code == c.code
    requires PairIn(env, c0, p0, c, k1, k2, x1, x2, o)
    requires forall r :: Final(env, c', k2', r) == Final(env, c, k2, r)
    ensures PairIn(env, c0, p0, c', k1, k2', x1, x2, o)
  {
    var r := Run(env, c.code, p0, o).r;
    assert Final(env, c', k1, r) == Final(env, c, k1, r);
  }

  lemma HasCompared(c0: Fs, p0: set<nat>, c: Fs, k1: Kind, k2: Kind, x1: Expr, x2: Expr, op: CmpOp, i: Instr, c': Fs)
    requires PairIs(c0, p0, c, k1, k2, x1, x2) && Tail(c, k1) && Tail(c, k2) && Tells(c, k1, k2, op, i)
    requires c' == c.(code := c.code + [i, Jmp(-1)], free := c'.free)
    ensures Has(c0, p0, c', NoJumps(VJmp(|c.code| + 1)), [], [], ECmp(op, x1, x2))
  {
    assert Open(0);
    GivesCompared(c0, p0, c, k1, k2, x1, x2, op, i, c'.free);
  }

  lemma BothTails(c0: Fs, p0: set<nat>, c1: Fs, c: Fs, e1: Exp, e2: Exp, tl: seq<nat>, fl: seq<nat>, x1: Expr, x2: Expr)
    requires Has(c0, p0, c1, e1, [], [], x1) && Has(c1, p0, c, e2, tl, fl, x2)
    ensures c.nact == c1.nact == c0.nact <= c0.free
  {
    HasTail(c0, p0, c1, e1, [], [], x1, NO_REG);
    HasTail(c1, p0, c, e2, tl, fl, x2, NO_REG);
  }

  /** A constant operand is loaded into a register after the other one was computed. */
  lemma PairMore(c0: Fs, p0: set<nat>, c: Fs, k1: Kind, k2: Kind, x1: Expr, x2: Expr, c': Fs, reg: nat, xk: Expr)
    requires PairIs(c0, p0, c, k1, k2, x1, x2) && Tail(c, k1) && Has(c, p0, c', NoJumps(VNonReloc(reg)), [], [], xk)
    requires forall env, r :: Agrees(env, c.k) ==> Final(env, c, k1, r) == Eval(env, xk, r)
    requires Stays(c, k2) && c0.free <= c.free
    ensures PairIs(c0, p0, c', VNonReloc(reg), k2, x1, x2)
  {
    PairMoreGood(c0, p0, c, k1, k2, x1, x2, c', reg, xk);
    PairMoreRuns(c0, p0, c, k1, k2, x1, x2, c', reg, xk);
  }

  lemma PairMoreGood(c0: Fs, p0: set<nat>, c: Fs, k1: Kind, k2: Kind, x1: Expr, x2: Expr, c': Fs, reg: nat, xk: Expr)
    requires PairIs(c0, p0, c, k1, k2, x1, x2) && Has(c, p0, c', NoJumps(VNonReloc(reg)), [], [], xk) && Stays(c, k2)
    ensures Start(c0, p0) && Tail(c, k1) && Tail(c, k2) && Tail(c', k2) && Plain(k2)
    ensures c'.nact == c0.nact && c0.last <= c'.last && c0.k <= c.k <= c'.k && Keeps(c0.code, c'.code)
    ensures Wf(c'.code, p0, c'.last)
    ensures |c0.code| <= |c.code| && c0.last <= c.last && c.free <= NO_REG
  {
    assert Open(0);
    assert p0 + SetOf([]) + SetOf([]) == p0;
    KeepsTrans(c0.code, c.code, c'.code);
  }

  lemma PairMoreRuns(c0: Fs, p0: set<nat>, c: Fs, k1: Kind, k2: Kind, x1: Expr, x2: Expr, c': Fs, reg: nat, xk: Expr)
    requires PairIs(c0, p0, c, k1, k2, x1, x2) && Has(c, p0, c', NoJumps(VNonReloc(reg)), [], [], xk)
    requires Start(c0, p0) && Tail(c, k1) && Tail(c, k2) && Tail(c', k2) && Plain(k2)
    requires c'.nact == c0.nact && c0.last <= c'.last && c0.k <= c.k <= c'.k && Keeps(c0.code, c'.code)
    requires Wf(c'.code, p0, c'.last)
    requires |c0.code| <= |c.code| && c0.last <= c.last && c.free <= NO_REG
    requires forall env, r :: Agrees(env, c.k) ==> Final(env, c, k1, r) == Eval(env, xk, r)
    requires Stays(c, k2) && c0.free <= c.free
    ensures PairIs(c0, p0, c', VNonReloc(reg), k2, x1, x2)
  {
    forall env: Env, o: Out | Agrees(env, c'.k) && Entry(c0.code, c0.last, o.pc)
      ensures PairIn(env, c0, p0, c', VNonReloc(reg), k2, x1, x2, o) {
      AgreesLess(env, c.k, c'.k);
      PairRun(env, c0, p0, c, k1, k2, x1, x2, o);
      HasRun(env, c, p0, c', NoJumps(VNonReloc(reg)), [], [], xk, o);
      RunInside(env, c0.code, p0, c0.last, o);
      PairMoreIn(env, c0, p0, c, k1, k2, x1, x2, c', reg, xk, o);
    }
  }

  lemma PairRun(env: Env, c0: Fs, p0: set<nat>, c: Fs, k1: Kind, k2: Kind, x1: Expr, x2: Expr, o: Out)
    requires PairIs(c0, p0, c, k1, k2, x1, x2) && Tail(c, k1) && Tail(c, k2) && Agrees(env, c.k)
    requires Entry(c0.code, c0.last, o.pc)
    ensures PairIn(env, c0, p0, c, k1, k2, x1, x2, o)
  {
    assert Open(0);
  }

  lemma HasRun(env: Env, c0: Fs, p0: set<nat>, c: Fs, e: Exp, tl: seq<nat>, fl: seq<nat>, x: Expr, o: Out)
    requires Has(c0, p0, c, e, tl, fl, x) && Tail(c, e.k) && Agrees(env, c.k) && Entry(c0.code, c0.last, o.pc)
    ensures Result(env, c0, p0, c, e, tl, fl, x, NO_REG, o)
  {
    assert Open(0);
  }

  lemma PairMoreIn(env: Env, c0: Fs, p0: set<nat>, c: Fs, k1: Kind, k2: Kind, x1: Expr, x2: Expr, c': Fs, reg: nat,
      xk: Expr, o: Out)
    requires Tail(c, k1) && Tail(c, k2) && Tail(c', k2) && PairIn(env, c0, p0, c, k1, k2, x1, x2, o)
    requires Result(env, c, p0, c', NoJumps(VNonReloc(reg)), [], [], xk, NO_REG, o)
    requires Run(env, c0.code, p0, o).pc <= |c0.code| <= |c.code|
    requires forall r :: Final(env, c, k1, r) == Eval(env, xk, r)
    requires Stays(c, k2) && c0.free <= c.free <= NO_REG
    ensures PairIn(env, c0, p0, c', VNonReloc(reg), k2, x1, x2, o)
  {
    assert p0 + SetOf([]) + SetOf([]) == p0;
    var o0, o1, o2 := Run(env, c0.code, p0, o), Run(env, c.code, p0, o), Run(env, c'.code, p0, o);
    if o0.pc == |c0.code| {
      FinalKept(env, c, c', k2, o1.r, o2.r);
      KeepTrans(o0.r, o1.r, o2.r, c0.free, c.free);
    }
  }

  lemma FinalKept(env: Env, c: Fs, c': Fs, kd: Kind, r: Regs, r': Regs)
    requires Tail(c, kd) && Tail(c', kd) && Stays(c, kd) && Keep(r, r', c.free, NO_REG) && c.free <= NO_REG
    ensures Final(env, c', kd, r') == Final(env, c, kd, r)
  {
  }

  lemma KeepTrans(r: Regs, r': Regs, r'': Regs, n: nat, m: nat)
    requires Keep(r, r', n, NO_REG) && Keep(r', r'', m, NO_REG) && n <= m
    ensures Keep(r, r'', n, NO_REG)
  {
  }

  lemma PairStart(c0: Fs, p0: set<nat>, c: Fs, k1: Kind, k2: Kind, x1: Expr, x2: Expr)
    requires PairIs(c0, p0, c, k1, k2, x1, x2) && c.nact <= c.free < MAXREGS
    ensures Start(c, p0)
  {
    assert Open(0);
  }

  /** Operands in registers above the locals use the registers from `c0.free` on. */
  predicate FreePair(c0: Fs, c: Fs, k1: Kind, k2: Kind) {
    && c.free == c0.free + (if IsTemp(c0, k1) then 1 else 0) + (if IsTemp(c0, k2) then 1 else 0)
    && (IsTemp(c0, k1) ==> c0.free <= k1.reg < c.free) && (IsTemp(c0, k2) ==> c0.free <= k2.reg < c.free)
    && (IsTemp(c0, k1) && IsTemp(c0, k2) ==> k1.reg != k2.reg)
  }

  predicate IsTemp(c: Fs, kd: Kind) { kd.VNonReloc? && kd.reg >= c.nact }

  /** Emission changes only code behind the lists. */
  lemma {:induction false} DevalueBehind(b: seq<Instr>, rest: seq<Instr>, s: seq<nat>)
    requires forall j :: j in s ==> j <= |b|
    ensures Devalue(b + rest, s) == Devalue(b, s) + rest
    decreases |s|
  {
    if s != [] {
      assert s[0] in s && forall j :: j in s[1..] ==> j in s;
      assert PatchTest(b + rest, s[0], NO_REG) == PatchTest(b, s[0], NO_REG) + rest;
      DevalueBehind(PatchTest(b, s[0], NO_REG), rest, s[1..]);
    }
  }

  lemma DevalueList(code: seq<Instr>, s: seq<nat>, h: int, m: seq<nat>)
    requires IsList(code, h, m) && (forall j :: j in s ==> j < |code| && code[j].Jmp?)
    ensures IsList(Devalue(code, s), h, m)
  {
    DevalueJumps(code, s);
    assert forall j :: j in m ==> j < |code| && code[j].Jmp? by {
      forall j | j in m ensures j < |code| && code[j].Jmp? { var i :| 0 <= i < |m| && m[i] == j; }
    }
    ListSame(code, Devalue(code, s), h, m);
  }

  lemma {:induction false} DevalueJumps(code: seq<Instr>, s: seq<nat>)
    ensures forall j :: 0 <= j < |code| && code[j].Jmp? ==> Devalue(code, s)[j] == code[j]
    decreases |s|
  {
    if s != [] { DevalueJumps(PatchTest(code, s[0], NO_REG), s[1..]); }
  }

  // ----- what the operands of one operator have to do with each other -----

  lemma HasStart(c0: Fs, p0: set<nat>, c: Fs, e: Exp, x: Expr)
    requires Has(c0, p0, c, e, [], [], x) && Plain(e.k) && c.nact <= c.free < MAXREGS
    ensures Start(c, p0)
  {
    HasCode(c0, p0, c, e, [], [], x, NO_REG);
    assert p0 + SetOf([]) + SetOf([]) == p0;
  }

  /** The jumps out of the first operand are untouched by the second one. */
  lemma OuterList(c0: Fs, p0: set<nat>, c1: Fs, h: int, l: seq<nat>, b: bool, x1: Expr, c2: Fs, e2: Exp,
      tl: seq<nat>, fl: seq<nat>, x2: Expr)
    requires GateIs(c0, p0, c1, h, l, b, x1) && Has(c1, p0 + SetOf(l), c2, e2, tl, fl, x2)
    ensures IsList(c2.code, h, l) && Apart(tl, l) && Apart(fl, l)
  {
    assert Open(0);
    OnePending(c1.code, p0 + SetOf(l), |c0.code|, h, l);
    var b2 := Body(c2, e2.k);
    PendFacts(b2, |c1.code|, e2, tl, fl);
    forall j | j in l ensures c2.code[j] == c1.code[j] { assert b2[j] == c1.code[j]; }
    ListSame(c1.code, c2.code, h, l);
  }

  /** A constant operand that needs no code: an integer, or an entry of the table of constants. */
  predicate Immediate(kd: Kind) { kd.VKInt? || kd.VK? }

  /** The first operand is a constant or in a register, the second one was just compiled, maybe with jumps. */
  ghost predicate Operands(c0: Fs, p0: set<nat>, c1: Fs, c: Fs, kf: Kind, s: Exp, tl: seq<nat>, fl: seq<nat>,
      x1: Expr, x2: Expr) {
    && Has(c0, p0, c1, NoJumps(kf), [], [], x1) && FreeOk(c0, c1, kf)
    && (Immediate(kf) || (kf.VNonReloc? && kf.reg < c1.free))
    && Has(c1, p0, c, s, tl, fl, x2) && FreeOk(c1, c, s.k) && Scoped(x2, c0.nact) && c1.nact == c0.nact == c.nact
    && c0.nact <= c0.free
  }

  /** Both operands are final. */
  ghost predicate Ready(c0: Fs, p0: set<nat>, c: Fs, k1: Kind, k2: Kind, x1: Expr, x2: Expr) {
    && PairIs(c0, p0, c, k1, k2, x1, x2) && FreePair(c0, c, k1, k2) && c.nact == c0.nact <= c0.free
    && (Immediate(k1) || k1.VNonReloc?) && (Immediate(k2) || k2.VNonReloc?)
  }

  lemma OperandsReady(c0: Fs, p0: set<nat>, c1: Fs, c: Fs, kf: Kind, ks: Kind, x1: Expr, x2: Expr)
    requires Operands(c0, p0, c1, c, kf, NoJumps(ks), [], [], x1, x2) && (Immediate(ks) || ks.VNonReloc?)
    ensures Ready(c0, p0, c, kf, ks, x1, x2)
  {
    HasPair(c0, p0, c1, kf, x1, c, ks, x2);
  }

  function ConstExpr(kd: Kind): Expr
    requires kd.VKInt?
  {
    EInt(kd.n)
  }
}
