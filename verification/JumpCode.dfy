/** The instructions that conditions and simple expressions compile to, and what running them does
    (lopcodes.h:197-366). A jump whose target is not known yet stops the machine: it is pending. */
module JumpCode {

  datatype Value = Nil | Bool(b: bool) | Int(n: int) | Str(s: string)

  predicate Truthy(v: Value) { v != Nil && v != Bool(false) }

  /** 'NO_REG', the destination of a test whose value has no register yet. */
  const NO_REG: nat := 255
  const MAXREGS: nat := 255

  datatype Instr =
    | Move(a: nat, b: nat) | LoadI(a: nat, n: int) | LoadK(a: nat, kx: nat) | LoadKX(a: nat) | ExtraArg(ax: nat)
    | LoadFalse(a: nat) | LFalseSkip(a: nat) | LoadTrue(a: nat) | LoadNil(a: nat, b: nat)
    | GetUpval(a: nat, b: nat) | Not(a: nat, b: nat)
    | Jmp(sj: int)
    | Eq(a: nat, b: nat, k: bool) | Lt(a: nat, b: nat, k: bool) | Le(a: nat, b: nat, k: bool)
    | EqK(a: nat, b: nat, k: bool) | EqI(a: nat, n: int, k: bool) | LtI(a: nat, n: int, k: bool)
    | LeI(a: nat, n: int, k: bool)
    | GtI(a: nat, n: int, k: bool) | GeI(a: nat, n: int, k: bool)
    | Test(a: nat, k: bool) | TestSet(a: nat, b: nat, k: bool)
    | Other

  predicate IsCompare(i: Instr) {
    i.Eq? || i.Lt? || i.Le? || i.EqK? || i.EqI? || i.LtI? || i.LeI? || i.GtI? || i.GeI?
  }

  /** Instructions that are followed by the jump they control ('testTMode'). */
  predicate IsTest(i: Instr) { IsCompare(i) || i.Test? || i.TestSet? }

  /** Instructions that set registers and go on to the next one. */
  predicate IsSimple(i: Instr) {
    i.Move? || i.LoadI? || i.LoadK? || i.LoadFalse? || i.LoadTrue? || i.LoadNil? || i.GetUpval? || i.Not?
  }

  // ----- running -----

  type Regs = map<nat, Value>

  function Get(r: Regs, a: nat): Value { if a in r then r[a] else Nil }

  /** Stores a value; a register that holds it already is left alone, and NO_REG stores nothing. */
  function Set(r: Regs, a: nat, v: Value): (r': Regs)
    ensures forall x: nat :: Get(r', x) == if x == a && a != NO_REG then v else Get(r, x)
  {
    if a == NO_REG || Get(r, a) == v then r else r[a := v]
  }

  ghost predicate SameBut(r: Regs, r': Regs, a: nat) {
    forall x: nat {:trigger Get(r', x)} :: x != a ==> Get(r', x) == Get(r, x)
  }

  function SetNils(r: Regs, a: nat, n: nat): (r': Regs)
    ensures forall x: nat :: Get(r', x) == if a <= x < a + n then Nil else Get(r, x)
  {
    map x | x in r && !(a <= x < a + n) :: r[x]
  }

  /** The constants, the upvalues and what order comparison means. */
  datatype Env = Env(k: nat -> Value, up: nat -> Value, lt: (Value, Value) -> bool, le: (Value, Value) -> bool)

  datatype Out = Out(pc: nat, r: Regs)

  /** Whether a test lets the jump after it be taken. */
  function Cond(env: Env, i: Instr, r: Regs): bool
    requires IsTest(i)
  {
    match i
    case Eq(a, b, k) => (Get(r, a) == Get(r, b)) == k
    case Lt(a, b, k) => env.lt(Get(r, a), Get(r, b)) == k
    case Le(a, b, k) => env.le(Get(r, a), Get(r, b)) == k
    case EqK(a, b, k) => (Get(r, a) == env.k(b)) == k
    case EqI(a, n, k) => (Get(r, a) == Int(n)) == k
    case LtI(a, n, k) => env.lt(Get(r, a), Int(n)) == k
    case LeI(a, n, k) => env.le(Get(r, a), Int(n)) == k
    case GtI(a, n, k) => env.lt(Int(n), Get(r, a)) == k
    case GeI(a, n, k) => env.le(Int(n), Get(r, a)) == k
    case Test(a, k) => Truthy(Get(r, a)) == k
    case TestSet(a, b, k) => Truthy(Get(r, b)) == k
  }

  function Effect(env: Env, i: Instr, r: Regs): Regs
    requires IsSimple(i)
  {
    match i
    case Move(a, b) => Set(r, a, Get(r, b))
    case LoadI(a, n) => Set(r, a, Int(n))
    case LoadK(a, kx) => Set(r, a, env.k(kx))
    case LoadFalse(a) => Set(r, a, Bool(false))
    case LoadTrue(a) => Set(r, a, Bool(true))
    case LoadNil(a, b) => SetNils(r, a, b + 1)
    case GetUpval(a, b) => Set(r, a, env.up(b))
    case Not(a, b) => Set(r, a, Bool(!Truthy(Get(r, b))))
  }

  /** What a test leaves in the registers when its jump is taken. */
  function Taken(i: Instr, r: Regs): Regs {
    if i.TestSet? then Set(r, i.a, Get(r, i.b)) else r
  }

  /** One instruction; a result that does not lie further on means that the machine stops. */
  function Step(env: Env, code: seq<Instr>, o: Out): Out
    requires o.pc < |code|
  {
    var i := code[o.pc];
    if IsSimple(i) then Out(o.pc + 1, Effect(env, i, o.r))
    else if IsTest(i) then (if Cond(env, i, o.r) then Out(o.pc + 1, Taken(i, o.r)) else Out(o.pc + 2, o.r))
    else if i.LFalseSkip? then Out(o.pc + 2, Set(o.r, i.a, Bool(false)))
    else if i.LoadKX? && o.pc + 1 < |code| && code[o.pc + 1].ExtraArg?
      then Out(o.pc + 2, Set(o.r, i.a, env.k(code[o.pc + 1].ax)))
    else if i.Jmp? && i.sj >= 0 then Out(o.pc + 1 + i.sj, o.r)
    else o
  }

  /** Runs until the end of the code, a pending jump, or an instruction the machine does not follow: a jump back
      or an instruction that no expression contains. */
  function Run(env: Env, code: seq<Instr>, p: set<nat>, o: Out): Out
    decreases |code| - o.pc
  {
    if o.pc >= |code| || o.pc in p then o
    else
      var n := Step(env, code, o);
      if n.pc <= o.pc then o else Run(env, code, p, n)
  }

  /** More code, or targets for jumps that were pending: running goes on from where it stopped. */
  lemma {:induction false} RunOn(env: Env, code: seq<Instr>, p: set<nat>, code': seq<Instr>, p': set<nat>, o: Out)
    requires |code| <= |code'| && forall i :: 0 <= i < |code| && i !in p ==> code'[i] == code[i] && i !in p'
    requires forall i :: 0 <= i < |code| && code[i].LoadKX? ==> i + 1 < |code| && i + 1 !in p
    ensures Run(env, code', p', o) == Run(env, code', p', Run(env, code, p, o))
    decreases |code| - o.pc
  {
    if o.pc < |code| && o.pc !in p {
      var n := Step(env, code, o);
      assert Step(env, code', o) == n;
      if n.pc > o.pc { RunOn(env, code, p, code', p', n); }
    }
  }

  // ----- well-formed code -----

  /** A test is followed by its jump, and a jump forward leads to a place that was marked as a label, never to the
      jump of a test. */
  predicate WfAt(code: seq<Instr>, p: set<nat>, last: nat, i: nat)
    requires i < |code|
  {
    && (IsTest(code[i]) ==> i + 1 < |code| && code[i + 1].Jmp?)
    && (code[i].LFalseSkip? ==> i + 1 < |code| && code[i + 1].LoadTrue? && i + 2 <= last)
    && (code[i].LoadKX? ==> i + 1 < |code| && code[i + 1].ExtraArg?)
    && (code[i].Jmp? && i !in p && code[i].sj >= 0 ==>
      i + 1 + code[i].sj <= last && i + code[i].sj < |code| && !IsTest(code[i + code[i].sj]))
  }

  /** `last` is the last position known as a jump target ('lasttarget'). */
  predicate Wf(code: seq<Instr>, p: set<nat>, last: nat) {
    && last <= |code| && (forall i {:trigger i in p} :: i in p ==> i < |code| && code[i].Jmp?)
    && (forall i {:trigger WfAt(code, p, last, i)} :: 0 <= i < |code| ==> WfAt(code, p, last, i))
  }

  lemma {:induction false} RunInside(env: Env, code: seq<Instr>, p: set<nat>, last: nat, o: Out)
    requires Wf(code, p, last) && o.pc <= |code|
    ensures Run(env, code, p, o).pc <= |code|
    decreases |code| - o.pc
  {
    if o.pc < |code| && o.pc !in p {
      assert WfAt(code, p, last, o.pc);
      var n := Step(env, code, o);
      if n.pc > o.pc { RunInside(env, code, p, last, n); }
    }
  }

  lemma WfKX(code: seq<Instr>, p: set<nat>, last: nat)
    requires Wf(code, p, last)
    ensures forall i :: 0 <= i < |code| && code[i].LoadKX? ==> i + 1 < |code| && i + 1 !in p
  {
    forall i | 0 <= i < |code| && code[i].LoadKX?
      ensures i + 1 < |code| && i + 1 !in p { assert WfAt(code, p, last, i); }
  }

  lemma WfNoTestLast(code: seq<Instr>, p: set<nat>, last: nat)
    requires Wf(code, p, last) && code != []
    ensures !IsTest(code[|code| - 1]) && !code[|code| - 1].LFalseSkip? && !code[|code| - 1].LoadKX?
  {
    assert WfAt(code, p, last, |code| - 1);
  }

  // ----- emitting -----

  /** Emitting an instruction that goes on to the next one. */
  lemma EmitSimple(env: Env, code: seq<Instr>, p: set<nat>, last: nat, i: Instr, o: Out)
    requires Wf(code, p, last) && IsSimple(i) && o.pc <= |code|
    ensures var c, out := Run(env, code, p, o), Run(env, code + [i], p, o);
      out == if c.pc == |code| then Out(|code| + 1, Effect(env, i, c.r)) else c
  {
    RunInside(env, code, p, last, o);
    WfKX(code, p, last);
    RunOn(env, code, p, code + [i], p, o);
    var c := Run(env, code, p, o);
    if c.pc < |code| { RunStuck(env, code, p, code + [i], o); }
  }

  /** A machine that has stopped before the end stays stopped when the code grows. */
  lemma {:induction false} RunStuck(env: Env, code: seq<Instr>, p: set<nat>, code': seq<Instr>, o: Out)
    requires code <= code' && Run(env, code, p, o).pc < |code|
    requires forall i :: 0 <= i < |code| && code[i].LoadKX? ==> i + 1 < |code|
    ensures Run(env, code', p, Run(env, code, p, o)) == Run(env, code, p, o)
    decreases |code| - o.pc
  {
    if o.pc < |code| && o.pc !in p {
      var n := Step(env, code, o);
      assert Step(env, code', o) == n;
      if n.pc > o.pc { RunStuck(env, code, p, code', n); }
    }
  }

  lemma WfAppend(code: seq<Instr>, p: set<nat>, last: nat, more: seq<Instr>, p': set<nat>, last': nat)
    requires Wf(code, p, last) && last <= last' <= |code + more|
    requires forall i :: i in p' ==> i in p || |code| <= i < |code + more|
    requires forall i :: i in p ==> i in p'
    requires forall i :: |code| <= i < |code + more| ==>
      WfAt(code + more, p', last', i) && (i in p' ==> more[i - |code|].Jmp?)
    ensures Wf(code + more, p', last')
  {
    forall i | 0 <= i < |code + more| ensures WfAt(code + more, p', last', i) {
      if i < |code| { assert WfAt(code, p, last, i); }
    }
  }

  lemma EmitKX(env: Env, code: seq<Instr>, p: set<nat>, last: nat, a: nat, ax: nat, o: Out)
    requires Wf(code, p, last) && o.pc <= |code|
    ensures var c, out := Run(env, code, p, o), Run(env, code + [LoadKX(a), ExtraArg(ax)], p, o);
      out == if c.pc == |code| then Out(|code| + 2, Set(c.r, a, env.k(ax))) else c
  {
    RunInside(env, code, p, last, o);
    WfKX(code, p, last);
    var code' := code + [LoadKX(a), ExtraArg(ax)];
    RunOn(env, code, p, code', p, o);
    var c := Run(env, code, p, o);
    if c.pc < |code| { RunStuck(env, code, p, code', o); } else {
      assert Step(env, code', c) == Out(|code| + 2, Set(c.r, a, env.k(ax)));
    }
  }

  /** Emitting a test and a pending jump. */
  lemma EmitCond(env: Env, code: seq<Instr>, p: set<nat>, last: nat, i: Instr, o: Out)
    requires Wf(code, p, last) && IsTest(i) && o.pc <= |code|
    ensures var c, out := Run(env, code, p, o), Run(env, code + [i, Jmp(-1)], p + {|code| + 1}, o);
      out == if c.pc != |code| then c else if Cond(env, i, c.r) then Out(|code| + 1, Taken(i, c.r))
        else Out(|code| + 2, c.r)
  {
    RunInside(env, code, p, last, o);
    WfKX(code, p, last);
    var code', p' := code + [i, Jmp(-1)], p + {|code| + 1};
    RunOn(env, code, p, code', p', o);
    var c := Run(env, code, p, o);
    if c.pc < |code| {
      RunStuck(env, code, p, code', o);
      RunFewer(env, code', p, p', c);
    } else {
      assert Step(env, code', c) == if Cond(env, i, c.r) then Out(|code| + 1, Taken(i, c.r)) else Out(|code| + 2, c.r);
    }
  }

  lemma RunFewer(env: Env, code: seq<Instr>, p: set<nat>, p': set<nat>, o: Out)
    requires p <= p' && Run(env, code, p, o) == o
    ensures Run(env, code, p', o) == o
  {
    if o.pc < |code| && o.pc !in p {
      var n := Step(env, code, o);
      if n.pc > o.pc { RunForward(env, code, p, n); }
    }
  }

  lemma {:induction false} RunForward(env: Env, code: seq<Instr>, p: set<nat>, o: Out)
    ensures Run(env, code, p, o).pc >= o.pc
    decreases |code| - o.pc
  {
    if o.pc < |code| && o.pc !in p {
      var n := Step(env, code, o);
      if n.pc > o.pc { RunForward(env, code, p, n); }
    }
  }

  lemma WfCut(pre: seq<Instr>, p: set<nat>, last: nat, i: Instr)
    requires Wf(pre + [i], p, last) && last <= |pre| && !i.Jmp? && !i.LoadTrue? && !i.ExtraArg?
    ensures Wf(pre, p, last)
  {
    forall j | 0 <= j < |pre| ensures WfAt(pre, p, last, j) {
      assert WfAt(pre + [i], p, last, j);
      assert j + 1 < |pre| ==> (pre + [i])[j + 1] == pre[j + 1];
    }
    forall j | j in p ensures j < |pre| && pre[j].Jmp? { assert (pre + [i])[j].Jmp?; }
  }

  // ----- lists of pending jumps -----

  function Link(s: seq<nat>, i: nat): int
    requires i < |s|
  {
    if i + 1 < |s| then s[i + 1] as int - s[i] - 1 else -1
  }

  /** The jumps of a list, each of which holds the distance to the next one; -1 marks the end (lcode.c:155-161). */
  predicate IsList(code: seq<Instr>, head: int, s: seq<nat>) {
    && head == (if s == [] then -1 else s[0])
    && (forall i {:trigger s[i]} :: 0 <= i < |s| ==> s[i] < |code| && code[s[i]].Jmp?)
    && (forall i {:trigger Link(s, i)} :: 0 <= i < |s| ==> code[s[i]].sj == Link(s, i))
    && (forall i, j {:trigger s[i], s[j]} :: 0 <= i < j < |s| ==> s[i] != s[j])
  }

  function SetOf(s: seq<nat>): set<nat> { set x | x in s }

  function NextJump(code: seq<Instr>, j: nat): int
    requires j < |code| && code[j].Jmp?
  {
    if code[j].sj == -1 then -1 else j + 1 + code[j].sj
  }

  lemma ListTail(code: seq<Instr>, head: int, s: seq<nat>)
    requires IsList(code, head, s) && s != []
    ensures head == s[0] && s[0] < |code| && code[s[0]].Jmp? && IsList(code, NextJump(code, s[0]), s[1..])
    ensures s[0] !in s[1..]
  {
    var t := s[1..];
    assert |s| > 1 ==> s[1] != s[0];
    assert code[s[0]].sj == Link(s, 0);
    forall i | 0 <= i < |t|
      ensures code[t[i]].sj == Link(t, i) { assert t[i] == s[i + 1] && code[s[i + 1]].sj == Link(s, i + 1); }
  }

  /** The list is determined by its head. */
  lemma {:induction false} ListUnique(code: seq<Instr>, head: int, s: seq<nat>, s': seq<nat>)
    requires IsList(code, head, s) && IsList(code, head, s')
    ensures s == s'
    decreases |s|
  {
    if s != [] && s' != [] {
      ListTail(code, head, s);
      ListTail(code, head, s');
      var t, t' := s[1..], s'[1..];
      ListUnique(code, NextJump(code, s[0]), t, t');
      assert s == [s[0]] + t && s' == [s'[0]] + t';
    }
  }

  lemma ListSame(code: seq<Instr>, code': seq<Instr>, head: int, s: seq<nat>)
    requires IsList(code, head, s) && |code| <= |code'| && forall j :: j in s ==> code'[j] == code[j]
    ensures IsList(code', head, s)
  {
    forall i | 0 <= i < |s| ensures code'[s[i]] == code[s[i]] { assert s[i] in s; }
  }

  /** Concatenation links the end of one list to the head of another (lcode.c:182-193). */
  lemma ListConcat(code: seq<Instr>, h1: int, s1: seq<nat>, h2: int, s2: seq<nat>)
    requires IsList(code, h1, s1) && IsList(code, h2, s2) && s1 != [] && s2 != [] && forall j :: j in s1 ==> j !in s2
    ensures var e := s1[|s1| - 1]; e < |code| && IsList(code[e := Jmp(h2 - (e + 1))], h1, s1 + s2)
  {
    var e := s1[|s1| - 1];
    var code' := code[e := Jmp(h2 - (e + 1))];
    var s := s1 + s2;
    forall i | 0 <= i < |s| ensures s[i] < |code'| && code'[s[i]].Jmp? && code'[s[i]].sj == Link(s, i) {
      if i < |s1| - 1 {
        assert s[i] == s1[i] && s1[i] != e && Link(s, i) == Link(s1, i);
      } else if i >= |s1| {
        assert s[i] == s2[i - |s1|] && s2[i - |s1|] in s2 && e in s1 && Link(s, i) == Link(s2, i - |s1|);
      }
    }
    forall i, j | 0 <= i < j < |s| ensures s[i] != s[j] {
      if i < |s1| <= j { assert s1[i] in s1 && s2[j - |s1|] in s2; }
    }
  }

  // ----- patching -----

  predicate HasValue(code: seq<Instr>, j: nat) { 1 <= j <= |code| && code[j - 1].TestSet? }

  /** 'patchtestreg': a TESTSET gets its register, or becomes a TEST (lcode.c:260-272). */
  function PatchTest(code: seq<Instr>, j: nat, reg: nat): seq<Instr> {
    if !HasValue(code, j) then code
    else
      var i := code[j - 1];
      code[j - 1 := if reg != NO_REG && reg != i.b then TestSet(reg, i.b, i.k) else Test(i.b, i.k)]
  }

  /** Where a jump without a value is to lead: the end of the code, or one of the two instructions that end it
      and load a boolean. */
  datatype Dest = Here | AtFalse | AtTrue

  predicate DestOk(code: seq<Instr>, reg: nat, d: Dest) {
    d == Here || (|code| >= 2 && code[|code| - 2] == LFalseSkip(reg) && code[|code| - 1] == LoadTrue(reg))
  }

  function DestPc(code: seq<Instr>, d: Dest): nat
    requires d != Here ==> |code| >= 2
  {
    if d == Here then |code| else if d == AtFalse then |code| - 2 else |code| - 1
  }

  function PatchOne(code: seq<Instr>, j: nat, reg: nat, d: Dest): seq<Instr>
    requires j < |code| && (d != Here ==> |code| >= 2)
  {
    PatchTest(code, j, reg)[j := Jmp((if HasValue(code, j) then |code| else DestPc(code, d)) - (j + 1))]
  }

  /** Where a machine ends up that had stopped at pending jump `c.pc`, once the jump is patched. */
  function Landing(code: seq<Instr>, reg: nat, d: Dest, c: Out): Out {
    if HasValue(code, c.pc) then Out(|code|, Set(c.r, reg, Get(c.r, code[c.pc - 1].b)))
    else Out(|code|, if d == Here then c.r else Set(c.r, reg, Bool(d == AtTrue)))
  }

  /** A pending jump that a test controls; the test has no register yet. */
  predicate Controlled(code: seq<Instr>, p: set<nat>, j: nat) {
    j in p && 1 <= j < |code| && code[j].Jmp? && IsTest(code[j - 1]) &&
      (code[j - 1].TestSet? ==> code[j - 1].a == NO_REG)
  }

  /** Nothing but its test leads to such a jump. */
  lemma StepPast(env: Env, code: seq<Instr>, p: set<nat>, last: nat, j: nat, o: Out)
    requires Wf(code, p, last) && Controlled(code, p, j) && o.pc < |code| && o.pc !in p && o.pc != j - 1
    ensures Step(env, code, o).pc != j || o.pc == j
  {
    assert WfAt(code, p, last, o.pc);
    assert WfAt(code, p, last, j - 1);
  }

  /** Giving a pending test its register. */
  lemma {:induction false} PatchedTest(env: Env, code: seq<Instr>, p: set<nat>, last: nat, j: nat, reg: nat, o: Out)
    requires Wf(code, p, last) && Controlled(code, p, j) && o.pc != j
    ensures var c, out := Run(env, code, p, o), Run(env, PatchTest(code, j, reg), p, o);
      out == if c.pc == j && HasValue(code, j) then Out(j, Set(c.r, reg, Get(c.r, code[j - 1].b))) else c
    decreases |code| - o.pc
  {
    var code' := PatchTest(code, j, reg);
    if o.pc < |code| && o.pc !in p {
      var n := Step(env, code, o);
      if o.pc == j - 1 {
        assert n.pc == j || n.pc == j + 1;
        if n.pc == j + 1 { PatchedTest(env, code, p, last, j, reg, n); }
      } else {
        StepPast(env, code, p, last, j, o);
        assert WfAt(code, p, last, o.pc);
        assert Step(env, code', o) == n;
        if n.pc > o.pc { PatchedTest(env, code, p, last, j, reg, n); }
      }
    }
  }

  lemma WfPatchTest(code: seq<Instr>, p: set<nat>, last: nat, j: nat, reg: nat)
    requires Wf(code, p, last) && Controlled(code, p, j)
    ensures Wf(PatchTest(code, j, reg), p, last)
  {
    var code' := PatchTest(code, j, reg);
    assert WfAt(code, p, last, j - 1);
    forall i | 0 <= i < |code'| ensures WfAt(code', p, last, i) { assert WfAt(code, p, last, i); }
  }

  lemma {:induction false} RunStopped(env: Env, code: seq<Instr>, p: set<nat>, o: Out)
    ensures var c := Run(env, code, p, o); c.pc >= |code| || c.pc in p || Step(env, code, c).pc <= c.pc
    decreases |code| - o.pc
  {
    if o.pc < |code| && o.pc !in p {
      var n := Step(env, code, o);
      if n.pc > o.pc { RunStopped(env, code, p, n); }
    }
  }

  /** Two runs that differ only in jumps that are pending in the first one. */
  lemma RunFixed(env: Env, code: seq<Instr>, p: set<nat>, last: nat, code': seq<Instr>, p': set<nat>, o: Out)
    requires Wf(code, p, last) && |code'| == |code| && p' <= p
    requires forall i :: 0 <= i < |code| && i !in p ==> code'[i] == code[i]
    requires forall i :: i in p ==> code'[i].Jmp?
    ensures var c := Run(env, code, p, o);
      Run(env, code', p', o) == if c.pc in p && c.pc !in p' then Run(env, code', p', c) else c
  {
    WfKX(code, p, last);
    RunOn(env, code, p, code', p', o);
    RunStopped(env, code, p, o);
    var c := Run(env, code, p, o);
    if c.pc < |code| && c.pc !in p {
      assert WfAt(code, p, last, c.pc);
      assert Step(env, code', c) == Step(env, code, c);
    }
  }

  /** A patched jump leads where it should. */
  lemma Lands(env: Env, code: seq<Instr>, p: set<nat>, last: nat, j: nat, reg: nat, d: Dest, r: Regs)
    requires Wf(code, p, last) && Controlled(code, p, j) && DestOk(code, reg, d)
    ensures Run(env, PatchOne(code, j, reg, d), p - {j}, Out(j, r)) ==
      Out(|code|, if HasValue(code, j) || d == Here then r else Set(r, reg, Bool(d == AtTrue)))
  {
    var code', p' := PatchOne(code, j, reg, d), p - {j};
    var n := Step(env, code', Out(j, r));
    if d != Here && !HasValue(code, j) {
      assert j < |code| - 2 && |code| - 2 !in p && |code| - 1 !in p;
      assert code'[|code| - 2] == LFalseSkip(reg) && code'[|code| - 1] == LoadTrue(reg);
      assert n == Out(DestPc(code, d), r);
      var e := Step(env, code', n);
      assert e == Out(|code|, Set(r, reg, Bool(d == AtTrue)));
      assert Run(env, code', p', n) == Run(env, code', p', e) == e;
    }
  }

  lemma PatchedWf(code: seq<Instr>, p: set<nat>, j: nat, reg: nat, d: Dest)
    requires Wf(code, p, |code|) && Controlled(code, p, j) && DestOk(code, reg, d)
    ensures Wf(PatchOne(code, j, reg, d), p - {j}, |code|)
  {
    WfPatchTest(code, p, |code|, j, reg);
    WfNoTestLast(code, p, |code|);
    var code1, code', p' := PatchTest(code, j, reg), PatchOne(code, j, reg, d), p - {j};
    if d != Here && |code| >= 3 { assert WfAt(code, p, |code|, |code| - 3); }
    forall i | 0 <= i < |code'| ensures WfAt(code', p', |code|, i) { assert WfAt(code1, p, |code|, i); }
  }

  /** Patching one pending jump that a test controls. */
  lemma PatchedOne(env: Env, code: seq<Instr>, p: set<nat>, j: nat, reg: nat, d: Dest, o: Out)
    requires Wf(code, p, |code|) && Controlled(code, p, j) && DestOk(code, reg, d) && o.pc != j
    ensures var c := Run(env, code, p, o);
      Run(env, PatchOne(code, j, reg, d), p - {j}, o) == if c.pc == j then Landing(code, reg, d, c) else c
  {
    PatchedTest(env, code, p, |code|, j, reg, o);
    WfPatchTest(code, p, |code|, j, reg);
    RunFixed(env, PatchTest(code, j, reg), p, |code|, PatchOne(code, j, reg, d), p - {j}, o);
    var c, c1 := Run(env, code, p, o), Run(env, PatchTest(code, j, reg), p, o);
    if c.pc == j {
      Lands(env, code, p, |code|, j, reg, d, c1.r);
      LandingOf(code, j, reg, d, c, c1.r);
    } else {
      assert c1 == c;
    }
  }

  lemma LandingOf(code: seq<Instr>, j: nat, reg: nat, d: Dest, c: Out, r: Regs)
    requires c.pc == j && j <= |code| && r == if HasValue(code, j) then Set(c.r, reg, Get(c.r, code[j - 1].b)) else c.r
    ensures Landing(code, reg, d, c) == Out(|code|, if HasValue(code, j) || d == Here then r
      else Set(r, reg, Bool(d == AtTrue)))
  {
  }

  // ----- patching a whole list -----

  /** 'patchlistaux' (lcode.c:289-299), where values go to the end of the code. */
  function PatchAll(code: seq<Instr>, s: seq<nat>, reg: nat, d: Dest): (code': seq<Instr>)
    requires (forall j :: j in s ==> j < |code|) && (d != Here ==> |code| >= 2)
    ensures |code'| == |code|
    decreases |s|
  {
    if s == [] then code
    else
      assert s[0] in s && forall j :: j in s[1..] ==> j in s;
      PatchAll(PatchOne(code, s[0], reg, d), s[1..], reg, d)
  }

  predicate AllControlled(code: seq<Instr>, p: set<nat>, s: seq<nat>) {
    (forall j :: j in s ==> Controlled(code, p, j)) && forall i, j {:trigger s[i], s[j]} :: 0 <= i < j < |s| ==>
      s[i] != s[j]
  }

  lemma ControlledRest(code: seq<Instr>, p: set<nat>, s: seq<nat>, reg: nat, d: Dest)
    requires Wf(code, p, |code|) && AllControlled(code, p, s) && s != [] && DestOk(code, reg, d) && s[0] < |code|
    ensures var code' := PatchOne(code, s[0], reg, d);
      AllControlled(code', p - {s[0]}, s[1..]) && DestOk(code', reg, d)
      && forall j :: j in s[1..] ==> HasValue(code', j) == HasValue(code, j) && code'[j - 1] == code[j - 1]
  {
    var j0 := s[0];
    var code' := PatchOne(code, j0, reg, d);
    assert j0 in s;
    forall j | j in s[1..]
      ensures Controlled(code', p - {j0}, j) && HasValue(code', j) == HasValue(code, j) && code'[j - 1] == code[j - 1] {
      assert j in s && j != j0;
    }
    assert forall i :: 0 <= i < |s[1..]| ==> s[1..][i] == s[i + 1];
    if d != Here { assert j0 < |code| - 2 && j0 - 1 < |code| - 2; }
  }

  lemma {:induction false} PatchedAll(env: Env, code: seq<Instr>, p: set<nat>, s: seq<nat>, reg: nat, d: Dest, o: Out)
    requires Wf(code, p, |code|) && AllControlled(code, p, s) && DestOk(code, reg, d) && o.pc !in s
    ensures Wf(PatchAll(code, s, reg, d), p - SetOf(s), |code|)
    ensures var c := Run(env, code, p, o);
      Run(env, PatchAll(code, s, reg, d), p - SetOf(s), o) == if c.pc in s then Landing(code, reg, d, c) else c
    decreases |s|
  {
    if s == [] {
      assert p - SetOf(s) == p;
    } else {
      var j := s[0];
      assert j in s;
      var code1, p1 := PatchOne(code, j, reg, d), p - {j};
      PatchedOne(env, code, p, j, reg, d, o);
      PatchedWf(code, p, j, reg, d);
      ControlledRest(code, p, s, reg, d);
      PatchedAll(env, code1, p1, s[1..], reg, d, o);
      assert p1 - SetOf(s[1..]) == p - SetOf(s);
      assert forall x :: x in s <==> x == j || x in s[1..];
      assert |code| !in s;
    }
  }

  /** Patching changes only the jumps of the list and their tests. */
  lemma {:induction false} PatchAllFrame(code: seq<Instr>, s: seq<nat>, reg: nat, d: Dest)
    requires (forall j :: j in s ==> j < |code|) && (d != Here ==> |code| >= 2)
    ensures forall i :: 0 <= i < |code| && i !in s && !(i + 1 in s && code[i].TestSet?) ==>
      PatchAll(code, s, reg, d)[i] == code[i]
    decreases |s|
  {
    if s != [] {
      assert s[0] in s && forall j :: j in s <==> j == s[0] || j in s[1..];
      var code1 := PatchOne(code, s[0], reg, d);
      PatchAllFrame(code1, s[1..], reg, d);
      forall i | 0 <= i < |code| && i !in s && !(i + 1 in s && code[i].TestSet?)
        ensures PatchAll(code, s, reg, d)[i] == code[i] {
        assert code1[i] == code[i];
        assert PatchAll(code1, s[1..], reg, d)[i] == code1[i];
      }
    }
  }

  /** 'removevalues' (lcode.c:278-281): no test of the list sets a register. */
  function Devalue(code: seq<Instr>, s: seq<nat>): (code': seq<Instr>)
    ensures |code'| == |code|
    decreases |s|
  {
    if s == [] then code else Devalue(PatchTest(code, s[0], NO_REG), s[1..])
  }

  lemma {:induction false} Devalued(code: seq<Instr>, p: set<nat>, last: nat, s: seq<nat>)
    requires Wf(code, p, last) && forall j :: j in s ==> Controlled(code, p, j)
    ensures Wf(Devalue(code, s), p, last)
    ensures forall i :: 0 <= i < |code| ==>
      Devalue(code, s)[i] == if i + 1 in s && code[i].TestSet? then Test(code[i].b, code[i].k) else code[i]
    decreases |s|
  {
    if s != [] {
      var code1 := PatchTest(code, s[0], NO_REG);
      assert s[0] in s;
      WfPatchTest(code, p, last, s[0], NO_REG);
      assert forall x :: x in s <==> x == s[0] || x in s[1..];
      forall j | j in s[1..] ensures Controlled(code1, p, j) { assert Controlled(code, p, j); }
      Devalued(code1, p, last, s[1..]);
    }
  }

  /** A TEST does what a TESTSET without a register does. */
  lemma {:induction false} RunDevalued(env: Env, code: seq<Instr>, code': seq<Instr>, p: set<nat>, o: Out)
    requires |code'| == |code|
    requires forall i :: 0 <= i < |code| ==>
      code'[i] == code[i] || (code[i].TestSet? && code[i].a == NO_REG && code'[i] == Test(code[i].b, code[i].k))
    ensures Run(env, code', p, o) == Run(env, code, p, o)
    decreases |code| - o.pc
  {
    if o.pc < |code| && o.pc !in p {
      var n := Step(env, code, o);
      assert Step(env, code', o) == n;
      if n.pc > o.pc { RunDevalued(env, code, code', p, n); }
    }
  }

  // ----- the end of an expression -----

  /** Loading a boolean by two instructions that the code before jumps around. */
  lemma JumpAround(env: Env, code: seq<Instr>, p: set<nat>, last: nat, reg: nat, o: Out)
    requires Wf(code, p, last) && o.pc <= |code|
    ensures var code' := code + [Jmp(2), LFalseSkip(reg), LoadTrue(reg)]; var c := Run(env, code, p, o);
      Wf(code', p, |code'|) && DestOk(code', reg, AtFalse) && DestOk(code', reg, AtTrue)
      && Run(env, code', p, o) == if c.pc == |code| then Out(|code'|, c.r) else c
  {
    var code' := code + [Jmp(2), LFalseSkip(reg), LoadTrue(reg)];
    WfAppend(code, p, last, [Jmp(2), LFalseSkip(reg), LoadTrue(reg)], p, |code'|);
    RunInside(env, code, p, last, o);
    WfKX(code, p, last);
    RunOn(env, code, p, code', p, o);
    if Run(env, code, p, o).pc < |code| { RunStuck(env, code, p, code', o); }
  }

  /** The same after a test, whose outcome is false where the code ends. */
  lemma FallThrough(env: Env, code: seq<Instr>, p: set<nat>, last: nat, reg: nat, o: Out)
    requires Wf(code, p, last) && o.pc <= |code|
    ensures var code' := code + [LFalseSkip(reg), LoadTrue(reg)]; var c := Run(env, code, p, o);
      Wf(code', p, |code'|) && DestOk(code', reg, AtFalse) && DestOk(code', reg, AtTrue)
      && Run(env, code', p, o) == if c.pc == |code| then Out(|code'|, Set(c.r, reg, Bool(false))) else c
  {
    var code' := code + [LFalseSkip(reg), LoadTrue(reg)];
    WfAppend(code, p, last, [LFalseSkip(reg), LoadTrue(reg)], p, |code'|);
    RunInside(env, code, p, last, o);
    WfKX(code, p, last);
    RunOn(env, code, p, code', p, o);
    var c := Run(env, code, p, o);
    if c.pc < |code| { RunStuck(env, code, p, code', o); } else {
      assert Step(env, code', c) == Out(|code'|, Set(c.r, reg, Bool(false)));
    }
  }

  /** What 'luaK_nil' does for one register: a new instruction, or a wider range in the previous one, provided that
      no label separates them. */
  predicate NilLoaded(code: seq<Instr>, last: nat, reg: nat, code': seq<Instr>) {
    || code' == code + [LoadNil(reg, 0)]
    || (|code| > last && code[|code| - 1].LoadNil? && |code'| == |code| && code'[..|code| - 1] == code[..|code| - 1]
        && code'[|code| - 1].LoadNil? && WidensBy(code[|code| - 1].a, code[|code| - 1].b, code'[|code| - 1].a,
          code'[|code| - 1].b, reg))
  }

  /** Range a'..a'+b' is range a..a+b and `reg`. */
  predicate WidensBy(a: nat, b: nat, a': nat, b': nat, reg: nat) {
    || (a' == a && b' == b && a <= reg <= a + b) || (a' == a && b' == b + 1 && reg == a + b + 1)
    || (a' == reg && reg + 1 == a && b' == b + 1)
  }

  predicate Entry(code: seq<Instr>, last: nat, pc: nat) { pc < |code| || (pc == |code| && pc <= last) }

  lemma RunNil(env: Env, code: seq<Instr>, p: set<nat>, last: nat, reg: nat, code': seq<Instr>, o: Out)
    requires Wf(code, p, last) && NilLoaded(code, last, reg, code') && Entry(code, last, o.pc)
    ensures var c, out := Run(env, code, p, o), Run(env, code', p, o);
      if c.pc != |code| then out == c
      else out.pc == |code'| && Get(out.r, reg) == Nil && SameBut(c.r, out.r, reg)
  {
    if code' == code + [LoadNil(reg, 0)] {
      EmitSimple(env, code, p, last, LoadNil(reg, 0), o);
    } else {
      var n := |code| - 1;
      var pre, i, i' := code[..n], code[n], code'[n];
      assert code == pre + [i] && code' == pre + [i'];
      WfCut(pre, p, last, i);
      EmitSimple(env, pre, p, last, i, o);
      EmitSimple(env, pre, p, last, i', o);
      RunInside(env, pre, p, last, o);
      var c := Run(env, pre, p, o);
      assert i == LoadNil(i.a, i.b) && i' == LoadNil(i'.a, i'.b);
      if c.pc == n {
        NilsWidened(c.r, i.a, i.b, i'.a, i'.b, reg);
      }
    }
  }

  lemma NilsWidened(r: Regs, a: nat, b: nat, a': nat, b': nat, reg: nat)
    requires WidensBy(a, b, a', b', reg)
    ensures Get(SetNils(r, a', b' + 1), reg) == Nil
    ensures SameBut(SetNils(r, a, b + 1), SetNils(r, a', b' + 1), reg)
  {
  }

  lemma WfNil(code: seq<Instr>, p: set<nat>, last: nat, reg: nat, code': seq<Instr>)
    requires Wf(code, p, last) && NilLoaded(code, last, reg, code')
    ensures Wf(code', p, last)
  {
    if code' == code + [LoadNil(reg, 0)] {
      WfAppend(code, p, last, [LoadNil(reg, 0)], p, last);
    } else {
      forall i | 0 <= i < |code'| ensures WfAt(code', p, last, i) {
        assert WfAt(code, p, last, i);
        assert i < |code| - 1 ==> code'[i] == code'[..|code| - 1][i] && code[i] == code[..|code| - 1][i];
        assert i + 1 < |code| - 1 ==>
          code'[i + 1] == code'[..|code| - 1][i + 1] && code[i + 1] == code[..|code| - 1][i + 1];
        if code'[i].Jmp? && i !in p && code'[i].sj >= 0 {
          var t := i + code'[i].sj;
          assert t < |code| - 1 ==> code'[t] == code'[..|code| - 1][t] && code[t] == code[..|code| - 1][t];
        }
      }
      forall i | i in p
        ensures code'[i].Jmp? { assert code'[i] == code'[..|code| - 1][i] && code[i] == code[..|code| - 1][i]; }
    }
  }
}
