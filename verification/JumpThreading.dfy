/** The final pass over the code of a function (lcode.c:1830-1875): jumps to jumps are threaded in place, and returns
    are completed. */
module JumpThreading {
  import opened Folding

  datatype Option<T> = None | Some(value: T)

  /** `Op` stands for any other instruction. */
  datatype Instr = Jmp(sj: int) | Return0 | Return1(a: nat) | Return(a: nat, b: nat, c: nat, k: bool)
    | TailCall(a: nat, b: nat, c: nat, k: bool) | Op(id: nat)

  const OFFSET_SJ: int := 16777215
  const MAXARG_SJ: int := 33554431
  const MAXHOPS: nat := 100

  /** Every jump leads to an instruction. */
  predicate Wf(code: seq<Instr>) {
    forall i :: 0 <= i < |code| && code[i].Jmp? ==> 0 <= i + 1 + code[i].sj < |code|
  }

  // ----- following jumps -----

  /** Where `n` hops lead; an instruction that is no jump is not left. */
  function Follow(code: seq<Instr>, pc: nat, n: nat): (d: nat)
    requires Wf(code) && pc < |code|
    ensures d < |code|
    decreases n
  {
    if n == 0 || !code[pc].Jmp? then pc else Follow(code, pc + 1 + code[pc].sj, n - 1)
  }

  /** Control at `pc` gets to the instruction at `d`, which is no jump. */
  ghost predicate LandsOn(code: seq<Instr>, pc: nat, d: nat)
    requires Wf(code) && pc < |code|
  {
    exists n: nat :: Follow(code, pc, n) == d && d < |code| && !code[d].Jmp?
  }

  lemma {:induction false} FollowStays(code: seq<Instr>, pc: nat, n: nat, m: nat)
    requires Wf(code) && pc < |code| && n <= m && !code[Follow(code, pc, n)].Jmp?
    ensures Follow(code, pc, m) == Follow(code, pc, n)
    decreases n
  {
    if n > 0 && code[pc].Jmp? { FollowStays(code, pc + 1 + code[pc].sj, n - 1, m - 1); }
  }

  lemma {:induction false} FollowSum(code: seq<Instr>, pc: nat, n: nat, m: nat)
    requires Wf(code) && pc < |code|
    ensures Follow(code, pc, n + m) == Follow(code, Follow(code, pc, n), m)
    decreases n
  {
    if n > 0 && code[pc].Jmp? { FollowSum(code, pc + 1 + code[pc].sj, n - 1, m); }
    else if n > 0 { FollowStays(code, pc, 0, n + m); FollowStays(code, pc, 0, m); }
  }

  /** Control lands on one instruction at most. */
  lemma LandsOnce(code: seq<Instr>, pc: nat, d: nat, d': nat)
    requires Wf(code) && pc < |code| && LandsOn(code, pc, d) && LandsOn(code, pc, d')
    ensures d == d'
  {
    var n: nat :| Follow(code, pc, n) == d && !code[d].Jmp?;
    var n': nat :| Follow(code, pc, n') == d' && !code[d'].Jmp?;
    if n <= n' { FollowStays(code, pc, n, n'); } else { FollowStays(code, pc, n', n); }
  }

  // ----- threading one jump -----

  /** 'finaltarget' (lcode.c:1830-1840). */
  method FinalTarget(code: array<Instr>, pc: nat) returns (t: nat)
    requires pc < code.Length && Wf(code[..])
    ensures t < code.Length && t == Follow(code[..], pc, MAXHOPS)
  {
    t := pc;
    var count := 0;
    while count < MAXHOPS
      invariant 0 <= count <= MAXHOPS && t < code.Length && t == Follow(code[..], pc, count)
      decreases MAXHOPS - count
    {
      if !code[t].Jmp? {
        FollowStays(code[..], pc, count, MAXHOPS);
        break;
      }
      FollowSum(code[..], pc, count, 1);
      assert Follow(code[..], t, 1) == t + 1 + code[..][t].sj;
      t := t + 1 + code[t].sj;
      count := count + 1;
    }
  }

  function Threaded(code: seq<Instr>, i: nat): (code': seq<Instr>)
    requires Wf(code) && i < |code| && code[i].Jmp?
    ensures Wf(code') && |code'| == |code|
  {
    code[i := Jmp(Follow(code, i, MAXHOPS) - (i + 1))]
  }

  /** Where control lands in the old code, it lands in the new one. */
  lemma {:induction false} ThreadedLands(code: seq<Instr>, i: nat, pc: nat, d: nat, n: nat)
    requires Wf(code) && i < |code| && code[i].Jmp? && pc < |code| && Follow(code, pc, n) == d && !code[d].Jmp?
    ensures LandsOn(Threaded(code, i), pc, d)
    decreases n
  {
    var code' := Threaded(code, i);
    if !code[pc].Jmp? {
      assert Follow(code', pc, 0) == d;
    } else if pc != i {
      ThreadedLands(code, i, pc + 1 + code[pc].sj, d, n - 1);
      LandsBefore(code', pc, d);
    } else {
      var t := Follow(code, i, MAXHOPS);
      if n <= MAXHOPS {
        FollowStays(code, i, n, MAXHOPS);
        assert Follow(code', t, 0) == d;
      } else {
        FollowSum(code, i, MAXHOPS, n - MAXHOPS);
        ThreadedLands(code, i, t, d, n - MAXHOPS);
      }
      LandsBefore(code', i, d);
    }
  }

  lemma LandsBefore(code: seq<Instr>, pc: nat, d: nat)
    requires Wf(code) && pc < |code| && code[pc].Jmp? && LandsOn(code, pc + 1 + code[pc].sj, d)
    ensures LandsOn(code, pc, d)
  {
    var n: nat :| Follow(code, pc + 1 + code[pc].sj, n) == d && !code[d].Jmp?;
    assert Follow(code, pc, n + 1) == d;
  }

  /** And the other way round: no landing is new, so that an endless cycle of jumps stays one. */
  lemma {:induction false} ThreadedOnly(code: seq<Instr>, i: nat, pc: nat, d: nat, n: nat)
    requires Wf(code) && i < |code| && code[i].Jmp? && pc < |code|
    requires Follow(Threaded(code, i), pc, n) == d && !Threaded(code, i)[d].Jmp?
    ensures LandsOn(code, pc, d)
    decreases n
  {
    var code' := Threaded(code, i);
    if !code'[pc].Jmp? {
      assert Follow(code, pc, 0) == d;
    } else if pc != i {
      ThreadedOnly(code, i, pc + 1 + code[pc].sj, d, n - 1);
      LandsBefore(code, pc, d);
    } else {
      var t := Follow(code, i, MAXHOPS);
      ThreadedOnly(code, i, t, d, n - 1);
      var m: nat :| Follow(code, t, m) == d;
      FollowSum(code, i, MAXHOPS, m);
      assert Follow(code, i, MAXHOPS + m) == d;
    }
  }

  // ----- what the pass preserves -----

  /** A return or a tail call says that upvalues are to be closed, and how many parameters a vararg function has. */
  function Completed(i: Instr, needclose: bool, vararg: bool, numparams: nat): Instr {
    match i
    case Return0 => if needclose || vararg then Return(0, 1, if vararg then numparams + 1 else 0, needclose) else i
    case Return1(a) => if needclose || vararg then Return(a, 2, if vararg then numparams + 1 else 0, needclose) else i
    case Return(a, b, c, k) => Return(a, b, if vararg then numparams + 1 else c, needclose || k)
    case TailCall(a, b, c, k) => TailCall(a, b, if vararg then numparams + 1 else c, needclose || k)
    case _ => i
  }

  /** Old and new code agree on what is a jump and on where control lands. */
  ghost predicate SameLandings(code: seq<Instr>, code': seq<Instr>) {
    && |code'| == |code| && Wf(code) && Wf(code')
    && (forall i :: 0 <= i < |code| ==> code'[i].Jmp? == code[i].Jmp?)
    && (forall pc: nat, d: nat {:trigger LandsOn(code', pc, d)} :: pc < |code| ==>
      LandsOn(code', pc, d) == LandsOn(code, pc, d))
  }

  lemma SameTrans(a: seq<Instr>, b: seq<Instr>, c: seq<Instr>)
    requires SameLandings(a, b) && SameLandings(b, c)
    ensures SameLandings(a, c)
  {
    forall pc: nat, d: nat | pc < |a| ensures LandsOn(c, pc, d) == LandsOn(a, pc, d) {
      assert LandsOn(c, pc, d) == LandsOn(b, pc, d);
    }
  }

  lemma ThreadedSame(code: seq<Instr>, i: nat)
    requires Wf(code) && i < |code| && code[i].Jmp?
    ensures SameLandings(code, Threaded(code, i)) && NoLonger(code, Threaded(code, i))
  {
    var code' := Threaded(code, i);
    forall pc: nat, n: nat | pc < |code| && !code[Follow(code, pc, n)].Jmp?
      ensures Follow(code', pc, n) == Follow(code, pc, n) {
      ThreadedNoLonger(code, i, pc, n);
    }
    forall pc: nat, d: nat | pc < |code| ensures LandsOn(code', pc, d) == LandsOn(code, pc, d) {
      if LandsOn(code, pc, d) {
        var n: nat :| Follow(code, pc, n) == d && !code[d].Jmp?;
        ThreadedLands(code, i, pc, d, n);
      }
      if LandsOn(code', pc, d) {
        var n: nat :| Follow(code', pc, n) == d && !code'[d].Jmp?;
        ThreadedOnly(code, i, pc, d, n);
      }
    }
  }

  /** What lands within some number of hops still lands there within as many. */
  ghost predicate NoLonger(code: seq<Instr>, code': seq<Instr>)
    requires Wf(code) && Wf(code') && |code'| == |code|
  {
    forall pc: nat, n: nat {:trigger Follow(code', pc, n)} :: pc < |code| && !code[Follow(code, pc, n)].Jmp? ==>
      Follow(code', pc, n) == Follow(code, pc, n)
  }

  lemma {:induction false} ThreadedNoLonger(code: seq<Instr>, i: nat, pc: nat, n: nat)
    requires Wf(code) && i < |code| && code[i].Jmp? && pc < |code| && !code[Follow(code, pc, n)].Jmp?
    ensures Follow(Threaded(code, i), pc, n) == Follow(code, pc, n)
    decreases n
  {
    var code' := Threaded(code, i);
    if n > 0 && code[pc].Jmp? {
      if pc != i {
        ThreadedNoLonger(code, i, pc + 1 + code[pc].sj, n - 1);
      } else {
        var t := Follow(code, i, MAXHOPS);
        if n <= MAXHOPS {
          FollowStays(code, i, n, MAXHOPS);
        } else {
          FollowSum(code, i, MAXHOPS, n - MAXHOPS);
          ThreadedNoLonger(code, i, t, n - MAXHOPS);
          FollowStays(code', t, n - MAXHOPS, n - 1);
        }
      }
    }
  }

  lemma NoLongerTrans(a: seq<Instr>, b: seq<Instr>, c: seq<Instr>)
    requires SameLandings(a, b) && SameLandings(b, c) && NoLonger(a, b) && NoLonger(b, c)
    ensures NoLonger(a, c)
  {
    forall pc: nat, n: nat | pc < |a| && !a[Follow(a, pc, n)].Jmp? ensures Follow(c, pc, n) == Follow(a, pc, n) {
      assert Follow(b, pc, n) == Follow(a, pc, n);
    }
  }

  /** A jump leads to a jump again only if 100 hops of the code `first` do: threading is complete up to that bound. */
  ghost predicate Resolved(first: seq<Instr>, code: seq<Instr>, j: nat)
    requires Wf(first) && Wf(code) && |first| == |code| && j < |code|
  {
    code[j].Jmp? && code[j + 1 + code[j].sj].Jmp? ==> first[Follow(first, j, MAXHOPS)].Jmp?
  }

  lemma ResolvedStep(first: seq<Instr>, before: seq<Instr>, after: seq<Instr>, i: nat)
    requires SameLandings(first, before) && NoLonger(first, before) && SameLandings(before, after) && i < |before|
    requires forall j: nat :: j < i ==> Resolved(first, before, j)
    requires forall j :: 0 <= j < |before| && j != i ==> after[j] == before[j]
    requires before[i].Jmp? ==> after == Threaded(before, i)
    ensures forall j: nat :: j < i + 1 ==> Resolved(first, after, j)
  {
    forall j: nat | j < i + 1 ensures Resolved(first, after, j) {
      if j < i {
        assert Resolved(first, before, j) && after[j] == before[j];
      } else if before[i].Jmp? {
        assert after[i] == Jmp(Follow(before, i, MAXHOPS) - (i + 1));
        assert !first[Follow(first, i, MAXHOPS)].Jmp? ==> Follow(before, i, MAXHOPS) == Follow(first, i, MAXHOPS);
      }
    }
  }

  lemma {:induction false} FollowSame(code: seq<Instr>, code': seq<Instr>, pc: nat, n: nat)
    requires Wf(code) && Wf(code') && |code'| == |code| && pc < |code|
    requires forall i :: 0 <= i < |code| ==> code'[i].Jmp? == code[i].Jmp? && (code[i].Jmp? ==> code'[i] == code[i])
    ensures Follow(code', pc, n) == Follow(code, pc, n)
    decreases n
  {
    if n > 0 && code[pc].Jmp? { FollowSame(code, code', pc + 1 + code[pc].sj, n - 1); }
  }

  lemma CompletedSame(code: seq<Instr>, i: nat, needclose: bool, vararg: bool, numparams: nat)
    requires Wf(code) && i < |code|
    ensures Wf(code[i := Completed(code[i], needclose, vararg, numparams)])
    ensures SameLandings(code, code[i := Completed(code[i], needclose, vararg, numparams)])
    ensures NoLonger(code, code[i := Completed(code[i], needclose, vararg, numparams)])
  {
    var code' := code[i := Completed(code[i], needclose, vararg, numparams)];
    forall pc: nat, n: nat | pc < |code| ensures Follow(code', pc, n) == Follow(code, pc, n) {
      FollowSame(code, code', pc, n);
    }
    forall pc: nat, d: nat | pc < |code| ensures LandsOn(code', pc, d) == LandsOn(code, pc, d) {
      forall n: nat ensures Follow(code', pc, n) == Follow(code, pc, n) { FollowSame(code, code', pc, n); }
    }
  }

  /** Fixes a jump, if the distance can be encoded (lcode.c:168-176). */
  method FixJump(code: array<Instr>, pc: nat, dest: nat) returns (ok: bool)
    requires pc < code.Length && code[pc].Jmp?
    modifies code
    ensures ok == (-OFFSET_SJ <= dest - (pc + 1) <= MAXARG_SJ - OFFSET_SJ)
    ensures code[..] == if ok then old(code[..])[pc := Jmp(dest - (pc + 1))] else old(code[..])
  {
    var offset := dest - (pc + 1);
    ok := -OFFSET_SJ <= offset <= MAXARG_SJ - OFFSET_SJ;
    if ok {
      code[pc] := Jmp(offset);
    }
  }

  /** The pass over `first` is done up to instruction `i`. */
  ghost predicate Finished(first: seq<Instr>, code: seq<Instr>, i: nat, needclose: bool, vararg: bool, numparams: nat) {
    && |code| == |first| && Wf(first) && Wf(code)
    && forall k: nat {:trigger Open(k)} :: Open(k) ==>
      && SameLandings(first, code) && NoLonger(first, code)
      && (forall j: nat {:trigger Resolved(first, code, j)} :: j < i && j < |code| ==> Resolved(first, code, j))
      && (forall j {:trigger code[j]} :: 0 <= j < |code| && !first[j].Jmp? ==>
        code[j] == if j < i then Completed(first[j], needclose, vararg, numparams) else first[j])
  }

  lemma NoneFinished(code: seq<Instr>, needclose: bool, vararg: bool, numparams: nat)
    requires Wf(code)
    ensures Finished(code, code, 0, needclose, vararg, numparams)
  {
  }

  lemma OneFinished(first: seq<Instr>, before: seq<Instr>, after: seq<Instr>, i: nat, needclose: bool, vararg: bool,
      numparams: nat)
    requires Finished(first, before, i, needclose, vararg, numparams) && i < |before|
    requires before[i].Jmp? ==> after == Threaded(before, i)
    requires !before[i].Jmp? ==> after == before[i := Completed(before[i], needclose, vararg, numparams)]
    ensures Finished(first, after, i + 1, needclose, vararg, numparams)
  {
    assert Open(0);
    if before[i].Jmp? { ThreadedSame(before, i); } else { CompletedSame(before, i, needclose, vararg, numparams); }
    SameTrans(first, before, after);
    NoLongerTrans(first, before, after);
    ResolvedStep(first, before, after, i);
  }

  lemma AllFinished(first: seq<Instr>, code: seq<Instr>, needclose: bool, vararg: bool, numparams: nat)
    requires Finished(first, code, |code|, needclose, vararg, numparams)
    ensures SameLandings(first, code) && forall j: nat :: j < |code| ==> Resolved(first, code, j)
    ensures forall i :: 0 <= i < |code| && !first[i].Jmp? ==>
      code[i] == Completed(first[i], needclose, vararg, numparams)
  {
    assert Open(0);
  }

  /** 'luaK_finish' (lcode.c:1847-1875). A jump that cannot be encoded is an error. Otherwise control lands on the same
      instructions as before, and these are what they were, but that returns are completed. */
  method Finish(code: array<Instr>, needclose: bool, vararg: bool, numparams: nat) returns (ok: bool)
    requires Wf(code[..])
    modifies code
    ensures ok ==> SameLandings(old(code[..]), code[..])
    ensures ok ==> forall i :: 0 <= i < code.Length && !old(code[i]).Jmp? ==>
      code[i] == Completed(old(code[i]), needclose, vararg, numparams)
    ensures ok ==> forall j: nat :: j < code.Length ==> Resolved(old(code[..]), code[..], j)
    ensures code.Length <= OFFSET_SJ ==> ok
  {
    ghost var first := code[..];
    var i := 0;
    NoneFinished(first, needclose, vararg, numparams);
    while i < code.Length
      invariant 0 <= i <= code.Length && Finished(first, code[..], i, needclose, vararg, numparams)
    {
      ghost var before := code[..];
      if code[i].Jmp? {
        var t := FinalTarget(code, i);
        ok := FixJump(code, i, t);
        if !ok {
          return;
        }
      } else {
        code[i] := Completed(code[i], needclose, vararg, numparams);
      }
      OneFinished(first, before, code[..], i, needclose, vararg, numparams);
      i := i + 1;
    }
    AllFinished(first, code[..], needclose, vararg, numparams);
    ok := true;
  }

  // ----- whole runs -----

  /** Where control at `pc` lands, or nowhere if it is caught in a cycle of jumps. */
  ghost function Landing(code: seq<Instr>, pc: nat): Option<nat>
    requires Wf(code) && pc < |code|
  {
    if exists d: nat :: LandsOn(code, pc, d) then
      var d: nat :| LandsOn(code, pc, d);
      Some(d)
    else None
  }

  /** What an instruction other than a jump does (lvm.c:1693-1786): how many values it returns or passes on, from
      which register (-1 means up to the top), whether it closes upvalues first, and by how much it moves a vararg
      frame back. */
  datatype Effect = Results(from: nat, count: int, closes: bool, back: nat)
    | Calls(from: nat, count: int, closes: bool, back: nat) | Does(i: Instr)

  function Meaning(i: Instr): Effect {
    match i
    case Return0 => Results(0, 0, false, 0)
    case Return1(a) => Results(a, 1, false, 0)
    case Return(a, b, c, k) => Results(if b == 1 then 0 else a, b - 1, k, c)
    case TailCall(a, b, c, k) => Calls(a, b - 1, k, c)
    case _ => Does(i)
  }

  /** What it has to do in a function that needs its upvalues closed, or has varargs. */
  function Wanted(i: Instr, needclose: bool, vararg: bool, numparams: nat): Effect {
    var e := Meaning(i);
    if e.Does? then e else e.(closes := e.closes || needclose, back := if vararg then numparams + 1 else e.back)
  }

  lemma CompletedMeans(i: Instr, needclose: bool, vararg: bool, numparams: nat)
    ensures Meaning(Completed(i, needclose, vararg, numparams)) == Wanted(i, needclose, vararg, numparams)
  {
  }

  /** The first `n` instructions, jumps aside, that a run executes, with their positions; `meaning` says what an
      instruction does, and `step` what that does to the state, and where it leads. */
  ghost function Executed<S>(code: seq<Instr>, meaning: Instr -> Effect, step: (nat, Effect, S) -> (nat, S), pc: nat,
      s: S,
      n: nat): seq<(nat, Effect)>
    requires Wf(code)
    decreases n
  {
    if n == 0 || pc >= |code| || Landing(code, pc).None? then []
    else
      var d := Landing(code, pc).value;
      var e := meaning(code[d]);
      var (pc', s') := step(d, e, s);
      [(d, e)] + Executed(code, meaning, step, pc', s', n - 1)
  }

  lemma LandingSame(code: seq<Instr>, code': seq<Instr>, pc: nat)
    requires SameLandings(code, code') && pc < |code|
    ensures Landing(code', pc) == Landing(code, pc)
  {
    if Landing(code', pc).Some? {
      var d := Landing(code', pc).value;
      assert LandsOn(code', pc, d) && LandsOn(code, pc, d);
      LandsOnce(code, pc, d, Landing(code, pc).value);
    } else {
      forall d: nat ensures !LandsOn(code, pc, d) { assert !LandsOn(code', pc, d); }
    }
  }

  /** Every run of the finished code does, one by one, what the unfinished code wants. */
  lemma {:induction false} RunsSame<S>(code: seq<Instr>, code': seq<Instr>, needclose: bool, vararg: bool,
      numparams: nat,
      step: (nat, Effect, S) -> (nat, S), pc: nat, s: S, n: nat)
    requires SameLandings(code, code')
    requires forall i :: 0 <= i < |code| && !code[i].Jmp? ==>
      code'[i] == Completed(code[i], needclose, vararg, numparams)
    ensures Executed(code', Meaning, step, pc, s, n)
      == Executed(code, (i: Instr) => Wanted(i, needclose, vararg, numparams), step, pc, s, n)
    decreases n
  {
    if n > 0 && pc < |code| {
      LandingSame(code, code', pc);
      if Landing(code, pc).Some? {
        var d := Landing(code, pc).value;
        CompletedMeans(code[d], needclose, vararg, numparams);
        var (pc', s') := step(d, Meaning(code'[d]), s);
        RunsSame(code, code', needclose, vararg, numparams, step, pc', s', n - 1);
      }
    }
  }
}
