/** The code generator (lcode.c): emits instructions for conditions and simple expressions in one pass, keeping
    jumps whose targets are not known in lists that are threaded through the jumps themselves. An operation that
    returns false for `ok` has raised a syntax error, and compilation ends. */
module CodeGen {
  import opened JumpCode
  import opened ExprSpec
  import opened ExprLemmas
  import opened ExprLogic
  import opened ExprJoin
  import opened ExprHas
  import opened Folding

  const MAXARG_BX: int := 131071
  const OFFSET_SBX: int := 65535
  const MAXINDEXRK: int := 255
  const MAXARG_SJ: int := 33554431
  const OFFSET_SJ: int := 16777215

  /** How many registers above those in use an expression may need, at most, before its own. */
  function Depth(x: Expr): nat {
    match x
    case ENot(y) => Max(1, Depth(y))
    case EAnd(a, b) => Max(1, Max(Depth(a), Depth(b)))
    case EOr(a, b) => Max(1, Max(Depth(a), Depth(b)))
    case ECmp(_, a, b) => Max(3, Max(Depth(a), Depth(b) + 1))
    case _ => 0
  }

  function Max(m: nat, n: nat): nat { if m < n then n else m }

  /** How many instructions are emitted for an expression, at most. */
  function Size(x: Expr): nat {
    match x
    case ENot(y) => Size(y) + 5
    case EAnd(a, b) => Size(a) + Size(b) + 7
    case EOr(a, b) => Size(a) + Size(b) + 7
    case ECmp(_, a, b) => Size(a) + Size(b) + 28
    case _ => 0
  }

  lemma AroundBools(code: seq<Instr>, reg: nat)
    requires code != [] ==> !code[|code| - 1].TestSet?
    ensures var emitted := code + [Jmp(-1), LFalseSkip(reg), LoadTrue(reg)];
      PatchAll(emitted, [|code|], NO_REG, Here) == code + [Jmp(2), LFalseSkip(reg), LoadTrue(reg)]
  {
    var emitted := code + [Jmp(-1), LFalseSkip(reg), LoadTrue(reg)];
    assert PatchAll(emitted, [|code|], NO_REG, Here) == PatchAll(PatchOne(emitted, |code|, NO_REG, Here), [], NO_REG,
      Here);
  }

  class FuncState {
    var code: seq<Instr>
    var k: seq<Value>
    var cache: map<Value, nat>
    var freereg: nat
    var nactvar: nat
    var lasttarget: nat
    var maxstack: nat

    /** A function without code, whose parameters are its first registers (lparser.c:729-753). */
    constructor (nparams: nat)
      requires nparams < MAXREGS
      ensures RegsOk() && St() == Fs([], [], nparams, nparams, 0)
    {
      code, k, cache := [], [], map[];
      freereg, nactvar, lasttarget := nparams, nparams, 0;
      maxstack := if nparams > 2 then nparams else 2;
    }

    ghost function St(): Fs
      reads this
    {
      Fs(code, k, freereg, nactvar, lasttarget)
    }

    predicate RegsOk()
      reads this
    {
      nactvar <= freereg <= maxstack < MAXREGS
    }

    /** The code is not longer than `len`; and if it was refused, it is longer than jumps can lead, or all registers
        are in use, of which that are not more than `top`. */
    predicate Bounded(ok: bool, top: nat, len: nat)
      reads this
    {
      |code| <= len && (ok || |code| > OFFSET_SJ || (freereg + 1 >= MAXREGS && freereg <= top))
    }

    // ----- emitting -----

    method Code(i: Instr) returns (pc: nat)
      modifies `code
      ensures code == old(code) + [i] && pc == |old(code)|
    {
      code := code + [i];
      pc := |code| - 1;
    }

    /** Finds a constant through the scanner's cache, or adds it; the cache is shared with other functions, so
        that what it says has to be checked (lcode.c:544-586). */
    method AddK(v: Value) returns (i: nat)
      modifies `k, `cache
      ensures i < |k| && k[i] == v && old(k) <= k
      ensures (v in old(k) && v in old(cache) && old(cache)[v] < |old(k)| && old(k)[old(cache)[v]] == v ==> k == old(k))
    {
      if v in cache && cache[v] < |k| && k[cache[v]] == v {
        return cache[v];
      }
      i := |k|;
      cache := cache[v := i];
      k := k + [v];
    }

    /** Emits a load of a constant, with an extra argument if its index is large (lcode.c:452-460). */
    method CodeK(reg: nat, kx: nat)
      modifies `code
      ensures |code| <= old(|code|) + 2
      ensures ConstLoaded(old(code), reg, kx, code)
    {
      if kx <= MAXARG_BX {
        var _ := Code(LoadK(reg, kx));
      } else {
        var _ := Code(LoadKX(reg));
        var _ := Code(ExtraArg(kx));
        assert code == old(code) + [LoadKX(reg), ExtraArg(kx)];
      }
    }

    /** Loads an integer (lcode.c:673-678). */
    method CodeInt(reg: nat, n: int)
      modifies `code, `k, `cache
      ensures |code| <= old(|code|) + 2
      ensures old(k) <= k
      ensures code == old(code) + [LoadI(reg, n)] ||
        exists i {:trigger k[i]} :: 0 <= i < |k| && k[i] == Int(n) && ConstLoaded(old(code), reg, i, code)
    {
      if -OFFSET_SBX <= n <= MAXARG_BX - OFFSET_SBX {
        var _ := Code(LoadI(reg, n));
      } else {
        var i := AddK(Int(n));
        CodeK(reg, i);
      }
    }

    /** Sets a register to nil, if possible by widening the range of a LOADNIL just emitted (lcode.c:132-148). */
    method CodeNil(from: nat)
      requires lasttarget <= |code|
      modifies `code
      ensures |code| <= old(|code|) + 1
      ensures NilLoaded(old(code), lasttarget, from, code)
    {
      if |code| > lasttarget && code[|code| - 1].LoadNil? {
        var p := code[|code| - 1];
        var pfrom, pl := p.a, p.a + p.b;
        if (pfrom <= from && from <= pl + 1) || (from <= pfrom && pfrom <= from + 1) {
          var f := if pfrom < from then pfrom else from;
          var l := if pl > from then pl else from;
          code := code[|code| - 1 := LoadNil(f, l - f)];
          return;
        }
      }
      var _ := Code(LoadNil(from, 0));
    }

    method GetLabel() returns (pc: nat)
      modifies `lasttarget
      ensures pc == |code| == lasttarget
    {
      lasttarget := |code|;
      pc := |code|;
    }

    // ----- registers -----

    /** Reserves registers; too many are an error (lcode.c:467-484). */
    method ReserveRegs(n: nat) returns (ok: bool)
      requires RegsOk()
      modifies `freereg, `maxstack
      ensures ok ==> RegsOk() && freereg == old(freereg) + n
      ensures !ok ==> freereg == old(freereg)
      ensures !ok ==> old(freereg) + n >= MAXREGS
    {
      var newstack := freereg + n;
      if newstack > maxstack {
        if newstack >= MAXREGS {
          return false;
        }
        maxstack := newstack;
      }
      freereg := newstack;
      ok := true;
    }

    /** Frees a register, which must be the last one in use, unless it is that of a local (lcode.c:492-497). */
    method FreeReg(reg: nat)
      requires RegsOk() && (reg >= nactvar ==> reg + 1 == freereg)
      modifies `freereg
      ensures RegsOk() && freereg == if reg >= nactvar then old(freereg) - 1 else old(freereg)
    {
      if reg >= nactvar {
        freereg := freereg - 1;
      }
    }

    method FreeExp(kd: Kind)
      requires RegsOk() && (kd.VNonReloc? && kd.reg >= nactvar ==> kd.reg + 1 == freereg)
      modifies `freereg
      ensures RegsOk() && freereg == if kd.VNonReloc? && kd.reg >= nactvar then old(freereg) - 1 else old(freereg)
    {
      if kd.VNonReloc? {
        FreeReg(kd.reg);
      }
    }

    /** How many registers above the locals two descriptors use. */
    function Temps(k1: Kind, k2: Kind): nat
      reads this
    {
      (if k1.VNonReloc? && k1.reg >= nactvar then 1 else 0) + (if k2.VNonReloc? && k2.reg >= nactvar then 1 else 0)
    }

    /** Frees the registers of two descriptors, the higher one first (lcode.c:503-532). */
    method FreeExps(k1: Kind, k2: Kind)
      requires RegsOk() && Temps(k1, k2) <= freereg - nactvar
      requires k1.VNonReloc? && k1.reg >= nactvar ==> freereg - Temps(k1, k2) <= k1.reg < freereg
      requires k2.VNonReloc? && k2.reg >= nactvar ==> freereg - Temps(k1, k2) <= k2.reg < freereg
      requires Temps(k1, k2) == 2 ==> k1.reg != k2.reg
      modifies `freereg
      ensures RegsOk() && freereg == old(freereg) - old(Temps(k1, k2))
    {
      if k1.VNonReloc? && k2.VNonReloc? && k1.reg > k2.reg {
        FreeExp(k1);
        FreeExp(k2);
      } else {
        FreeExp(k2);
        FreeExp(k1);
      }
    }

    // ----- jump lists -----

    /** Frees the registers of the operands of a comparison, in either order. */
    method FreeOperands(k1: Kind, k2: Kind, ghost first: Kind, ghost second: Kind, ghost c0: Fs)
      requires RegsOk() && FreePair(c0, St(), first, second) && nactvar == c0.nact <= c0.free
      requires (k1 == first && k2 == second) || (k1 == second && k2 == first)
      modifies `freereg
      ensures RegsOk() && freereg == c0.free
    {
      FreeExps(k1, k2);
    }

    /** Fixes a jump; one that leads too far is an error (lcode.c:168-176). */
    method FixJump(pc: nat, dest: nat) returns (ok: bool)
      requires pc < |code| && code[pc].Jmp?
      modifies `code
      ensures !ok && dest <= |code| ==> |code| > OFFSET_SJ
      ensures ok == (-OFFSET_SJ <= dest - (pc + 1) <= MAXARG_SJ - OFFSET_SJ)
      ensures code == if ok then old(code)[pc := Jmp(dest - (pc + 1))] else old(code)
    {
      var offset := dest - (pc + 1);
      ok := -OFFSET_SJ <= offset <= MAXARG_SJ - OFFSET_SJ;
      if ok {
        code := code[pc := Jmp(offset)];
      }
    }

    /** The last jump of a list. */
    method LastOf(l: int, ghost s: seq<nat>) returns (list: nat)
      requires IsList(code, l, s) && s != []
      ensures list == s[|s| - 1]
    {
      list := l;
      ghost var i := 0;
      NextInList(code, l, s, 0);
      var next := NextJump(code, list);
      while next != -1
        invariant 0 <= i < |s| && list == s[i] && next == (if i + 1 < |s| then s[i + 1] as int else -1)
        decreases |s| - i
      {
        i := i + 1;
        list := next;
        NextInList(code, l, s, i);
        next := NextJump(code, list);
      }
    }

    /** Concatenates list `l2` to list `l1` (lcode.c:182-193). */
    method Concat(l1: int, l2: int, ghost s1: seq<nat>, ghost s2: seq<nat>) returns (ok: bool, l: int)
      requires IsList(code, l1, s1) && IsList(code, l2, s2) && Apart(s1, s2)
      modifies `code
      ensures Bounded(ok, 0, old(|code|))
      ensures ok ==> IsList(code, l, s1 + s2) && Relinked(old(code), code, SetOf(s1))
    {
      ok := true;
      if l2 == -1 {
        assert s1 + s2 == s1;
        l := l1;
      } else if l1 == -1 {
        assert s1 + s2 == s2;
        l := l2;
      } else {
        var list := LastOf(l1, s1);
        ListConcat(code, l1, s1, l2, s2);
        LinkedOnly(code, l1, s1);
        l := l1;
        ok := FixJump(list, l2);
      }
    }

    /** Emits a test and the jump it controls; gives the position of the jump (lcode.c:223-226). */
    method CondJump(i: Instr) returns (pc: nat)
      modifies `code
      ensures code == old(code) + [i, Jmp(-1)] && pc == |old(code)| + 1
    {
      var _ := Code(i);
      pc := Code(Jmp(-1));
      assert code == old(code) + [i, Jmp(-1)];
    }

    /** Gives a test its register, or takes away its value; says whether it had one (lcode.c:260-272). */
    method PatchTestReg(node: nat, reg: nat) returns (value: bool)
      requires node < |code| && code[node].Jmp?
      modifies `code
      ensures value == HasValue(old(code), node) && code == PatchTest(old(code), node, reg)
    {
      var i := if node >= 1 && IsTest(code[node - 1]) then node - 1 else node;
      if !code[i].TestSet? {
        return false;
      }
      if reg != NO_REG && reg != code[i].b {
        code := code[i := TestSet(reg, code[i].b, code[i].k)];
      } else {
        code := code[i := Test(code[i].b, code[i].k)];
      }
      value := true;
    }

    /** No test of the list keeps its value (lcode.c:278-281). */
    method RemoveValues(list: int, ghost s: seq<nat>)
      requires IsList(code, list, s)
      modifies `code
      ensures |code| == old(|code|)
      ensures code == Devalue(old(code), s)
    {
      var l := list;
      ghost var rest: seq<nat> := s;
      while l != -1
        invariant IsList(code, l, rest) && Devalue(code, rest) == Devalue(old(code), s) && |code| == old(|code|)
        decreases rest
      {
        ListTail(code, l, rest);
        ghost var before := code;
        var _ := PatchTestReg(l, NO_REG);
        ListPatchTest(before, rest, l, NO_REG);
        l := NextJump(code, l);
        rest := rest[1..];
      }
    }

    /** Whether a jump has a value of its own. */
    method IsValueJump(l: nat) returns (b: bool)
      requires l < |code| && code[l].Jmp?
      ensures b == HasValue(code, l)
    {
      var i := if l >= 1 && IsTest(code[l - 1]) then l - 1 else l;
      b := code[i].TestSet?;
    }

    /** Whether a jump of the list has no value of its own (lcode.c:900-906). */
    method NeedValue(list: int, ghost s: seq<nat>) returns (b: bool)
      requires IsList(code, list, s)
      ensures b <==> exists j :: j in s && !HasValue(code, j)
    {
      b := NeedsValue(list, s);
    }

    method NeedsValue(list: int, ghost s: seq<nat>) returns (b: bool)
      requires Listed(code, list, s)
      ensures b <==> exists j :: j in s && !HasValue(code, j)
    {
      var l := list;
      ghost var i := 0;
      b := false;
      ListedHead(code, list, s);
      while l != -1 && !b
        invariant 0 <= i <= |s| && l == (if i < |s| then s[i] as int else -1)
        invariant forall j :: 0 <= j < i ==> HasValue(code, s[j])
        invariant b ==> i < |s| && !HasValue(code, s[i])
        decreases |s| - i, !b
      {
        ListedNext(code, list, s, i);
        var value := IsValueJump(l);
        if value {
          l := NextJump(code, l);
          i := i + 1;
        } else {
          b := true;
        }
      }
      if b { assert s[i] in s; }
    }

    /** Patches one jump (lcode.c:289-299). */
    method PatchJump(l: nat, reg: nat, vtarget: nat, dtarget: int, ghost d: Dest) returns (ok: bool)
      requires l < |code| && code[l].Jmp? && vtarget == |code| && (d != Here ==> |code| >= 2)
      requires dtarget == DestPc(code, d) || HasValue(code, l)
      modifies `code
      ensures |code| == old(|code|) && (!ok ==> |code| > OFFSET_SJ)
      ensures ok ==> code == PatchOne(old(code), l, reg, d)
    {
      var value := PatchTestReg(l, reg);
      ok := FixJump(l, if value then vtarget else dtarget);
    }

    /** Patches the jumps of a list: those with values lead to the end of the code, with the value in the register,
        others to `dtarget` (lcode.c:289-299). */
    method PatchListAux(list: int, reg: nat, dtarget: int, ghost s: seq<nat>, ghost d: Dest) returns (ok: bool)
      requires IsList(code, list, s) && (d != Here ==> |code| >= 2)
      requires dtarget == DestPc(code, d) || forall j :: j in s ==> HasValue(code, j)
      modifies `code
      ensures Bounded(ok, 0, old(|code|))
      ensures ok ==> JumpsIn(old(code), s) && code == PatchAll(old(code), s, reg, d)
    {
      var l := list;
      ghost var rest: seq<nat> := s;
      var vtarget := |code|;
      ListInCode(code, list, s);
      ok := true;
      while l != -1
        invariant |code| == |old(code)| && IsList(code, l, rest) && JumpsIn(code, rest)
        invariant PatchAll(code, rest, reg, d) == PatchAll(old(code), s, reg, d)
        invariant dtarget == DestPc(code, d) || forall j :: j in rest ==> HasValue(code, j)
        decreases rest
      {
        ListTail(code, l, rest);
        assert rest[0] in rest;
        var next := NextJump(code, l);
        ghost var before := code;
        var done := PatchJump(l, reg, vtarget, dtarget, d);
        if !done {
          return false;
        }
        ListPatched(before, l, rest, reg, d);
        PatchAllTail(before, rest, reg, d);
        l := next;
        rest := rest[1..];
      }
    }

    // ----- putting values in registers -----

    /** The value is no variable any more (lcode.c:773-819). */
    method DischargeVars(e: Exp, ghost c0: Fs, ghost p0: set<nat>, ghost tl: seq<nat>, ghost fl: seq<nat>,
        ghost x: Expr) returns (e': Exp)
      requires Has(c0, p0, St(), e, tl, fl, x)
      modifies `code
      ensures |code| <= old(|code|) + 1
      ensures Has(c0, p0, St(), e', tl, fl, x) && !e'.k.VLocal? && !e'.k.VUpval? && e'.t == e.t && e'.f == e.f
      ensures if e.k.VLocal? then e'.k == VNonReloc(e.k.ridx) && e.k.ridx < nactvar else if e.k.VUpval?
        then e'.k.VReloc? else e' == e && code == old(code)
    {
      HasTail(c0, p0, St(), e, tl, fl, x, NO_REG);
      e' := e;
      if e.k.VLocal? {
        e' := e.(k := VNonReloc(e.k.ridx));
        HasSame(c0, p0, St(), e, St(), e', tl, fl, x, NO_REG);
      } else if e.k.VUpval? {
        ghost var c := St();
        var pc := Code(GetUpval(0, e.k.ux));
        e' := e.(k := VReloc(pc));
        assert Body(St(), e'.k) == c.code;
        HasSame(c0, p0, c, e, St(), e', tl, fl, x, NO_REG);
      }
    }

    /** Emits the load of a value that is no variable and no comparison. */
    method LoadValue(kd: Kind, reg: nat)
      requires Tail(St(), kd) && !kd.VLocal? && !kd.VUpval? && !kd.VJmp? && lasttarget <= |code|
      modifies `code, `k, `cache
      ensures |code| <= old(|code|) + 2
      ensures Tail(old(St()), kd) && Discharged(old(St()), kd, reg, code, k) && old(k) <= k
    {
      match kd {
        case VNil => CodeNil(reg);
        case VFalse => var _ := Code(LoadFalse(reg));
        case VTrue => var _ := Code(LoadTrue(reg));
        case VKInt(n) => CodeInt(reg, n);
        case VKStr(s) =>
          var i := AddK(Str(s));
          CodeK(reg, i);
        case VK(i) => CodeK(reg, i);
        case VNonReloc(r) => if r != reg { var _ := Code(Move(reg, r)); }
        case VReloc(pc) =>
          var i := code[pc];
          code := code[pc := if i.GetUpval? then GetUpval(reg, i.b) else Not(reg, i.b)];
      }
    }

    /** The value, unless it is that of a comparison, is in the register (lcode.c:827-874). */
    method Discharge2Reg(e: Exp, reg: nat, ghost c0: Fs, ghost p0: set<nat>, ghost tl: seq<nat>, ghost fl: seq<nat>,
        ghost x: Expr) returns (e': Exp)
      requires Has(c0, p0, St(), e, tl, fl, x) && reg < NO_REG
      modifies `code, `k, `cache
      ensures |code| <= old(|code|) + 3
      ensures e'.t == e.t && e'.f == e.f
      ensures if e.k.VJmp? then e' == e && St() == old(St())
        else e'.k == VNonReloc(reg) && HasBut(c0, p0, St(), e', tl, fl, x, reg)
    {
      e' := DischargeVars(e, c0, p0, tl, fl, x);
      if !e'.k.VJmp? {
        ghost var c := St();
        HasTail(c0, p0, c, e', tl, fl, x, NO_REG);
        LoadValue(e'.k, reg);
        HasLoaded(c0, p0, c, e', St(), reg, tl, fl, x);
        e' := e'.(k := VNonReloc(reg));
      }
    }

    // ----- ending an expression -----

    /** Marks a label and emits an instruction that loads a boolean (lcode.c:890-893). */
    method CodeLoadBool(i: Instr) returns (pc: nat)
      modifies `code, `lasttarget
      ensures code == old(code) + [i] && pc == |old(code)| == lasttarget
    {
      var _ := GetLabel();
      pc := Code(i);
    }

    /** The jumps of a list lead to the end of the code (lcode.c:313-316). */
    method PatchToHere(list: int, ghost s: seq<nat>) returns (ok: bool)
      requires IsList(code, list, s)
      modifies `code, `lasttarget
      ensures Bounded(ok, 0, old(|code|))
      ensures lasttarget == |old(code)|
      ensures ok ==> JumpsIn(old(code), s) && code == PatchAll(old(code), s, NO_REG, Here)
    {
      var hr := GetLabel();
      ok := PatchListAux(list, NO_REG, hr, s, Here);
    }

    /** The instructions that load a boolean for jumps without a value, and, unless the value is that of a
        comparison, a jump around them (lcode.c:924-930). */
    method LoadBools(reg: nat, isjmp: bool) returns (ok: bool, pf: nat, pt: nat)
      requires code != [] ==> !code[|code| - 1].TestSet?
      modifies `code, `lasttarget
      ensures Bounded(ok, 0, old(|code|) + 3)
      ensures ok ==> code == old(code) + (if isjmp then [] else [Jmp(2)]) + [LFalseSkip(reg), LoadTrue(reg)]
      ensures ok ==> pf == |code| - 2 && pt == |code| - 1
    {
      var fj: int := -1;
      if !isjmp {
        fj := Code(Jmp(-1));
      }
      pf := CodeLoadBool(LFalseSkip(reg));
      pt := CodeLoadBool(LoadTrue(reg));
      assert !isjmp ==> code == old(code) + [Jmp(-1), LFalseSkip(reg), LoadTrue(reg)];
      ok := PatchToHere(fj, if isjmp then [] else [fj]);
      AroundBools(old(code), reg);
      assert [Jmp(2)] + [LFalseSkip(reg), LoadTrue(reg)] == [Jmp(2), LFalseSkip(reg), LoadTrue(reg)];
    }

    /** Emits the loads of booleans if some jump has no value of its own (lcode.c:924-930). */
    method BoolsIfNeeded(e: Exp, reg: nat, isjmp: bool, ghost n: nat, ghost p: set<nat>, ghost tl: seq<nat>,
        ghost fl: seq<nat>)
      returns (ok: bool, pf: int, pt: int, ghost df: Dest, ghost dt: Dest)
      requires Lists(code, n, e, tl, fl) && Wf(code, p, lasttarget) && reg < NO_REG
      requires (code != [] ==> !code[|code| - 1].TestSet?)
      requires e.k == if isjmp then VFalse else VNonReloc(reg)
      requires isjmp ==> exists j :: j in tl && !HasValue(code, j)
      modifies `code, `lasttarget
      ensures Bounded(ok, 0, old(|code|) + 3)
      ensures ok ==> Served(old(St()), e.k, p, reg, code, tl, fl, df, dt)
      ensures ok ==> pf == DestPc(code, df) || (df == Here && forall j :: j in fl ==> HasValue(code, j))
      ensures ok ==> pt == DestPc(code, dt) || (dt == Here && forall j :: j in tl ==> HasValue(code, j))
    {
      ghost var c := St();
      ok, pf, pt, df, dt := true, -1, -1, Here, Here;
      var needt := NeedValue(e.t, tl);
      var needf := NeedValue(e.f, fl);
      if needt || needf {
        ok, pf, pt := LoadBools(reg, isjmp);
        if ok {
          df, dt := AtFalse, AtTrue;
          BoolsEnd(c, e.k, p, reg, isjmp, code, tl, fl);
        }
      } else {
        NothingLoaded(c, e.k, p, reg, tl, fl);
      }
    }

    /** The jumps of an expression lead to its end or to the loads of booleans (lcode.c:920-934). */
    method FinishJumps(e: Exp, reg: nat, isjmp: bool, ghost c0: Fs, ghost p0: set<nat>, ghost tl: seq<nat>,
        ghost fl: seq<nat>, ghost x: Expr)
      returns (ok: bool)
      requires HasBut(c0, p0, St(), e, tl, fl, x, reg) && reg < NO_REG
      requires e.k == if isjmp then VFalse else VNonReloc(reg)
      requires isjmp ==> exists j :: j in tl && !HasValue(code, j)
      modifies `code, `lasttarget
      ensures Bounded(ok, 0, old(|code|) + 3)
      ensures ok ==> InReg(c0, p0, St(), reg, x, reg)
    {
      ghost var c := St();
      HasCode(c0, p0, c, e, tl, fl, x, reg);
      var pf, pt;
      ghost var df, dt;
      ok, pf, pt, df, dt := BoolsIfNeeded(e, reg, isjmp, |c0.code|, p0 + SetOf(tl) + SetOf(fl), tl, fl);
      if ok {
        ghost var code1 := code;
        HasServed(c0, p0, c, e, code, tl, fl, x, reg, df, dt);
        ok := PatchTwo(e, reg, pf, pt, |c0.code|, tl, fl, df, dt);
        if ok { assert St() == c.(code := PatchBoth(code1, tl, fl, reg, df, dt), last := |code1|); }
      }
    }

    method PatchTwo(e: Exp, reg: nat, pf: int, pt: int, ghost n: nat, ghost tl: seq<nat>, ghost fl: seq<nat>,
        ghost df: Dest, ghost dt: Dest) returns (ok: bool)
      requires Lists(code, n, e, tl, fl) && DestOk(code, reg, df) && DestOk(code, reg, dt)
      requires pf == DestPc(code, df) || forall j :: j in fl ==> HasValue(code, j)
      requires pt == DestPc(code, dt) || forall j :: j in tl ==> HasValue(code, j)
      modifies `code, `lasttarget
      ensures Bounded(ok, 0, old(|code|))
      ensures forall j :: j in tl || j in fl ==> j < |old(code)|
      ensures ok ==> code == PatchBoth(old(code), tl, fl, reg, df, dt) && lasttarget == |old(code)|
    {
      var _ := GetLabel();
      PendFacts(code, n, e, tl, fl);
      Untouched(code, n, e, tl, fl, reg, df, dt);
      ghost var before := code;
      ok := PatchListAux(e.f, reg, pf, fl, df);
      if ok {
        ListSame(before, code, e.t, tl);
        ok := PatchListAux(e.t, reg, pt, tl, dt);
      }
    }

    /** The jump of a comparison joins the list of jumps taken for a true value (lcode.c:918-919). */
    method JoinJump(e: Exp, ghost c0: Fs, ghost p0: set<nat>, ghost tl: seq<nat>, ghost fl: seq<nat>, ghost x: Expr)
      returns (ok: bool, t: int)
      requires Has(c0, p0, St(), e, tl, fl, x) && e.k.VJmp?
      modifies `code
      ensures Bounded(ok, 0, old(|code|))
      ensures ok ==> Has(c0, p0, St(), Exp(VFalse, t, e.f), tl + [e.k.pc], fl, x)
      ensures ok ==> e.k.pc in tl + [e.k.pc] && !HasValue(code, e.k.pc)
    {
      ghost var c := St();
      HasLists(c0, p0, c, e, tl, fl, x, NO_REG);
      HasJump(c0, p0, c, e, tl, fl, x);
      ok, t := Concat(e.t, e.k.pc, tl, [e.k.pc]);
      if ok {
        HasJmpToList(c0, p0, c, e, St(), t, tl, fl, x);
      }
    }

    /** The value of the expression is in the register, whichever way a run takes (lcode.c:916-938). */
    method Exp2Reg(e: Exp, reg: nat, ghost c0: Fs, ghost p0: set<nat>, ghost tl: seq<nat>, ghost fl: seq<nat>,
        ghost x: Expr) returns (ok: bool, e': Exp)
      requires Has(c0, p0, St(), e, tl, fl, x) && reg < NO_REG
      modifies `code, `k, `cache, `lasttarget
      ensures Bounded(ok, 0, old(|code|) + 6)
      ensures ok ==> e' == NoJumps(VNonReloc(reg)) && InReg(c0, p0, St(), reg, x, reg)
    {
      var e1 := Discharge2Reg(e, reg, c0, p0, tl, fl, x);
      ok, e' := true, NoJumps(VNonReloc(reg));
      if e1.k.VJmp? {
        var t;
        ok, t := JoinJump(e1, c0, p0, tl, fl, x);
        if ok {
          HasWeaker(c0, p0, St(), Exp(VFalse, t, e1.f), tl + [e1.k.pc], fl, x, reg);
          ok := FinishJumps(Exp(VFalse, t, e1.f), reg, true, c0, p0, tl + [e1.k.pc], fl, x);
        }
      } else if e1.t != e1.f {
        ok := FinishJumps(e1, reg, false, c0, p0, tl, fl, x);
      } else {
        HasLists(c0, p0, St(), e1, tl, fl, x, reg);
      }
    }

    /** Frees the register of the value, if it has one, and reserves the next free one. */
    method RegAbove(e: Exp, ghost c0: Fs, ghost p0: set<nat>, ghost tl: seq<nat>, ghost fl: seq<nat>, ghost x: Expr)
      returns (ok: bool)
      requires Has(c0, p0, St(), e, tl, fl, x) && RegsOk() && FreeOk(c0, St(), e.k)
      modifies `freereg, `maxstack
      ensures freereg <= old(freereg) + 1 && (!ok ==> freereg + 1 >= MAXREGS && freereg <= old(freereg))
      ensures ok ==> RegsOk() && freereg == c0.free + 1 && Has(c0, p0, St(), e, tl, fl, x)
    {
      ghost var c := St();
      HasTail(c0, p0, c, e, tl, fl, x, NO_REG);
      FreeExp(e.k);
      ok := ReserveRegs(1);
      if ok { HasFree(c0, p0, c, e, St(), tl, fl, x, NO_REG); }
    }

    /** The value is in the next free register (lcode.c:944-949). */
    method Exp2NextReg(e: Exp, ghost c0: Fs, ghost p0: set<nat>, ghost tl: seq<nat>, ghost fl: seq<nat>,
        ghost x: Expr) returns (ok: bool, e': Exp)
      requires Has(c0, p0, St(), e, tl, fl, x) && RegsOk() && FreeOk(c0, St(), e.k)
      modifies `code, `k, `cache, `lasttarget, `freereg, `maxstack
      ensures Bounded(ok, old(freereg), old(|code|) + 7)
      ensures ok ==>
        RegsOk() && e' == NoJumps(VNonReloc(c0.free)) && freereg == c0.free + 1 && Has(c0, p0, St(), e', [], [], x)
    {
      HasTail(c0, p0, St(), e, tl, fl, x, NO_REG);
      var e1 := DischargeVars(e, c0, p0, tl, fl, x);
      ok := RegAbove(e1, c0, p0, tl, fl, x);
      e' := e1;
      if ok {
        ok, e' := Exp2Reg(e1, freereg - 1, c0, p0, tl, fl, x);
        if ok { HasAll(c0, p0, St(), e', [], [], x, c0.free); }
      }
    }

    /** The value is in some register (lcode.c:956-971). */
    method Exp2AnyReg(e: Exp, ghost c0: Fs, ghost p0: set<nat>, ghost tl: seq<nat>, ghost fl: seq<nat>, ghost x: Expr)
      returns (ok: bool, e': Exp)
      requires Has(c0, p0, St(), e, tl, fl, x) && RegsOk() && FreeOk(c0, St(), e.k)
      modifies `code, `k, `cache, `lasttarget, `freereg, `maxstack
      ensures ok ==> freereg <= old(freereg) + 1
      ensures Bounded(ok, old(freereg), old(|code|) + 8)
      ensures ok ==>
        RegsOk() && e'.k.VNonReloc? && e' == NoJumps(e'.k) && FreeOk(c0, St(), e'.k) && Has(c0, p0, St(), e', [], [], x)
      ensures ok && e.k.VNonReloc? && e.t == e.f ==> e' == e && St() == old(St())
      ensures ok && e.k.VKInt? ==> e'.k == VNonReloc(c0.free)
    {
      HasTail(c0, p0, St(), e, tl, fl, x, NO_REG);
      HasLists(c0, p0, St(), e, tl, fl, x, NO_REG);
      e' := DischargeVars(e, c0, p0, tl, fl, x);
      if e'.k.VNonReloc? {
        if e'.t == e'.f {
          return true, e';
        }
        if e'.k.reg >= nactvar {
          ghost var reg := e'.k.reg;
          ok, e' := Exp2Reg(e', e'.k.reg, c0, p0, tl, fl, x);
          if ok { HasAll(c0, p0, St(), e', [], [], x, reg); }
          return;
        }
      }
      ok, e' := Exp2NextReg(e', c0, p0, tl, fl, x);
    }

    // ----- conditions -----

    /** Negates the comparison that controls a jump (lcode.c:1103-1108). */
    method NegateCondition(pc: nat)
      requires Tail(St(), VJmp(pc))
      modifies `code
      ensures Tail(old(St()), VJmp(pc)) && code == Body(old(St()), VJmp(pc)) + [Flip(old(code)[pc - 1]), Jmp(-1)]
    {
      code := code[pc - 1 := Flip(code[pc - 1])];
    }

    /** Emits a jump that is taken if the value is `cond`; a NOT just emitted is removed and the test inverted
        (lcode.c:1117-1129). The ghost results describe the value that decides. */
    method JumpOnCond(e: Exp, cond: bool, ghost c0: Fs, ghost p0: set<nat>, ghost tl: seq<nat>, ghost fl: seq<nat>,
        ghost x: Expr)
      returns (ok: bool, pc: nat, ghost c1: Fs, ghost e1: Exp, ghost i: Instr)
      requires Has(c0, p0, St(), e, tl, fl, x) && RegsOk() && FreeOk(c0, St(), e.k)
      requires !e.k.VLocal? && !e.k.VUpval? && !e.k.VJmp?
      modifies `code, `k, `cache, `freereg, `maxstack
      ensures Bounded(ok, old(freereg), old(|code|) + 5)
      ensures ok ==>
        RegsOk() && freereg == c0.free && Has(c0, p0, c1, e1, tl, fl, x) && Tail(c1, e1.k) && e1.t == e.t && e1.f == e.f
      ensures ok ==>
        DecidesIt(c1, e1.k, i, !cond) && St() == c1.(code := Body(c1, e1.k) + [i, Jmp(-1)], free := c0.free)
      ensures ok ==> pc == |Body(c1, e1.k)| + 1
    {
      HasTail(c0, p0, St(), e, tl, fl, x, NO_REG);
      pc, c1, e1, i := 0, St(), e, Other;
      if e.k.VReloc? && code[e.k.pc].Not? {
        var b := code[e.k.pc].b;
        DecideNot(c1, e.k, !cond);
        i := Test(b, !cond);
        code := code[..|code| - 1];
        pc := CondJump(Test(b, !cond));
        return true, pc, c1, e1, i;
      }
      var e2 := e;
      ok, e2 := Discharge2AnyReg(e, c0, p0, tl, fl, x);
      if ok {
        c1, e1, i := St(), e2, TestSet(NO_REG, e2.k.reg, cond);
        HasTail(c0, p0, c1, e1, tl, fl, x, NO_REG);
        DecideReg(c1, e2.k.reg, !cond);
        FreeExp(e2.k);
        pc := CondJump(TestSet(NO_REG, e2.k.reg, cond));
      }
    }

    /** The value, with its jumps still pending, is in some register (lcode.c:882-887). */
    method Discharge2AnyReg(e: Exp, ghost c0: Fs, ghost p0: set<nat>, ghost tl: seq<nat>, ghost fl: seq<nat>,
        ghost x: Expr) returns (ok: bool, e': Exp)
      requires Has(c0, p0, St(), e, tl, fl, x) && RegsOk() && FreeOk(c0, St(), e.k) && !e.k.VJmp?
      modifies `code, `k, `cache, `freereg, `maxstack
      ensures Bounded(ok, old(freereg), old(|code|) + 3)
      ensures ok ==>
        RegsOk() && e'.k.VNonReloc? && FreeOk(c0, St(), e'.k) && Has(c0, p0, St(), e', tl, fl, x) &&
        e'.t == e.t && e'.f == e.f
    {
      HasTail(c0, p0, St(), e, tl, fl, x, NO_REG);
      ok, e' := true, e;
      if !e.k.VNonReloc? {
        ghost var c := St();
        ok := ReserveRegs(1);
        if ok {
          HasFree(c0, p0, c, e, St(), tl, fl, x, NO_REG);
          var reg := freereg - 1;
          assert reg == c0.free;
          e' := Discharge2Reg(e, reg, c0, p0, tl, fl, x);
          HasAll(c0, p0, St(), e', tl, fl, x, reg);
        }
      }
    }

    /** The value is known, so that no jump is needed; the jumps of the other list lead here. */
    method NoJump(e: Exp, b: bool, ghost c0: Fs, ghost p0: set<nat>, ghost tl: seq<nat>, ghost fl: seq<nat>,
        ghost x: Expr)
      returns (ok: bool, h: int, ghost l: seq<nat>)
      requires Has(c0, p0, St(), e, tl, fl, x)
      requires if b then e.k.VKStr? || e.k.VKInt? || e.k.VTrue? else e.k.VNil? || e.k.VFalse?
      modifies `code, `lasttarget
      ensures Bounded(ok, 0, old(|code|))
      ensures ok ==> GateIs(c0, p0, St(), h, l, b, x)
    {
      h, l := Own(b, e.t, e.f), Own(b, tl, fl);
      ghost var c := St();
      HasDecided(c0, p0, c, e, tl, fl, x, b);
      HasLists(c0, p0, c, e, tl, fl, x, NO_REG);
      ok := PatchToHere(Own(!b, e.t, e.f), Own(!b, tl, fl));
      if ok { HalfGateList(c0, p0, c, h, l, Own(!b, tl, fl), b, x, Own(!b, e.t, e.f), St()); }
    }

    /** Code that goes through if the expression is true and jumps otherwise (lcode.c:1135-1156). */
    method GoIfTrue(e: Exp, ghost c0: Fs, ghost p0: set<nat>, ghost tl: seq<nat>, ghost fl: seq<nat>, ghost x: Expr)
      returns (ok: bool, h: int, ghost l: seq<nat>)
      requires Has(c0, p0, St(), e, tl, fl, x) && RegsOk() && FreeOk(c0, St(), e.k)
      modifies `code, `k, `cache, `lasttarget, `freereg, `maxstack
      ensures Bounded(ok, old(freereg), old(|code|) + 6)
      ensures ok ==> RegsOk() && freereg == c0.free && GateIs(c0, p0, St(), h, l, true, x)
    {
      HasTail(c0, p0, St(), e, tl, fl, x, NO_REG);
      var e1 := DischargeVars(e, c0, p0, tl, fl, x);
      if e1.k.VJmp? {
        ok, h, l := NegateAndLink(e1, c0, p0, tl, fl, x);
      } else if e1.k.VKInt? || e1.k.VKStr? || e1.k.VTrue? {
        ok, h, l := NoJump(e1, true, c0, p0, tl, fl, x);
      } else {
        ok, h, l := JumpAndLink(e1, true, c0, p0, tl, fl, x);
      }
    }

    /** A comparison's own jump, taken if it is false from now on. */
    method NegateAndLink(e: Exp, ghost c0: Fs, ghost p0: set<nat>, ghost tl: seq<nat>, ghost fl: seq<nat>,
        ghost x: Expr)
      returns (ok: bool, h: int, ghost l: seq<nat>)
      requires Has(c0, p0, St(), e, tl, fl, x) && RegsOk() && FreeOk(c0, St(), e.k) && e.k.VJmp?
      modifies `code, `k, `cache, `lasttarget, `freereg, `maxstack
      ensures Bounded(ok, old(freereg), old(|code|) + 5)
      ensures ok ==> RegsOk() && freereg == c0.free && GateIs(c0, p0, St(), h, l, true, x)
    {
      ghost var c := St();
      HasTail(c0, p0, c, e, tl, fl, x, NO_REG);
      DecideJump(c, e.k, true);
      NegateCondition(e.k.pc);
      ok, h, l := LinkLists(e.t, e.f, e.k.pc, true, c0, p0, c, e, Flip(c.code[e.k.pc - 1]), tl, fl, x);
    }

    method JumpAndLink(e: Exp, b: bool, ghost c0: Fs, ghost p0: set<nat>, ghost tl: seq<nat>, ghost fl: seq<nat>,
        ghost x: Expr)
      returns (ok: bool, h: int, ghost l: seq<nat>)
      requires Has(c0, p0, St(), e, tl, fl, x) && RegsOk() && FreeOk(c0, St(), e.k) && !e.k.VLocal? && !e.k.VUpval?
      requires !e.k.VJmp?
      modifies `code, `k, `cache, `lasttarget, `freereg, `maxstack
      ensures Bounded(ok, old(freereg), old(|code|) + 5)
      ensures ok ==> RegsOk() && freereg == c0.free && GateIs(c0, p0, St(), h, l, b, x)
    {
      var pc;
      ghost var c1, e1, i;
      h, l := -1, [];
      ok, pc, c1, e1, i := JumpOnCond(e, !b, c0, p0, tl, fl, x);
      if ok {
        ok, h, l := LinkLists(e.t, e.f, pc, b, c0, p0, c1, e1, i, tl, fl, x);
      }
    }

    /** Inserts the new jump in its list; the jumps of the other list lead here (lcode.c:1153-1155, 1179-1181). */
    method LinkLists(t: int, f: int, pc: nat, b: bool, ghost c0: Fs, ghost p0: set<nat>, ghost c1: Fs, ghost e1: Exp,
        ghost i: Instr,
                     ghost tl: seq<nat>, ghost fl: seq<nat>, ghost x: Expr)
      returns (ok: bool, h: int, ghost l: seq<nat>)
      requires Has(c0, p0, c1, e1, tl, fl, x) && Tail(c1, e1.k) && DecidesIt(c1, e1.k, i, b) && e1.t == t && e1.f == f
      requires St() == c1.(code := Body(c1, e1.k) + [i, Jmp(-1)], free := freereg) && pc == |Body(c1, e1.k)| + 1
      modifies `code, `lasttarget
      ensures Bounded(ok, 0, old(|code|))
      ensures ok ==> GateIs(c0, p0, St(), h, l, b, x)
    {
      EmittedPending(c0, p0, c1, e1, tl, fl, x, i, code, b);
      l := Own(b, tl, fl) + [pc];
      ghost var emitted := code;
      ok, h := Concat(Own(b, t, f), pc, Own(b, tl, fl), [pc]);
      if ok {
        ghost var cm := St();
        HasEmitted(c0, p0, c1, e1, tl, fl, x, b, i, cm, h);
        OtherList(emitted, code, Own(b, tl, fl), Own(!b, t, f), Own(!b, tl, fl));
        ok := PatchToHere(Own(!b, t, f), Own(!b, tl, fl));
        if ok { HalfGateList(c0, p0, cm, h, l, Own(!b, tl, fl), b, x, Own(!b, t, f), St()); }
      }
    }

    /** Code that goes through if the expression is false and jumps otherwise (lcode.c:1162-1182). */
    method GoIfFalse(e: Exp, ghost c0: Fs, ghost p0: set<nat>, ghost tl: seq<nat>, ghost fl: seq<nat>, ghost x: Expr)
      returns (ok: bool, h: int, ghost l: seq<nat>)
      requires Has(c0, p0, St(), e, tl, fl, x) && RegsOk() && FreeOk(c0, St(), e.k)
      modifies `code, `k, `cache, `lasttarget, `freereg, `maxstack
      ensures Bounded(ok, old(freereg), old(|code|) + 6)
      ensures ok ==> RegsOk() && freereg == c0.free && GateIs(c0, p0, St(), h, l, false, x)
    {
      HasTail(c0, p0, St(), e, tl, fl, x, NO_REG);
      var e1 := DischargeVars(e, c0, p0, tl, fl, x);
      if e1.k.VJmp? {
        ghost var c := St();
        HasTail(c0, p0, c, e1, tl, fl, x, NO_REG);
        DecideJump(c, e1.k, false);
        assert code == Body(c, e1.k) + [c.code[e1.k.pc - 1], Jmp(-1)];
        ok, h, l := LinkLists(e1.t, e1.f, e1.k.pc, false, c0, p0, c, e1, c.code[e1.k.pc - 1], tl, fl, x);
      } else if e1.k.VNil? || e1.k.VFalse? {
        ok, h, l := NoJump(e1, false, c0, p0, tl, fl, x);
      } else {
        ok, h, l := JumpAndLink(e1, false, c0, p0, tl, fl, x);
      }
    }

    // ----- 'not' -----

    /** The negated value, all jumps aside; `rest` is the code behind the lists (lcode.c:1189-1211). */
    method NotValue(e: Exp, ghost c0: Fs, ghost p0: set<nat>, ghost tl: seq<nat>, ghost fl: seq<nat>, ghost x: Expr)
      returns (ok: bool, k': Kind, ghost c: Fs, ghost e1: Exp, ghost rest: seq<Instr>)
      requires Has(c0, p0, St(), e, tl, fl, x) && RegsOk() && FreeOk(c0, St(), e.k)
      requires !e.k.VLocal? && !e.k.VUpval? && !e.k.VK?
      modifies `code, `k, `cache, `freereg, `maxstack
      ensures Bounded(ok, old(freereg), old(|code|) + 4)
      ensures ok ==>
        RegsOk() && freereg == c0.free && FreeOk(c0, St(), k') && Has(c0, p0, c, e1, tl, fl, x) &&
        e1.t == e.t && e1.f == e.f
      ensures ok ==> Negated(c, e1.k, rest, St(), k')
      ensures ok ==> !k'.VLocal? && !k'.VUpval? && !k'.VK?
    {
      HasTail(c0, p0, St(), e, tl, fl, x, NO_REG);
      ok, k', c, e1, rest := true, VFalse, St(), e, [];
      if e.k.VNil? || e.k.VFalse? {
        k' := VTrue;
        NegatedConstant(c, e.k);
      } else if e.k.VJmp? {
        k' := e.k;
        rest := NotJump(e.k.pc);
      } else if e.k.VReloc? || e.k.VNonReloc? {
        ok, k', c, e1, rest := NotInRegister(e, c0, p0, tl, fl, x);
      } else {
        NegatedConstant(c, e.k);
      }
    }

    /** The negated value of a comparison. */
    method NotJump(pc: nat) returns (ghost rest: seq<Instr>)
      requires Tail(St(), VJmp(pc))
      modifies `code
      ensures Negated(old(St()), VJmp(pc), rest, St(), VJmp(pc)) && |code| == old(|code|)
    {
      NegateCondition(pc);
      rest := code[pc - 1..];
    }

    method NotInRegister(e: Exp, ghost c0: Fs, ghost p0: set<nat>, ghost tl: seq<nat>, ghost fl: seq<nat>,
        ghost x: Expr)
      returns (ok: bool, k': Kind, ghost c: Fs, ghost e1: Exp, ghost rest: seq<Instr>)
      requires Has(c0, p0, St(), e, tl, fl, x) && RegsOk() && FreeOk(c0, St(), e.k) && (e.k.VReloc? || e.k.VNonReloc?)
      modifies `code, `k, `cache, `freereg, `maxstack
      ensures Bounded(ok, old(freereg), old(|code|) + 4)
      ensures ok ==>
        RegsOk() && freereg == c0.free && k'.VReloc? && Has(c0, p0, c, e1, tl, fl, x) && e1.t == e.t && e1.f == e.f
      ensures ok ==> Negated(c, e1.k, rest, St(), k')
    {
      HasTail(c0, p0, St(), e, tl, fl, x, NO_REG);
      k', c, e1, rest := VFalse, St(), e, [];
      var e2;
      ok, e2 := Discharge2AnyReg(e, c0, p0, tl, fl, x);
      if ok {
        ghost var c1 := St();
        FreeExp(e2.k);
        HasFree(c0, p0, c1, e2, St(), tl, fl, x, NO_REG);
        c, e1, rest := St(), e2, [Not(0, e2.k.reg)];
        var pc := Code(Not(0, e2.k.reg));
        k' := VReloc(pc);
      }
    }

    /** Codes 'not' (lcode.c:1188-1216). */
    method CodeNot(e: Exp, ghost c0: Fs, ghost p0: set<nat>, ghost tl: seq<nat>, ghost fl: seq<nat>, ghost x: Expr)
      returns (ok: bool, e': Exp)
      requires Has(c0, p0, St(), e, tl, fl, x) && RegsOk() && FreeOk(c0, St(), e.k)
      requires !e.k.VLocal? && !e.k.VUpval? && !e.k.VK?
      modifies `code, `k, `cache, `freereg, `maxstack
      ensures Bounded(ok, old(freereg), old(|code|) + 4)
      ensures ok ==> RegsOk() && FreeOk(c0, St(), e'.k) && Has(c0, p0, St(), e', fl, tl, ENot(x))
      ensures ok ==> !e'.k.VK?
    {
      var k';
      ghost var c, e1, rest;
      ok, k', c, e1, rest := NotValue(e, c0, p0, tl, fl, x);
      e' := Exp(k', e.f, e.t);
      if ok {
        ghost var c1 := St();
        NotListed(c0, p0, c, e1, tl, fl, x, code, rest);
        RemoveValues(e'.f, tl);
        RemoveValues(e'.t, fl);
        NotDone(c0, p0, c, e1, tl, fl, x, c1, St(), k', rest);
      }
    }

    // ----- constants as operands -----

    /** Turns a constant into an index of the table of constants, if the index is small (lcode.c:1000-1021). */
    method Exp2K(e: Exp, ghost c0: Fs, ghost p0: set<nat>, ghost tl: seq<nat>, ghost fl: seq<nat>, ghost x: Expr)
      returns (isk: bool, e': Exp)
      requires Has(c0, p0, St(), e, tl, fl, x)
      modifies `k, `cache
      ensures Has(c0, p0, St(), e', tl, fl, x) && old(k) <= k
      ensures if isk then e'.k.VK? && e'.k.kx <= MAXINDEXRK && e' == NoJumps(e'.k) && !e.k.VNonReloc? else e' == e
      ensures isk && e.k.VKInt? ==> e'.k.kx < |k| && k[e'.k.kx] == Int(e.k.n)
    {
      HasTail(c0, p0, St(), e, tl, fl, x, NO_REG);
      HasLists(c0, p0, St(), e, tl, fl, x, NO_REG);
      isk, e' := false, e;
      ghost var c := St();
      if e.t == e.f && (e.k.VTrue? || e.k.VFalse? || e.k.VNil? || e.k.VKInt? || e.k.VKStr? || e.k.VK?) {
        var info := if e.k.VK? then e.k.kx else 0;
        if !e.k.VK? {
          info := AddK(match e.k
            case VTrue => Bool(true)
            case VFalse => Bool(false)
            case VKInt(n) => Int(n)
            case VKStr(s) => Str(s)
            case _ => Nil);
          HasSame(c0, p0, c, e, St(), e, tl, fl, x, NO_REG);
        }
        if info <= MAXINDEXRK {
          isk, e' := true, e.(k := VK(info));
          HasSame(c0, p0, c, e, St(), e', tl, fl, x, NO_REG);
        }
      }
    }

    /** The value is a constant with a small index, or in a register (lcode.c:1030-1037). */
    method Exp2RK(e: Exp, ghost c0: Fs, ghost p0: set<nat>, ghost tl: seq<nat>, ghost fl: seq<nat>, ghost x: Expr)
      returns (ok: bool, isk: bool, e': Exp)
      requires Has(c0, p0, St(), e, tl, fl, x) && RegsOk() && FreeOk(c0, St(), e.k)
      modifies `code, `k, `cache, `lasttarget, `freereg, `maxstack
      ensures ok ==> freereg <= old(freereg) + 1
      ensures Bounded(ok, old(freereg), old(|code|) + 8)
      ensures ok ==> RegsOk() && e' == NoJumps(e'.k) && FreeOk(c0, St(), e'.k) && Has(c0, p0, St(), e', [], [], x)
      ensures ok ==> if isk then e'.k.VK? && e'.k.kx <= MAXINDEXRK else e'.k.VNonReloc?
      ensures ok && isk ==>
        St() == old(St()).(k := k) && old(k) <= k && (e.k.VKInt? ==> e'.k.kx < |k| && k[e'.k.kx] == Int(e.k.n))
      ensures ok && !isk && e.k.VKInt? ==> e'.k == VNonReloc(c0.free)
    {
      ok := true;
      isk, e' := Exp2K(e, c0, p0, tl, fl, x);
      if isk {
        HasLists(c0, p0, St(), e', tl, fl, x, NO_REG);
      } else {
        ok, e' := Exp2AnyReg(e', c0, p0, tl, fl, x);
      }
    }

    // ----- comparisons -----

    /** An operand of a comparison is put in a register, unless it is in one (lcode.c:1558-1574, 1594). The ghost
        parameters say whether it is the second operand in the source text, and whether the other one is final. */
    method OperandToReg(e: Exp, ghost second: bool, ghost ready: bool, ghost c0: Fs, ghost p0: set<nat>,
        ghost c1: Fs, ghost kf: Kind, ghost s: Exp,
                        ghost tl: seq<nat>, ghost fl: seq<nat>, ghost x1: Expr, ghost x2: Expr)
                          returns (ok: bool, e': Exp)
      requires RegsOk()
      requires if ready then Ready(c0, p0, St(), kf, s.k, x1, x2) else Operands(c0, p0, c1, St(), kf, s, tl, fl, x1, x2)
      requires e == if second then s else NoJumps(kf)
      requires second == ready ==> e.k.VNonReloc? && e.t == e.f
      requires !second ==> e.k.VNonReloc? || e.k.VKInt?
      modifies `code, `k, `cache, `lasttarget, `freereg, `maxstack
      ensures ok ==> freereg <= old(freereg) + 1
      ensures Bounded(ok, old(freereg), old(|code|) + 8)
      ensures ok ==> RegsOk() && e'.k.VNonReloc? && e'.t == e'.f
      ensures ok && second ==> Ready(c0, p0, St(), kf, e'.k, x1, x2)
      ensures ok && !second ==> if ready then Ready(c0, p0, St(), e'.k, s.k, x1, x2) else e' == e && St() == old(St())
    {
      ok, e' := true, e;
      if e.k.VNonReloc? && e.t == e.f {
        if second && !ready {
          HasLists(c1, p0, St(), e, tl, fl, x2, NO_REG);
          OperandsReady(c0, p0, c1, St(), kf, e.k, x1, x2);
        }
      } else {
        ghost var c := St();
        if !second { ConstLeaf(c0, p0, c, kf, s.k, x1, x2); }
        ok, e' := Exp2AnyReg(e, if second then c1 else c, p0, if second then tl else [], if second then fl
          else [], if second then x2 else ConstExpr(kf));
        if ok {
          if second {
            HasTail(c1, p0, St(), e', [], [], x2, NO_REG);
            OperandsReady(c0, p0, c1, St(), kf, e'.k, x1, x2);
          } else {
            ConstInReg(c0, p0, c, kf, s.k, x1, x2, St(), e'.k.reg);
          }
        }
      }
    }

    /** Emits the comparison and its jump, and frees the operands (lcode.c:1575-1577, 1607-1609). */
    method Compare(i: Instr, k1: Kind, k2: Kind, ghost op: CmpOp, ghost first: Kind, ghost second: Kind,
        ghost c0: Fs, ghost p0: set<nat>, ghost x1: Expr, ghost x2: Expr)
      returns (e: Exp)
      requires RegsOk() && Ready(c0, p0, St(), first, second, x1, x2) && Tail(St(), first) && Tail(St(), second)
      requires Tells(St(), first, second, op, i)
      requires (k1 == first && k2 == second) || (k1 == second && k2 == first)
      modifies `code, `freereg
      ensures |code| == old(|code|) + 2
      ensures RegsOk() && freereg == c0.free && e.k.VJmp? && Has(c0, p0, St(), e, [], [], ECmp(op, x1, x2))
    {
      ghost var c := St();
      FreeOperands(k1, k2, first, second, c0);
      var pc := CondJump(i);
      e := NoJumps(VJmp(pc));
      HasCompared(c0, p0, c, first, second, x1, x2, op, i, St());
    }

    /** Codes an order comparison of `e1` and `e2`, which are the operands in the order of the source or, for '>' and
        '>=', turned round (lcode.c:1553-1578, 1769-1777). */
    method CodeOrder(strict: bool, e1: Exp, e2: Exp, ghost turned: bool, ghost c0: Fs, ghost p0: set<nat>,
        ghost c1: Fs, ghost tl: seq<nat>, ghost fl: seq<nat>, ghost x1: Expr, ghost x2: Expr)
      returns (ok: bool, e: Exp)
      requires RegsOk() && OrderOperands(e1, e2, turned, c0, p0, c1, St(), tl, fl, x1, x2)
      modifies `code, `k, `cache, `lasttarget, `freereg, `maxstack
      ensures Bounded(ok, old(freereg) + 1, old(|code|) + 18)
      ensures ok ==>
        RegsOk() && freereg == c0.free && e.k.VJmp? &&
        Has(c0, p0, St(), e, [], [], ECmp(OrderOp(strict, turned), x1, x2))
    {
      if IsSCint(e2) {
        ok, e := OrderImmediate2(strict, e1, e2, turned, c0, p0, c1, tl, fl, x1, x2);
      } else if IsSCint(e1) {
        ok, e := OrderImmediate1(strict, e1, e2, turned, c0, p0, c1, tl, fl, x1, x2);
      } else {
        ok, e := OrderRegs(strict, e1, e2, turned, c0, p0, c1, tl, fl, x1, x2);
      }
    }

    /** The second operand of the instruction is immediate (lcode.c:1558-1563). */
    method OrderImmediate2(strict: bool, e1: Exp, e2: Exp, ghost turned: bool, ghost c0: Fs, ghost p0: set<nat>,
        ghost c1: Fs, ghost tl: seq<nat>, ghost fl: seq<nat>, ghost x1: Expr, ghost x2: Expr)
      returns (ok: bool, e: Exp)
      requires RegsOk() && OrderOperands(e1, e2, turned, c0, p0, c1, St(), tl, fl, x1, x2) && IsSCint(e2)
      modifies `code, `k, `cache, `lasttarget, `freereg, `maxstack
      ensures Bounded(ok, old(freereg), old(|code|) + 10)
      ensures ok ==>
        RegsOk() && freereg == c0.free && e.k.VJmp? &&
        Has(c0, p0, St(), e, [], [], ECmp(OrderOp(strict, turned), x1, x2))
    {
      ghost var f, s := if turned then e2 else e1, if turned then e1 else e2;
      HasLists(c1, p0, St(), s, tl, fl, x2, NO_REG);
      if !turned { OperandsReady(c0, p0, c1, St(), f.k, s.k, x1, x2); }
      ok, e := OperandToReg(e1, turned, !turned, c0, p0, c1, f.k, s, tl, fl, x1, x2);
      if ok {
        var i := if strict then LtI(e.k.reg, e2.k.n, true) else LeI(e.k.reg, e2.k.n, true);
        ghost var k1, k2 := if turned then e2.k else e.k, if turned then e.k else e2.k;
        ReadyTails(c0, p0, St(), k1, k2, x1, x2);
        e := Compare(i, e.k, e2.k, OrderOp(strict, turned), k1, k2, c0, p0, x1, x2);
      }
    }

    /** The first operand of the comparison is immediate; (A < B) becomes (B > A) (lcode.c:1564-1569). */
    method OrderImmediate1(strict: bool, e1: Exp, e2: Exp, ghost turned: bool, ghost c0: Fs, ghost p0: set<nat>,
        ghost c1: Fs, ghost tl: seq<nat>, ghost fl: seq<nat>, ghost x1: Expr, ghost x2: Expr)
      returns (ok: bool, e: Exp)
      requires RegsOk() && OrderOperands(e1, e2, turned, c0, p0, c1, St(), tl, fl, x1, x2) && IsSCint(e1)
      requires !IsSCint(e2)
      modifies `code, `k, `cache, `lasttarget, `freereg, `maxstack
      ensures Bounded(ok, old(freereg), old(|code|) + 10)
      ensures ok ==>
        RegsOk() && freereg == c0.free && e.k.VJmp? &&
        Has(c0, p0, St(), e, [], [], ECmp(OrderOp(strict, turned), x1, x2))
    {
      ghost var f, s := if turned then e2 else e1, if turned then e1 else e2;
      HasLists(c1, p0, St(), s, tl, fl, x2, NO_REG);
      if turned { OperandsReady(c0, p0, c1, St(), f.k, s.k, x1, x2); }
      ok, e := OperandToReg(e2, !turned, turned, c0, p0, c1, f.k, s, tl, fl, x1, x2);
      if ok {
        var i := if strict then GtI(e.k.reg, e1.k.n, true) else GeI(e.k.reg, e1.k.n, true);
        ghost var k1, k2 := if turned then e.k else e1.k, if turned then e1.k else e.k;
        ReadyTails(c0, p0, St(), k1, k2, x1, x2);
        e := Compare(i, e1.k, e.k, OrderOp(strict, turned), k1, k2, c0, p0, x1, x2);
      }
    }

    /** Compares two registers (lcode.c:1570-1574). */
    method OrderRegs(strict: bool, e1: Exp, e2: Exp, ghost turned: bool, ghost c0: Fs, ghost p0: set<nat>,
        ghost c1: Fs, ghost tl: seq<nat>, ghost fl: seq<nat>, ghost x1: Expr, ghost x2: Expr)
      returns (ok: bool, e: Exp)
      requires RegsOk() && OrderOperands(e1, e2, turned, c0, p0, c1, St(), tl, fl, x1, x2) && !IsSCint(e1)
      requires !IsSCint(e2)
      modifies `code, `k, `cache, `lasttarget, `freereg, `maxstack
      ensures Bounded(ok, old(freereg) + 1, old(|code|) + 18)
      ensures ok ==>
        RegsOk() && freereg == c0.free && e.k.VJmp? &&
        Has(c0, p0, St(), e, [], [], ECmp(OrderOp(strict, turned), x1, x2))
    {
      ghost var f, s := if turned then e2 else e1, if turned then e1 else e2;
      var a, b;
      ok, a := OperandToReg(e1, turned, false, c0, p0, c1, f.k, s, tl, fl, x1, x2);
      e := a;
      if !ok { return; }
      ok, b := OperandToReg(e2, !turned, turned, c0, p0, c1, f.k, if turned then a else s, tl, fl, x1, x2);
      if !ok { return; }
      ghost var k1, k2 := if turned then b.k else a.k, if turned then a.k else b.k;
      ReadyTails(c0, p0, St(), k1, k2, x1, x2);
      e := Compare(if strict then Lt(a.k.reg, b.k.reg, true)
        else Le(a.k.reg, b.k.reg, true), a.k, b.k, OrderOp(strict, turned), k1, k2, c0, p0, x1, x2);
    }

    /** An operand of an equality becomes a constant with a small index, or a register (lcode.c:1599-1606). */
    method OperandRK(e: Exp, ghost second: bool, ghost c0: Fs, ghost p0: set<nat>, ghost c1: Fs, ghost kf: Kind,
        ghost s: Exp,
                     ghost tl: seq<nat>, ghost fl: seq<nat>, ghost x1: Expr, ghost x2: Expr) returns (ok: bool, e': Exp)
      requires RegsOk()
      requires if second then Operands(c0, p0, c1, St(), kf, s, tl, fl, x1, x2)
        else Ready(c0, p0, St(), kf, s.k, x1, x2)
      requires e == if second then s else NoJumps(kf)
      requires !second ==> e.k.VKInt? || (e.k.VK? && e.k.kx <= MAXINDEXRK)
      modifies `code, `k, `cache, `lasttarget, `freereg, `maxstack
      ensures ok ==> freereg <= old(freereg) + 1
      ensures Bounded(ok, old(freereg), old(|code|) + 8)
      ensures ok ==> RegsOk() && (e'.k.VNonReloc? || e'.k.VK?)
      ensures ok ==> if second then Ready(c0, p0, St(), kf, e'.k, x1, x2) else Ready(c0, p0, St(), e'.k, s.k, x1, x2)
    {
      ok, e' := true, e;
      if !(e.k.VK? && e.k.kx <= MAXINDEXRK && e.t == e.f) {
        ghost var c := St();
        if !second { ConstLeaf(c0, p0, c, kf, s.k, x1, x2); }
        var isk;
        ok, isk, e' := Exp2RK(e, if second then c1 else c, p0, if second then tl else [], if second then fl
          else [], if second then x2 else ConstExpr(kf));
        if ok {
          if second {
            HasTail(c1, p0, St(), e', [], [], x2, NO_REG);
            OperandsReady(c0, p0, c1, St(), kf, e'.k, x1, x2);
          } else if isk {
            ConstInTable(c0, p0, c, kf, s.k, x1, x2, St(), e'.k.kx);
          } else {
            ConstInReg(c0, p0, c, kf, s.k, x1, x2, St(), e'.k.reg);
          }
        }
      } else if second {
        HasLists(c1, p0, St(), e, tl, fl, x2, NO_REG);
        OperandsReady(c0, p0, c1, St(), kf, e.k, x1, x2);
      }
    }

    /** Codes an equality of the first and the second operand; a first one that is a constant changes places with the
        second one (lcode.c:1585-1610). */
    method CodeEq(eq: bool, first: Exp, second: Exp, ghost c0: Fs, ghost p0: set<nat>, ghost c1: Fs,
        ghost tl: seq<nat>, ghost fl: seq<nat>, ghost x1: Expr, ghost x2: Expr)
      returns (ok: bool, e: Exp)
      requires RegsOk() && Operands(c0, p0, c1, St(), first.k, second, tl, fl, x1, x2) && first == NoJumps(first.k)
      requires first.k.VNonReloc? || first.k.VKInt? || (first.k.VK? && first.k.kx <= MAXINDEXRK)
      modifies `code, `k, `cache, `lasttarget, `freereg, `maxstack
      ensures Bounded(ok, old(freereg) + 1, old(|code|) + 18)
      ensures ok ==>
        RegsOk() && freereg == c0.free && e.k.VJmp? &&
        Has(c0, p0, St(), e, [], [], ECmp(if eq then OpEq else OpNe, x1, x2))
    {
      var turned := !first.k.VNonReloc?;
      var e1, e2 := if turned then second else first, if turned then first else second;
      var a, b;
      ok, a := OperandToReg(e1, turned, false, c0, p0, c1, first.k, second, tl, fl, x1, x2);
      e := a;
      if !ok { return; }
      ok, b := EqOperand(e2, !turned, c0, p0, c1, first.k, if turned then a else second, tl, fl, x1, x2);
      if !ok { return; }
      ghost var k1, k2 := if turned then b.k else a.k, if turned then a.k else b.k;
      ReadyTails(c0, p0, St(), k1, k2, x1, x2);
      var i := if b.k.VKInt? then EqI(a.k.reg, b.k.n, eq) else if b.k.VK? then EqK(a.k.reg, b.k.kx, eq)
        else Eq(a.k.reg, b.k.reg, eq);
      e := Compare(i, a.k, b.k, if eq then OpEq else OpNe, k1, k2, c0, p0, x1, x2);
    }

    /** The other operand of an equality: immediate, a constant, or a register (lcode.c:1595-1606). */
    method EqOperand(e: Exp, ghost second: bool, ghost c0: Fs, ghost p0: set<nat>, ghost c1: Fs, ghost kf: Kind,
        ghost s: Exp,
                     ghost tl: seq<nat>, ghost fl: seq<nat>, ghost x1: Expr, ghost x2: Expr) returns (ok: bool, e': Exp)
      requires RegsOk()
      requires if second then Operands(c0, p0, c1, St(), kf, s, tl, fl, x1, x2)
        else Ready(c0, p0, St(), kf, s.k, x1, x2)
      requires e == if second then s else NoJumps(kf)
      requires !second ==> e.k.VKInt? || (e.k.VK? && e.k.kx <= MAXINDEXRK)
      modifies `code, `k, `cache, `lasttarget, `freereg, `maxstack
      ensures ok ==> freereg <= old(freereg) + 1
      ensures Bounded(ok, old(freereg), old(|code|) + 8)
      ensures ok ==> RegsOk() && (e'.k.VNonReloc? || e'.k.VK? || e'.k.VKInt?)
      ensures ok ==> if second then Ready(c0, p0, St(), kf, e'.k, x1, x2) else Ready(c0, p0, St(), e'.k, s.k, x1, x2)
    {
      if IsSCint(e) {
        ok, e' := true, e;
        if second {
          HasLists(c1, p0, St(), e, tl, fl, x2, NO_REG);
          OperandsReady(c0, p0, c1, St(), kf, e.k, x1, x2);
        }
      } else {
        ok, e' := OperandRK(e, second, c0, p0, c1, kf, s, tl, fl, x1, x2);
      }
    }

    // ----- expressions -----

    /** Puts the first operand of a comparison where the second one does not disturb it ('luaK_infix',
        lcode.c:1663-1676). */
    method InfixCompare(op: CmpOp, e: Exp, ghost c0: Fs, ghost p0: set<nat>, ghost tl: seq<nat>, ghost fl: seq<nat>,
        ghost x: Expr) returns (ok: bool, e': Exp)
      requires Has(c0, p0, St(), e, tl, fl, x) && RegsOk() && FreeOk(c0, St(), e.k)
      modifies `code, `k, `cache, `lasttarget, `freereg, `maxstack
      ensures Bounded(ok, old(freereg), old(|code|) + 9)
      ensures ok ==> RegsOk() && e' == NoJumps(e'.k) && FreeOk(c0, St(), e'.k) && Has(c0, p0, St(), e', [], [], x)
      ensures ok ==> if op == OpEq || op == OpNe
        then e'.k.VNonReloc? || e'.k.VKInt? || (e'.k.VK? && e'.k.kx <= MAXINDEXRK)
        else e'.k.VNonReloc? || IsSCint(e')
    {
      HasTail(c0, p0, St(), e, tl, fl, x, NO_REG);
      var e1 := DischargeVars(e, c0, p0, tl, fl, x);
      HasLists(c0, p0, St(), e1, tl, fl, x, NO_REG);
      ok, e' := true, e1;
      if op == OpEq || op == OpNe {
        if !(e1.k.VKInt? && e1.t == e1.f) {
          var isk;
          ok, isk, e' := Exp2RK(e1, c0, p0, tl, fl, x);
        }
      } else if !IsSCint(e1) {
        ok, e' := Exp2AnyReg(e1, c0, p0, tl, fl, x);
      }
    }

    /** Ends a comparison, the operands of '>' and '>=' being exchanged ('luaK_posfix', lcode.c:1765-1777). */
    method PosfixCompare(op: CmpOp, e1: Exp, e2: Exp, ghost c0: Fs, ghost p0: set<nat>, ghost c1: Fs,
        ghost tl: seq<nat>, ghost fl: seq<nat>, ghost x1: Expr, ghost x2: Expr)
      returns (ok: bool, e: Exp)
      requires RegsOk() && Operands(c0, p0, c1, St(), e1.k, e2, tl, fl, x1, x2) && e1 == NoJumps(e1.k)
      requires if op == OpEq || op == OpNe then e1.k.VNonReloc? || e1.k.VKInt? || (e1.k.VK? && e1.k.kx <= MAXINDEXRK)
        else e1.k.VNonReloc? || IsSCint(e1)
      modifies `code, `k, `cache, `lasttarget, `freereg, `maxstack
      ensures Bounded(ok, old(freereg) + 1, old(|code|) + 18)
      ensures ok ==> RegsOk() && freereg == c0.free && e.k.VJmp? && Has(c0, p0, St(), e, [], [], ECmp(op, x1, x2))
    {
      match op {
        case OpEq => ok, e := CodeEq(true, e1, e2, c0, p0, c1, tl, fl, x1, x2);
        case OpNe => ok, e := CodeEq(false, e1, e2, c0, p0, c1, tl, fl, x1, x2);
        case OpLt => ok, e := CodeOrder(true, e1, e2, false, c0, p0, c1, tl, fl, x1, x2);
        case OpLe => ok, e := CodeOrder(false, e1, e2, false, c0, p0, c1, tl, fl, x1, x2);
        case OpGt => ok, e := CodeOrder(true, e2, e1, true, c0, p0, c1, tl, fl, x1, x2);
        case OpGe => ok, e := CodeOrder(false, e2, e1, true, c0, p0, c1, tl, fl, x1, x2);
      }
    }

    /** Ends 'and' (b) or 'or': the jumps out of the first operand join those of the second one (lcode.c:1712-1723). */
    method PosfixLogic(b: bool, h: int, e2: Exp, ghost c0: Fs, ghost p0: set<nat>, ghost c1: Fs, ghost l: seq<nat>,
        ghost x1: Expr,
                       ghost tl: seq<nat>, ghost fl: seq<nat>, ghost x2: Expr)
      returns (ok: bool, e: Exp)
      requires RegsOk() && GateIs(c0, p0, c1, h, l, b, x1) && c1.free == c0.free && c1.nact == c0.nact
      requires Scoped(x2, c0.nact)
      requires Has(c1, p0 + SetOf(l), St(), e2, tl, fl, x2) && FreeOk(c1, St(), e2.k) && !e2.k.VK?
      modifies `code
      ensures Bounded(ok, 0, old(|code|) + 1)
      ensures ok ==>
        RegsOk() && FreeOk(c0, St(), e.k) && !e.k.VK? &&
        Has(c0, p0, St(), e, JoinT(b, tl, l), JoinF(b, fl, l), Join(b, x1, x2))
    {
      var e' := DischargeVars(e2, c1, p0 + SetOf(l), tl, fl, x2);
      ghost var c2 := St();
      HasTail(c1, p0 + SetOf(l), c2, e', tl, fl, x2, NO_REG);
      HasLists(c1, p0 + SetOf(l), c2, e', tl, fl, x2, NO_REG);
      OuterList(c0, p0, c1, h, l, b, x1, c2, e', tl, fl, x2);
      var list;
      ok, list := Concat(Own(b, e'.t, e'.f), h, Own(b, tl, fl), l);
      e := if b then e'.(f := list) else e'.(t := list);
      if ok {
        OtherList(c2.code, code, Own(b, tl, fl), Own(!b, e'.t, e'.f), Own(!b, tl, fl));
        HasJoined(c0, p0, c1, h, l, b, x1, c2, e', tl, fl, x2, St(), e);
      }
    }

    /** Compiles an expression in one pass ('subexpr', lparser.c:1259-1286, with 'luaK_prefix', 'luaK_infix' and
        'luaK_posfix'). The ghost results are the jumps that it leaves pending. */
    method Expression(x: Expr, ghost p0: set<nat>) returns (ok: bool, e: Exp, ghost tl: seq<nat>, ghost fl: seq<nat>)
      requires Start(St(), p0) && RegsOk() && Scoped(x, nactvar)
      modifies `code, `k, `cache, `lasttarget, `freereg, `maxstack
      ensures Bounded(ok, old(freereg) + Depth(x), old(|code|) + Size(x))
      ensures ok ==> RegsOk() && Has(old(St()), p0, St(), e, tl, fl, x) && FreeOk(old(St()), St(), e.k) && !e.k.VK?
      decreases x, 1
    {
      ok, tl, fl := true, [], [];
      match x {
        case ENil => e := NoJumps(VNil); HasLeaf(St(), p0, VNil, x);
        case ETrue => e := NoJumps(VTrue); HasLeaf(St(), p0, VTrue, x);
        case EFalse => e := NoJumps(VFalse); HasLeaf(St(), p0, VFalse, x);
        case EInt(n) => e := NoJumps(VKInt(n)); HasLeaf(St(), p0, VKInt(n), x);
        case EStr(s) => e := NoJumps(VKStr(s)); HasLeaf(St(), p0, VKStr(s), x);
        case ELocal(i) => e := NoJumps(VLocal(i)); HasLeaf(St(), p0, VLocal(i), x);
        case EUpval(i) => e := NoJumps(VUpval(i)); HasLeaf(St(), p0, VUpval(i), x);
        case ENot(y) => ok, e, tl, fl := Negation(y, p0);
        case EAnd(a, b) => ok, e, tl, fl := Conjunction(a, b, p0);
        case EOr(a, b) => ok, e, tl, fl := Disjunction(a, b, p0);
        case ECmp(op, a, b) => ok, e := Comparison(op, a, b, p0);
      }
    }

    method Negation(y: Expr, ghost p0: set<nat>) returns (ok: bool, e: Exp, ghost tl: seq<nat>, ghost fl: seq<nat>)
      requires Start(St(), p0) && RegsOk() && Scoped(y, nactvar)
      modifies `code, `k, `cache, `lasttarget, `freereg, `maxstack
      ensures Bounded(ok, old(freereg) + Max(1, Depth(y)), old(|code|) + Size(y) + 5)
      ensures ok ==>
        RegsOk() && Has(old(St()), p0, St(), e, tl, fl, ENot(y)) && FreeOk(old(St()), St(), e.k) && !e.k.VK?
      decreases y, 2
    {
      ghost var c0 := St();
      ok, e, fl, tl := Expression(y, p0);
      if ok {
        HasTail(c0, p0, St(), e, fl, tl, y, NO_REG);
        e := DischargeVars(e, c0, p0, fl, tl, y);
        ok, e := CodeNot(e, c0, p0, fl, tl, y);
      }
    }

    method Conjunction(a: Expr, b: Expr, ghost p0: set<nat>) returns (ok: bool, e: Exp, ghost tl: seq<nat>,
        ghost fl: seq<nat>)
      requires Start(St(), p0) && RegsOk() && Scoped(a, nactvar) && Scoped(b, nactvar)
      modifies `code, `k, `cache, `lasttarget, `freereg, `maxstack
      ensures Bounded(ok, old(freereg) + Max(1, Max(Depth(a), Depth(b))), old(|code|) + Size(a) + Size(b) + 7)
      ensures ok ==>
        RegsOk() && Has(old(St()), p0, St(), e, tl, fl, EAnd(a, b)) && FreeOk(old(St()), St(), e.k) && !e.k.VK?
      decreases EAnd(a, b), 0
    {
      ghost var c0 := St();
      e, tl, fl := NoJumps(VNil), [], [];
      var h;
      ghost var l;
      ok, h, l := InfixLogic(true, a, p0);
      if !ok { return; }
      ghost var c1 := St();
      ok, e, tl, fl := Expression(b, p0 + SetOf(l));
      if !ok { return; }
      ghost var tl2, fl2 := tl, fl;
      tl, fl := JoinT(true, tl2, l), JoinF(true, fl2, l);
      ok, e := PosfixLogic(true, h, e, c0, p0, c1, l, a, tl2, fl2, b);
    }

    method Disjunction(a: Expr, b: Expr, ghost p0: set<nat>) returns (ok: bool, e: Exp, ghost tl: seq<nat>,
        ghost fl: seq<nat>)
      requires Start(St(), p0) && RegsOk() && Scoped(a, nactvar) && Scoped(b, nactvar)
      modifies `code, `k, `cache, `lasttarget, `freereg, `maxstack
      ensures Bounded(ok, old(freereg) + Max(1, Max(Depth(a), Depth(b))), old(|code|) + Size(a) + Size(b) + 7)
      ensures ok ==>
        RegsOk() && Has(old(St()), p0, St(), e, tl, fl, EOr(a, b)) && FreeOk(old(St()), St(), e.k) && !e.k.VK?
      decreases EOr(a, b), 0
    {
      ghost var c0 := St();
      e, tl, fl := NoJumps(VNil), [], [];
      var h;
      ghost var l;
      ok, h, l := InfixLogic(false, a, p0);
      if !ok { return; }
      ghost var c1 := St();
      ok, e, tl, fl := Expression(b, p0 + SetOf(l));
      if !ok { return; }
      ghost var tl2, fl2 := tl, fl;
      tl, fl := JoinT(false, tl2, l), JoinF(false, fl2, l);
      ok, e := PosfixLogic(false, h, e, c0, p0, c1, l, a, tl2, fl2, b);
    }

    /** Compiles the first operand of 'and' (b) or 'or', whose jumps leave the expression ('luaK_infix',
        lcode.c:1640-1647). */
    method InfixLogic(b: bool, a: Expr, ghost p0: set<nat>) returns (ok: bool, h: int, ghost l: seq<nat>)
      requires Start(St(), p0) && RegsOk() && Scoped(a, nactvar)
      modifies `code, `k, `cache, `lasttarget, `freereg, `maxstack
      ensures Bounded(ok, old(freereg) + Max(1, Depth(a)), old(|code|) + Size(a) + 6)
      ensures ok ==>
        RegsOk() && freereg == old(freereg) && nactvar == old(nactvar) && GateIs(old(St()), p0, St(), h, l, b, a)
      ensures ok ==> Start(St(), p0 + SetOf(l))
      decreases a, 2
    {
      ghost var c0 := St();
      h, l := -1, [];
      var e;
      ghost var tl, fl;
      ok, e, tl, fl := Expression(a, p0);
      if !ok { return; }
      if b {
        ok, h, l := GoIfTrue(e, c0, p0, tl, fl, a);
      } else {
        ok, h, l := GoIfFalse(e, c0, p0, tl, fl, a);
      }
      if ok { GateStart(c0, p0, St(), h, l, b, a); }
    }

    method Comparison(op: CmpOp, a: Expr, b: Expr, ghost p0: set<nat>) returns (ok: bool, e: Exp)
      requires Start(St(), p0) && RegsOk() && Scoped(a, nactvar) && Scoped(b, nactvar)
      modifies `code, `k, `cache, `lasttarget, `freereg, `maxstack
      ensures Bounded(ok, old(freereg) + Max(3, Max(Depth(a), Depth(b) + 1)), old(|code|) + Size(a) + Size(b) + 28)
      ensures ok ==>
        RegsOk() && Has(old(St()), p0, St(), e, [], [], ECmp(op, a, b)) && FreeOk(old(St()), St(), e.k) && !e.k.VK?
      decreases ECmp(op, a, b), 0
    {
      ghost var c0 := St();
      var e1;
      ok, e1 := FirstOperand(op, a, p0);
      e := e1;
      if ok {
        HasTail(c0, p0, St(), e1, [], [], a, NO_REG);
        ok, e := SecondOperand(op, e1, c0, p0, a, b);
      }
    }

    /** Compiles the second operand of a comparison, and the comparison. */
    method SecondOperand(op: CmpOp, e1: Exp, ghost c0: Fs, ghost p0: set<nat>, ghost a: Expr, b: Expr)
      returns (ok: bool, e: Exp)
      requires RegsOk() && Start(St(), p0) && Has(c0, p0, St(), e1, [], [], a) && FreeOk(c0, St(), e1.k)
      requires e1 == NoJumps(e1.k) && Scoped(b, nactvar) && c0.nact == nactvar
      requires if op == OpEq || op == OpNe then e1.k.VNonReloc? || e1.k.VKInt? || (e1.k.VK? && e1.k.kx <= MAXINDEXRK)
        else e1.k.VNonReloc? || IsSCint(e1)
      modifies `code, `k, `cache, `lasttarget, `freereg, `maxstack
      ensures Bounded(ok, old(freereg) + Max(2, Depth(b)), old(|code|) + Size(b) + 19)
      ensures ok ==> RegsOk() && Has(c0, p0, St(), e, [], [], ECmp(op, a, b)) && FreeOk(c0, St(), e.k) && !e.k.VK?
      decreases b, 2
    {
      ghost var c1 := St();
      var e2;
      ghost var tl, fl;
      e := e1;
      ok, e2, tl, fl := Expression(b, p0);
      if ok {
        ok, e := CompareWith(op, e1, e2, c0, p0, c1, tl, fl, a, b);
      }
    }

    /** Compiles the first operand of a comparison. */
    method FirstOperand(op: CmpOp, a: Expr, ghost p0: set<nat>) returns (ok: bool, e: Exp)
      requires Start(St(), p0) && RegsOk() && Scoped(a, nactvar)
      modifies `code, `k, `cache, `lasttarget, `freereg, `maxstack
      ensures Bounded(ok, old(freereg) + Max(1, Depth(a)), old(|code|) + Size(a) + 9)
      ensures ok ==> RegsOk() && Start(St(), p0) && nactvar == old(nactvar) && freereg <= old(freereg) + 1
      ensures ok ==> e == NoJumps(e.k) && FreeOk(old(St()), St(), e.k) && Has(old(St()), p0, St(), e, [], [], a)
      ensures ok ==> if op == OpEq || op == OpNe then e.k.VNonReloc? || e.k.VKInt? || (e.k.VK? && e.k.kx <= MAXINDEXRK)
        else e.k.VNonReloc? || IsSCint(e)
      decreases a, 2
    {
      ghost var c0 := St();
      ghost var tl, fl;
      ok, e, tl, fl := Expression(a, p0);
      if !ok { return; }
      ok, e := InfixCompare(op, e, c0, p0, tl, fl, a);
      if ok { HasStart(c0, p0, St(), e, a); }
    }

    /** Discharges the second operand and codes the comparison (lcode.c:1708, 1765-1777). */
    method CompareWith(op: CmpOp, e1: Exp, e2: Exp, ghost c0: Fs, ghost p0: set<nat>, ghost c1: Fs,
        ghost tl: seq<nat>, ghost fl: seq<nat>, ghost a: Expr, ghost b: Expr)
      returns (ok: bool, e: Exp)
      requires RegsOk() && Has(c0, p0, c1, e1, [], [], a) && FreeOk(c0, c1, e1.k) && Has(c1, p0, St(), e2, tl, fl, b)
      requires FreeOk(c1, St(), e2.k)
      requires e1 == NoJumps(e1.k) && Scoped(b, c0.nact)
      requires if op == OpEq || op == OpNe then e1.k.VNonReloc? || e1.k.VKInt? || (e1.k.VK? && e1.k.kx <= MAXINDEXRK)
        else e1.k.VNonReloc? || IsSCint(e1)
      modifies `code, `k, `cache, `lasttarget, `freereg, `maxstack
      ensures Bounded(ok, old(freereg) + 1, old(|code|) + 19)
      ensures ok ==> RegsOk() && freereg == c0.free && e.k.VJmp? && Has(c0, p0, St(), e, [], [], ECmp(op, a, b))
    {
      BothTails(c0, p0, c1, St(), e1, e2, tl, fl, a, b);
      var e3 := DischargeVars(e2, c1, p0, tl, fl, b);
      ok, e := PosfixCompare(op, e1, e3, c0, p0, c1, tl, fl, a, b);
    }

    /** Compiles an expression into the next free register. Wherever a run of the code before ends at the expression,
        with whatever registers, constants, upvalues and order, it goes on to the end of the new code, with the value
        of the expression in that register and all registers in use unchanged. */
    method ExpressionToNextReg(x: Expr, ghost p0: set<nat>) returns (ok: bool)
      requires Start(St(), p0) && RegsOk() && Scoped(x, nactvar)
      modifies `code, `k, `cache, `lasttarget, `freereg, `maxstack
      ensures ok ==> RegsOk() && Start(St(), p0) && freereg == old(freereg) + 1 && old(k) <= k
      ensures ok ==> forall env: Env, o: Out :: Agrees(env, k) && Entry(old(code), old(lasttarget), o.pc) ==>
        Computes(env, old(code), p0, code, x, old(freereg), old(freereg), o)
      ensures !ok ==> old(freereg) + Depth(x) + 2 >= MAXREGS || old(|code|) + Size(x) + 7 > OFFSET_SJ
    {
      ghost var c0 := St();
      var e;
      ghost var tl, fl;
      ok, e, tl, fl := Expression(x, p0);
      if ok {
        ok, e := Exp2NextReg(e, c0, p0, tl, fl, x);
        if ok {
          HasStart(c0, p0, St(), e, x);
          Computed(c0, p0, St(), c0.free, x, NO_REG);
          HasTail(c0, p0, St(), e, [], [], x, NO_REG);
        }
      }
    }

    /** Compiles an assignment to a local variable ('luaK_storevar', lcode.c:1052-1056): only that local changes. */
    method AssignLocal(i: nat, x: Expr, ghost p0: set<nat>) returns (ok: bool)
      requires Start(St(), p0) && RegsOk() && Scoped(x, nactvar) && i < nactvar
      modifies `code, `k, `cache, `lasttarget, `freereg, `maxstack
      ensures ok ==> RegsOk() && Start(St(), p0) && freereg == old(freereg) && old(k) <= k
      ensures ok ==> forall env: Env, o: Out :: Agrees(env, k) && Entry(old(code), old(lasttarget), o.pc) ==>
        Computes(env, old(code), p0, code, x, old(freereg), i, o)
      ensures !ok ==> old(freereg) + Depth(x) + 2 >= MAXREGS || old(|code|) + Size(x) + 7 > OFFSET_SJ
    {
      ghost var c0 := St();
      var e;
      ghost var tl, fl;
      ok, e, tl, fl := Expression(x, p0);
      if ok {
        HasTail(c0, p0, St(), e, tl, fl, x, NO_REG);
        ghost var c := St();
        FreeExp(e.k);
        HasFree(c0, p0, c, e, St(), tl, fl, x, NO_REG);
        ok, e := Exp2Reg(e, i, c0, p0, tl, fl, x);
        if ok {
          Computed(c0, p0, St(), i, x, i);
          HasTail(c0, p0, St(), e, [], [], x, i);
          RegStart(c0, p0, St(), i, x);
        }
      }
    }

    /** Compiles a condition: the code goes through if it is true, and otherwise takes one of the jumps of the list,
        which wait for their target, as for an 'if' (lparser.c:1637-1671). */
    method Condition(x: Expr, ghost p0: set<nat>) returns (ok: bool, f: int, ghost l: seq<nat>)
      requires Start(St(), p0) && RegsOk() && Scoped(x, nactvar)
      modifies `code, `k, `cache, `lasttarget, `freereg, `maxstack
      ensures ok ==> RegsOk() && Start(St(), p0 + SetOf(l)) && freereg == old(freereg) && IsList(code, f, l)
      ensures ok ==> forall env: Env, o: Out :: Agrees(env, k) && Entry(old(code), old(lasttarget), o.pc) ==>
        Branches(env, old(code), p0, code, l, x, old(freereg), o)
      ensures !ok ==> old(freereg) + Depth(x) + 2 >= MAXREGS || old(|code|) + Size(x) + 7 > OFFSET_SJ
    {
      ghost var c0 := St();
      var e;
      ghost var tl, fl;
      f, l := -1, [];
      ok, e, tl, fl := Expression(x, p0);
      if ok {
        HasTail(c0, p0, St(), e, tl, fl, x, NO_REG);
        ok, f, l := GoIfTrue(e, c0, p0, tl, fl, x);
        if ok {
          GateStart(c0, p0, St(), f, l, true, x);
          Branched(c0, p0, St(), f, l, x);
        }
      }
    }
  }

  /** From `o`, the code computes `x` into a register, if the code before ended at the expression; and otherwise does
      what it did. */
  ghost predicate Computes(env: Env, code: seq<Instr>, p: set<nat>, code': seq<Instr>, x: Expr, n: nat, reg: nat,
      o: Out) {
    var o0, o1 := Run(env, code, p, o), Run(env, code', p, o);
    if o0.pc != |code| then o1 == o0
    else o1.pc == |code'| && Get(o1.r, reg) == Eval(env, x, o0.r) && Keep(o0.r, o1.r, n, reg)
  }

  ghost predicate Branches(env: Env, code: seq<Instr>, p: set<nat>, code': seq<Instr>, l: seq<nat>, x: Expr, n: nat,
      o: Out) {
    var o0, o1 := Run(env, code, p, o), Run(env, code', p + SetOf(l), o);
    if o0.pc != |code| then o1 == o0
    else Keep(o0.r, o1.r, n, NO_REG) && if Truthy(Eval(env, x, o0.r)) then o1.pc == |code'| else o1.pc in l
  }

  lemma Computed(c0: Fs, p0: set<nat>, c: Fs, reg: nat, x: Expr, hole: nat)
    requires InReg(c0, p0, c, reg, x, hole) && (hole == reg || hole == NO_REG) && c0.free <= NO_REG
    ensures forall env: Env, o: Out :: Agrees(env, c.k) && Entry(c0.code, c0.last, o.pc) ==>
      Computes(env, c0.code, p0, c.code, x, c0.free, reg, o)
  {
    assert Open(0);
    assert p0 + SetOf([]) + SetOf([]) == p0;
    forall env: Env, o: Out | Agrees(env, c.k) && Entry(c0.code, c0.last, o.pc)
      ensures Computes(env, c0.code, p0, c.code, x, c0.free, reg, o) {
      assert Result(env, c0, p0, c, NoJumps(VNonReloc(reg)), [], [], x, hole, o);
    }
  }

  lemma RegStart(c0: Fs, p0: set<nat>, c: Fs, reg: nat, x: Expr)
    requires InReg(c0, p0, c, reg, x, reg) && c.nact <= c.free < MAXREGS
    ensures Start(c, p0)
  {
    HasCode(c0, p0, c, NoJumps(VNonReloc(reg)), [], [], x, reg);
    assert p0 + SetOf([]) + SetOf([]) == p0;
  }

  lemma Branched(c0: Fs, p0: set<nat>, c: Fs, h: int, l: seq<nat>, x: Expr)
    requires GateIs(c0, p0, c, h, l, true, x)
    ensures forall env: Env, o: Out :: Agrees(env, c.k) && Entry(c0.code, c0.last, o.pc) ==>
      Branches(env, c0.code, p0, c.code, l, x, c0.free, o)
  {
    assert Open(0);
    OnePending(c.code, p0 + SetOf(l), |c0.code|, h, l);
    forall env: Env, o: Out | Agrees(env, c.k) && Entry(c0.code, c0.last, o.pc)
      ensures Branches(env, c0.code, p0, c.code, l, x, c0.free, o) {
      assert Passes(env, c0, p0, c, l, true, x, o);
    }
  }

  /** An integer that fits in operand C of an instruction (lcode.c:660-662, 1257-1271). */
  predicate IsSCint(e: Exp) { e.k.VKInt? && e.t == e.f && -127 <= e.k.n <= 128 }

  function OrderOp(strict: bool, turned: bool): CmpOp {
    if turned then (if strict then OpGt else OpGe) else if strict then OpLt else OpLe
  }

  /** What 'luaK_infix' made of the first operand, and the second one. */
  ghost predicate OrderOperands(e1: Exp, e2: Exp, turned: bool, c0: Fs, p0: set<nat>, c1: Fs, c: Fs, tl: seq<nat>,
      fl: seq<nat>, x1: Expr, x2: Expr) {
    var f, s := if turned then e2 else e1, if turned then e1 else e2;
    Operands(c0, p0, c1, c, f.k, s, tl, fl, x1, x2) && f == NoJumps(f.k) && (f.k.VNonReloc? || IsSCint(f))
  }

  lemma ReadyTails(c0: Fs, p0: set<nat>, c: Fs, k1: Kind, k2: Kind, x1: Expr, x2: Expr)
    requires Ready(c0, p0, c, k1, k2, x1, x2)
    ensures Tail(c, k1) && Tail(c, k2)
  {
    PairTails(c0, p0, c, k1, k2, x1, x2);
  }

  /** A constant operand seen as an expression of its own. */
  lemma ConstLeaf(c0: Fs, p0: set<nat>, c: Fs, kf: Kind, ks: Kind, x1: Expr, x2: Expr)
    requires Ready(c0, p0, c, kf, ks, x1, x2) && kf.VKInt? && c.nact <= c.free < MAXREGS
    ensures Has(c, p0, c, NoJumps(kf), [], [], ConstExpr(kf))
  {
    PairStart(c0, p0, c, kf, ks, x1, x2);
    HasLeaf(c, p0, kf, ConstExpr(kf));
  }

  lemma ConstInReg(c0: Fs, p0: set<nat>, c: Fs, kf: Kind, ks: Kind, x1: Expr, x2: Expr, c': Fs, reg: nat)
    requires Ready(c0, p0, c, kf, ks, x1, x2) && kf.VKInt?
    requires Has(c, p0, c', NoJumps(VNonReloc(reg)), [], [], ConstExpr(kf))
    requires FreeOk(c, c', VNonReloc(reg)) && c.nact <= c.free && c'.nact == c.nact && reg >= c.nact
    ensures Ready(c0, p0, c', VNonReloc(reg), ks, x1, x2)
  {
    ReadyTails(c0, p0, c, kf, ks, x1, x2);
    PairMore(c0, p0, c, kf, ks, x1, x2, c', reg, ConstExpr(kf));
  }

  lemma ConstInTable(c0: Fs, p0: set<nat>, c: Fs, kf: Kind, ks: Kind, x1: Expr, x2: Expr, c': Fs, kx: nat)
    requires Ready(c0, p0, c, kf, ks, x1, x2) && kf.VKInt? && c' == c.(k := c'.k) && c.k <= c'.k && kx < |c'.k|
    requires c'.k[kx] == Int(kf.n)
    ensures Ready(c0, p0, c', VK(kx), ks, x1, x2)
  {
    ReadyTails(c0, p0, c, kf, ks, x1, x2);
    PairTurned(c0, p0, c, kf, ks, x1, x2);
    PairSame(c0, p0, c, ks, kf, x2, x1, c', VK(kx));
    PairTurned(c0, p0, c', ks, VK(kx), x2, x1);
  }

  lemma NotListed(c0: Fs, p0: set<nat>, c: Fs, e: Exp, tl: seq<nat>, fl: seq<nat>, x: Expr, code: seq<Instr>,
      rest: seq<Instr>)
    requires Has(c0, p0, c, e, tl, fl, x) && Tail(c, e.k) && code == Body(c, e.k) + rest
    ensures IsList(code, e.t, tl) && IsList(Devalue(code, tl), e.f, fl)
  {
    HasLists(c0, p0, c, e, tl, fl, x, NO_REG);
    var b := Body(c, e.k);
    ListShort(c.code, b, e.t, tl);
    ListShort(c.code, b, e.f, fl);
    ListSame(b, code, e.t, tl);
    ListSame(b, code, e.f, fl);
    ListInCode(code, e.t, tl);
    DevalueList(code, tl, e.f, fl);
  }

  lemma NotDone(c0: Fs, p0: set<nat>, c: Fs, e: Exp, tl: seq<nat>, fl: seq<nat>, x: Expr, c1: Fs, c': Fs, k': Kind,
      rest: seq<Instr>)
    requires Has(c0, p0, c, e, tl, fl, x) && Tail(c, e.k) && c1 == c.(code := Body(c, e.k) + rest) && Tail(c1, k')
    requires Body(c1, k') == Body(c, e.k)
    requires c' == c1.(code := Devalue(Devalue(c1.code, tl), fl)) && !k'.VLocal? && !k'.VUpval? && !k'.VK?
    requires forall env, r :: Agrees(env, c1.k) ==> Final(env, c1, k', r) == Bool(!Truthy(Final(env, c, e.k, r)))
    ensures Has(c0, p0, c', Exp(k', e.f, e.t), fl, tl, ENot(x))
  {
    var b := Body(c, e.k);
    HasLists(c0, p0, c, e, tl, fl, x, NO_REG);
    DevalueBehind(b, rest, tl);
    DevalueBehind(Devalue(b, tl), rest, fl);
    assert c'.code == Devalue(Devalue(b, tl), fl) + rest && c1.code == b + rest;
    SameEnd(c1, c', k', |b|);
    HasNot(c0, p0, c, e, tl, fl, x, c', k');
  }

  lemma SameEnd(c: Fs, c': Fs, kd: Kind, n: nat)
    requires Tail(c, kd) && |Body(c, kd)| == n && c' == c.(code := c'.code) && |c'.code| == |c.code|
    requires c'.code[n..] == c.code[n..]
    ensures Tail(c', kd) && |Body(c', kd)| == n && Body(c', kd) == c'.code[..n]
    ensures forall env, r :: Final(env, c', kd, r) == Final(env, c, kd, r)
  {
    forall i | n <= i < |c.code| ensures c'.code[i] == c.code[i] { assert c'.code[n..][i - n] == c.code[n..][i - n]; }
  }

  lemma PatchAllTail(code: seq<Instr>, s: seq<nat>, reg: nat, d: Dest)
    requires JumpsIn(code, s) && s != [] && (d != Here ==> |code| >= 2)
    ensures s[0] < |code| && forall j :: j in s[1..] ==> j < |code|
    ensures PatchAll(code, s, reg, d) == PatchAll(PatchOne(code, s[0], reg, d), s[1..], reg, d)
  {
    assert s[0] in s && forall j :: j in s[1..] ==> j in s;
  }

  lemma NextInList(code: seq<Instr>, h: int, s: seq<nat>, i: nat)
    requires IsList(code, h, s) && i < |s|
    ensures s[i] < |code| && code[s[i]].Jmp? && NextJump(code, s[i]) == if i + 1 < |s| then s[i + 1] as int else -1
  {
    assert code[s[i]].sj == Link(s, i) && (i + 1 < |s| ==> s[i + 1] != s[i]);
  }

  /** IsList, to be used as a whole. */
  ghost predicate Listed(code: seq<Instr>, h: int, s: seq<nat>) {
    forall k: nat {:trigger Open(k)} :: Open(k) ==> IsList(code, h, s)
  }

  lemma ListedHead(code: seq<Instr>, h: int, s: seq<nat>)
    requires Listed(code, h, s)
    ensures h == if s == [] then -1 else s[0]
  {
    assert Open(0);
  }

  lemma ListedNext(code: seq<Instr>, h: int, s: seq<nat>, i: nat)
    requires Listed(code, h, s) && i < |s|
    ensures s[i] < |code| && code[s[i]].Jmp? && NextJump(code, s[i]) == if i + 1 < |s| then s[i + 1] as int else -1
  {
    assert Open(0);
    NextInList(code, h, s, i);
  }

  lemma LinkedOnly(code: seq<Instr>, h: int, s: seq<nat>)
    requires IsList(code, h, s) && s != []
    ensures var e := s[|s| - 1]; e < |code| && forall d: int :: Relinked(code, code[e := Jmp(d)], SetOf(s))
  {
    assert s[|s| - 1] in s;
  }

  lemma ListInCode(code: seq<Instr>, h: int, s: seq<nat>)
    requires IsList(code, h, s)
    ensures forall j :: j in s ==> j < |code| && code[j].Jmp?
  {
  }

  lemma ListPatchTest(code: seq<Instr>, s: seq<nat>, j: nat, reg: nat)
    requires IsList(code, j, s) && s != [] && j == s[0]
    ensures var code' := PatchTest(code, j, reg);
      j < |code'| && code'[j].Jmp? && IsList(code', NextJump(code', j), s[1..])
  {
    ListTail(code, j, s);
    var code' := PatchTest(code, j, reg);
    ListInCode(code, NextJump(code, j), s[1..]);
    ListSame(code, code', NextJump(code, j), s[1..]);
  }

  lemma ListPatched(code: seq<Instr>, l: nat, s: seq<nat>, reg: nat, d: Dest)
    requires IsList(code, l, s) && s != [] && l == s[0] && (d != Here ==> |code| >= 2) && JumpsIn(code, s)
    ensures l < |code|
    ensures var code' := PatchOne(code, l, reg, d);
      IsList(code', NextJump(code, l), s[1..]) && JumpsIn(code', s[1..]) && forall j :: j in s[1..] ==>
        HasValue(code', j) == HasValue(code, j)
  {
    ListTail(code, l, s);
    var code' := PatchOne(code, l, reg, d);
    ListInCode(code, NextJump(code, l), s[1..]);
    forall j | j in s[1..] ensures j < |code| && code'[j] == code[j] && HasValue(code', j) == HasValue(code, j) {
      assert j != l;
      PatchedElse(code, l, reg, d, j);
    }
    ListSame(code, code', NextJump(code, l), s[1..]);
  }

  lemma PatchedElse(code: seq<Instr>, l: nat, reg: nat, d: Dest, j: nat)
    requires l < |code| && code[l].Jmp? && (d != Here ==> |code| >= 2) && j < |code| && code[j].Jmp? && j != l
    ensures var code' := PatchOne(code, l, reg, d); code'[j] == code[j] && HasValue(code', j) == HasValue(code, j)
  {
  }
}
