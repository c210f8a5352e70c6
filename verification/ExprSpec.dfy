/** Expression descriptors of the one-pass compiler, and what it means that the code emitted so far computes an
    expression, part of it still pending in jump lists (lparser.h:20-70, lcode.c). */
module ExprSpec {
  import opened JumpCode

  // ----- source expressions -----

  datatype CmpOp = OpEq | OpNe | OpLt | OpLe | OpGt | OpGe

  datatype Expr =
    | ENil | ETrue | EFalse | EInt(n: int) | EStr(s: string) | ELocal(i: nat) | EUpval(i: nat)
    | ENot(e: Expr) | EAnd(l: Expr, r: Expr) | EOr(l: Expr, r: Expr) | ECmp(op: CmpOp, l: Expr, r: Expr)

  function Compare(env: Env, op: CmpOp, v: Value, w: Value): bool {
    match op
    case OpEq => v == w
    case OpNe => v != w
    case OpLt => env.lt(v, w)
    case OpLe => env.le(v, w)
    case OpGt => env.lt(w, v)
    case OpGe => env.le(w, v)
  }

  /** The value of an expression; locals are registers. */
  function Eval(env: Env, x: Expr, r: Regs): Value {
    match x
    case ENil => Nil
    case ETrue => Bool(true)
    case EFalse => Bool(false)
    case EInt(n) => Int(n)
    case EStr(s) => Str(s)
    case ELocal(i) => Get(r, i)
    case EUpval(i) => env.up(i)
    case ENot(e) => Bool(!Truthy(Eval(env, e, r)))
    case EAnd(a, b) => var v := Eval(env, a, r); if Truthy(v) then Eval(env, b, r) else v
    case EOr(a, b) => var v := Eval(env, a, r); if Truthy(v) then v else Eval(env, b, r)
    case ECmp(op, a, b) => Bool(Compare(env, op, Eval(env, a, r), Eval(env, b, r)))
  }

  /** All locals an expression mentions are active. */
  predicate Scoped(x: Expr, nact: nat) {
    match x
    case ELocal(i) => i < nact
    case ENot(e) => Scoped(e, nact)
    case EAnd(a, b) => Scoped(a, nact) && Scoped(b, nact)
    case EOr(a, b) => Scoped(a, nact) && Scoped(b, nact)
    case ECmp(_, a, b) => Scoped(a, nact) && Scoped(b, nact)
    case _ => true
  }

  /** The registers below `n` hold what they held, but for one that may be assigned. */
  ghost predicate Keep(r: Regs, r': Regs, n: nat, hole: nat) {
    forall x: nat {:trigger Get(r', x)} :: x < n && x != hole ==> Get(r', x) == Get(r, x)
  }

  lemma {:induction false} EvalKept(env: Env, x: Expr, r: Regs, r': Regs, n: nat)
    requires Scoped(x, n) && Keep(r, r', n, NO_REG) && n <= NO_REG
    ensures Eval(env, x, r') == Eval(env, x, r)
  {
    match x
    case ENot(e) => EvalKept(env, e, r, r', n);
    case EAnd(a, b) => EvalKept(env, a, r, r', n); EvalKept(env, b, r, r', n);
    case EOr(a, b) => EvalKept(env, a, r, r', n); EvalKept(env, b, r, r', n);
    case ECmp(_, a, b) => EvalKept(env, a, r, r', n); EvalKept(env, b, r, r', n);
    case _ =>
  }

  // ----- descriptors -----

  datatype Kind =
    | VNil | VTrue | VFalse | VKInt(n: int) | VKStr(s: string) | VK(kx: nat)
    | VLocal(ridx: nat) | VUpval(ux: nat) | VNonReloc(reg: nat) | VReloc(pc: nat) | VJmp(pc: nat)

  /** 'expdesc': where the value is, and the lists of the jumps taken when it is true or false. */
  datatype Exp = Exp(k: Kind, t: int, f: int)

  /** The state of the function being compiled. */
  datatype Fs = Fs(code: seq<Instr>, k: seq<Value>, free: nat, nact: nat, last: nat)

  predicate IsReloc(i: Instr) { (i.GetUpval? || i.Not?) && i.a == 0 }

  /** What a descriptor says about the end of the code. */
  predicate Tail(c: Fs, k: Kind) {
    match k
    case VReloc(pc) => pc + 1 == |c.code| && IsReloc(c.code[pc])
    case VJmp(pc) => pc >= 1 && pc + 1 == |c.code| && IsCompare(c.code[pc - 1]) && c.code[pc] == Jmp(-1)
    case VK(i) => i < |c.k|
    case VLocal(r) => r < c.nact
    case _ => true
  }

  /** The code without the instruction that awaits its register, or the comparison that awaits its use. */
  function Body(c: Fs, k: Kind): seq<Instr>
    requires Tail(c, k)
  {
    if k.VReloc? then c.code[..k.pc] else if k.VJmp? then c.code[..k.pc - 1] else c.code
  }

  /** The value of the descriptor itself, when none of its jumps was taken. */
  function Final(env: Env, c: Fs, k: Kind, r: Regs): Value
    requires Tail(c, k)
  {
    match k
    case VNil => Nil
    case VTrue => Bool(true)
    case VFalse => Bool(false)
    case VKInt(n) => Int(n)
    case VKStr(s) => Str(s)
    case VK(i) => env.k(i)
    case VLocal(i) => Get(r, i)
    case VUpval(i) => env.up(i)
    case VNonReloc(i) => Get(r, i)
    case VReloc(pc) => Relocated(env, c.code[pc], r)
    case VJmp(pc) => Bool(Cond(env, c.code[pc - 1], r))
  }

  function Relocated(env: Env, i: Instr, r: Regs): Value
    requires IsReloc(i)
  {
    if i.GetUpval? then env.up(i.b) else Bool(!Truthy(Get(r, i.b)))
  }

  predicate Agrees(env: Env, k: seq<Value>) { forall i {:trigger k[i]} :: 0 <= i < |k| ==> env.k(i) == k[i] }

  // ----- what the code computes -----

  /** The value that leaves through pending jump `j`: that of its test, or a boolean. */
  function Leaving(code: seq<Instr>, j: nat, r: Regs, b: bool): Value {
    if HasValue(code, j) then Get(r, code[j - 1].b) else Bool(b)
  }

  /** The outcome of a run: the value is where the descriptor says, or a pending jump of the list of true or of
      false values is taken with it. */
  ghost predicate Meets(env: Env, c: Fs, e: Exp, tl: seq<nat>, fl: seq<nat>, v: Value, r0: Regs, n: nat, hole: nat,
      out: Out)
    requires Tail(c, e.k)
  {
    && Keep(r0, out.r, n, hole)
    && (out.pc in tl ==> Truthy(v) && v == Leaving(c.code, out.pc, out.r, true))
    && (out.pc in fl ==> !Truthy(v) && v == Leaving(c.code, out.pc, out.r, false))
    && (out.pc !in tl && out.pc !in fl ==> out.pc == |Body(c, e.k)| && v == Final(env, c, e.k, out.r))
  }

  /** How a run of the code as it is now relates to a run of the code as it was, from which it goes on. */
  ghost predicate Result(env: Env, c0: Fs, p0: set<nat>, c: Fs, e: Exp, tl: seq<nat>, fl: seq<nat>, x: Expr,
      hole: nat, o: Out)
    requires Tail(c, e.k)
  {
    var o0 := Run(env, c0.code, p0, o);
    var out := Run(env, Body(c, e.k), p0 + SetOf(tl) + SetOf(fl), o);
    if o0.pc != |c0.code| then out == o0
    else Meets(env, c, e, tl, fl, Eval(env, x, o0.r), o0.r, c0.free, hole, out)
  }

  /** Whatever the code did before, from any place where a run can enter it, and whatever the registers, the
      constants to come, the upvalues and order comparison are: the code now computes `x`. */
  ghost predicate Gives(c0: Fs, p0: set<nat>, c: Fs, e: Exp, tl: seq<nat>, fl: seq<nat>, x: Expr, hole: nat)
    requires Tail(c, e.k)
  {
    forall env: Env, o: Out {:trigger Result(env, c0, p0, c, e, tl, fl, x, hole, o)} ::
      Agrees(env, c.k) && Entry(c0.code, c0.last, o.pc) ==> Result(env, c0, p0, c, e, tl, fl, x, hole, o)
  }

  /** A jump that the expression left pending. */
  predicate PendAt(code: seq<Instr>, n: nat, j: nat) {
    n < j < |code| && code[j].Jmp? && IsTest(code[j - 1]) && (code[j - 1].TestSet? ==> code[j - 1].a == NO_REG)
  }

  /** Code that was there stays, but for the range of a last LOADNIL. */
  predicate Keeps(code: seq<Instr>, code': seq<Instr>) {
    |code| <= |code'| && forall i {:trigger code'[i]} :: 0 <= i < |code| ==>
      code'[i] == code[i] || (i == |code| - 1 && code[i].LoadNil? && code'[i].LoadNil?)
  }

  ghost predicate Lists(code: seq<Instr>, n: nat, e: Exp, tl: seq<nat>, fl: seq<nat>) {
    && IsList(code, e.t, tl) && IsList(code, e.f, fl) && (forall j :: j in tl ==> j !in fl)
    && (forall j {:trigger PendAt(code, n, j)} :: j in tl || j in fl ==> PendAt(code, n, j))
  }

  /** The well-formedness of what was compiled. */
  ghost predicate Good(c0: Fs, p0: set<nat>, c: Fs, e: Exp, tl: seq<nat>, fl: seq<nat>) {
    && Tail(c, e.k)
    && c.nact == c0.nact && c0.last <= c.last && c0.k <= c.k
    && Keeps(c0.code, Body(c, e.k)) && Wf(Body(c, e.k), p0 + SetOf(tl) + SetOf(fl), c.last)
    && Lists(Body(c, e.k), |c0.code|, e, tl, fl)
  }

  /** A state in which an expression can be compiled. */
  predicate Start(c: Fs, p: set<nat>) {
    Wf(c.code, p, c.last) && c.nact <= c.free < MAXREGS
  }

  /** The registers in use: one more than before if the value is in a new register. */
  predicate FreeOk(c0: Fs, c: Fs, k: Kind) {
    if k.VNonReloc? && k.reg >= c0.nact then k.reg == c0.free && c.free == c0.free + 1 else c.free == c0.free
  }
}
