/** Multiple assignment (lparser.c:1314-1402, with 'adjust_assign', lparser.c:482-501, 'luaK_storevar',
    lcode.c:1050-1081, and 'luaK_indexed', lcode.c:1280-1310): the stores, emitted last variable first, work as if
    simultaneous. */
module Assignment {
  import opened Folding

  // ----- states and code -----

  datatype Value = Nil | Number(n: int) | Text(s: string) | Table(id: nat)

  datatype State = State(regs: seq<Value>, upvals: seq<Value>, tables: map<nat, map<Value, Value>>)

  /** What a program sees: the local variables, which are in the first registers, upvalues and tables. */
  datatype View = View(locals: seq<Value>, upvals: seq<Value>, tables: map<nat, map<Value, Value>>)

  /** A pure expression. */
  type Expr = View -> Value

  datatype Instr =
    | Eval(dst: nat, e: Expr)
    | Move(dst: nat, src: nat)
    | GetUpval(dst: nat, u: nat)
    | LoadNil(dst: nat)
    | SetUpval(u: nat, src: nat)
    | SetTabUp(u: nat, key: Value, src: nat)
    | SetField(t: nat, key: Value, src: nat)
    | SetI(t: nat, key: Value, src: nat)
    | SetTable(t: nat, idx: nat, src: nat)

  /** How code ends: normally, or with the error of indexing what is no table, or with nil. */
  datatype Outcome = Done(s: State) | Failed(s: State)

  const MAXREGS: nat := 255
  const MAXARG_B: nat := 255
  const MAXARG_C: int := 255

  function At(vs: seq<Value>, r: nat): Value { if r < |vs| then vs[r] else Nil }

  function With(vs: seq<Value>, r: nat, v: Value): (ws: seq<Value>)
    ensures |ws| == |vs|
    ensures forall k: nat {:trigger At(ws, k)} :: At(ws, k) == if k == r && r < |vs| then v else At(vs, k)
  {
    if r < |vs| then vs[r := v] else vs
  }

  function Seen(s: State, base: nat): View {
    View(if base <= |s.regs| then s.regs[..base] else s.regs, s.upvals, s.tables)
  }

  function StoreTable(s: State, t: Value, k: Value, v: Value): Outcome {
    if t.Table? && t.id in s.tables && k != Nil then Done(s.(tables := s.tables[t.id := s.tables[t.id][k := v]]))
      else Failed(s)
  }

  function SetReg(s: State, r: nat, v: Value): State { s.(regs := With(s.regs, r, v)) }

  function Step(i: Instr, s: State, base: nat): Outcome {
    match i
    case Eval(dst, e) => Done(SetReg(s, dst, e(Seen(s, base))))
    case Move(dst, src) => Done(SetReg(s, dst, At(s.regs, src)))
    case GetUpval(dst, u) => Done(SetReg(s, dst, At(s.upvals, u)))
    case LoadNil(dst) => Done(SetReg(s, dst, Nil))
    case SetUpval(u, src) => Done(s.(upvals := With(s.upvals, u, At(s.regs, src))))
    case SetTabUp(u, key, src) => StoreTable(s, At(s.upvals, u), key, At(s.regs, src))
    case SetField(t, key, src) => StoreTable(s, At(s.regs, t), key, At(s.regs, src))
    case SetI(t, key, src) => StoreTable(s, At(s.regs, t), key, At(s.regs, src))
    case SetTable(t, idx, src) => StoreTable(s, At(s.regs, t), At(s.regs, idx), At(s.regs, src))
  }

  function Exec(code: seq<Instr>, s: State, base: nat): Outcome {
    if code == [] then Done(s)
    else
      var o := Step(code[0], s, base);
      if o.Done? then Exec(code[1..], o.s, base) else o
  }

  lemma {:induction false} ExecThen(code: seq<Instr>, i: Instr, s: State, base: nat)
    ensures Exec(code + [i], s, base) == var o := Exec(code, s, base); if o.Done? then Step(i, o.s, base) else o
  {
    if code == [] {
      assert [i][1..] == [];
      assert code + [i] == [i];
    } else {
      assert (code + [i])[1..] == code[1..] + [i];
      var o := Step(code[0], s, base);
      if o.Done? { ExecThen(code[1..], i, o.s, base); }
    }
  }

  // ----- what an assignment means -----

  datatype Operand = LocalTable(r: nat) | UpvalTable(u: nat) | TableExpr(e: Expr)

  /** A constant string has an index in the table of constants. */
  datatype Key = StringKey(s: string, index: nat, short: bool) | NumberKey(n: int) | LocalKey(r: nat) | KeyExpr(e: Expr)
  {
    /** Whether the key can be part of an instruction ('isKstr', 'isCint', lcode.c:1222-1241). */
    predicate Immediate() {
      (StringKey? && short && index <= MAXARG_B) || (NumberKey? && 0 <= n <= MAXARG_C)
    }

    /** A key that is no local variable, as an expression. */
    function Loaded(): Expr
      requires !LocalKey?
    {
      if StringKey? then (v: View) => Text(s) else if NumberKey? then (v: View) => Number(n) else e
    }
  }

  /** A variable on the left-hand side. */
  datatype Target = ToLocal(r: nat) | ToUpval(u: nat) | ToField(t: Operand, k: Key)

  /** Where a store goes. */
  datatype Place = LocalPlace(r: nat) | UpvalPlace(u: nat) | Slot(t: Value, k: Value)

  function TableOf(t: Operand, s: State, base: nat): Value {
    match t
    case LocalTable(r) => At(s.regs, r)
    case UpvalTable(u) => At(s.upvals, u)
    case TableExpr(e) => e(Seen(s, base))
  }

  function KeyOf(k: Key, s: State, base: nat): Value {
    match k
    case StringKey(str, _, _) => Text(str)
    case NumberKey(n) => Number(n)
    case LocalKey(r) => At(s.regs, r)
    case KeyExpr(e) => e(Seen(s, base))
  }

  function PlaceOf(t: Target, s: State, base: nat): Place {
    match t
    case ToLocal(r) => LocalPlace(r)
    case ToUpval(u) => UpvalPlace(u)
    case ToField(o, k) => Slot(TableOf(o, s, base), KeyOf(k, s, base))
  }

  function Put(p: Place, v: Value, s: State): Outcome {
    match p
    case LocalPlace(r) => Done(SetReg(s, r, v))
    case UpvalPlace(u) => Done(s.(upvals := With(s.upvals, u, v)))
    case Slot(t, k) => StoreTable(s, t, k, v)
  }

  /** The value for the `j`-th variable: there are nils for missing expressions, and extra ones are dropped. */
  function ValueOf(exprs: seq<Expr>, j: nat, s: State, base: nat): Value {
    if j < |exprs| then exprs[j](Seen(s, base)) else Nil
  }

  /** All stores from the last variable to the `j`-th one, into places and with values that are those of state `s`. */
  function Assigned(targets: seq<Target>, exprs: seq<Expr>, j: nat, s: State, base: nat): Outcome
    decreases |targets| - j
  {
    if j >= |targets| then Done(s)
    else
      var o := Assigned(targets, exprs, j + 1, s, base);
      if o.Done? then Put(PlaceOf(targets[j], s, base), ValueOf(exprs, j, s, base), o.s) else o
  }

  predicate Wf(s: State, base: nat) { |s.regs| == MAXREGS && base < MAXREGS }

  // ----- the outcome, place by place -----

  /** What a place holds. */
  function Held(p: Place, s: State): Value {
    match p
    case LocalPlace(r) => At(s.regs, r)
    case UpvalPlace(u) => At(s.upvals, u)
    case Slot(t, k) => if t.Table? && t.id in s.tables && k in s.tables[t.id] then s.tables[t.id][k] else Nil
  }

  /** A value can be stored there. */
  predicate Storable(p: Place, s: State) {
    match p
    case LocalPlace(r) => r < |s.regs|
    case UpvalPlace(u) => u < |s.upvals|
    case Slot(t, k) => t.Table? && t.id in s.tables && k != Nil
  }

  predicate SameShape(s: State, s': State) {
    |s'.regs| == |s.regs| && |s'.upvals| == |s.upvals| && s'.tables.Keys == s.tables.Keys
  }

  lemma PutHeld(p: Place, v: Value, s: State, q: Place)
    requires Put(p, v, s).Done?
    ensures SameShape(s, Put(p, v, s).s)
    ensures Storable(p, s) ==> Held(q, Put(p, v, s).s) == if q == p then v else Held(q, s)
  {
  }

  lemma {:induction false} AssignedShape(targets: seq<Target>, exprs: seq<Expr>, j: nat, s: State, base: nat)
    ensures SameShape(s, Assigned(targets, exprs, j, s, base).s)
    decreases |targets| - j
  {
    if j < |targets| { AssignedShape(targets, exprs, j + 1, s, base); }
  }

  /** An assignment fails exactly if one of the variables is no field of a table. */
  lemma {:induction false} FailsExactly(targets: seq<Target>, exprs: seq<Expr>, j: nat, s: State, base: nat)
    ensures Assigned(targets, exprs, j, s, base).Done? <==>
      forall i {:trigger targets[i]} :: j <= i < |targets| && targets[i].ToField? ==>
        Storable(PlaceOf(targets[i], s, base), s)
    decreases |targets| - j
  {
    if j < |targets| {
      FailsExactly(targets, exprs, j + 1, s, base);
      AssignedShape(targets, exprs, j + 1, s, base);
    }
  }

  /** Among variables that are the same place, local, upvalue or field of a table, the first one wins. */
  lemma {:induction false} FirstWins(targets: seq<Target>, exprs: seq<Expr>, j: nat, k: nat, s: State, base: nat,
      p: Place)
    requires j <= k < |targets| && PlaceOf(targets[k], s, base) == p && Storable(p, s)
    requires Assigned(targets, exprs, j, s, base).Done?
    requires forall i :: j <= i < k ==> PlaceOf(targets[i], s, base) != p
    ensures Held(p, Assigned(targets, exprs, j, s, base).s) == ValueOf(exprs, k, s, base)
    decreases k - j
  {
    var o, q, v := Assigned(targets, exprs, j + 1, s, base), PlaceOf(targets[j], s, base), ValueOf(exprs, j, s, base);
    AssignedShape(targets, exprs, j + 1, s, base);
    if j == k {
      PutHeld(p, v, o.s, p);
    } else {
      PutElsewhere(q, v, o.s, p);
      FirstWins(targets, exprs, j + 1, k, s, base, p);
    }
  }

  lemma PutElsewhere(q: Place, v: Value, s: State, p: Place)
    requires Put(q, v, s).Done? && q != p
    ensures Held(p, Put(q, v, s).s) == Held(p, s)
  {
  }

  /** No other place changes. */
  lemma {:induction false} NothingElse(targets: seq<Target>, exprs: seq<Expr>, j: nat, s: State, base: nat, p: Place)
    requires Assigned(targets, exprs, j, s, base).Done?
    requires forall i :: j <= i < |targets| ==> PlaceOf(targets[i], s, base) != p
    ensures Held(p, Assigned(targets, exprs, j, s, base).s) == Held(p, s)
    decreases |targets| - j
  {
    if j < |targets| {
      NothingElse(targets, exprs, j + 1, s, base, p);
      PutElsewhere(PlaceOf(targets[j], s, base), ValueOf(exprs, j, s, base),
        Assigned(targets, exprs, j + 1, s, base).s, p);
    }
  }

  /** Two variables are exchanged. */
  lemma Exchange(a: nat, b: nat, s: State, base: nat)
    requires Wf(s, base) && a < base && b < base
    ensures var o := Assigned([ToLocal(a), ToLocal(b)], [(v: View) => At(v.locals, b), (v: View) => At(v.locals, a)],
      0, s, base);
      o.Done? && At(o.s.regs, a) == At(s.regs, b) && At(o.s.regs, b) == At(s.regs, a)
  {
    var targets := [ToLocal(a), ToLocal(b)];
    var exprs := [(v: View) => At(v.locals, b), (v: View) => At(v.locals, a)];
    var o2 := Assigned(targets, exprs, 2, s, base);
    var o1 := Assigned(targets, exprs, 1, s, base);
    assert o2 == Done(s) && o1 == Done(SetReg(s, b, At(s.regs, a)));
  }

  // ----- expression descriptors of variables -----

  datatype Desc =
    | VLocal(ridx: nat)
    | VUpval(idx: nat)
    | VIndexUp(u: nat, key: Value)
    | VIndexStr(t: nat, key: Value)
    | VIndexI(t: nat, key: Value)
    | VIndexed(t: nat, i: nat)

  function DescPlace(d: Desc, s: State): Place {
    match d
    case VLocal(r) => LocalPlace(r)
    case VUpval(u) => UpvalPlace(u)
    case VIndexUp(u, k) => Slot(At(s.upvals, u), k)
    case VIndexStr(t, k) => Slot(At(s.regs, t), k)
    case VIndexI(t, k) => Slot(At(s.regs, t), k)
    case VIndexed(t, i) => Slot(At(s.regs, t), At(s.regs, i))
  }

  predicate UsesReg(d: Desc, r: nat) {
    (d.VIndexStr? && d.t == r) || (d.VIndexI? && d.t == r) || (d.VIndexed? && (d.t == r || d.i == r))
  }

  predicate RegsBelow(d: Desc, n: nat) {
    ((d.VIndexStr? || d.VIndexI? || d.VIndexed?) ==> d.t < n) && (d.VIndexed? ==> d.i < n)
  }

  /** Storing into `t` changes an operand of `d`. */
  predicate Clobbers(t: Desc, d: Desc) {
    (t.VLocal? && UsesReg(d, t.ridx)) || (t.VUpval? && d.VIndexUp? && d.u == t.idx)
  }

  predicate TargetOk(t: Target, base: nat) {
    match t
    case ToLocal(r) => r < base
    case ToUpval(_) => true
    case ToField(o, k) => (o.LocalTable? ==> o.r < base) && (k.LocalKey? ==> k.r < base)
  }

  // ----- what the code does before the stores -----

  /** `o` has computed places and values of state `s`, and shows no change. */
  predicate ReadyAt(o: Outcome, s: State, base: nat, free: nat, lhs: seq<Desc>, targets: seq<Target>,
      exprs: seq<Expr>, n: nat)
    requires |lhs| == |targets| && n <= free
  {
    && o.Done? && |o.s.regs| == |s.regs| && Seen(o.s, base) == Seen(s, base)
    && (forall k {:trigger lhs[k]} :: 0 <= k < |lhs| ==> DescPlace(lhs[k], o.s) == PlaceOf(targets[k], s, base))
    && (forall j: nat {:trigger ValueOf(exprs, j, s, base)} :: j < n ==>
      At(o.s.regs, free - n + j) == ValueOf(exprs, j, s, base))
  }

  ghost predicate Operands(lhs: seq<Desc>, base: nat, free: nat) {
    forall k {:trigger lhs[k]} :: 0 <= k < |lhs| ==> RegsBelow(lhs[k], free) && (lhs[k].VLocal? ==> lhs[k].ridx < base)
  }

  ghost predicate ReadyAlways(code: seq<Instr>, base: nat, free: nat, lhs: seq<Desc>, targets: seq<Target>,
      exprs: seq<Expr>, n: nat)
    requires |lhs| == |targets| && n <= free
  {
    forall s {:trigger Exec(code, s, base)} :: Wf(s, base) ==>
      ReadyAt(Exec(code, s, base), s, base, free, lhs, targets, exprs, n)
  }

  /** The code computes the places of the variables and `n` values, the values into the last registers in use. */
  ghost predicate Ready(code: seq<Instr>, base: nat, free: nat, lhs: seq<Desc>, targets: seq<Target>,
      exprs: seq<Expr>, n: nat) {
    && |lhs| == |targets| && base <= free - n && free < MAXREGS
    && forall k: nat {:trigger Open(k)} :: Open(k) ==>
      Operands(lhs, base, free - n) && ReadyAlways(code, base, free, lhs, targets, exprs, n)
  }

  /** No store changes an operand of a store that is done after it, for a variable before its own. */
  predicate NoConflict(lhs: seq<Desc>) {
    forall j, k {:trigger lhs[j], lhs[k]} :: 0 <= k < j < |lhs| ==> !Clobbers(lhs[j], lhs[k])
  }

  /** One more value, in the next register. */
  lemma ReadyTemp(code: seq<Instr>, i: Instr, base: nat, free: nat, lhs: seq<Desc>, targets: seq<Target>,
      exprs: seq<Expr>, n: nat)
    requires Ready(code, base, free, lhs, targets, exprs, n) && free + 1 < MAXREGS
    requires (n < |exprs| && i == Eval(free, exprs[n])) || (i == LoadNil(free) && n >= |exprs|)
    ensures Ready(code + [i], base, free + 1, lhs, targets, exprs, n + 1)
  {
    assert Open(0);
    forall s {:trigger Exec(code + [i], s, base)} | Wf(s, base)
      ensures ReadyAt(Exec(code + [i], s, base), s, base, free + 1, lhs, targets, exprs, n + 1) {
      ExecThen(code, i, s, base);
      var o := Exec(code, s, base);
      assert ReadyAt(o, s, base, free, lhs, targets, exprs, n);
      TempAt(i, s, o.s, base, free, lhs, targets, exprs, n);
    }
  }

  lemma TempAt(i: Instr, s: State, r: State, base: nat, free: nat, lhs: seq<Desc>, targets: seq<Target>,
      exprs: seq<Expr>, n: nat)
    requires |lhs| == |targets| && base <= free - n && free + 1 < MAXREGS && Operands(lhs, base, free - n)
    requires Wf(s, base)
    requires ReadyAt(Done(r), s, base, free, lhs, targets, exprs, n)
    requires (n < |exprs| && i == Eval(free, exprs[n])) || (i == LoadNil(free) && n >= |exprs|)
    ensures ReadyAt(Step(i, r, base), s, base, free + 1, lhs, targets, exprs, n + 1)
  {
  }

  lemma ScratchAt(i: Instr, s: State, r: State, base: nat, free: nat, lhs: seq<Desc>, targets: seq<Target>,
      exprs: seq<Expr>)
    requires |lhs| == |targets| && base <= free && free + 1 < MAXREGS && Operands(lhs, base, free) && Wf(s, base)
    requires ReadyAt(Done(r), s, base, free, lhs, targets, exprs, 0)
    requires (i.Eval? || i.Move? || i.GetUpval?) && i.dst == free
    ensures ReadyAt(Step(i, r, base), s, base, free + 1, lhs, targets, exprs, 0)
  {
  }

  /** One more temporary, computed before there are values. */
  lemma ReadyScratch(code: seq<Instr>, i: Instr, base: nat, free: nat, lhs: seq<Desc>, targets: seq<Target>,
      exprs: seq<Expr>)
    requires Ready(code, base, free, lhs, targets, exprs, 0) && free + 1 < MAXREGS
    requires i.Eval? || i.Move? || i.GetUpval?
    requires i.dst == free
    ensures Ready(code + [i], base, free + 1, lhs, targets, exprs, 0)
  {
    assert Open(0);
    forall s {:trigger Exec(code + [i], s, base)} | Wf(s, base)
      ensures ReadyAt(Exec(code + [i], s, base), s, base, free + 1, lhs, targets, exprs, 0) {
      ExecThen(code, i, s, base);
      var o := Exec(code, s, base);
      assert ReadyAt(o, s, base, free, lhs, targets, exprs, 0);
      ScratchAt(i, s, o.s, base, free, lhs, targets, exprs);
    }
  }

  /** Register `r` holds the table, or the key, that the source names. */
  ghost predicate HasTable(code: seq<Instr>, base: nat, r: nat, t: Operand) {
    forall s {:trigger Exec(code, s, base)} :: Wf(s, base) ==> At(Exec(code, s, base).s.regs, r) == TableOf(t, s, base)
  }

  ghost predicate HasKey(code: seq<Instr>, base: nat, r: nat, k: Key) {
    forall s {:trigger Exec(code, s, base)} :: Wf(s, base) ==> At(Exec(code, s, base).s.regs, r) == KeyOf(k, s, base)
  }

  lemma AtSeen(s: State, s': State, base: nat, r: nat)
    requires Seen(s, base) == Seen(s', base) && r < base <= |s.regs| && base <= |s'.regs|
    ensures At(s.regs, r) == At(s'.regs, r)
  {
    assert s.regs[..base][r] == s'.regs[..base][r];
  }

  lemma LocalOperands(code: seq<Instr>, base: nat, free: nat, lhs: seq<Desc>, targets: seq<Target>, exprs: seq<Expr>,
      r: nat)
    requires Ready(code, base, free, lhs, targets, exprs, 0) && r < base
    ensures HasTable(code, base, r, LocalTable(r)) && HasKey(code, base, r, LocalKey(r))
  {
    assert Open(0);
    forall s {:trigger Exec(code, s, base)} | Wf(s, base) ensures At(Exec(code, s, base).s.regs, r) == At(s.regs, r) {
      assert ReadyAt(Exec(code, s, base), s, base, free, lhs, targets, exprs, 0);
      AtSeen(Exec(code, s, base).s, s, base, r);
    }
  }

  lemma LoadedTable(code: seq<Instr>, i: Instr, base: nat, free: nat, lhs: seq<Desc>, targets: seq<Target>,
      exprs: seq<Expr>, t: Operand)
    requires Ready(code, base, free, lhs, targets, exprs, 0) && free + 1 < MAXREGS
    requires (t.UpvalTable? && i == GetUpval(free, t.u)) || (t.TableExpr? && i == Eval(free, t.e))
    ensures Ready(code + [i], base, free + 1, lhs, targets, exprs, 0) && HasTable(code + [i], base, free, t)
  {
    assert Open(0);
    ReadyScratch(code, i, base, free, lhs, targets, exprs);
    forall s {:trigger Exec(code + [i], s, base)} | Wf(s, base)
      ensures At(Exec(code + [i], s, base).s.regs, free) == TableOf(t, s, base) {
      ExecThen(code, i, s, base);
      assert ReadyAt(Exec(code, s, base), s, base, free, lhs, targets, exprs, 0);
    }
  }

  lemma LoadedKey(code: seq<Instr>, base: nat, free: nat, lhs: seq<Desc>, targets: seq<Target>, exprs: seq<Expr>,
      k: Key, r: nat, t: Operand)
    requires Ready(code, base, free, lhs, targets, exprs, 0) && free + 1 < MAXREGS && !k.LocalKey?
    requires r < free && HasTable(code, base, r, t)
    ensures var code' := code + [Eval(free, k.Loaded())];
      Ready(code', base, free + 1, lhs, targets, exprs, 0) && HasKey(code', base, free, k) &&
        HasTable(code', base, r, t)
  {
    assert Open(0);
    var i := Eval(free, k.Loaded());
    ReadyScratch(code, i, base, free, lhs, targets, exprs);
    forall s {:trigger Exec(code + [i], s, base)} | Wf(s, base)
      ensures At(Exec(code + [i], s, base).s.regs, free) == KeyOf(k, s, base)
      ensures At(Exec(code + [i], s, base).s.regs, r) == TableOf(t, s, base)
    {
      ExecThen(code, i, s, base);
      assert ReadyAt(Exec(code, s, base), s, base, free, lhs, targets, exprs, 0);
    }
  }

  /** The registers of the descriptor hold the table and the key of the variable. */
  ghost predicate Names(code: seq<Instr>, base: nat, d: Desc, t: Target) {
    match d
    case VLocal(r) => t == ToLocal(r)
    case VUpval(u) => t == ToUpval(u)
    case VIndexUp(u, k) => t.ToField? && t.t == UpvalTable(u) && t.k.StringKey? && k == Text(t.k.s)
    case VIndexStr(r, k) => t.ToField? && t.k.StringKey? && k == Text(t.k.s) && HasTable(code, base, r, t.t)
    case VIndexI(r, k) => t.ToField? && t.k.NumberKey? && k == Number(t.k.n) && HasTable(code, base, r, t.t)
    case VIndexed(r, i) => t.ToField? && HasKey(code, base, i, t.k) && HasTable(code, base, r, t.t)
  }

  /** A descriptor names the place of its variable, for all states. */
  lemma PlaceFound(code: seq<Instr>, base: nat, free: nat, lhs: seq<Desc>, targets: seq<Target>, exprs: seq<Expr>,
      d: Desc, t: Target)
    requires Ready(code, base, free, lhs, targets, exprs, 0)
    requires Names(code, base, d, t)
    ensures forall s {:trigger Exec(code, s, base)} :: Wf(s, base) ==>
      DescPlace(d, Exec(code, s, base).s) == PlaceOf(t, s, base)
  {
    assert Open(0);
    forall s {:trigger Exec(code, s, base)} | Wf(s, base)
      ensures DescPlace(d, Exec(code, s, base).s) == PlaceOf(t, s, base) {
      assert ReadyAt(Exec(code, s, base), s, base, free, lhs, targets, exprs, 0);
    }
  }

  /** One more variable. */
  lemma ReadyMore(code: seq<Instr>, base: nat, free: nat, lhs: seq<Desc>, targets: seq<Target>, exprs: seq<Expr>,
      d: Desc, t: Target)
    requires Ready(code, base, free, lhs, targets, exprs, 0) && RegsBelow(d, free) && (d.VLocal? ==> d.ridx < base)
    requires forall s {:trigger Exec(code, s, base)} :: Wf(s, base) ==>
      DescPlace(d, Exec(code, s, base).s) == PlaceOf(t, s, base)
    ensures Ready(code, base, free, lhs + [d], targets + [t], exprs, 0)
  {
    assert Open(0);
    forall s {:trigger Exec(code, s, base)} | Wf(s, base)
      ensures ReadyAt(Exec(code, s, base), s, base, free, lhs + [d], targets + [t], exprs, 0) {
      assert ReadyAt(Exec(code, s, base), s, base, free, lhs, targets, exprs, 0);
      forall k | 0 <= k < |lhs + [d]|
        ensures DescPlace((lhs + [d])[k], Exec(code, s, base).s) == PlaceOf((targets + [t])[k], s, base) {
        if k < |lhs| { assert (lhs + [d])[k] == lhs[k]; }
      }
    }
  }

  /** Extra values are dropped. */
  lemma ReadyDropped(code: seq<Instr>, base: nat, free: nat, lhs: seq<Desc>, targets: seq<Target>, exprs: seq<Expr>,
      n: nat, m: nat)
    requires Ready(code, base, free, lhs, targets, exprs, n) && m <= n
    ensures Ready(code, base, free - (n - m), lhs, targets, exprs, m)
  {
    assert Open(0);
    forall s {:trigger Exec(code, s, base)} | Wf(s, base)
      ensures ReadyAt(Exec(code, s, base), s, base, free - (n - m), lhs, targets, exprs, m) {
      assert ReadyAt(Exec(code, s, base), s, base, free, lhs, targets, exprs, n);
    }
  }

  // ----- conflicts -----

  /** What the descriptor becomes when `v` is assigned to and its value is kept in register `extra`
      (lparser.c:1335-1354). */
  function Safe(d: Desc, v: Desc, extra: nat): Desc {
    match d
    case VIndexUp(u, k) => if v.VUpval? && v.idx == u then VIndexStr(extra, k) else d
    case VIndexStr(t, k) => if v == VLocal(t) then VIndexStr(extra, k) else d
    case VIndexI(t, k) => if v == VLocal(t) then VIndexI(extra, k) else d
    case VIndexed(t, i) => VIndexed(if v == VLocal(t) then extra else t, if v == VLocal(i) then extra else i)
    case _ => d
  }

  function AllSafe(lhs: seq<Desc>, v: Desc, extra: nat): (r: seq<Desc>)
    ensures |r| == |lhs|
    ensures forall k {:trigger r[k]} {:trigger lhs[k]} :: 0 <= k < |lhs| ==> r[k] == Safe(lhs[k], v, extra)
  {
    seq(|lhs|, k requires 0 <= k < |lhs| => Safe(lhs[k], v, extra))
  }

  function SafeCopy(v: Desc, extra: nat): Instr
    requires v.VLocal? || v.VUpval?
  {
    if v.VLocal? then Move(extra, v.ridx) else GetUpval(extra, v.idx)
  }

  lemma SafeReady(code: seq<Instr>, base: nat, free: nat, lhs: seq<Desc>, targets: seq<Target>, exprs: seq<Expr>,
      v: Desc)
    requires Ready(code, base, free, lhs, targets, exprs, 0) && free + 1 < MAXREGS
    requires ((v.VLocal? && v.ridx < base) || v.VUpval?)
    ensures Ready(code + [SafeCopy(v, free)], base, free + 1, AllSafe(lhs, v, free), targets, exprs, 0)
  {
    assert Open(0);
    var i, lhs' := SafeCopy(v, free), AllSafe(lhs, v, free);
    forall s {:trigger Exec(code + [i], s, base)} | Wf(s, base)
      ensures ReadyAt(Exec(code + [i], s, base), s, base, free + 1, lhs', targets, exprs, 0) {
      ExecThen(code, i, s, base);
      var o := Exec(code, s, base);
      assert ReadyAt(o, s, base, free, lhs, targets, exprs, 0);
      forall k | 0 <= k < |lhs|
        ensures DescPlace(lhs'[k], Step(i, o.s, base).s) == DescPlace(lhs[k], o.s) { assert RegsBelow(lhs[k], free); }
    }
  }

  lemma SafeNoConflict(lhs: seq<Desc>, v: Desc, extra: nat, base: nat)
    requires NoConflict(lhs) && base <= extra && (v.VLocal? ==> v.ridx < base) && Operands(lhs, base, extra)
    ensures NoConflict(AllSafe(lhs, v, extra) + [v]) || v.VIndexUp? || v.VIndexStr? || v.VIndexI? || v.VIndexed?
  {
    var lhs' := AllSafe(lhs, v, extra);
    forall j, k | 0 <= k < j < |lhs'| ensures !Clobbers(lhs'[j], lhs'[k]) { assert !Clobbers(lhs[j], lhs[k]); }
  }

  // ----- the stores -----

  function StoreInstr(d: Desc, src: nat): Instr {
    match d
    case VLocal(r) => Move(r, src)
    case VUpval(u) => SetUpval(u, src)
    case VIndexUp(u, k) => SetTabUp(u, k, src)
    case VIndexStr(t, k) => SetField(t, k, src)
    case VIndexI(t, k) => SetI(t, k, src)
    case VIndexed(t, i) => SetTable(t, i, src)
  }

  /** The code has done the stores from the last to the `j`-th, and has all that the others need. */
  predicate StoringAt(o: Outcome, s: State, base: nat, start: nat, lhs: seq<Desc>, targets: seq<Target>,
      exprs: seq<Expr>, j: nat)
    requires |lhs| == |targets| && j <= |lhs|
  {
    var p := Assigned(targets, exprs, j, s, base);
    && o.Done? == p.Done? && Seen(o.s, base) == Seen(p.s, base) && |o.s.regs| == |p.s.regs| == |s.regs|
    && (o.Done? ==> forall k {:trigger lhs[k]} :: 0 <= k < j ==>
      DescPlace(lhs[k], o.s) == PlaceOf(targets[k], s, base) && At(o.s.regs, start + k) == ValueOf(exprs, k, s, base))
  }

  ghost predicate StoringAlways(code: seq<Instr>, base: nat, start: nat, lhs: seq<Desc>, targets: seq<Target>,
      exprs: seq<Expr>, j: nat)
    requires |lhs| == |targets| && j <= |lhs|
  {
    forall s {:trigger Exec(code, s, base)} :: Wf(s, base) ==>
      StoringAt(Exec(code, s, base), s, base, start, lhs, targets, exprs, j)
  }

  ghost predicate Storing(code: seq<Instr>, base: nat, start: nat, lhs: seq<Desc>, targets: seq<Target>,
      exprs: seq<Expr>, j: nat) {
    && |lhs| == |targets| && j <= |lhs| && base <= start && start + j < MAXREGS
    && forall k: nat {:trigger Open(k)} :: Open(k) ==>
      NoConflict(lhs) && Operands(lhs, base, start) && StoringAlways(code, base, start, lhs, targets, exprs, j)
  }

  lemma StoringFirst(code: seq<Instr>, base: nat, free: nat, lhs: seq<Desc>, targets: seq<Target>, exprs: seq<Expr>)
    requires |lhs| == |targets| && Ready(code, base, free, lhs, targets, exprs, |targets|) && NoConflict(lhs)
    ensures Storing(code, base, free - |targets|, lhs, targets, exprs, |targets|)
  {
    assert Open(0);
    forall s {:trigger Exec(code, s, base)} | Wf(s, base)
      ensures StoringAt(Exec(code, s, base), s, base, free - |targets|, lhs, targets, exprs, |targets|) {
      var o := Exec(code, s, base);
      assert ReadyAt(o, s, base, free, lhs, targets, exprs, |targets|);
      forall k | 0 <= k < |targets| ensures At(o.s.regs, free - |targets| + k) == ValueOf(exprs, k, s, base) {}
    }
  }

  /** A store to a place, seen from outside, is the same with the same value, whatever is in temporary registers. */
  lemma PutSeen(p: Place, v: Value, s: State, s': State, base: nat)
    requires Seen(s, base) == Seen(s', base) && |s.regs| == |s'.regs| && base <= |s.regs|
    requires (p.LocalPlace? ==> p.r < base)
    ensures Put(p, v, s).Done? == Put(p, v, s').Done? && Seen(Put(p, v, s).s, base) == Seen(Put(p, v, s').s, base)
    ensures |Put(p, v, s).s.regs| == |s.regs| && |Put(p, v, s').s.regs| == |s.regs|
  {
    if p.LocalPlace? {
      assert s.regs[p.r := v][..base] == s.regs[..base][p.r := v] &&
        s'.regs[p.r := v][..base] == s'.regs[..base][p.r := v];
    }
  }

  lemma StoreKeeps(t: Desc, d: Desc, base: nat, start: nat, v: Value, s: State, r: nat)
    requires !Clobbers(t, d) && RegsBelow(d, start) && (t.VLocal? ==> t.ridx < base) && base <= start <= r
    ensures var o := Put(DescPlace(t, s), v, s);
      o.Done? ==> DescPlace(d, o.s) == DescPlace(d, s) && At(o.s.regs, r) == At(s.regs, r)
  {
  }

  lemma StoreStepAt(o: Outcome, s: State, base: nat, start: nat, lhs: seq<Desc>, targets: seq<Target>,
      exprs: seq<Expr>, j: nat)
    requires |lhs| == |targets| && j < |lhs| && Wf(s, base)
    requires StoringAt(o, s, base, start, lhs, targets, exprs, j + 1) && o.Done?
    requires base <= start && NoConflict(lhs)
    requires forall k {:trigger lhs[k]} :: 0 <= k < |lhs| ==>
      RegsBelow(lhs[k], start) && (lhs[k].VLocal? ==> lhs[k].ridx < base)
    ensures StoringAt(Step(StoreInstr(lhs[j], start + j), o.s, base), s, base, start, lhs, targets, exprs, j)
  {
    var p, place, v := Assigned(targets, exprs, j + 1, s, base), PlaceOf(targets[j], s, base),
      ValueOf(exprs, j, s, base);
    assert DescPlace(lhs[j], o.s) == place && At(o.s.regs, start + j) == v;
    StoreOne(lhs, j, start, base, o.s, v);
    PutSeen(place, v, o.s, p.s, base);
    forall k | 0 <= k < j
      ensures Put(place, v, o.s).Done? ==>
        DescPlace(lhs[k], Put(place, v, o.s).s) == DescPlace(lhs[k], o.s) &&
        At(Put(place, v, o.s).s.regs, start + k) == At(o.s.regs, start + k)
    {
      StoreKeeps(lhs[j], lhs[k], base, start, v, o.s, start + k);
    }
  }

  lemma StoreStep(code: seq<Instr>, base: nat, start: nat, lhs: seq<Desc>, targets: seq<Target>, exprs: seq<Expr>,
      j: nat)
    requires j < |lhs| && Storing(code, base, start, lhs, targets, exprs, j + 1)
    ensures Storing(code + [StoreInstr(lhs[j], start + j)], base, start, lhs, targets, exprs, j)
  {
    assert Open(0);
    var i := StoreInstr(lhs[j], start + j);
    forall s {:trigger Exec(code + [i], s, base)} | Wf(s, base)
      ensures StoringAt(Exec(code + [i], s, base), s, base, start, lhs, targets, exprs, j) {
      ExecThen(code, i, s, base);
      var o := Exec(code, s, base);
      assert StoringAt(o, s, base, start, lhs, targets, exprs, j + 1);
      if o.Done? { StoreStepAt(o, s, base, start, lhs, targets, exprs, j); }
    }
  }

  /** What a store instruction does, and what it leaves. */
  lemma StoreOne(lhs: seq<Desc>, j: nat, start: nat, base: nat, s: State, v: Value)
    requires j < |lhs| && At(s.regs, start + j) == v
    ensures Step(StoreInstr(lhs[j], start + j), s, base) == Put(DescPlace(lhs[j], s), v, s)
  {
  }

  /** The last expression goes straight into the last variable when that is a local one. */
  lemma LastLocal(code: seq<Instr>, base: nat, free: nat, lhs: seq<Desc>, targets: seq<Target>, exprs: seq<Expr>)
    requires |lhs| == |targets| == |exprs| > 0 && Ready(code, base, free, lhs, targets, exprs, |exprs| - 1)
    requires NoConflict(lhs) && lhs[|lhs| - 1].VLocal?
    ensures Storing(code + [Eval(lhs[|lhs| - 1].ridx, exprs[|exprs| - 1])], base, free - (|lhs| - 1), lhs, targets,
      exprs, |lhs| - 1)
  {
    assert Open(0);
    var j, start := |lhs| - 1, free - (|lhs| - 1);
    var i := Eval(lhs[j].ridx, exprs[j]);
    forall s {:trigger Exec(code + [i], s, base)} | Wf(s, base)
      ensures StoringAt(Exec(code + [i], s, base), s, base, start, lhs, targets, exprs, j) {
      LastLocalFor(s, code, base, free, lhs, targets, exprs);
    }
  }

  lemma LastLocalFor(s: State, code: seq<Instr>, base: nat, free: nat, lhs: seq<Desc>, targets: seq<Target>,
      exprs: seq<Expr>)
    requires |lhs| == |targets| == |exprs| > 0 && base <= free - (|exprs| - 1) && Wf(s, base)
    requires Operands(lhs, base, free - (|exprs| - 1))
    requires ReadyAt(Exec(code, s, base), s, base, free, lhs, targets, exprs, |exprs| - 1)
    requires NoConflict(lhs) && lhs[|lhs| - 1].VLocal?
    ensures var i := Eval(lhs[|lhs| - 1].ridx, exprs[|exprs| - 1]);
      StoringAt(Exec(code + [i], s, base), s, base, free - (|lhs| - 1), lhs, targets, exprs, |lhs| - 1)
  {
    ExecThen(code, Eval(lhs[|lhs| - 1].ridx, exprs[|exprs| - 1]), s, base);
    LastLocalAt(Exec(code, s, base).s, s, base, free - (|lhs| - 1), lhs, targets, exprs);
  }

  lemma LastLocalAt(r: State, s: State, base: nat, start: nat, lhs: seq<Desc>, targets: seq<Target>, exprs: seq<Expr>)
    requires |lhs| == |targets| == |exprs| > 0 && base <= start && Wf(s, base)
    requires ReadyAt(Done(r), s, base, start + |exprs| - 1, lhs, targets, exprs, |exprs| - 1) && NoConflict(lhs)
    requires forall k {:trigger lhs[k]} :: 0 <= k < |lhs| ==>
      RegsBelow(lhs[k], start) && (lhs[k].VLocal? ==> lhs[k].ridx < base)
    requires lhs[|lhs| - 1].VLocal?
    ensures StoringAt(Step(Eval(lhs[|lhs| - 1].ridx, exprs[|exprs| - 1]), r, base), s, base, start, lhs, targets,
      exprs, |lhs| - 1)
  {
    var j := |lhs| - 1;
    var place, v := PlaceOf(targets[j], s, base), ValueOf(exprs, j, s, base);
    assert DescPlace(lhs[j], r) == place;
    assert Assigned(targets, exprs, j + 1, s, base) == Done(s);
    PutSeen(place, v, r, s, base);
    forall k | 0 <= k < j
      ensures DescPlace(lhs[k], Put(place, v, r).s) == DescPlace(lhs[k], r)
      ensures At(Put(place, v, r).s.regs, start + k) == ValueOf(exprs, k, s, base)
    {
      StoreKeeps(lhs[j], lhs[k], base, start, v, r, start + k);
      assert At(r.regs, start + |exprs| - 1 - (|exprs| - 1) + k) == ValueOf(exprs, k, s, base);
    }
  }

  // ----- the code generator -----

  /** The code does what the assignment means: the same error, or the same variables, upvalues and tables. */
  ghost predicate Means(code: seq<Instr>, base: nat, targets: seq<Target>, exprs: seq<Expr>) {
    forall s {:trigger Exec(code, s, base)} :: Wf(s, base) ==>
      var o, p := Exec(code, s, base), Assigned(targets, exprs, 0, s, base);
      o.Done? == p.Done? && Seen(o.s, base) == Seen(p.s, base)
  }

  class FuncState {
    const base: nat
    var code: seq<Instr>
    var freereg: nat
    var lhs: seq<Desc>

    constructor (base: nat)
      requires base < MAXREGS
      ensures this.base == base && freereg == base && code == [] && lhs == []
    {
      this.base, freereg, code, lhs := base, base, [], [];
    }

    ghost predicate Parsed(targets: seq<Target>, exprs: seq<Expr>)
      reads this
    {
      Ready(code, base, freereg, lhs, targets, exprs, 0) && NoConflict(lhs)
    }

    /** Emits an instruction that computes a temporary (lcode.c:464-484); false if there are too many registers. */
    method Temporary(i: Instr) returns (ok: bool)
      modifies this`code, this`freereg
      ensures ok <==> old(freereg) + 1 < MAXREGS
      ensures ok ==> freereg == old(freereg) + 1 && code == old(code) + [i]
    {
      if freereg + 1 >= MAXREGS {
        return false;
      }
      code := code + [i];
      freereg := freereg + 1;
      ok := true;
    }

    /** Copies a variable that an earlier table access uses, and makes the access use the copy (lparser.c:1324-1365). */
    method CheckConflict(v: Desc, ghost targets: seq<Target>, ghost exprs: seq<Expr>) returns (ok: bool)
      requires Parsed(targets, exprs) && ((v.VLocal? && v.ridx < base) || v.VUpval?)
      modifies this`code, this`freereg, this`lhs
      ensures ok ==> Parsed(targets, exprs) && NoConflict(lhs + [v]) && freereg <= old(freereg) + 1
      ensures !ok ==> old(freereg) + 1 >= MAXREGS
    {
      var extra, conflict, k := freereg, false, |lhs|;
      ghost var lhs0 := lhs;
      assert Operands(lhs, base, extra) by { assert Open(0); }
      while k > 0
        invariant k <= |lhs| == |lhs0|
        invariant forall m {:trigger lhs[m]} :: 0 <= m < |lhs| ==> lhs[m] == if m < k then lhs0[m]
          else Safe(lhs0[m], v, extra)
        invariant (!conflict ==> lhs == lhs0) && code == old(code) && freereg == extra
      {
        k := k - 1;
        var d := lhs[k];
        var d' := d;
        match d {
          case VIndexUp(u, key) =>
            if v.VUpval? && u == v.idx { d' := VIndexStr(extra, key); }
          case VIndexStr(t, key) =>
            if v.VLocal? && t == v.ridx { d' := VIndexStr(extra, key); }
          case VIndexI(t, key) =>
            if v.VLocal? && t == v.ridx { d' := VIndexI(extra, key); }
          case VIndexed(t, i) =>
            if v.VLocal? && t == v.ridx { d' := VIndexed(extra, i); }
            if v.VLocal? && i == v.ridx { d' := VIndexed(d'.t, extra); }
          case _ =>
        }
        if d' != d {
          conflict := true;
          lhs := lhs[k := d'];
        }
      }
      assert lhs == AllSafe(lhs0, v, extra);
      SafeNoConflict(lhs0, v, extra, base);
      ok := true;
      if conflict {
        ok := Temporary(SafeCopy(v, extra));
        if ok { SafeReady(old(code), base, extra, lhs0, targets, exprs, v); }
      }
    }

    /** Reads one variable of the left-hand side: its operands get registers, if they are not in some
        (lcode.c:1280-1310). */
    method SuffixedExp(t: Target, ghost targets: seq<Target>, ghost exprs: seq<Expr>) returns (ok: bool, d: Desc)
      requires Parsed(targets, exprs) && TargetOk(t, base)
      modifies this`code, this`freereg
      ensures ok ==> Parsed(targets, exprs) && Ready(code, base, freereg, lhs + [d], targets + [t], exprs, 0)
      ensures (ok ==> freereg <= old(freereg) + if t.ToField? then 2 else 0) && (!ok ==> old(freereg) + 2 >= MAXREGS)
      ensures ok ==>
        (t.ToLocal? ==> d == VLocal(t.r)) && (t.ToUpval? ==> d == VUpval(t.u)) &&
        (t.ToField? ==> !d.VLocal? && !d.VUpval?)
    {
      ok, d := true, VLocal(0);
      match t {
        case ToLocal(r) => d := VLocal(r);
        case ToUpval(u) => d := VUpval(u);
        case ToField(o, k) =>
          if o.UpvalTable? && k.StringKey? && k.Immediate() {
            d := VIndexUp(o.u, Text(k.s));
          } else {
            var r;
            ok, r := TableReg(o, targets, exprs);
            if !ok { return; }
            ok, d := KeyReg(o, k, r, targets, exprs);
            if !ok { return; }
          }
      }
      PlaceFound(code, base, freereg, lhs, targets, exprs, d, t);
      ReadyMore(code, base, freereg, lhs, targets, exprs, d, t);
    }

    /** The descriptor of a variable whose table is in a register. */
    method KeyReg(o: Operand, k: Key, r: nat, ghost targets: seq<Target>, ghost exprs: seq<Expr>)
        returns (ok: bool, d: Desc)
      requires Parsed(targets, exprs) && r < freereg && HasTable(code, base, r, o) && (k.LocalKey? ==> k.r < base)
      modifies this`code, this`freereg
      ensures ok ==> Parsed(targets, exprs) && freereg <= old(freereg) + 1 && RegsBelow(d, freereg)
      ensures ok ==> Names(code, base, d, ToField(o, k)) && !d.VLocal? && !d.VUpval?
      ensures !ok ==> old(freereg) + 1 >= MAXREGS
    {
      ok, d := true, VIndexed(r, r);
      if k.Immediate() {
        d := if k.StringKey? then VIndexStr(r, Text(k.s)) else VIndexI(r, Number(k.n));
      } else if k.LocalKey? {
        LocalOperands(code, base, freereg, lhs, targets, exprs, k.r);
        d := VIndexed(r, k.r);
      } else {
        d := VIndexed(r, freereg);
        ghost var code0 := code;
        ok := Temporary(Eval(freereg, k.Loaded()));
        if !ok { return; }
        LoadedKey(code0, base, freereg - 1, lhs, targets, exprs, k, r, o);
      }
    }

    /** The register of a table that is indexed: that of a local variable, or a temporary one. */
    method TableReg(o: Operand, ghost targets: seq<Target>, ghost exprs: seq<Expr>) returns (ok: bool, r: nat)
      requires Parsed(targets, exprs) && (o.LocalTable? ==> o.r < base)
      modifies this`code, this`freereg
      ensures ok ==> Parsed(targets, exprs) && r < freereg <= old(freereg) + 1 && HasTable(code, base, r, o)
      ensures !ok ==> old(freereg) + 1 >= MAXREGS
    {
      ok := true;
      if o.LocalTable? {
        r := o.r;
        LocalOperands(code, base, freereg, lhs, targets, exprs, r);
      } else {
        r := freereg;
        var i := if o.UpvalTable? then GetUpval(r, o.u) else Eval(r, o.e);
        ok := Temporary(i);
        if ok { LoadedTable(old(code), i, base, r, lhs, targets, exprs, o); }
      }
    }

    /** Emits a value for the next register. */
    method NextValue(i: Instr, ghost targets: seq<Target>, ghost exprs: seq<Expr>, ghost n: nat) returns (ok: bool)
      requires n <= freereg && Ready(code, base, freereg, lhs, targets, exprs, n)
      requires (n < |exprs| && i == Eval(freereg, exprs[n])) || (i == LoadNil(freereg) && n >= |exprs|)
      modifies this`code, this`freereg
      ensures ok ==> freereg == old(freereg) + 1 && Ready(code, base, freereg, lhs, targets, exprs, n + 1)
      ensures !ok ==> old(freereg) + 1 >= MAXREGS
    {
      ok := Temporary(i);
      if ok { ReadyTemp(old(code), i, base, freereg - 1, lhs, targets, exprs, n); }
    }

    /** Stores the value in the last register in use, which is freed (lcode.c:1050-1081). */
    method StoreVar(j: nat, ghost start: nat, ghost targets: seq<Target>, ghost exprs: seq<Expr>)
      requires j < |lhs| && Storing(code, base, start, lhs, targets, exprs, j + 1) && freereg == start + j + 1
      modifies this`code, this`freereg
      ensures Storing(code, base, start, lhs, targets, exprs, j) && freereg == start + j
    {
      StoreStep(code, base, start, lhs, targets, exprs, j);
      code := code + [StoreInstr(lhs[j], freereg - 1)];
      freereg := freereg - 1;
    }

    /** Reads the expressions, and stores into the last variable (lparser.c:1388-1402). */
    method Explist(targets: seq<Target>, exprs: seq<Expr>) returns (ok: bool, ghost start: nat)
      requires |lhs| == |targets| > 0 && |exprs| > 0 && Parsed(targets, exprs)
      modifies this`code, this`freereg
      ensures ok ==> Storing(code, base, start, lhs, targets, exprs, |lhs| - 1) && freereg == start + |lhs| - 1
      ensures !ok ==> old(freereg) + |exprs| + |targets| >= MAXREGS
    {
      start := freereg;
      ok := Values(targets, exprs);
      if !ok { return; }
      var n := |exprs| - 1;
      if |exprs| == |targets| && lhs[n].VLocal? {
        LastLocal(code, base, freereg, lhs, targets, exprs);
        code := code + [Eval(lhs[n].ridx, exprs[n])];
        return true, start;
      }
      ok := NextValue(Eval(freereg, exprs[n]), targets, exprs, n);
      if !ok { return; }
      ok := AdjustAssign(targets, exprs);
      if !ok { return; }
      StoringFirst(code, base, freereg, lhs, targets, exprs);
      StoreVar(|lhs| - 1, start, targets, exprs);
    }

    /** Reads the expressions but the last one into the next registers (lparser.c:1011-1021). */
    method Values(ghost targets: seq<Target>, exprs: seq<Expr>) returns (ok: bool)
      requires |exprs| > 0 && Ready(code, base, freereg, lhs, targets, exprs, 0)
      modifies this`code, this`freereg
      ensures ok ==>
        freereg == old(freereg) + |exprs| - 1 && Ready(code, base, freereg, lhs, targets, exprs, |exprs| - 1)
      ensures !ok ==> old(freereg) + |exprs| >= MAXREGS
    {
      var n := 0;
      ok := true;
      while n < |exprs| - 1
        invariant n < |exprs| && freereg == old(freereg) + n && Ready(code, base, freereg, lhs, targets, exprs, n)
      {
        ok := NextValue(Eval(freereg, exprs[n]), targets, exprs, n);
        if !ok { return; }
        n := n + 1;
      }
    }

    /** Completes with nils, or drops extra values (lparser.c:482-501). */
    method AdjustAssign(targets: seq<Target>, exprs: seq<Expr>) returns (ok: bool)
      requires |exprs| <= freereg && Ready(code, base, freereg, lhs, targets, exprs, |exprs|)
      modifies this`code, this`freereg
      ensures ok ==>
        freereg == old(freereg) - |exprs| + |targets| && Ready(code, base, freereg, lhs, targets, exprs, |targets|)
      ensures !ok ==> old(freereg) - |exprs| + |targets| >= MAXREGS
    {
      var n := |exprs|;
      ok := true;
      while n < |targets|
        invariant |exprs| <= n && (n <= |targets| || n == |exprs|) && freereg == old(freereg) - |exprs| + n
        invariant n <= freereg && Ready(code, base, freereg, lhs, targets, exprs, n)
      {
        ok := NextValue(LoadNil(freereg), targets, exprs, n);
        if !ok { return; }
        n := n + 1;
      }
      ReadyDropped(code, base, freereg, lhs, targets, exprs, n, |targets|);
      freereg := freereg - (n - |targets|);
    }

    /** Reads the rest of an assignment after its first variables, and does all stores but those
        (lparser.c:1374-1402). */
    method RestAssign(targets: seq<Target>, exprs: seq<Expr>) returns (ok: bool, ghost start: nat)
      requires 0 < |lhs| <= |targets| && |exprs| > 0 && Parsed(targets[..|lhs|], exprs)
      requires forall t <- targets :: TargetOk(t, base)
      modifies this`code, this`freereg, this`lhs
      ensures ok ==>
        |lhs| == |targets| && Storing(code, base, start, lhs, targets, exprs, old(|lhs|) - 1) &&
        freereg == start + old(|lhs|) - 1
      ensures !ok ==> old(freereg) + 2 * (|targets| - old(|lhs|)) + |exprs| + |targets| >= MAXREGS
      decreases |targets| - |lhs|
    {
      var k := |lhs|;
      if k == |targets| {
        assert targets[..k] == targets;
        ok, start := Explist(targets, exprs);
        return;
      }
      ok := NextVar(targets[k], targets[..k], exprs);
      if !ok { return false, 0; }
      assert targets[..k] + [targets[k]] == targets[..k + 1];
      ok, start := RestAssign(targets, exprs);
      if ok { StoreVar(k - 1, start, targets, exprs); }
    }

    method NextVar(t: Target, ghost targets: seq<Target>, ghost exprs: seq<Expr>) returns (ok: bool)
      requires Parsed(targets, exprs) && TargetOk(t, base)
      modifies this`code, this`freereg, this`lhs
      ensures ok ==> |lhs| == old(|lhs|) + 1 && Parsed(targets + [t], exprs) && freereg <= old(freereg) + 2
      ensures !ok ==> old(freereg) + 2 >= MAXREGS
    {
      var d;
      ok, d := SuffixedExp(t, targets, exprs);
      if !ok { return; }
      if d.VLocal? || d.VUpval? {
        ok := CheckConflict(d, targets, exprs);
        if !ok { return; }
        Unindexed(code, base, freereg, lhs, targets, exprs, d, t);
      }
      lhs := lhs + [d];
    }

    /** Compiles a multiple assignment; it fails only if there are too many registers. */
    method Assign(targets: seq<Target>, exprs: seq<Expr>) returns (ok: bool)
      requires code == [] && freereg == base < MAXREGS && lhs == []
      requires |targets| > 0 && |exprs| > 0 && forall t <- targets :: TargetOk(t, base)
      modifies this`code, this`freereg, this`lhs
      ensures ok ==> Means(code, base, targets, exprs)
      ensures !ok ==> base + 3 * |targets| + |exprs| >= MAXREGS
    {
      assert Parsed([], exprs);
      ok := NextVar(targets[0], [], exprs);
      if !ok { return; }
      assert [] + [targets[0]] == targets[..1];
      ghost var start;
      ok, start := RestAssign(targets, exprs);
      if ok {
        assert Open(0);
        forall s {:trigger Exec(code, s, base)} | Wf(s, base)
          ensures var o, p := Exec(code, s, base), Assigned(targets, exprs, 0, s, base);
            o.Done? == p.Done? && Seen(o.s, base) == Seen(p.s, base)
        {
          assert StoringAt(Exec(code, s, base), s, base, start, lhs, targets, exprs, 0);
        }
      }
    }
  }

  lemma Unindexed(code: seq<Instr>, base: nat, free: nat, lhs: seq<Desc>, targets: seq<Target>, exprs: seq<Expr>,
      d: Desc, t: Target)
    requires Ready(code, base, free, lhs, targets, exprs, 0)
    requires ((t.ToLocal? && d == VLocal(t.r) && t.r < base) || (t.ToUpval? && d == VUpval(t.u)))
    ensures Ready(code, base, free, lhs + [d], targets + [t], exprs, 0)
  {
    assert Open(0);
    ReadyMore(code, base, free, lhs, targets, exprs, d, t);
  }
}
