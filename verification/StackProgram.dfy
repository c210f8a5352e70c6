/** Programs that use captured variables: any sequence of capturing, reading, writing, leaving scopes and moving the
    stack (lfunc.c:65-237, ldo.c:162-242) does what it does to variables that have a place of their own each. */
module StackProgram {
  import opened LuaStack

  /** What an action tells the program: the value read, the variables whose closing methods are called, in this order,
      or that a variable cannot be closed. */
  datatype Answer = Nothing | Got(value: Value) | Closed(levels: seq<nat>) | Refused

  /** A scope is left in one action, or by closing its upvalues and then its pending variables one by one: what a
      closing method reads, writes and captures are the actions between. */
  datatype Action =
    | Declare(x: Value)
    | Capture(level: nat)
    | Read(k: nat)
    | Write(k: nat, x: Value)
    | ReadLocal(level: nat)
    | WriteLocal(level: nat, x: Value)
    | ToBeClosed(level: nat, closable: bool)
    | LeaveScope(level: nat, moves: seq<nat>)
    | CloseUpvals(level: nat)
    | CloseNext(level: nat, newsize: nat)
    | MoveTo(newsize: nat, nomemory: bool)

  // ----- variables -----

  /** The variables that ever were, with their values; which ones are the locals now; which ones were captured; and the
      slots of those to be closed, the newest last. */
  datatype Model = Model(store: seq<Value>, locals: seq<nat>, captured: seq<nat>, pending: seq<nat>)

  predicate ModelOk(m: Model) {
    && (forall i {:trigger m.locals[i]} :: 0 <= i < |m.locals| ==> m.locals[i] < |m.store|)
    && (forall i, j {:trigger m.locals[i], m.locals[j]} :: 0 <= i < j < |m.locals| ==> m.locals[i] != m.locals[j])
    && (forall k {:trigger m.captured[k]} :: 0 <= k < |m.captured| ==> m.captured[k] < |m.store|)
  }

  /** New variables take the places from `level` on, with the values that are there. */
  function Renewed(m: Model, level: nat): Model
    requires level <= |m.locals| && ModelOk(m)
  {
    var n := |m.locals| - level;
    Model(m.store + seq(n, i requires 0 <= i < n => m.store[m.locals[level + i]]),
      m.locals[..level] + seq(n, i requires 0 <= i < n => |m.store| + i), m.captured, m.pending)
  }

  function Newest(pending: seq<nat>): nat { if pending == [] then 0 else pending[|pending| - 1] }

  /** The slots to be closed from a level on, the newest first, and those that are left. */
  function ToClose(pending: seq<nat>, level: nat): seq<nat> {
    if pending == [] || Newest(pending) < level then []
    else [Newest(pending)] + ToClose(pending[..|pending| - 1], level)
  }

  function LeftPending(pending: seq<nat>, level: nat): seq<nat> {
    if pending == [] || Newest(pending) < level then pending else LeftPending(pending[..|pending| - 1], level)
  }

  /** A variable that may be declared as one to be closed, and has a value that calls for it. */
  predicate NeedsClosing(m: Model, level: nat)
    requires ModelOk(m)
  {
    && Newest(m.pending) < level < |m.locals|
    && m.store[m.locals[level]] != Nil && m.store[m.locals[level]] != False
  }

  /** What an action does to the variables. What is out of range does nothing. */
  function Next(m: Model, a: Action): Model
    requires ModelOk(m)
  {
    match a
    case Declare(x) => if |m.locals| < LUAI_MAXSTACK then m.(store := m.store + [x], locals := m.locals + [|m.store|])
      else m
    case Capture(level) => if level < |m.locals| then m.(captured := m.captured + [m.locals[level]]) else m
    case Write(k, x) => if k < |m.captured| then m.(store := m.store[m.captured[k] := x]) else m
    case WriteLocal(level, x) => if level < |m.locals| then m.(store := m.store[m.locals[level] := x]) else m
    case ToBeClosed(level, closable) =>
      if NeedsClosing(m, level) && closable then m.(pending := m.pending + [level]) else m
    case LeaveScope(level, _) =>
      if 0 < level <= |m.locals| then Renewed(m, level).(pending := LeftPending(m.pending, level)) else m
    case CloseNext(level, _) =>
      if 0 < level <= Newest(m.pending) then m.(pending := m.pending[..|m.pending| - 1]) else m
    case CloseUpvals(level) => if level <= |m.locals| then Renewed(m, level) else m
    case _ => m
  }

  function Told(m: Model, a: Action): Answer
    requires ModelOk(m)
  {
    match a
    case Read(k) => if k < |m.captured| then Got(m.store[m.captured[k]]) else Nothing
    case ReadLocal(level) => if level < |m.locals| then Got(m.store[m.locals[level]]) else Nothing
    case ToBeClosed(level, closable) => if NeedsClosing(m, level) && !closable then Refused else Nothing
    case LeaveScope(level, _) => if 0 < level <= |m.locals| then Closed(ToClose(m.pending, level)) else Nothing
    case CloseNext(level, _) => if 0 < level <= Newest(m.pending) then Closed([Newest(m.pending)]) else Nothing
    case _ => Nothing
  }

  lemma NextOk(m: Model, a: Action)
    requires ModelOk(m)
    ensures ModelOk(Next(m, a))
  {
    match a
    case LeaveScope(level, _) => if 0 < level <= |m.locals| { RenewedOk(m, level); }
    case CloseUpvals(level) => if level <= |m.locals| { RenewedOk(m, level); }
    case _ =>
  }

  /** The new variables are others, with the same values. */
  lemma RenewedOk(m: Model, level: nat)
    requires level <= |m.locals| && ModelOk(m)
    ensures var m' := Renewed(m, level); ModelOk(m') && |m'.locals| == |m.locals| && m'.captured == m.captured
    ensures var m' := Renewed(m, level);
      forall i {:trigger m'.locals[i]} :: 0 <= i < |m.locals| ==> m'.store[m'.locals[i]] == m.store[m.locals[i]]
  {
  }

  function Answers(m: Model, script: seq<Action>): seq<Answer>
    requires ModelOk(m)
    decreases |script|
  {
    if script == [] then []
    else
      NextOk(m, script[0]);
      [Told(m, script[0])] + Answers(Next(m, script[0]), script[1..])
  }

  // ----- the thread and the variables -----

  /** The upvalues `us` of the thread are the captured variables, and its slots the locals. */
  ghost predicate Tracks(t: LuaThread, us: seq<UpVal>, m: Model)
    reads t, t.openupval, t.stack, us
  {
    && t.Valid() && t.size <= LUAI_MAXSTACK && ModelOk(m) && t.pending == m.pending && |m.locals| == t.top.pos
    && |us| == |m.captured|
    && (forall i {:trigger m.locals[i]} :: 0 <= i < |m.locals| ==> t.stack[i].val == m.store[m.locals[i]])
    && (forall k {:trigger us[k]} :: 0 <= k < |us| ==> Tracked(t, us[k], m, m.captured[k]))
    && (forall i, j {:trigger us[i], us[j]} :: 0 <= i < |us| && 0 <= j < |us| ==>
      (us[i] == us[j] <==> m.captured[i] == m.captured[j]))
  }

  /** An open upvalue leads to the slot of its variable; a closed one has a variable of its own. */
  ghost predicate Tracked(t: LuaThread, u: UpVal, m: Model, c: nat)
    requires t.Valid() && c < |m.store| && |m.locals| == t.top.pos
    reads t, t.openupval, t.stack, u
  {
    if u in t.openupval then m.locals[u.v.pos] == c else u.v == Own && c !in m.locals && u.value == m.store[c]
  }

  /** There is one upvalue for each slot. */
  lemma OnePerSlot(t: LuaThread, u: UpVal, w: UpVal)
    requires t.Valid() && u in t.openupval && w in t.openupval && u.v.pos == w.v.pos
    ensures u == w
  {
    var i :| 0 <= i < |t.openupval| && t.openupval[i] == u;
    var j :| 0 <= j < |t.openupval| && t.openupval[j] == w;
  }

  /** A variable that is open leads to a slot below the top. */
  lemma OpenPlace(t: LuaThread, u: UpVal)
    requires t.Valid() && u in t.openupval
    ensures u.v == At(t.stack, u.v.pos) && u.v.pos < t.top.pos
  {
    var i :| 0 <= i < |t.openupval| && t.openupval[i] == u;
  }

  /** Finding an upvalue adds it, unless it was there. */
  method Find(t: LuaThread, level: nat) returns (u: UpVal)
    requires t.Valid() && level < t.top.pos
    modifies t`openupval
    ensures t.Valid() && u in t.openupval && u.v == At(t.stack, level) && (u in old(t.openupval) || fresh(u))
    ensures forall x :: x in t.openupval <==> x in old(t.openupval) || x == u
  {
    u := t.FindUpval(level);
    if t.openupval != old(t.openupval) {
      forall x ensures x in t.openupval <==> x in old(t.openupval) || x == u {
        assert x in t.openupval <==> x in multiset(t.openupval);
      }
    }
  }

  method DoCapture(t: LuaThread, us: seq<UpVal>, ghost m: Model, level: nat) returns (us': seq<UpVal>)
    requires Tracks(t, us, m) && level < t.top.pos
    modifies t`openupval
    ensures Tracks(t, us', Next(m, Capture(level)))
    ensures forall u <- us' :: u in us || u in t.openupval
    ensures forall u <- t.openupval :: u in old(t.openupval) || fresh(u)
  {
    var u := Find(t, level);
    us' := us + [u];
    ghost var m' := Next(m, Capture(level));
    forall k | 0 <= k < |us|
      ensures Tracked(t, us[k], m', m.captured[k]) && (us[k] == u <==> m.captured[k] == m.locals[level]) {
      assert old(Tracked(t, us[k], m, m.captured[k]));
      if us[k] in t.openupval && us[k].v.pos == level { OnePerSlot(t, us[k], u); }
      if us[k] in t.openupval { OpenPlace(t, us[k]); }
    }
    NextOk(m, Capture(level));
  }

  /** An assignment to the local variable of a slot. */
  method DoWriteLocal(t: LuaThread, us: seq<UpVal>, ghost m: Model, level: nat, x: Value)
    requires Tracks(t, us, m) && level < t.top.pos
    modifies t.stack
    ensures Tracks(t, us, Next(m, WriteLocal(level, x)))
  {
    ghost var m' := Next(m, WriteLocal(level, x));
    t.SetSlot(level, x);
    forall k | 0 <= k < |us| ensures Tracked(t, us[k], m', m.captured[k]) {
      assert old(Tracked(t, us[k], m, m.captured[k]));
      assert m.locals[level] in m.locals;
    }
    NextOk(m, WriteLocal(level, x));
  }

  /** An assignment through an upvalue. */
  method DoWrite(t: LuaThread, us: seq<UpVal>, ghost m: Model, k: nat, u: UpVal, x: Value)
    requires Tracks(t, us, m) && k < |us| && us[k] == u
    modifies t.stack, u`value
    ensures Tracks(t, us, Next(m, Write(k, x)))
  {
    ghost var m' := Next(m, Write(k, x));
    ghost var c := m.captured[k];
    assert Tracked(t, u, m, c);
    if u in t.openupval { OpenPlace(t, u); }
    t.SetUpval(u, x);
    forall i | 0 <= i < |m.locals| ensures t.stack[i].val == m'.store[m'.locals[i]] {
      assert old(t.stack[i].val) == m.store[m.locals[i]];
      if old(u in t.openupval) { assert m.locals[u.v.pos] == c; } else { assert m.locals[i] in m.locals; }
    }
    forall j | 0 <= j < |us| ensures Tracked(t, us[j], m', m.captured[j]) {
      assert old(Tracked(t, us[j], m, m.captured[j]));
      assert us[j] == u <==> m.captured[j] == c;
    }
    NextOk(m, Write(k, x));
  }

  /** Closing upvalues: others take the slots of their variables. */
  method DoCloseUpvals(t: LuaThread, us: seq<UpVal>, ghost m: Model, level: nat)
    requires Tracks(t, us, m) && level <= t.top.pos
    modifies t`openupval, t.openupval
    ensures Tracks(t, us, Next(m, CloseUpvals(level))) && forall u <- t.openupval :: u in old(t.openupval)
  {
    ghost var m' := Next(m, CloseUpvals(level));
    ghost var o := t.openupval;
    ghost var n := t.CloseUpval(level);
    RenewedOk(m, level);
    forall i | 0 <= i < |m'.locals| ensures t.stack[i].val == m'.store[m'.locals[i]] {
      assert old(t.stack[i].val) == m.store[m.locals[i]];
    }
    forall k | 0 <= k < |us| ensures Tracked(t, us[k], m', m.captured[k]) {
      assert old(Tracked(t, us[k], m, m.captured[k]));
      if us[k] in o {
        var i :| 0 <= i < |o| && o[i] == us[k];
        if i >= n { assert t.openupval[i - n] == us[k]; } else { NotLeft(o, n, i, t.openupval); }
        LeftTracked(t, us[k], m, level, old(us[k].v.pos));
      } else {
        LeftOther(m, level, m.captured[k]);
      }
    }
  }

  /** The newest pending variable is closed, if it is at the level or above. */
  method DoCloseNext(t: LuaThread, us: seq<UpVal>, ghost m: Model, level: nat, newsize: nat) returns (answer: Answer)
    requires Tracks(t, us, m) && 0 < level
    modifies t, t.openupval
    ensures Tracks(t, us, Next(m, CloseNext(level, newsize))) && answer == Told(m, CloseNext(level, newsize))
    ensures (t.stack == old(t.stack) || fresh(t.stack)) && t.openupval == old(t.openupval)
  {
    t.HeadIsLast(t.stack[..]);
    answer := Nothing;
    if t.tbclist.pos >= level {
      var tbc := t.CloseNext(newsize);
      answer := Closed([tbc]);
      forall k | 0 <= k < |us|
        ensures Tracked(t, us[k], m, m.captured[k]) { assert old(Tracked(t, us[k], m, m.captured[k])); }
      forall i | 0 <= i < |m.locals| ensures t.stack[i].val == m.store[m.locals[i]] {
        assert t.stack[..t.top.pos][i] == old(t.stack[..t.top.pos])[i] && old(t.stack[i].val) == m.store[m.locals[i]];
      }
    }
  }

  /** Leaving a scope: its variables are closed, and others take their slots. */
  method DoLeave(t: LuaThread, us: seq<UpVal>, ghost m: Model, level: nat, moves: seq<nat>) returns (answer: Answer)
    requires Tracks(t, us, m) && 0 < level <= t.top.pos
    modifies t, t.openupval
    ensures Tracks(t, us, Next(m, LeaveScope(level, moves))) && answer == Told(m, LeaveScope(level, moves))
    ensures (t.stack == old(t.stack) || fresh(t.stack)) && forall u <- t.openupval :: u in old(t.openupval)
  {
    ghost var m' := Next(m, LeaveScope(level, moves));
    var closed;
    ghost var p, n;
    ghost var o := t.openupval;
    closed, p, n := t.Close(level, moves);
    answer := Closed(closed);
    PendingCut(m.pending, level, p);
    RenewedOk(m, level);
    forall i | 0 <= i < |m'.locals| ensures t.stack[i].val == m'.store[m'.locals[i]] {
      assert t.stack[..t.top.pos][i] == old(t.stack[..t.top.pos])[i] && old(t.stack[i].val) == m.store[m.locals[i]];
    }
    forall k | 0 <= k < |us| ensures Tracked(t, us[k], m', m.captured[k]) {
      assert old(Tracked(t, us[k], m, m.captured[k]));
      if us[k] in o {
        var i :| 0 <= i < |o| && o[i] == us[k];
        if i >= n { assert t.openupval[i - n] == us[k]; } else { NotLeft(o, n, i, t.openupval); }
        LeftTracked(t, us[k], m, level, old(us[k].v.pos));
      } else {
        LeftOther(m, level, m.captured[k]);
      }
    }
  }

  /** The closing methods are called for exactly those slots, in that order. */
  lemma {:induction false} PendingCut(pending: seq<nat>, level: nat, p: nat)
    requires p <= |pending| && forall i :: 0 <= i < |pending| ==> (pending[i] >= level <==> i >= p)
    ensures ToClose(pending, level) == Reversed(pending[p..]) && LeftPending(pending, level) == pending[..p]
  {
    if p < |pending| {
      var n := |pending| - 1;
      PendingCut(pending[..n], level, p);
      assert pending[p..] == pending[..n][p..] + [pending[n]];
      ReversedLast(pending[..n][p..], pending[n]);
    }
  }

  lemma {:induction false} ReversedLast(s: seq<nat>, x: nat)
    ensures Reversed(s + [x]) == [x] + Reversed(s)
  {
    if s != [] {
      ReversedLast(s[1..], x);
      assert (s + [x])[1..] == s[1..] + [x];
    }
  }

  /** The variable of a slot is a local one after the scope if the slot is below the level. */
  lemma Left(m: Model, level: nat, pos: nat)
    requires ModelOk(m) && level <= |m.locals| && pos < |m.locals|
    ensures var m' := Renewed(m, level);
      m'.store[m.locals[pos]] == m.store[m.locals[pos]] && m'.locals[pos] < |m'.store|
    ensures var m' := Renewed(m, level);
      if pos < level then m'.locals[pos] == m.locals[pos] else m.locals[pos] !in m'.locals
  {
  }

  lemma LeftTracked(t: LuaThread, u: UpVal, m: Model, level: nat, pos: nat)
    requires t.Valid() && ModelOk(m) && level <= |m.locals| == t.top.pos && pos < |m.locals|
    requires if pos < level then u in t.openupval && u.v.pos == pos
      else u !in t.openupval && u.v == Own && u.value == m.store[m.locals[pos]]
    ensures Tracked(t, u, Renewed(m, level), m.locals[pos])
  {
    Left(m, level, pos);
  }

  lemma LeftOther(m: Model, level: nat, c: nat)
    requires ModelOk(m) && level <= |m.locals| && c < |m.store| && c !in m.locals
    ensures var m' := Renewed(m, level); m'.store[c] == m.store[c] && c !in m'.locals
  {
  }

  lemma NotLeft<T>(o: seq<T>, n: nat, i: nat, o': seq<T>)
    requires i < n <= |o| && o' == o[n..] && forall j, k :: 0 <= j < k < |o| ==> o[j] != o[k]
    ensures o[i] !in o'
  {
  }

  /** A new local variable, for which the stack grows if need be. */
  method DoDeclare(t: LuaThread, us: seq<UpVal>, ghost m: Model, x: Value)
    requires Tracks(t, us, m) && t.top.pos < LUAI_MAXSTACK
    modifies t, t.openupval, t.stack
    ensures Tracks(t, us, Next(m, Declare(x)))
    ensures (t.stack == old(t.stack) || fresh(t.stack)) && t.openupval == old(t.openupval)
  {
    if t.top.pos >= t.size {
      Grow(t, us, m);
    }
    Declared(t, us, m, x);
  }

  method Grow(t: LuaThread, us: seq<UpVal>, ghost m: Model)
    requires Tracks(t, us, m) && t.top.pos < LUAI_MAXSTACK
    modifies t, t.openupval
    ensures Tracks(t, us, m) && t.top.pos < t.size
    ensures (t.stack == old(t.stack) || fresh(t.stack)) && t.openupval == old(t.openupval)
  {
    var r := t.GrowStack(1, false);
    forall i | 0 <= i < |m.locals|
      ensures t.stack[i].val == m.store[m.locals[i]] { assert old(t.stack[i].val) == m.store[m.locals[i]]; }
    forall k | 0 <= k < |us|
      ensures Tracked(t, us[k], m, m.captured[k]) { assert old(Tracked(t, us[k], m, m.captured[k])); }
  }

  method Declared(t: LuaThread, us: seq<UpVal>, ghost m: Model, x: Value)
    requires Tracks(t, us, m) && t.top.pos < t.size
    modifies t`top, t.stack
    ensures Tracks(t, us, Next(m, Declare(x)))
  {
    ghost var m' := Next(m, Declare(x));
    t.Push(x);
    NextOk(m, Declare(x));
    forall k | 0 <= k < |us| ensures Tracked(t, us[k], m', m.captured[k]) {
      assert old(Tracked(t, us[k], m, m.captured[k]));
      if us[k] in t.openupval { OpenPlace(t, us[k]); }
    }
  }

  /** Moving the stack, if what is in use fits in the new one. */
  method DoMove(t: LuaThread, us: seq<UpVal>, ghost m: Model, newsize: nat, nomemory: bool)
    requires Tracks(t, us, m)
    modifies t, t.openupval
    ensures Tracks(t, us, m)
    ensures t.size == if old(t.Fits(newsize)) && newsize <= LUAI_MAXSTACK && !nomemory then newsize else old(t.size)
    ensures (t.stack == old(t.stack) || fresh(t.stack)) && t.openupval == old(t.openupval)
  {
    var fits := t.Fits(newsize);
    if fits && newsize <= LUAI_MAXSTACK {
      t.MoveStack(newsize, nomemory);
    }
  }

  /** A to-be-closed variable; one below the last of them is an error of the compiler. */
  method DoToBeClosed(t: LuaThread, us: seq<UpVal>, ghost m: Model, level: nat, closable: bool)
    returns (answer: Answer)
    requires Tracks(t, us, m)
    modifies t`tbclist, t`pending, t.stack
    ensures Tracks(t, us, Next(m, ToBeClosed(level, closable))) && answer == Told(m, ToBeClosed(level, closable))
  {
    answer := Nothing;
    t.HeadIsLast(t.stack[..]);
    if t.tbclist.pos < level < t.top.pos {
      var ok := t.NewTbcUpval(level, closable);
      answer := if ok then Nothing else Refused;
      forall k | 0 <= k < |us|
        ensures Tracked(t, us[k], m, m.captured[k]) { assert old(Tracked(t, us[k], m, m.captured[k])); }
    }
  }

  predicate OfScope(a: Action) {
    a.ToBeClosed? || a.LeaveScope? || a.CloseUpvals? || a.CloseNext? || a.MoveTo?
  }

  /** An action on scopes, or on the stack itself. */
  method DoScope(t: LuaThread, us: seq<UpVal>, ghost m: Model, a: Action) returns (answer: Answer)
    requires Tracks(t, us, m) && OfScope(a)
    modifies t, t.openupval, t.stack
    ensures Tracks(t, us, Next(m, a)) && answer == Told(m, a)
    ensures (t.stack == old(t.stack) || fresh(t.stack)) && forall u <- t.openupval :: u in old(t.openupval)
  {
    answer := Nothing;
    if a.ToBeClosed? {
      answer := DoToBeClosed(t, us, m, a.level, a.closable);
    } else if a.LeaveScope? {
      if 0 < a.level <= t.top.pos { answer := DoLeave(t, us, m, a.level, a.moves); }
    } else if a.CloseUpvals? {
      if a.level <= t.top.pos { DoCloseUpvals(t, us, m, a.level); }
    } else if a.CloseNext? {
      if 0 < a.level { answer := DoCloseNext(t, us, m, a.level, a.newsize); }
    } else {
      DoMove(t, us, m, a.newsize, a.nomemory);
    }
  }

  /** An action on a variable. */
  method DoVariable(t: LuaThread, us: seq<UpVal>, ghost m: Model, a: Action) returns (us': seq<UpVal>, answer: Answer)
    requires Tracks(t, us, m) && !OfScope(a)
    modifies t, t.openupval, t.stack, us
    ensures Tracks(t, us', Next(m, a)) && answer == Told(m, a)
    ensures (t.stack == old(t.stack) || fresh(t.stack))
    ensures (forall u <- t.openupval :: u in old(t.openupval) || fresh(u))
    ensures forall u <- us' :: u in us || fresh(u) || u in old(t.openupval)
  {
    us', answer := us, Nothing;
    if a.Declare? {
      if t.top.pos < LUAI_MAXSTACK { DoDeclare(t, us, m, a.x); }
    } else if a.Capture? {
      if a.level < t.top.pos { us' := DoCapture(t, us, m, a.level); }
    } else if a.Read? {
      if a.k < |us| { answer := DoRead(t, us, m, a.k); }
    } else if a.Write? {
      if a.k < |us| { DoWrite(t, us, m, a.k, us[a.k], a.x); }
    } else if a.ReadLocal? {
      if a.level < t.top.pos { answer := Got(t.stack[a.level].val); }
    } else {
      if a.level < t.top.pos { DoWriteLocal(t, us, m, a.level, a.x); }
    }
  }

  /** One action. */
  method Do(t: LuaThread, us: seq<UpVal>, ghost m: Model, a: Action) returns (us': seq<UpVal>, answer: Answer)
    requires Tracks(t, us, m)
    modifies t, t.openupval, t.stack, us
    ensures ModelOk(Next(m, a)) && Tracks(t, us', Next(m, a)) && answer == Told(m, a)
    ensures (t.stack == old(t.stack) || fresh(t.stack))
    ensures (forall u <- t.openupval :: u in old(t.openupval) || fresh(u))
    ensures forall u <- us' :: u in us || fresh(u) || u in old(t.openupval)
  {
    NextOk(m, a);
    us' := us;
    if OfScope(a) {
      answer := DoScope(t, us, m, a);
    } else {
      us', answer := DoVariable(t, us, m, a);
    }
  }

  method DoRead(t: LuaThread, us: seq<UpVal>, ghost m: Model, k: nat) returns (answer: Answer)
    requires Tracks(t, us, m) && k < |us|
    ensures answer == Told(m, Read(k))
  {
    assert Tracked(t, us[k], m, m.captured[k]);
    if us[k] in t.openupval { OpenPlace(t, us[k]); }
    var x := t.GetUpval(us[k]);
    answer := Got(x);
  }

  /** Any program: every variable that is read, through an upvalue or as a local one, has the value that was last
      written to it, before and after its scope is left and the stack is moved. */
  method Run(t: LuaThread, us: seq<UpVal>, ghost m: Model, script: seq<Action>) returns (answers: seq<Answer>)
    requires Tracks(t, us, m)
    modifies t, t.openupval, t.stack, us
    ensures answers == Answers(m, script) && t.Valid()
    decreases |script|
  {
    if script == [] {
      return [];
    }
    var us', answer := Do(t, us, m, script[0]);
    assert forall i :: 0 <= i < |us'| ==> us'[i] in us || fresh(us'[i]) || us'[i] in old(t.openupval);
    assert forall i :: 0 <= i < |t.openupval| ==> t.openupval[i] in old(t.openupval) || fresh(t.openupval[i]);
    var rest := Run(t, us', Next(m, script[0]), script[1..]);
    answers := [answer] + rest;
  }

  /** A new thread holds one local variable, and nothing is captured. */
  method RunNew(script: seq<Action>) returns (answers: seq<Answer>)
    ensures answers == Answers(Model([Nil], [0], [], []), script)
  {
    var t := new LuaThread();
    answers := Run(t, [], Model([Nil], [0], [], []), script);
  }
}
