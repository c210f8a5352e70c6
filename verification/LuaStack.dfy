/** The stack of a thread and what points into it: open upvalues, the list of to-be-closed variables and call frames
    (lfunc.c:65-237, ldo.c:162-319). A pointer is a memory block with a position, so that one into a block that was
    reallocated is not a pointer into the stack any more. */
module LuaStack {
  import opened Folding

  datatype Value = Nil | False | Other(n: int)

  /** A stack slot; the field used by the list of to-be-closed variables is beside the value. */
  datatype Cell = Cell(val: Value, delta: nat)

  /** A pointer into the stack, an offset into it while it is being reallocated, or the own slot of a closed upvalue. */
  datatype Place = At(block: array<Cell>, pos: nat) | Offset(n: nat) | Own

  datatype CallInfo = CallInfo(func: Place, top: Place)

  const MAXDELTA: nat := 65535
  const LUAI_MAXSTACK: nat := 1000000
  const ERRORSTACKSIZE: nat := LUAI_MAXSTACK + 200
  const EXTRA_STACK: nat := 5
  const LUA_MINSTACK: nat := 20

  // ----- the list of to-be-closed variables -----

  /** Skips the dummy nodes that fill gaps too large for a delta (lfunc.c:217-218). */
  function SkipDummies(cells: seq<Cell>, q: nat): (r: nat)
    requires q < |cells|
    ensures r <= q
  {
    if q > 0 && cells[q].delta == 0 && q >= MAXDELTA then SkipDummies(cells, q - MAXDELTA) else q
  }

  /** The list that starts at slot `p` holds the levels `pending`, the newest last. */
  predicate IsTbcList(cells: seq<Cell>, p: nat, pending: seq<nat>)
    requires p < |cells|
    decreases |pending|
  {
    if pending == [] then p == 0
    else
      && p == pending[|pending| - 1] && 0 < cells[p].delta <= p && cells[p].delta <= MAXDELTA
      && IsTbcList(cells, SkipDummies(cells, p - cells[p].delta), pending[..|pending| - 1])
  }

  /** The list depends only on the deltas up to its head. */
  lemma {:induction false} TbcSame(cells: seq<Cell>, cells': seq<Cell>, p: nat, pending: seq<nat>)
    requires p < |cells| && p < |cells'| && IsTbcList(cells, p, pending)
    requires forall i :: 0 <= i <= p ==> cells'[i].delta == cells[i].delta
    ensures IsTbcList(cells', p, pending)
    decreases |pending|
  {
    if pending != [] {
      var q := p - cells[p].delta;
      SkipSame(cells, cells', q);
      TbcSame(cells, cells', SkipDummies(cells, q), pending[..|pending| - 1]);
    }
  }

  lemma {:induction false} SkipSame(cells: seq<Cell>, cells': seq<Cell>, q: nat)
    requires q < |cells| && q < |cells'| && forall i :: 0 <= i <= q ==> cells'[i].delta == cells[i].delta
    ensures SkipDummies(cells', q) == SkipDummies(cells, q) <= q
  {
    if q > 0 && cells[q].delta == 0 && q >= MAXDELTA { SkipSame(cells, cells', q - MAXDELTA); }
  }

  /** The levels ascend, and the head is the last one. */
  lemma {:induction false} TbcAscends(cells: seq<Cell>, p: nat, pending: seq<nat>)
    requires p < |cells| && IsTbcList(cells, p, pending)
    ensures forall i :: 0 <= i < |pending| ==> 0 < pending[i] <= p
    ensures forall i, j :: 0 <= i < j < |pending| ==> pending[i] < pending[j]
    decreases |pending|
  {
    if pending != [] {
      var q := p - cells[p].delta;
      SkipSame(cells, cells, q);
      TbcAscends(cells, SkipDummies(cells, q), pending[..|pending| - 1]);
    }
  }

  /** A node in reach of the dummy nodes before it. */
  lemma TbcPushed(cells: seq<Cell>, cells': seq<Cell>, cells'': seq<Cell>, p: nat, q: nat, level: nat,
      pending: seq<nat>)
    requires |cells'| == |cells''| == |cells| && p <= q < level < |cells| && level <= q + MAXDELTA
    requires IsTbcList(cells, p, pending)
    requires SkipDummies(cells', q) == p && forall i :: 0 <= i <= p ==> cells'[i].delta == cells[i].delta
    requires cells'' == cells'[level := cells'[level].(delta := level - q)]
    ensures IsTbcList(cells'', level, pending + [level])
  {
    SkipSame(cells', cells'', q);
    TbcSame(cells, cells'', p, pending);
    TbcOne(cells'', p, q, level, pending);
  }

  lemma TbcOne(cells: seq<Cell>, p: nat, q: nat, level: nat, pending: seq<nat>)
    requires p <= q < level < |cells| && level <= q + MAXDELTA && cells[level].delta == level - q
    requires SkipDummies(cells, q) == p && IsTbcList(cells, p, pending)
    ensures IsTbcList(cells, level, pending + [level])
  {
    var more := pending + [level];
    assert more[..|more| - 1] == pending && more[|more| - 1] == level;
  }

  // ----- the thread -----

  class UpVal {
    var v: Place
    /** The value of a closed upvalue. */
    var value: Value

    constructor (place: Place)
      ensures v == place
    {
      v, value := place, Nil;
    }
  }

  class LuaThread {
    var stack: array<Cell>
    var size: nat
    var top: Place
    var tbclist: Place
    var frames: seq<CallInfo>
    var openupval: seq<UpVal>
    /** The levels of the pending to-be-closed variables, the newest last. */
    ghost var pending: seq<nat>

    predicate Points(p: Place)
      reads this
    {
      p.At? && p.block == stack && p.pos < stack.Length
    }

    /** At most one open upvalue for each slot, in descending order, all below the top. */
    ghost predicate Sorted()
      reads this, openupval
    {
      && Points(top)
      && (forall i {:trigger openupval[i]} :: 0 <= i < |openupval| ==>
        Points(openupval[i].v) && openupval[i].v.pos < top.pos)
      && (forall i, j {:trigger openupval[i], openupval[j]} :: 0 <= i < j < |openupval| ==>
        openupval[i].v.pos > openupval[j].v.pos)
    }

    /** The list of to-be-closed variables is that of the levels in `pending`. */
    ghost predicate Listed()
      requires Points(tbclist)
      reads this, stack
    {
      forall k: nat {:trigger Open(k)} :: Open(k) ==> IsTbcList(stack[..], tbclist.pos, pending)
    }

    ghost predicate Valid()
      reads this, openupval, stack
    {
      && stack.Length == size + EXTRA_STACK && size > 0 && Points(top) && Points(tbclist)
      && (forall i {:trigger frames[i]} :: 0 <= i < |frames| ==> Points(frames[i].func) && Points(frames[i].top))
      && Sorted() && Listed() && (tbclist.pos == 0 || tbclist.pos < top.pos)
    }

    /** A thread with an empty stack (lstate.c:180-200). */
    constructor ()
      ensures Valid() && openupval == [] && pending == [] && top.pos == 1 && fresh(stack) && stack[0].val == Nil
      ensures size <= LUAI_MAXSTACK
    {
      var s := new Cell[2 * LUA_MINSTACK + EXTRA_STACK](i => Cell(Nil, 0));
      stack, size := s, 2 * LUA_MINSTACK;
      top, tbclist := At(s, 1), At(s, 0);
      frames := [CallInfo(At(s, 0), At(s, 1 + LUA_MINSTACK))];
      openupval, pending := [], [];
    }

    /** The value of a variable captured by an upvalue: in the stack while it is open. */
    ghost function ValueOf(u: UpVal): Value
      reads u, if u.v.At? then {u.v.block} else {}
    {
      if u.v.At? && u.v.pos < u.v.block.Length then u.v.block[u.v.pos].val else u.value
    }

    // ----- reading and writing -----

    method SetSlot(level: nat, x: Value)
      requires Valid() && level < top.pos
      modifies stack
      ensures Valid() && stack[..] == old(stack[..])[level := Cell(x, old(stack[level]).delta)]
    {
      assert Open(0);
      ghost var before := stack[..];
      stack[level] := stack[level].(val := x);
      TbcSame(before, stack[..], tbclist.pos, pending);
    }

    /** Puts a value on the top of the stack, where there is room. */
    method Push(x: Value)
      requires Valid() && top.pos < size
      modifies this`top, stack
      ensures Valid() && top.pos == old(top.pos) + 1
      ensures stack[..] == old(stack[..])[old(top.pos) := Cell(x, old(stack[top.pos]).delta)]
    {
      assert Open(0);
      ghost var before := stack[..];
      stack[top.pos] := stack[top.pos].(val := x);
      top := At(stack, top.pos + 1);
      TbcSame(before, stack[..], tbclist.pos, pending);
    }

    method GetUpval(u: UpVal) returns (x: Value)
      requires Valid() && (u in openupval || u.v == Own)
      ensures x == ValueOf(u)
    {
      if u.v.At? {
        assert u in openupval;
        x := stack[u.v.pos].val;
      } else {
        x := u.value;
      }
    }

    /** Assigning to an open upvalue assigns to the stack slot, and so to all that share it. */
    method SetUpval(u: UpVal, x: Value)
      requires Valid() && (u in openupval || u.v == Own)
      modifies stack, u`value
      ensures Valid() && ValueOf(u) == x && openupval == old(openupval)
      ensures old(u.v).At? ==> stack[..] == old(stack[..])[u.v.pos := Cell(x, old(stack[u.v.pos]).delta)]
      ensures old(u.v) == Own ==> stack[..] == old(stack[..])
    {
      if u.v.At? {
        SetSlot(u.v.pos, x);
      } else {
        u.value := x;
      }
    }

    // ----- upvalues -----

    /** Searches the list, which is sorted, down to a level. */
    method SearchLevel(level: nat) returns (k: nat)
      requires Valid()
      ensures k <= |openupval| && (forall i :: 0 <= i < k ==> openupval[i].v.pos > level)
      ensures forall i :: k <= i < |openupval| ==> openupval[i].v.pos <= level
    {
      k := 0;
      while k < |openupval| && openupval[k].v.pos > level
        invariant 0 <= k <= |openupval| && forall i :: 0 <= i < k ==> openupval[i].v.pos > level
      {
        k := k + 1;
      }
    }

    /** Links a new upvalue in its place of the list (lfunc.c:65-80). */
    method NewUpval(level: nat, k: nat) returns (u: UpVal)
      requires Valid() && level < top.pos && k <= |openupval|
      requires (forall i :: 0 <= i < k ==> openupval[i].v.pos > level)
      requires forall i :: k <= i < |openupval| ==> openupval[i].v.pos < level
      modifies this`openupval
      ensures Valid() && fresh(u) && u.v == At(stack, level)
      ensures openupval == old(openupval)[..k] + [u] + old(openupval)[k..]
    {
      u := new UpVal(At(stack, level));
      ghost var o := openupval;
      openupval := openupval[..k] + [u] + openupval[k..];
      forall i | 0 <= i < |openupval| ensures openupval[i] == Inserted(o, k, u, i) {}
      forall i, j | 0 <= i < j < |openupval| ensures openupval[i].v.pos > openupval[j].v.pos {
        assert openupval[i] == Inserted(o, k, u, i) && openupval[j] == Inserted(o, k, u, j);
      }
    }

    function Inserted(o: seq<UpVal>, k: nat, u: UpVal, i: nat): UpVal
      requires k <= |o| && i <= |o|
    {
      if i < k then o[i] else if i == k then u else o[i - 1]
    }

    /** Finds the open upvalue of a slot, or creates it (lfunc.c:87-99). */
    method FindUpval(level: nat) returns (u: UpVal)
      requires Valid() && level < top.pos
      modifies this`openupval
      ensures Valid() && u in openupval && u.v == At(stack, level)
      ensures if exists x :: x in old(openupval) && x.v.pos == level
        then u in old(openupval) && openupval == old(openupval)
        else fresh(u) && multiset(openupval) == multiset(old(openupval)) + multiset{u}
    {
      var k := SearchLevel(level);
      if k < |openupval| && openupval[k].v.pos == level {
        return openupval[k];
      }
      forall i | k <= i < |openupval| ensures openupval[i].v.pos < level {
        assert i == k || openupval[k].v.pos > openupval[i].v.pos;
      }
      ghost var o := openupval;
      assert o == o[..k] + o[k..];
      u := NewUpval(level, k);
      assert u == openupval[k];
    }

    /** Closes the open upvalue with the highest level: its value moves from the stack into it (lfunc.c:196-201). */
    method CloseFirst()
      requires Valid() && openupval != []
      modifies this`openupval, openupval[0]
      ensures Valid() && openupval == old(openupval)[1..]
      ensures var u := old(openupval)[0]; u.v == Own && u.value == old(stack[u.v.pos].val)
    {
      var u := openupval[0];
      ghost var o := openupval;
      openupval := openupval[1..];
      u.value := stack[u.v.pos].val;
      u.v := Own;
      forall i | 0 <= i < |openupval|
        ensures openupval[i] == o[i + 1] && openupval[i] != u { assert old(o[0].v.pos > o[i + 1].v.pos); }
    }

    /** Closes all open upvalues down to a level, which are the first `n` of the list (lfunc.c:193-207). Every upvalue
        has the value it had. */
    method CloseUpval(level: nat) returns (ghost n: nat)
      requires Valid()
      modifies this`openupval, openupval
      ensures Valid() && n <= |old(openupval)| && openupval == old(openupval)[n..]
      ensures forall i :: 0 <= i < n ==> old(openupval[i].v.pos) >= level && old(openupval)[i].v == Own
      ensures forall i :: n <= i < |old(openupval)| ==>
        old(openupval[i].v.pos) < level && old(openupval)[i].v == old(openupval[i].v)
      ensures forall i :: 0 <= i < |old(openupval)| ==> ValueOf(old(openupval)[i]) == old(ValueOf(openupval[i]))
    {
      n := 0;
      ghost var o := openupval;
      assert forall i, j :: 0 <= i < j < |o| ==> o[i] != o[j];
      while openupval != [] && openupval[0].v.pos >= level
        invariant Valid() && 0 <= n <= |o| && openupval == o[n..]
        invariant forall i :: 0 <= i < n ==>
          old(o[i].v.pos) >= level && o[i].v == Own && o[i].value == old(stack[o[i].v.pos].val)
        invariant forall i :: n <= i < |o| ==> o[i].v == old(o[i].v) && o[i].value == old(o[i].value)
        decreases |o| - n
      {
        assert openupval[0] == o[n];
        CloseFirst();
        n := n + 1;
      }
      forall i | n <= i < |o| ensures old(o[i].v.pos) < level {
        assert o[i] == openupval[i - n] && (i == n || openupval[0].v.pos > openupval[i - n].v.pos);
      }
    }

    // ----- to-be-closed variables -----

    /** Moves the head of the list with dummy nodes until the level is in reach of a delta (lfunc.c:173-176). */
    method AddDummies(level: nat)
      requires Valid() && tbclist.pos < level < top.pos
      modifies this`tbclist, stack
      ensures Points(tbclist) && old(tbclist.pos) <= tbclist.pos < level <= tbclist.pos + MAXDELTA
      ensures SkipDummies(stack[..], tbclist.pos) == old(tbclist.pos)
      ensures forall i :: 0 <= i < stack.Length ==> stack[i].val == old(stack[i].val)
      ensures forall i :: 0 <= i <= old(tbclist.pos) ==> stack[i].delta == old(stack[i].delta)
    {
      assert Open(0);
      ghost var p := tbclist.pos;
      while level - tbclist.pos > MAXDELTA
        invariant Points(tbclist) && p <= tbclist.pos < level && SkipDummies(stack[..], tbclist.pos) == p
        invariant forall i :: 0 <= i < stack.Length ==> stack[i].val == old(stack[i].val)
        invariant forall i :: 0 <= i <= p ==> stack[i].delta == old(stack[i].delta)
        decreases level - tbclist.pos
      {
        ghost var cells, q := stack[..], tbclist.pos;
        tbclist := At(stack, tbclist.pos + MAXDELTA);
        stack[tbclist.pos] := stack[tbclist.pos].(delta := 0);
        SkipSame(cells, stack[..], q);
      }
    }

    /** Inserts a variable in the list; false values need no closing, others need a closing method (lfunc.c:168-179). */
    method NewTbcUpval(level: nat, closable: bool) returns (ok: bool)
      requires Valid() && tbclist.pos < level < top.pos
      modifies this`tbclist, this`pending, stack
      ensures Valid() && forall i :: 0 <= i < stack.Length ==> stack[i].val == old(stack[i].val)
      ensures var skip := old(stack[level].val) == Nil || old(stack[level].val) == False;
        ok == (skip || closable) && pending == if skip || !closable then old(pending) else old(pending) + [level]
    {
      if stack[level].val == Nil || stack[level].val == False {
        return true;
      }
      if !closable {
        return false;
      }
      assert Open(0);
      ghost var before := stack[..];
      AddDummies(level);
      ghost var cells, q := stack[..], tbclist.pos;
      stack[level] := stack[level].(delta := level - tbclist.pos);
      tbclist := At(stack, level);
      pending := pending + [level];
      TbcPushed(before, cells, stack[..], old(tbclist.pos), q, level, old(pending));
      ok := true;
    }

    /** Removes the first variable of the list, with its dummy nodes (lfunc.c:213-220). */
    method PopTbcList()
      requires Valid() && pending != []
      modifies this`tbclist, this`pending
      ensures Valid() && pending == old(pending)[..|old(pending)| - 1]
      ensures tbclist.pos < old(tbclist.pos) && tbclist.pos == if pending == [] then 0 else pending[|pending| - 1]
    {
      assert Open(0);
      var tbc := tbclist.pos - stack[tbclist.pos].delta;
      ghost var p := SkipDummies(stack[..], tbc);
      while tbc > 0 && stack[tbc].delta == 0
        invariant pending == old(pending) && tbclist == old(tbclist) && 0 <= tbc < tbclist.pos
        invariant SkipDummies(stack[..], tbc) == p && IsTbcList(stack[..], p, pending[..|pending| - 1])
        decreases tbc
      {
        assert tbc >= MAXDELTA;
        tbc := tbc - MAXDELTA;
      }
      tbclist := At(stack, tbc);
      pending := pending[..|pending| - 1];
    }

    // ----- moving the stack -----

    /** What is in use fits in a stack of a size. */
    predicate Fits(newsize: nat)
      reads this
    {
      && newsize > 0 && (top.At? ==> top.pos < newsize + EXTRA_STACK)
      && (tbclist.At? ==> tbclist.pos < newsize + EXTRA_STACK)
      && forall i {:trigger frames[i]} :: 0 <= i < |frames| ==>
          (frames[i].func.At? ==> frames[i].func.pos < newsize + EXTRA_STACK) &&
            (frames[i].top.At? ==> frames[i].top.pos < newsize + EXTRA_STACK)
    }

    /** Changes all pointers to the stack into offsets (ldo.c:162-173). */
    method RelStack()
      requires Valid()
      modifies this`top, this`tbclist, this`frames, openupval
      ensures top == Offset(old(top.pos)) && tbclist == Offset(old(tbclist.pos))
      ensures |frames| == |old(frames)| && forall i {:trigger frames[i]} :: 0 <= i < |frames| ==>
        frames[i] == CallInfo(Offset(old(frames)[i].func.pos), Offset(old(frames)[i].top.pos))
      ensures forall i :: 0 <= i < |openupval| ==>
        openupval[i].v == Offset(old(openupval[i].v.pos)) && openupval[i].value == old(openupval[i].value)
    {
      top, tbclist := Offset(top.pos), Offset(tbclist.pos);
      ghost var o := openupval;
      assert forall i, j :: 0 <= i < j < |o| ==> o[i] != o[j];
      for k := 0 to |openupval|
        invariant top == Offset(old(top.pos)) && tbclist == Offset(old(tbclist.pos)) && frames == old(frames)
        invariant forall i :: 0 <= i < k ==> openupval[i].v == Offset(old(openupval[i].v.pos))
        invariant forall i :: k <= i < |openupval| ==> openupval[i].v == old(openupval[i].v)
        invariant forall i :: 0 <= i < |openupval| ==> openupval[i].value == old(openupval[i].value)
      {
        openupval[k].v := Offset(openupval[k].v.pos);
      }
      var fs: seq<CallInfo> := [];
      for k := 0 to |frames|
        invariant top == Offset(old(top.pos)) && tbclist == Offset(old(tbclist.pos)) && frames == old(frames)
        invariant |fs| == k
        invariant forall i {:trigger fs[i]} :: 0 <= i < k ==>
          fs[i] == CallInfo(Offset(frames[i].func.pos), Offset(frames[i].top.pos))
      {
        fs := fs + [CallInfo(Offset(frames[k].func.pos), Offset(frames[k].top.pos))];
      }
      frames := fs;
    }

    /** Changes the offsets back into pointers, now into the present stack (ldo.c:179-192). */
    method CorrectStack()
      requires top.Offset? && tbclist.Offset?
      requires forall i {:trigger frames[i]} :: 0 <= i < |frames| ==> frames[i].func.Offset? && frames[i].top.Offset?
      requires (forall i :: 0 <= i < |openupval| ==> openupval[i].v.Offset?)
      requires forall i, j :: 0 <= i < j < |openupval| ==> openupval[i] != openupval[j]
      modifies this`top, this`tbclist, this`frames, openupval
      ensures top == At(stack, old(top.n)) && tbclist == At(stack, old(tbclist.n))
      ensures |frames| == |old(frames)| && forall i {:trigger frames[i]} :: 0 <= i < |frames| ==>
        frames[i] == CallInfo(At(stack, old(frames)[i].func.n), At(stack, old(frames)[i].top.n))
      ensures forall i :: 0 <= i < |openupval| ==>
        openupval[i].v == At(stack, old(openupval[i].v.n)) && openupval[i].value == old(openupval[i].value)
    {
      top, tbclist := At(stack, top.n), At(stack, tbclist.n);
      for k := 0 to |openupval|
        invariant top == At(stack, old(top.n)) && tbclist == At(stack, old(tbclist.n)) && frames == old(frames)
        invariant forall i :: 0 <= i < k ==> openupval[i].v == At(stack, old(openupval[i].v.n))
        invariant forall i :: k <= i < |openupval| ==> openupval[i].v == old(openupval[i].v)
        invariant forall i :: 0 <= i < |openupval| ==> openupval[i].value == old(openupval[i].value)
      {
        openupval[k].v := At(stack, openupval[k].v.n);
      }
      var fs: seq<CallInfo> := [];
      for k := 0 to |frames|
        invariant top == At(stack, old(top.n)) && tbclist == At(stack, old(tbclist.n)) && frames == old(frames)
        invariant |fs| == k
        invariant forall i {:trigger fs[i]} :: 0 <= i < k ==>
          fs[i] == CallInfo(At(stack, frames[i].func.n), At(stack, frames[i].top.n))
      {
        fs := fs + [CallInfo(At(stack, frames[k].func.n), At(stack, frames[k].top.n))];
      }
      frames := fs;
    }

    /** The stack as it was, in a block of another size. */
    method Reallocated(newsize: nat) returns (s: array<Cell>)
      requires Valid()
      ensures fresh(s) && s.Length == newsize + EXTRA_STACK
      ensures forall i :: 0 <= i < s.Length ==> s[i] == if i < stack.Length then stack[i] else Cell(Nil, 0)
    {
      s := new Cell[newsize + EXTRA_STACK](i => Cell(Nil, 0));
      for k := 0 to s.Length
        invariant forall i :: 0 <= i < k ==> s[i] == if i < stack.Length then stack[i] else Cell(Nil, 0)
        invariant forall i :: k <= i < s.Length ==> s[i] == Cell(Nil, 0)
      {
        if k < stack.Length {
          s[k] := stack[k];
        }
      }
    }

    /** What the program can see of a thread: positions, values in use, and the values of captured variables. */
    twostate predicate SamePositions()
      reads this, openupval
    {
      && top.At? && old(top).At? && top.pos == old(top.pos) && tbclist.At? && old(tbclist).At?
      && tbclist.pos == old(tbclist.pos)
      && |frames| == |old(frames)|
      && (forall i {:trigger frames[i]} :: 0 <= i < |frames| ==>
            frames[i].func.At? && frames[i].top.At? && old(frames)[i].func.At? && old(frames)[i].top.At?
            && frames[i].func.pos == old(frames)[i].func.pos && frames[i].top.pos == old(frames)[i].top.pos)
      && openupval == old(openupval) && pending == old(pending)
      && (forall i {:trigger openupval[i]} :: 0 <= i < |openupval| ==>
            openupval[i].v.At? && old(openupval[i].v).At? && openupval[i].v.pos == old(openupval[i].v.pos) &&
              openupval[i].value == old(openupval[i].value))
    }

    /** The values below the top, and all upvalues, are the same. */
    twostate predicate SameValues()
      reads this, openupval, stack
    {
      && top.At? && old(top).At? && top.pos == old(top.pos) && top.pos <= stack.Length
      && old(top.pos) <= old(stack.Length)
      && stack[..top.pos] == old(stack[..top.pos]) && openupval == old(openupval)
      && (forall i {:trigger openupval[i]} :: 0 <= i < |openupval| ==>
            openupval[i].v.At? && old(openupval[i].v).At? && openupval[i].v.pos == old(openupval[i].v.pos) &&
              openupval[i].value == old(openupval[i].value))
    }

    /** Makes a block the stack and all pointers lead into it, by way of offsets. */
    method MovePointers(s: array<Cell>, newsize: nat)
      requires Valid() && s.Length == newsize + EXTRA_STACK && Fits(newsize)
      requires forall i :: 0 <= i < s.Length && i < stack.Length ==> s[i] == stack[i]
      modifies this`stack, this`size, this`top, this`tbclist, this`frames, openupval
      ensures Valid() && SamePositions() && stack == s && size == newsize
    {
      ghost var p, cells := tbclist.pos, stack[..];
      assert IsTbcList(cells, p, pending) by { assert Open(0); }
      TurnPointers(s, newsize);
      TbcSame(cells, stack[..], p, pending);
    }

    method TurnPointers(s: array<Cell>, newsize: nat)
      requires Valid() && s.Length == newsize + EXTRA_STACK
      modifies this`stack, this`size, this`top, this`tbclist, this`frames, openupval
      ensures SamePositions() && stack == s && size == newsize && top.block == s && tbclist.block == s
      ensures forall i {:trigger frames[i]} :: 0 <= i < |frames| ==>
        frames[i].func.block == s && frames[i].top.block == s
      ensures forall i {:trigger openupval[i]} :: 0 <= i < |openupval| ==> openupval[i].v.block == s
    {
      assert forall i, j :: 0 <= i < j < |openupval| ==> openupval[i] != openupval[j];
      RelStack();
      stack, size := s, newsize;
      CorrectStack();
    }

    /** Reallocates the stack; if there is no memory the old one is kept (ldo.c:219-242). All pointers lead to the same
        positions of the new block, whose slots have the values of the old one. */
    method ReallocStack(newsize: nat, nomemory: bool) returns (ok: bool)
      requires Valid() && Fits(newsize)
      modifies this`stack, this`size, this`top, this`tbclist, this`frames, openupval
      ensures Valid() && SamePositions() && ok == !nomemory
      ensures if ok then fresh(stack) && size == newsize else stack == old(stack) && size == old(size)
      ensures forall i :: 0 <= i < stack.Length ==> stack[i] == if i < old(stack.Length) then old(stack[i])
        else Cell(Nil, 0)
    {
      if nomemory {
        MovePointers(stack, size);
        return false;
      }
      var newstack := Reallocated(newsize);
      MovePointers(newstack, newsize);
      ok := true;
    }

    /** Every variable that an upvalue captured has the value it had. */
    method MoveStack(newsize: nat, nomemory: bool)
      requires Valid() && Fits(newsize)
      modifies this`stack, this`size, this`top, this`tbclist, this`frames, openupval
      ensures Valid() && SamePositions() && SameValues() && (stack == old(stack) || fresh(stack))
      ensures size == if nomemory then old(size) else newsize
      ensures forall i :: 0 <= i < |openupval| ==> ValueOf(openupval[i]) == old(ValueOf(openupval[i]))
    {
      var _ := ReallocStack(newsize, nomemory);
      forall i | 0 <= i < |openupval| ensures ValueOf(openupval[i]) == old(ValueOf(openupval[i])) {
        assert openupval[i].v.pos < top.pos && old(openupval[i].v.pos) < old(stack.Length);
      }
    }

    /** Makes room for `n` more values, or reports an overflow: an error while one is being handled is final
        (ldo.c:249-276). */
    method GrowStack(n: nat, nomemory: bool) returns (r: Growth)
      requires Valid()
      modifies this`stack, this`size, this`top, this`tbclist, this`frames, openupval
      ensures Valid() && SamePositions() && size >= old(size)
      ensures r == Grown ==> top.pos + n <= size <= LUAI_MAXSTACK && !nomemory
      ensures r == Grown ==> size == top.pos + n || size == if 2 * old(size) > LUAI_MAXSTACK then LUAI_MAXSTACK
        else 2 * old(size)
      ensures r == Grown ==> size >= 2 * old(size) || size == LUAI_MAXSTACK
      ensures r == Grown || r == NoMemory ==> old(size) <= LUAI_MAXSTACK
      ensures (r == NoMemory ==> nomemory) && (stack == old(stack) || fresh(stack))
      ensures r == Overflow <==> old(size) <= LUAI_MAXSTACK && (n >= LUAI_MAXSTACK || top.pos + n > LUAI_MAXSTACK)
      ensures r == Overflow && !nomemory ==> size == ERRORSTACKSIZE
      ensures r == NoMemory || nomemory || r == ErrorInHandler ==> size == old(size)
      ensures r == ErrorInHandler <==> old(size) > LUAI_MAXSTACK
      ensures forall i :: 0 <= i < old(stack.Length) ==> i < stack.Length && stack[i] == old(stack[i])
    {
      if size > LUAI_MAXSTACK {
        return ErrorInHandler;
      }
      if n < LUAI_MAXSTACK {
        var newsize := 2 * size;
        var needed := top.pos + n;
        if newsize > LUAI_MAXSTACK {
          newsize := LUAI_MAXSTACK;
        }
        if newsize < needed {
          newsize := needed;
        }
        if newsize <= LUAI_MAXSTACK {
          var ok := ReallocStack(newsize, nomemory);
          return if ok then Grown else NoMemory;
        }
      }
      var _ := ReallocStack(ERRORSTACKSIZE, nomemory);
      r := Overflow;
    }

    /** How much of the stack is in use: up to the highest top of a call frame, and no less than a minimum. */
    ghost predicate InUse(res: nat)
      requires Valid()
      reads this, openupval, stack
    {
      && res >= LUA_MINSTACK && top.pos < res && (forall i :: 0 <= i < |frames| ==> frames[i].top.pos < res)
      && (res == LUA_MINSTACK || res == top.pos + 1 ||
        exists i :: 0 <= i < |frames| && res == frames[i].top.pos + 1)
    }

    /** Computes it (ldo.c:283-295). */
    method StackInUse() returns (res: nat)
      requires Valid()
      ensures InUse(res)
    {
      var lim := top.pos;
      for i := 0 to |frames|
        invariant top.pos <= lim && forall k :: 0 <= k < i ==> frames[k].top.pos <= lim
        invariant lim == top.pos || exists k :: 0 <= k < i && lim == frames[k].top.pos
      {
        if lim < frames[i].top.pos {
          lim := frames[i].top.pos;
        }
      }
      res := lim + 1;
      if res < LUA_MINSTACK {
        res := LUA_MINSTACK;
      }
    }

    /** Reduces a stack that is more than three times as large as what is in use to twice that, and one that grew for
        an error to the regular limit, but never one in which the error is still handled (ldo.c:307-319). */
    method ShrinkStack(nomemory: bool) returns (ghost inuse: nat)
      requires Valid() && forall i :: 0 <= i < |frames| ==> frames[i].func.pos <= frames[i].top.pos
      modifies this`stack, this`size, this`top, this`tbclist, this`frames, openupval
      ensures Valid() && SamePositions() && old(InUse(inuse)) && size <= old(size)
      ensures inuse > LUAI_MAXSTACK || nomemory ==> size == old(size)
      ensures inuse <= LUAI_MAXSTACK && !nomemory ==>
        size <= 3 * inuse && size <= LUAI_MAXSTACK && (size == old(size) || size == 2 * inuse || size == LUAI_MAXSTACK)
      ensures old(size) <= 3 * inuse && old(size) <= LUAI_MAXSTACK ==> size == old(size)
      ensures top.pos < size || size == old(size)
      ensures forall i :: 0 <= i < top.pos ==> i < stack.Length && i < old(stack.Length) && stack[i] == old(stack[i])
    {
      var used := StackInUse();
      inuse := used;
      var max := if used > LUAI_MAXSTACK / 3 then LUAI_MAXSTACK else used * 3;
      if used <= LUAI_MAXSTACK && size > max {
        var nsize := if used > LUAI_MAXSTACK / 2 then LUAI_MAXSTACK else used * 2;
        var _ := ReallocStack(nsize, nomemory);
      }
    }

    // ----- leaving a scope -----

    /** Closes the newest pending variable: its method is called after it left the list, and may move the stack. */
    method CloseNext(newsize: nat) returns (tbc: nat)
      requires Valid() && pending != []
      modifies this`stack, this`size, this`top, this`tbclist, this`frames, this`pending, openupval
      ensures Valid() && openupval == old(openupval) && pending == old(pending)[..|old(pending)| - 1]
      ensures tbc == old(pending)[|old(pending)| - 1]
      ensures SameValues() && (stack == old(stack) || fresh(stack)) && (size == old(size) || size <= LUAI_MAXSTACK)
    {
      HeadIsLast(stack[..]);
      tbc := tbclist.pos;
      PopTbcList();
      CallClose(newsize);
    }

    /** Closes all upvalues and all pending variables down to a level, the newest first (lfunc.c:227-237). Each
        closing method may move the stack: `moves` gives the sizes it then gets. The level is kept as an offset.
        Variables `m` on were pending at the level or above; the first `n` upvalues were open there. Every upvalue,
        closed or still open, has the value it had, and so have the slots below the top. */
    method Close(level: nat, moves: seq<nat>) returns (closed: seq<nat>, ghost m: nat, ghost n: nat)
      requires Valid() && 0 < level
      modifies this`stack, this`size, this`top, this`tbclist, this`frames, this`pending, this`openupval, openupval
      ensures Valid() && top.pos == old(top.pos) && stack[..top.pos] == old(stack[..top.pos])
      ensures forall i :: 0 <= i < |openupval| ==> openupval[i].v.pos < level
      ensures m <= |old(pending)| && pending == old(pending)[..m] && closed == Reversed(old(pending)[m..])
      ensures forall i :: 0 <= i < |old(pending)| ==> (old(pending)[i] >= level <==> i >= m)
      ensures n <= |old(openupval)| && openupval == old(openupval)[n..]
      ensures (stack == old(stack) || fresh(stack)) && (size == old(size) || size <= LUAI_MAXSTACK)
      ensures forall i :: 0 <= i < n ==> old(openupval[i].v.pos) >= level && old(openupval)[i].v == Own
      ensures forall i :: n <= i < |old(openupval)| ==>
        old(openupval)[i].v.At? && old(openupval)[i].v.pos == old(openupval[i].v.pos) < level
      ensures forall i :: 0 <= i < |old(openupval)| ==> ValueOf(old(openupval)[i]) == old(ValueOf(openupval[i]))
    {
      ghost var o := openupval;
      n := CloseUpval(level);
      ghost var low := openupval;
      forall i | 0 <= i < |low| ensures low[i].v.pos < level && low[i] == o[n + i] {}

      closed, m := CloseTbc(level, moves);
      forall i | 0 <= i < |o| ensures ValueOf(o[i]) == old(ValueOf(openupval[i])) {
        if i >= n {
          assert low[i - n] == o[i];
          assert low[i - n].v.pos < top.pos &&
            stack[..top.pos][low[i - n].v.pos] == old(stack[..top.pos])[low[i - n].v.pos];
        }
      }
    }

    /** Closes the pending variables; there are no open upvalues at the level or above. */
    method CloseTbc(level: nat, moves: seq<nat>) returns (closed: seq<nat>, ghost m: nat)
      requires Valid() && 0 < level && forall i :: 0 <= i < |openupval| ==> openupval[i].v.pos < level
      modifies this`stack, this`size, this`top, this`tbclist, this`frames, this`pending, openupval
      ensures Valid() && SameValues() && (stack == old(stack) || fresh(stack))
      ensures (size == old(size) || size <= LUAI_MAXSTACK)
      ensures m <= |old(pending)| && pending == old(pending)[..m] && closed == Reversed(old(pending)[m..])
      ensures forall i :: 0 <= i < |old(pending)| ==> (old(pending)[i] >= level <==> i >= m)
    {
      ghost var before := pending;
      m := |pending|;
      closed := [];
      while tbclist.pos >= level
        invariant Valid() && 0 <= m <= |before| && pending == before[..m] && closed == Reversed(before[m..])
        invariant forall i :: m <= i < |before| ==> before[i] >= level
        invariant SameValues() && (stack == old(stack) || fresh(stack)) && (size == old(size) || size <= LUAI_MAXSTACK)
        decreases m
      {
        HeadIsLast(stack[..]);
        assert before[m - 1..] == [before[m - 1]] + before[m..];
        m := m - 1;
        var tbc := CloseNext(if |closed| < |moves| then moves[|closed|] else 0);
        closed := closed + [tbc];
      }
      PendingBelow(level);
    }

    lemma HeadIsLast(cells: seq<Cell>)
      requires Valid() && cells == stack[..]
      ensures if pending == [] then tbclist.pos == 0 else tbclist.pos == pending[|pending| - 1]
    {
      assert Open(0);
    }

    lemma PendingBelow(level: nat)
      requires Valid() && tbclist.pos < level
      ensures forall i :: 0 <= i < |pending| ==> pending[i] < level
    {
      assert Open(0);
      LastBelow(stack[..], tbclist.pos, pending, level);
    }

    /** What calling a closing method can do to the stack: move it. */
    method CallClose(newsize: nat)
      requires Valid()
      modifies this`stack, this`size, this`top, this`tbclist, this`frames, openupval
      ensures Valid() && SamePositions() && SameValues() && (stack == old(stack) || fresh(stack))
      ensures (size == old(size) || size <= LUAI_MAXSTACK)
    {
      if 0 < newsize <= LUAI_MAXSTACK && top.pos < newsize && tbclist.pos < newsize {
        var fits := FramesFit(newsize);
        if fits {
          MoveStack(newsize, false);
        }
      }
    }

    method FramesFit(newsize: nat) returns (fits: bool)
      requires Valid()
      ensures fits ==> forall i :: 0 <= i < |frames| ==> frames[i].func.pos < newsize && frames[i].top.pos < newsize
    {
      fits := true;
      for i := 0 to |frames|
        invariant fits ==> forall k :: 0 <= k < i ==> frames[k].func.pos < newsize && frames[k].top.pos < newsize
      {
        fits := fits && frames[i].func.pos < newsize && frames[i].top.pos < newsize;
      }
    }
  }

  datatype Growth = Grown | NoMemory | Overflow | ErrorInHandler

  function Reversed(s: seq<nat>): seq<nat> { if s == [] then [] else Reversed(s[1..]) + [s[0]] }

  lemma LastBelow(cells: seq<Cell>, p: nat, pending: seq<nat>, level: nat)
    requires p < |cells| && IsTbcList(cells, p, pending) && p < level
    ensures forall i :: 0 <= i < |pending| ==> pending[i] < level
  {
    TbcAscends(cells, p, pending);
  }
}
