/** Whole runs: a program that works on the stack of its running thread, interleaved in any way with steps of the
    collector. Every value the program uses comes from its stack, and every value it reads goes there. */
module GcProgram {
  import opened GcObjects
  import opened GcWorld
  import opened GcWrites
  import opened GcState
  import opened GcAlloc
  import opened GcMutator
  import opened GcCycle
  import opened GcPhases
  import opened GcSweep
  import opened GcSteps
  import opened GcDriver
  import opened GcStrings
  import opened GcEffects
  import opened GcExact
  import opened Folding

  // ----- what is on the stack -----

  lemma RunningAccessible(w: World)
    requires Sound(w)
    ensures Accessible(w, w.running)
  {
    ReachableStep(w.h, Roots(w), w.running, w.running);
  }

  /** A value read from an accessible object can be used, unless it is an upvalue of a closure. */
  lemma ReadHolds(w: World, o: Ref, v: Value)
    requires Sound(w) && o in w.h && Accessible(w, o) && (v.Obj? ==> Points(w.h, o, v.ref))
    requires !w.h[o].Fn? && (w.h[o].Thread? ==> v in w.h[o].stack)
    ensures Holds(w, v)
  {
    if v.Obj? {
      ReachableStep(w.h, Roots(w), o, v.ref);
      AccessibleAlive(w, v.ref);
      assert Open(0);
    }
  }

  lemma StackHolds(w: World, i: nat)
    requires Sound(w) && i < |Stack(w)|
    ensures Holds(w, Stack(w)[i]) && Safe(w, Stack(w)[i])
  {
    RunningAccessible(w);
    ReadHolds(w, w.running, Stack(w)[i]);
    HeldSafe(w, Stack(w)[i]);
  }

  /** An upvalue of an accessible closure. */
  lemma UpvalHolds(w: World, f: Ref, u: Ref)
    requires Sound(w) && f in w.h && Accessible(w, f) && w.h[f].Fn? && Obj(u) in w.h[f].slots
    ensures u in w.h && Accessible(w, u)
  {
    ReachableStep(w.h, Roots(w), f, u);
    AccessibleAlive(w, u);
  }

  /** A value among the roots. */
  lemma RootHolds(w: World, v: Value)
    requires Sound(w) && (v == w.registry || v in w.mt || v == Obj(w.main))
    ensures Holds(w, v)
  {
    if v.Obj? {
      assert v.ref in Roots(w);
      ReachableStep(w.h, Roots(w), v.ref, v.ref);
      AccessibleAlive(w, v.ref);
      assert Open(0);
    }
  }

  /** Pushes a value that the program holds. */
  method PushValue(g: GlobalState, v: Value)
    requires Sound(g.W()) && Holds(g.W(), v)
    modifies g`heap
    ensures Sound(g.W()) && old(g.running in g.heap && g.heap[g.running].Thread?)
    ensures var th := old(g.heap)[g.running]; g.heap == old(g.heap)[g.running := th.(stack := th.stack + [v])]
  {
    RunningThread(g.W());
    HeldSafe(g.W(), v);
    LevelsLive(g.W(), g.running);
    var th := g.heap[g.running];
    StackStoreSound(g.W(), g.running, th.stack + [v], News(v));
    g.heap := g.heap[g.running := th.(stack := th.stack + [v])];
  }

  // ----- reading -----

  /** What a position of the stack refers to. */
  method Operand(g: GlobalState, i: nat) returns (ok: bool, o: Ref)
    requires Sound(g.W())
    ensures ok ==>
      o in g.heap && o in g.color && Holds(g.W(), Obj(o)) && Safe(g.W(), Obj(o)) &&
      Accessible(g.W(), o) && i < |Stack(g.W())|
    ensures ok ==> Stack(g.W())[i] == Obj(o)
    ensures ok == Arg(g.W(), i).Obj? && (ok ==> Arg(g.W(), i) == Obj(o))
  {
    RunningThread(g.W());
    var st := g.heap[g.running].stack;
    o := g.running;
    ok := i < |st| && st[i].Obj?;
    if ok {
      StackHolds(g.W(), i);
      o := st[i].ref;
    }
  }

  /** Reads from an object, but from no closure. */
  method ReadFrom(g: GlobalState, o: Ref, s: Source) returns (v: Value)
    requires Sound(g.W()) && o in g.heap && Accessible(g.W(), o) && !g.heap[o].Fn?
    ensures Holds(g.W(), v) && v == FieldOf(g.heap, g.heap[o], s)
  {
    v := Nil;
    if g.heap[o].Udata? {
      if s.Metatable? {
        v := g.heap[o].meta;
      } else if s.UserValue? && s.k < |g.heap[o].uservals| {
        v := g.heap[o].uservals[s.k];
      }
      ReadHolds(g.W(), o, v);
    } else if g.heap[o].Rec? {
      if s.Field? && s.k < |g.heap[o].slots| { v := g.heap[o].slots[s.k]; }
      ReadHolds(g.W(), o, v);
    } else if g.heap[o].Thread? {
      if s.OtherStack? && s.k < |g.heap[o].stack| {
        v := g.heap[o].stack[s.k];
        ReadHolds(g.W(), o, v);
      }
    } else if g.heap[o].Table? {
      v := ReadTable(g, o, s);
    }
  }

  method ReadTable(g: GlobalState, o: Ref, s: Source) returns (v: Value)
    requires Sound(g.W()) && o in g.heap && g.heap[o].Table? && Accessible(g.W(), o)
    ensures Holds(g.W(), v) && v == FieldOf(g.heap, g.heap[o], s)
  {
    v := Nil;
    var t := g.heap[o];
    if s.Metatable? {
      v := t.meta;
    } else if s.Item? && s.k < |t.arr| {
      v := t.arr[s.k];
    } else if s.EntryValue? && s.k < |t.nodes| {
      v := t.nodes[s.k].val;
      assert v.Obj? ==> NodeRefers(t.mode, t.nodes[s.k], v.ref);
    } else if s.EntryKey? && s.k < |t.nodes| && t.nodes[s.k].val != Nil && t.nodes[s.k].key.Live? {
      v := t.nodes[s.k].key.v;
      assert v.Obj? ==> NodeRefers(t.mode, t.nodes[s.k], v.ref);
    }
    ReadHolds(g.W(), o, v);
  }

  /** Reads an upvalue of a closure, or its prototype. */
  method ReadUpval(g: GlobalState, f: Ref, k: nat) returns (v: Value)
    requires Sound(g.W()) && f in g.heap && g.heap[f].Fn? && Accessible(g.W(), f) && k < |g.heap[f].slots|
    requires g.heap[f].slots[k].Obj?
    ensures Holds(g.W(), v) && g.heap[f].slots[k].ref in g.heap && v == SlotValue(g.heap, g.heap[f].slots[k].ref)
  {
    v := Nil;
    var u := g.heap[f].slots[k].ref;
    UpvalHolds(g.W(), f, u);
    if g.heap[u].OpenUp? {
      UpvalSlot(g.W(), u);
      v := g.heap[g.heap[u].thread].stack[g.heap[u].level];
      ReadHolds(g.W(), u, v);
    } else if g.heap[u].ClosedUp? {
      v := g.heap[u].v;
      ReadHolds(g.W(), u, v);
    } else if g.heap[u].Rec? {
      v := Obj(u);
      AccessibleAlive(g.W(), u);
    }
  }

  method Read(g: GlobalState, s: Source) returns (v: Value)
    requires Sound(g.W())
    ensures Holds(g.W(), v) && v == Loaded(g.W(), s)
  {
    RunningThread(g.W());
    v := Nil;
    if s.Constant? {
      v := Plain(s.n);
    } else if s.Registry? || s.TypeMetatable? || s.MainThread? {
      v := ReadRoot(g, s);
    } else if s.Copy? {
      v := Value(g, s.i);
    } else if !s.NilValue? {
      v := ReadObject(g, s);
    }
  }

  method ReadObject(g: GlobalState, s: Source) returns (v: Value)
    requires Sound(g.W()) && !s.Constant? && !s.Registry? && !s.TypeMetatable? && !s.MainThread? && !s.Copy?
    requires !s.NilValue?
    ensures Holds(g.W(), v) && v == Loaded(g.W(), s)
  {
    v := Nil;
    var ok, o := Operand(g, s.i);
    if ok {
      if !g.heap[o].Fn? {
        v := ReadFrom(g, o, s);
      } else if s.Upvalue? && s.k < |g.heap[o].slots| && g.heap[o].slots[s.k].Obj? {
        v := ReadUpval(g, o, s.k);
        assert Loaded(g.W(), s) == FieldOf(g.heap, g.heap[o], s);
      }
    }
  }

  method ReadRoot(g: GlobalState, s: Source) returns (v: Value)
    requires Sound(g.W()) && (s.Registry? || s.TypeMetatable? || s.MainThread?)
    ensures Holds(g.W(), v) && v == Loaded(g.W(), s)
  {
    v := if s.Registry? then g.registry else if s.MainThread? then Obj(g.mainthread)
      else if s.k < |g.mt| then g.mt[s.k] else Nil;
    if v != Nil { RootHolds(g.W(), v); }
  }

  // ----- actions -----

  method NewContents(g: GlobalState, kind: Kind) returns (b: Body)
    requires Sound(g.W())
    ensures b == Fresh(g.W(), kind) && NewBody(g.W(), b) && !b.IsUpval()
  {
    match kind {
      case ALongString => b := Str;
      case AUserdata(n) => b := Udata(Nil, Nils(n));
      case AClosure(n) => b := Fn(Nils(n));
      case ARecord(n) => b := Rec(Nils(n));
      case AThread => b := Thread([], {});
      case ATable(mode, i) =>
        var v := Value(g, i);
        b := Table(mode, if mode != Strong && v.Obj? then v else Nil, [], []);
    }
  }

  /** Creates an object. */
  method DoCreate(g: GlobalState, kind: Kind)
    requires Sound(g.W())
    modifies g`heap, g`color, g`allgc, g`newref
    ensures Sound(g.W()) && Effect(old(g.W()), Create(kind), g.W())
  {
    ghost var w := g.W();
    RunningThread(w);
    CreateAndPush(g, kind);
    CreateActs(w, kind, g.W());
  }

  method CreateAndPush(g: GlobalState, kind: Kind)
    requires Sound(g.W()) && g.running in g.heap && g.heap[g.running].Thread?
    modifies g`heap, g`color, g`allgc, g`newref
    ensures Sound(g.W())
    ensures g.heap ==
      Pushed(old(g.heap)[old(g.newref) := Fresh(old(g.W()), kind)], g.running, Obj(old(g.newref)))
  {
    FreshRef(g.W());
    var b := NewContents(g, kind);
    var _ := New(g, b);
  }

  lemma CreateActs(w: World, kind: Kind, w': World)
    requires w.running in w.h && w.h[w.running].Thread? && SameRoots(w, w')
    requires w'.h == Pushed(w.h[w.newref := Fresh(w, kind)], w.running, Obj(w.newref))
    ensures Effect(w, Create(kind), w')
  {
    HeapActs(w, Create(kind), w');
  }

  /** Removes values from the top of the stack, as far as no open upvalue stands for them. */
  method DoPop(g: GlobalState, n: nat)
    requires Sound(g.W())
    modifies g`heap
    ensures Sound(g.W()) && Effect(old(g.W()), Pop(n), g.W())
  {
    ghost var w := g.W();
    RunningThread(w);
    PopIfFree(g, n);
    PopActs(w, n, g.W());
  }

  lemma PopActs(w: World, n: nat, w': World)
    requires w.running in w.h && w.h[w.running].Thread? && SameRoots(w, w')
    requires w'.h == if CanPop(w, n) then Popped(w, n) else w.h
    ensures Effect(w, Pop(n), w')
  {
    HeapActs(w, Pop(n), w');
  }

  function Popped(w: World, n: nat): Heap
    requires w.running in w.h && w.h[w.running].Thread? && n <= |Stack(w)|
  {
    w.h[w.running := w.h[w.running].(stack := Stack(w)[..|Stack(w)| - n])]
  }

  method PopIfFree(g: GlobalState, n: nat)
    requires Sound(g.W()) && g.running in g.heap && g.heap[g.running].Thread?
    modifies g`heap
    ensures Sound(g.W())
    ensures g.heap == if old(CanPop(g.W(), n)) then old(Popped(g.W(), n)) else old(g.heap)
  {
    var st := g.heap[g.running].stack;
    var free := false;
    if n <= |st| { free := NoUpvalAbove(g, |st| - n); }
    if free { PopValues(g, n); }
  }

  method PopValues(g: GlobalState, n: nat)
    requires Sound(g.W()) && g.running in g.heap && g.heap[g.running].Thread? && CanPop(g.W(), n)
    modifies g`heap
    ensures Sound(g.W()) && old(n <= |Stack(g.W())|)
    ensures var th := old(g.heap)[g.running];
      g.heap == old(g.heap)[g.running := th.(stack := th.stack[..|th.stack| - n])]
  {
    var st := g.heap[g.running].stack;
    var rest := st[..|st| - n];
    forall k | 0 <= k < |rest| ensures Holds(g.W(), rest[k]) { StackHolds(g.W(), k); }
    RunningAccessible(g.W());
    SetStack(g, g.running, rest);
  }

  method NoUpvalAbove(g: GlobalState, level: nat) returns (free: bool)
    requires Sound(g.W()) && g.running in g.heap && g.heap[g.running].Thread?
    ensures free <==> forall u :: u in g.heap[g.running].upvals ==>
      u in g.heap && g.heap[u].OpenUp? && g.heap[u].level < level
  {
    LevelsLive(g.W(), g.running);
    free := true;
    var todo := g.heap[g.running].upvals;
    while todo != {}
      invariant todo <= g.heap[g.running].upvals
      invariant free <==> forall u :: u in g.heap[g.running].upvals && u !in todo ==>
        u in g.heap && g.heap[u].OpenUp? && g.heap[u].level < level
      decreases todo
    {
      var u :| u in todo;
      free := free && g.heap[u].level < level;
      todo := todo - {u};
    }
  }

  /** The value at a position of the stack, nil beyond its end. */
  method Value(g: GlobalState, j: nat) returns (v: GcObjects.Value)
    requires Sound(g.W())
    ensures Holds(g.W(), v) && Safe(g.W(), v) && (v.Obj? ==> v.ref in g.heap && Accessible(g.W(), v.ref))
    ensures v == Arg(g.W(), j)
  {
    RunningThread(g.W());
    v := Nil;
    if j < |g.heap[g.running].stack| {
      v := g.heap[g.running].stack[j];
      StackHolds(g.W(), j);
    }
  }

  // ----- stores with a backward barrier -----

  method DoStoreUserValue(g: GlobalState, o: Ref, a: Action)
    requires Sound(g.W()) && o in g.heap && Accessible(g.W(), o) && a.StoreUserValue?
    modifies g`heap, g`color, g`grayagain
    ensures Sound(g.W()) && g.heap == Stored(old(g.W()), o, a)
  {
    var v := Value(g, a.j);
    if g.heap[o].Udata? && a.k < |g.heap[o].uservals| { SetUserValue(g, o, a.k, v); }
  }

  method DoStoreItem(g: GlobalState, o: Ref, a: Action)
    requires Sound(g.W()) && o in g.heap && Accessible(g.W(), o) && a.StoreItem?
    modifies g`heap, g`color, g`grayagain
    ensures Sound(g.W()) && g.heap == Stored(old(g.W()), o, a)
  {
    var v := Value(g, a.j);
    if g.heap[o].Table? && a.k <= |g.heap[o].arr| { SetArray(g, o, a.k, v); }
  }

  method DoStoreEntry(g: GlobalState, o: Ref, a: Action)
    requires Sound(g.W()) && o in g.heap && Accessible(g.W(), o) && a.StoreEntry?
    modifies g`heap, g`color, g`grayagain
    ensures Sound(g.W()) && g.heap == Stored(old(g.W()), o, a)
  {
    var v := Value(g, a.j);
    if g.heap[o].Table? && a.k < |g.heap[o].nodes| && g.heap[o].nodes[a.k].val != Nil { SetEntry(g, o, a.k, v); }
  }

  method DoAddKey(g: GlobalState, o: Ref, a: Action)
    requires Sound(g.W()) && o in g.heap && Accessible(g.W(), o) && a.AddKey?
    modifies g`heap, g`color, g`grayagain
    ensures Sound(g.W()) && g.heap == Stored(old(g.W()), o, a)
  {
    var v, key := Nil, Nil;
    v := Value(g, a.j);
    key := Value(g, a.m);
    if g.heap[o].Table? && a.k <= |g.heap[o].nodes| && (a.k < |g.heap[o].nodes| ==> g.heap[o].nodes[a.k].val == Nil) {
      AddEntry(g, o, a.k, key, v);
    }
  }

  // ----- stores with a forward barrier, or into a stack slot -----

  method DoStoreField(g: GlobalState, o: Ref, a: Action)
    requires Sound(g.W()) && o in g.heap && Accessible(g.W(), o) && a.StoreField?
    modifies g`heap, g`color, g`gray
    ensures Sound(g.W()) && g.heap == Stored(old(g.W()), o, a)
  {
    var v := Value(g, a.j);
    if g.heap[o].Rec? && a.k < |g.heap[o].slots| { SetSlot(g, o, a.k, v); }
  }

  method DoStorePrototype(g: GlobalState, o: Ref, a: Action)
    requires Sound(g.W()) && o in g.heap && Accessible(g.W(), o) && a.StorePrototype?
    modifies g`heap, g`color, g`gray
    ensures Sound(g.W()) && g.heap == Stored(old(g.W()), o, a)
  {
    var v := Value(g, a.j);
    if g.heap[o].Fn? && a.k < |g.heap[o].slots| && v.Obj? && g.heap[v.ref].Rec? { SetSlot(g, o, a.k, v); }
  }

  method DoStoreUpvalue(g: GlobalState, o: Ref, a: Action)
    requires Sound(g.W()) && o in g.heap && Accessible(g.W(), o) && a.StoreUpvalue?
    modifies g`heap, g`color, g`gray
    ensures Sound(g.W()) && g.heap == Stored(old(g.W()), o, a)
  {
    var v := Value(g, a.j);
    if g.heap[o].Fn? && a.k < |g.heap[o].slots| && g.heap[o].slots[a.k].Obj? {
      var u := g.heap[o].slots[a.k].ref;
      UpvalHolds(g.W(), o, u);
      DoStoreUpval(g, u, v);
    }
  }

  /** A closure shares an upvalue of another closure from now on (lapi.c:1453-1461). */
  method JoinUpvalue(g: GlobalState, f: Ref, k: nat, f': Ref, m: nat)
    requires Sound(g.W()) && Accessible(g.W(), f) && Accessible(g.W(), f')
    requires UpvalAt(g.heap, f, k) && UpvalAt(g.heap, f', m)
    modifies g`heap, g`color, g`gray
    ensures Sound(g.W())
    ensures g.heap == old(g.heap)[f := Fn(Put(old(g.heap)[f].slots, k, old(g.heap)[f'].slots[m]))]
  {
    var u := g.heap[f'].slots[m].ref;
    UpvalHolds(g.W(), f', u);
    SetSlot(g, f, k, Obj(u));
  }

  method DoJoin(g: GlobalState, f: Ref, ghost i: nat, k: nat, j: nat, m: nat)
    requires Sound(g.W()) && f in g.heap && Accessible(g.W(), f)
    modifies g`heap, g`color, g`gray
    ensures Sound(g.W()) && g.heap == Stored(old(g.W()), f, JoinUpvalues(i, k, j, m))
  {
    var ok, f' := Operand(g, j);
    if ok && UpvalAt(g.heap, f, k) && UpvalAt(g.heap, f', m) {
      JoinUpvalue(g, f, k, f', m);
    }
  }

  method DoStoreUpval(g: GlobalState, u: Ref, v: GcObjects.Value)
    requires Sound(g.W()) && u in g.heap && Accessible(g.W(), u) && Holds(g.W(), v)
    modifies g`heap, g`color, g`gray
    ensures Sound(g.W()) && g.heap == UpvalStored(old(g.heap), u, v)
  {
    if g.heap[u].OpenUp? {
      SetOpenUpval(g, u, v);
    } else if g.heap[u].ClosedUp? {
      SetClosedUpval(g, u, v);
    }
  }

  method DoStoreMetatable(g: GlobalState, o: Ref, v: GcObjects.Value, hasgc: bool)
    requires Sound(g.W()) && o in g.heap && Safe(g.W(), Obj(o)) && Accessible(g.W(), o) && Holds(g.W(), v)
    modifies g`heap, g`color, g`gray, g`allgc, g`sweep, g`finobj
    ensures Sound(g.W())
    ensures if TakesMetatable(old(g.W()), o, v) then SetsMetatable(old(g.W()), g.W(), o, v, hasgc)
      else g.heap == old(g.heap)
  {
    if g.heap[o].Udata? || (g.heap[o].Table? && g.heap[o].mode == Strong) {
      if v == Nil || (v.Obj? && g.heap[v.ref].Table?) {
        PutMetatable(g, o, v, hasgc);
      }
    }
  }

  method PutMetatable(g: GlobalState, o: Ref, v: GcObjects.Value, hasgc: bool)
    requires Sound(g.W()) && o in g.heap && Safe(g.W(), Obj(o)) && Accessible(g.W(), o) && Holds(g.W(), v)
    requires TakesMetatable(g.W(), o, v)
    modifies g`heap, g`color, g`gray, g`allgc, g`sweep, g`finobj
    ensures Sound(g.W()) && SetsMetatable(old(g.W()), g.W(), o, v, hasgc)
  {
    ghost var w := g.W();
    SetMetatable(g, o, v);
    ghost var w1 := g.W();
    if v != Nil {
      CheckFinalizer(g, o, hasgc);
      MetatablePut(w, w1, g.W(), o, v, hasgc);
    } else {
      MetatableGone(w, w1, o, hasgc);
    }
  }

  lemma MetatableGone(w: World, w1: World, o: Ref, hasgc: bool)
    requires o in w.h && TakesMetatable(w, o, Nil) && w1.h == w.h[o := w.h[o].(meta := Nil)] && w1.finobj == w.finobj
    requires forall x {:trigger Alive(w1, x)} :: Alive(w, x) ==> Alive(w1, x)
    ensures SetsMetatable(w, w1, o, Nil, hasgc)
  {
    forall x | Alive(w, x) ensures x in w1.h { assert Alive(w1, x); }
  }

  lemma MetatablePut(w: World, w1: World, w': World, o: Ref, v: GcObjects.Value, hasgc: bool)
    requires o in w.h && TakesMetatable(w, o, v) && w1.h == w.h[o := w.h[o].(meta := v)] && w'.h.Keys <= w1.h.Keys
    requires w1.finobj == w.finobj && w1.tobefnz == w.tobefnz && v != Nil
    requires forall x {:trigger Alive(w1, x)} :: Alive(w, x) ==> Alive(w1, x)
    requires forall x :: Alive(w1, x) ==> x in w1.h && KeptAlive(w1.h, w'.h, x)
    requires w'.finobj == if hasgc && o !in w1.finobj && o !in w1.tobefnz then [o] + w1.finobj else w1.finobj
    ensures SetsMetatable(w, w', o, v, hasgc)
  {
    forall x | Alive(w, x) ensures x in w1.h && KeptAlive(w1.h, w'.h, x) { assert Alive(w1, x); }
  }

  /** Pushes a value on the stack of another thread ('lua_xmove'). */
  method DoMoveTo(g: GlobalState, o: Ref, a: Action)
    requires Sound(g.W()) && o in g.heap && Accessible(g.W(), o) && a.MoveTo?
    modifies g`heap
    ensures Sound(g.W()) && g.heap == Stored(old(g.W()), o, a)
  {
    var v := Value(g, a.j);
    if g.heap[o].Thread? {
      var st := g.heap[o].stack;
      LevelsLive(g.W(), o);
      forall k | 0 <= k < |st| ensures Holds(g.W(), st[k]) { ReadHolds(g.W(), o, st[k]); }
      SetStack(g, o, st + [v]);
    }
  }

  /** A closure captures a local variable of the running function (lfunc.c:87-99, lvm.c:796-811). */
  method DoCapture(g: GlobalState, f: Ref, k: nat, level: nat)
    requires Sound(g.W()) && f in g.heap && Accessible(g.W(), f)
    modifies g`heap, g`color, g`gray, g`allgc, g`newref, g`twups
    ensures Sound(g.W()) && old(g.running in g.heap && g.heap[g.running].Thread?)
    ensures if old(g.heap)[f].Fn? && k < |old(g.heap)[f].slots| && level < |old(Stack(g.W()))|
      then Captures(old(g.W()), g.W(), f, k, level) else g.heap == old(g.heap)
  {
    RunningThread(g.W());
    if g.heap[f].Fn? && k < |g.heap[f].slots| && level < |g.heap[g.running].stack| {
      RunningAccessible(g.W());
      AccessibleAlive(g.W(), f);
      var u := FindUpval(g, g.running, level);
      CaptureSafe(old(g.W()), g.W(), f, u);
      ghost var w' := g.W();
      StoreSlot(g, f, k, u);
      CaptureDone(old(g.W()), w', g.W(), f, k, level, u);
    }
  }

  lemma CaptureDone(w: World, w1: World, w': World, f: Ref, k: nat, level: nat, u: Ref)
    requires Sound(w) && w.running in w.h && w.h[w.running].Thread? && f in w.h && w.h[f].Fn? && k < |w.h[f].slots|
    requires u in w1.h && w1.h[u] == OpenUp(w.running, level) && f in w1.h && w1.h[f] == w.h[f]
    requires w1 == w || (u !in w.h && w1 == Opened(w, w.running, level)
      && forall x :: x in w.h[w.running].upvals && x in w.h ==> w.h[x] != OpenUp(w.running, level))
    requires w'.h == w1.h[f := Fn(Put(w1.h[f].slots, k, Obj(u)))]
    ensures Captures(w, w', f, k, level)
  {
    if w1 == w {
      UpvalPlace(w, u);
    } else {
      OpenedOnly(w, level, u);
    }
  }

  lemma OpenedOnly(w: World, level: nat, u: Ref)
    requires w.running in w.h && w.h[w.running].Thread? && u !in w.h && u in Opened(w, w.running, level).h
    ensures u == w.newref
  {
  }

  /** Stores an upvalue into a closure. */
  method StoreSlot(g: GlobalState, f: Ref, k: nat, u: Ref)
    requires Sound(g.W()) && f in g.heap && g.heap[f].Fn? && k < |g.heap[f].slots| && Alive(g.W(), u) && u !in g.garbage
    modifies g`heap, g`color, g`gray
    ensures Sound(g.W()) && g.heap == old(g.heap)[f := Fn(Put(old(g.heap)[f].slots, k, Obj(u)))]
  {
    var b := g.heap[f].(slots := Put(g.heap[f].slots, k, Obj(u)));
    UpvalSlotStores(g.W(), f, k, u);
    StoreBreaches(g.W(), f, b, Obj(u), {});
    g.heap := g.heap[f := b];
    Barrier(g, f, Obj(u));
  }

  lemma UpvalSlotStores(w: World, f: Ref, k: nat, u: Ref)
    requires Sound(w) && f in w.h && w.h[f].Fn? && k < |w.h[f].slots| && Alive(w, u) && u !in w.garbage
    ensures Stores(w, f, w.h[f].(slots := Put(w.h[f].slots, k, Obj(u))), Obj(u), {})
  {
    var b := w.h[f].(slots := Put(w.h[f].slots, k, Obj(u)));
    MetaKept(w, f, b);
    forall r | Points(w.h[f := b], f, r) ensures Points(w.h, f, r) || r in News(Obj(u)) + {} {
      PutIn(w.h[f].slots, k, Obj(u), r);
    }
  }

  lemma CaptureSafe(w: World, w': World, f: Ref, u: Ref)
    requires Sound(w) && Sound(w') && w.running in w.h && w.h[w.running].Thread? && f in w.h && w.h[f].Fn?
    requires u in w'.h && w'.h[u].OpenUp? && w'.h[u].thread == w.running
    requires w' == w || (u !in w.h && exists level: nat :: w' == Opened(w, w.running, level) && u == w.newref)
    ensures f in w'.h && w'.h[f] == w.h[f] && Alive(w', u) && u !in w'.garbage
  {
    OpenedUpval(w', u);
  }

  /** An open upvalue of the running thread is alive. */
  lemma OpenedUpval(w: World, u: Ref)
    requires Sound(w) && u in w.h && w.h[u].OpenUp? && w.h[u].thread == w.running
    ensures Alive(w, u) && u !in w.garbage
  {
    UpvalSlot(w, u);
    RunningAccessible(w);
    assert Points(w.h, w.running, u) by {
      assert Open(0);
      assert SlotOk(w.h, u);
    }
    ReachableStep(w.h, Roots(w), w.running, u);
    AccessibleAlive(w, u);
  }

  /** A closure gets a new closed upvalue (lfunc.c:48-58). */
  method DoFreshUpvalue(g: GlobalState, f: Ref, k: nat)
    requires Sound(g.W()) && f in g.heap && Accessible(g.W(), f)
    modifies g`heap, g`color, g`gray, g`allgc, g`newref
    ensures Sound(g.W())
    ensures g.heap == if old(g.heap)[f].Fn? && k < |old(g.heap)[f].slots|
      then old(g.heap)[old(g.newref) := ClosedUp(Nil)][f := Fn(old(g.heap)[f].slots[k := Obj(old(g.newref))])]
      else old(g.heap)
  {
    if g.heap[f].Fn? && k < |g.heap[f].slots| {
      AccessibleAlive(g.W(), f);
      FreshRef(g.W());
      var u := NewObject(g, ClosedUp(Nil));
      StoreSlot(g, f, k, u);
    }
  }

  /** Closes one open upvalue of the running thread. */
  method CloseOwn(g: GlobalState, u: Ref)
    requires Sound(g.W()) && g.running in g.heap && g.heap[g.running].Thread? && u in g.heap[g.running].upvals
    modifies g`heap, g`color, g`gray
    ensures Sound(g.W()) && CanClose(old(g.heap), u) && old(g.heap)[u].thread == g.running && u != g.running
    ensures g.heap == CloseIn(old(g.heap), u)
  {
    UpvalsOf(g.W(), g.running);
    CloseUpval(g, u);
  }

  /** Closes the open upvalues of the running thread down to a level (lfunc.c:193-207). */
  method DoCloseLevel(g: GlobalState, level: nat)
    requires Sound(g.W())
    modifies g`heap, g`color, g`gray
    ensures Sound(g.W()) && Effect(old(g.W()), CloseLevel(level), g.W())
  {
    ghost var w := g.W();
    RunningThread(w);
    CloseDown(g, level);
    HeapActs(w, CloseLevel(level), g.W());
  }

  method CloseDown(g: GlobalState, level: nat)
    requires Sound(g.W()) && g.running in g.heap && g.heap[g.running].Thread?
    modifies g`heap, g`color, g`gray
    ensures Sound(g.W())
    ensures g.heap == ClosedAll(old(g.heap), g.running, OpenFrom(old(g.heap), g.running, level))
  {
    LevelsLive(g.W(), g.running);
    NoneClosed(g.heap, g.running);
    var todo := g.heap[g.running].upvals;
    ghost var us := {};
    while todo != {}
      invariant Sound(g.W()) && todo <= old(g.heap)[g.running].upvals - us
      invariant us <= OpenFrom(old(g.heap), g.running, level) && g.heap == ClosedAll(old(g.heap), g.running, us)
      invariant forall u :: u in OpenFrom(old(g.heap), g.running, level) && u !in todo ==> u in us
      decreases todo
    {
      var u :| u in todo;
      if g.heap[u].level >= level {
        CloseOwn(g, u);
        OneMoreClosed(old(g.heap), g.running, us, u);
        us := us + {u};
      }
      todo := todo - {u};
    }
    assert us == OpenFrom(old(g.heap), g.running, level);
  }

  lemma NoneClosed(h: Heap, th: Ref)
    requires th in h && h[th].Thread?
    ensures h == ClosedAll(h, th, {})
  {
    assert h[th].(upvals := h[th].upvals - {}) == h[th];
  }

  lemma OneMoreClosed(h: Heap, th: Ref, us: set<Ref>, u: Ref)
    requires th in h && h[th].Thread? && u in h[th].upvals && u in h && u !in us && u != th
    requires h[u].OpenUp? && h[u].thread == th && h[u].level < |h[th].stack| && u in ClosedAll(h, th, us)
    requires CanClose(ClosedAll(h, th, us), u)
    ensures CloseIn(ClosedAll(h, th, us), u) == ClosedAll(h, th, us + {u})
  {
    assert h[th].upvals - us - {u} == h[th].upvals - (us + {u});
  }

  // ----- running -----

  method DoStore(g: GlobalState, a: Action, o: Ref)
    requires Sound(g.W()) && a.IsStore() && o in g.heap && Accessible(g.W(), o)
    modifies g`heap, g`color, g`gray, g`grayagain
    ensures Sound(g.W()) && g.heap == Stored(old(g.W()), o, a)
  {
    if a.StoreUserValue? {
      DoStoreUserValue(g, o, a);
    } else if a.StoreItem? {
      DoStoreItem(g, o, a);
    } else if a.StoreEntry? {
      DoStoreEntry(g, o, a);
    } else if a.AddKey? {
      DoAddKey(g, o, a);
    } else if a.StoreField? {
      DoStoreField(g, o, a);
    } else if a.StorePrototype? {
      DoStorePrototype(g, o, a);
    } else if a.StoreUpvalue? {
      DoStoreUpvalue(g, o, a);
    } else if a.JoinUpvalues? {
      DoJoin(g, o, a.i, a.k, a.j, a.m);
    } else {
      DoMoveTo(g, o, a);
    }
  }

  method StoreOn(g: GlobalState, a: Action, o: Ref)
    requires Sound(g.W()) && a.IsStore() && o in g.heap && Safe(g.W(), Obj(o)) && Accessible(g.W(), o)
    requires g.running in g.heap && g.heap[g.running].Thread? && Arg(g.W(), a.i) == Obj(o)
    modifies g`heap, g`color, g`gray, g`grayagain
    ensures Sound(g.W()) && Effect(old(g.W()), a, g.W())
  {
    ghost var w := g.W();
    DoStore(g, a, o);
    StoreEffect(w, a, o, g.W());
  }

  method MetatableOn(g: GlobalState, a: Action, o: Ref)
    requires Sound(g.W()) && a.StoreMetatable? && o in g.heap && Safe(g.W(), Obj(o)) && Accessible(g.W(), o)
    requires g.running in g.heap && g.heap[g.running].Thread? && Arg(g.W(), a.i) == Obj(o)
    modifies g`heap, g`color, g`gray, g`allgc, g`sweep, g`finobj
    ensures Sound(g.W()) && Effect(old(g.W()), a, g.W())
  {
    ghost var w := g.W();
    var v := Value(g, a.j);
    DoStoreMetatable(g, o, v, a.hasgc);
    MetatableActs(w, a, o, g.W());
  }

  method ResizeOn(g: GlobalState, a: Action, o: Ref)
    requires Sound(g.W()) && a.ResizeTable? && o in g.heap && Safe(g.W(), Obj(o)) && Accessible(g.W(), o)
    requires g.running in g.heap && g.heap[g.running].Thread? && Arg(g.W(), a.i) == Obj(o)
    modifies g`heap
    ensures Sound(g.W()) && Effect(old(g.W()), a, g.W())
  {
    ghost var w := g.W();
    if g.heap[o].Table? { Resize(g, o, a.asize); }
    ObjectActs(w, a, o, g.W());
  }

  method CaptureOn(g: GlobalState, a: Action, o: Ref)
    requires Sound(g.W()) && a.Capture? && o in g.heap && Safe(g.W(), Obj(o)) && Accessible(g.W(), o)
    requires g.running in g.heap && g.heap[g.running].Thread? && Arg(g.W(), a.i) == Obj(o)
    modifies g`heap, g`color, g`gray, g`allgc, g`newref, g`twups
    ensures Sound(g.W()) && Effect(old(g.W()), a, g.W())
  {
    ghost var w := g.W();
    DoCapture(g, o, a.k, a.level);
    CaptureActs(w, a, o, g.W());
  }

  method FreshOn(g: GlobalState, a: Action, o: Ref)
    requires Sound(g.W()) && a.FreshUpvalue? && o in g.heap && Safe(g.W(), Obj(o)) && Accessible(g.W(), o)
    requires g.running in g.heap && g.heap[g.running].Thread? && Arg(g.W(), a.i) == Obj(o)
    modifies g`heap, g`color, g`gray, g`allgc, g`newref
    ensures Sound(g.W()) && Effect(old(g.W()), a, g.W())
  {
    ghost var w := g.W();
    DoFreshUpvalue(g, o, a.k);
    FreshActs(w, a, o, g.W());
  }

  /** An action on the upvalues of a closure. */
  method DoUpvalue(g: GlobalState, a: Action, o: Ref)
    requires Sound(g.W()) && (a.Capture? || a.FreshUpvalue?) && o in g.heap && Safe(g.W(), Obj(o))
    requires Accessible(g.W(), o)
    requires g.running in g.heap && g.heap[g.running].Thread? && Arg(g.W(), a.i) == Obj(o)
    modifies g`heap, g`color, g`gray, g`allgc, g`newref, g`twups
    ensures Sound(g.W()) && Effect(old(g.W()), a, g.W())
  {
    if a.Capture? {
      CaptureOn(g, a, o);
    } else {
      FreshOn(g, a, o);
    }
  }

  /** An action on a whole table, or the metatable of an object. */
  method DoTable(g: GlobalState, a: Action, o: Ref)
    requires Sound(g.W()) && (a.StoreMetatable? || a.ResizeTable?) && o in g.heap && Safe(g.W(), Obj(o))
    requires Accessible(g.W(), o)
    requires g.running in g.heap && g.heap[g.running].Thread? && Arg(g.W(), a.i) == Obj(o)
    modifies g`heap, g`color, g`gray, g`allgc, g`sweep, g`finobj
    ensures Sound(g.W()) && Effect(old(g.W()), a, g.W())
  {
    if a.StoreMetatable? {
      MetatableOn(g, a, o);
    } else {
      ResizeOn(g, a, o);
    }
  }

  method DoObject(g: GlobalState, a: Action, o: Ref)
    requires Sound(g.W()) && OnObject(a) && o in g.heap && Safe(g.W(), Obj(o)) && Accessible(g.W(), o)
    requires g.running in g.heap && g.heap[g.running].Thread? && Arg(g.W(), a.i) == Obj(o)
    modifies g`heap, g`color, g`gray, g`grayagain, g`twups, g`allgc, g`sweep, g`finobj, g`newref
    ensures Sound(g.W()) && Effect(old(g.W()), a, g.W())
  {
    if a.IsStore() {
      StoreOn(g, a, o);
    } else if a.Capture? || a.FreshUpvalue? {
      DoUpvalue(g, a, o);
    } else {
      DoTable(g, a, o);
    }
  }

  lemma MetatableActs(w: World, a: Action, o: Ref, w': World)
    requires w.running in w.h && w.h[w.running].Thread? && a.StoreMetatable? && o in w.h && Arg(w, a.i) == Obj(o)
    requires SameRoots(w, w')
    requires if TakesMetatable(w, o, Arg(w, a.j)) then SetsMetatable(w, w', o, Arg(w, a.j), a.hasgc) else w'.h == w.h
    ensures Effect(w, a, w')
  {
    ObjectActs(w, a, o, w');
  }

  lemma CaptureActs(w: World, a: Action, o: Ref, w': World)
    requires w.running in w.h && w.h[w.running].Thread? && a.Capture? && o in w.h && Arg(w, a.i) == Obj(o)
    requires SameRoots(w, w')
    requires if w.h[o].Fn? && a.k < |w.h[o].slots| && a.level < |Stack(w)| then Captures(w, w', o, a.k, a.level)
      else w'.h == w.h
    ensures Effect(w, a, w')
  {
    ObjectActs(w, a, o, w');
  }

  lemma FreshActs(w: World, a: Action, o: Ref, w': World)
    requires w.running in w.h && w.h[w.running].Thread? && a.FreshUpvalue? && o in w.h && Arg(w, a.i) == Obj(o)
    requires SameRoots(w, w')
    requires w'.h == if w.h[o].Fn? && a.k < |w.h[o].slots|
      then w.h[w.newref := ClosedUp(Nil)][o := Fn(w.h[o].slots[a.k := Obj(w.newref)])] else w.h
    ensures Effect(w, a, w')
  {
    ObjectActs(w, a, o, w');
  }

  lemma StoreEffect(w: World, a: Action, o: Ref, w': World)
    requires w.running in w.h && w.h[w.running].Thread? && a.IsStore() && o in w.h && Arg(w, a.i) == Obj(o)
    requires w'.h == Stored(w, o, a) && SameRoots(w, w')
    ensures Effect(w, a, w')
  {
    ObjectActs(w, a, o, w');
  }

  /** An action on an object that the stack refers to. */
  method DoOnObject(g: GlobalState, a: Action)
    requires Sound(g.W()) && OnObject(a)
    modifies g`heap, g`color, g`gray, g`grayagain, g`twups, g`allgc, g`sweep, g`finobj, g`newref
    ensures Sound(g.W()) && Effect(old(g.W()), a, g.W())
  {
    ghost var w := g.W();
    RunningThread(w);
    var ok, o := Operand(g, a.i);
    if ok {
      DoObject(g, a, o);
    } else {
      NothingActs(w, a);
    }
  }

  lemma ObjectActs(w: World, a: Action, o: Ref, w': World)
    requires w.running in w.h && w.h[w.running].Thread? && OnObject(a) && o in w.h && Arg(w, a.i) == Obj(o)
    requires ObjectEffect(w, a, w', o) && SameRoots(w, w')
    ensures Effect(w, a, w')
  {
  }

  lemma NothingActs(w: World, a: Action)
    requires w.running in w.h && w.h[w.running].Thread? && OnObject(a) && !Arg(w, a.i).Obj?
    ensures Effect(w, a, w)
  {
  }

  /** An action on the roots. */
  method DoRoot(g: GlobalState, a: Action)
    requires Sound(g.W()) && (a.StoreRegistry? || a.StoreTypeMetatable? || a.SwitchTo?)
    modifies g`registry, g`mt, g`running
    ensures Sound(g.W()) && Effect(old(g.W()), a, g.W())
  {
    ghost var w := g.W();
    RunningThread(w);
    if a.SwitchTo? {
      var ok, o := Operand(g, a.i);
      if ok && g.heap[o].Thread? { Resume(g, o); }
    } else {
      var v := Value(g, a.j);
      if a.StoreRegistry? {
        SetRegistry(g, v);
      } else if a.k < |g.mt| {
        SetBasicMetatable(g, a.k, v);
      }
    }
    RootsAct(w, a, g.W());
  }

  /** What was garbage when the cycle began is so, but for the string with a content that is interned again. */
  ghost predicate Unrevived(a: Action, w: World, w': World) {
    && NamesKept(w, w') && w'.garbage <= w.garbage
    && forall o :: o in w.garbage && o !in w'.garbage ==> a.Intern? && o in w.names && w.names[o] == a.s
  }

  /** One action of the program or of the collector: its effect on the heap and the roots is what `GcEffects` says, and
      the invariant holds. */
  method Do(g: GlobalState, a: Action)
    requires Sound(g.W())
    modifies g
    ensures Sound(g.W()) && Effect(old(g.W()), a, g.W())
    ensures a.CollectAll? ==> g.phase == Pause && forall o :: o in Unreachable(old(g.W())) ==> o !in g.heap
    ensures !a.CollectAll? && (a.Collect? ==> old(g.phase) != Pause) ==> Unrevived(a, old(g.W()), g.W())
  {
    if a.Collect? {
      DoStep(g, a.emergency);
    } else if a.CollectAll? {
      DoCollectAll(g);
    } else {
      DoMutate(g, a);
    }
  }

  method DoStep(g: GlobalState, emergency: bool)
    requires Sound(g.W())
    modifies g`heap, g`color, g`gray, g`grayagain, g`weak, g`ephemeron, g`allweak, g`twups, g`detached, g`finobj,
      g`tobefnz, g`phase, g`curwhite, g`allgc, g`sweep, g`garbage
    ensures Sound(g.W()) && Effect(old(g.W()), Collect(emergency), g.W())
    ensures old(g.phase) != Pause ==> g.garbage == old(g.garbage)
  {
    ghost var w := g.W();
    SingleStep(g, emergency);
    StepsOpen(w, g.W(), emergency);
    StepActs(w, emergency, g.W());
  }

  method DoCollectAll(g: GlobalState)
    requires Sound(g.W())
    modifies g`heap, g`color, g`gray, g`grayagain, g`weak, g`ephemeron, g`allweak, g`twups, g`detached, g`finobj,
      g`tobefnz, g`phase, g`curwhite, g`allgc, g`sweep, g`garbage
    ensures Sound(g.W()) && Effect(old(g.W()), CollectAll, g.W())
    ensures g.phase == Pause && forall o :: o in Unreachable(old(g.W())) ==> o !in g.heap
  {
    ghost var w := g.W();
    FullGc(g);
    FullActs(w, g.W());
  }

  lemma StepActs(w: World, emergency: bool, w': World)
    requires Sound(w) && SameRoots(w, w') && Steps(w, w', emergency)
    ensures Effect(w, Collect(emergency), w')
  {
  }

  lemma FullActs(w: World, w': World)
    requires Sound(w) && SameRoots(w, w') && StepSafe(w, w') && w'.h.Keys <= w.h.Keys && w'.phase == Pause
    requires Exactly(w, w') && forall o :: o in Unreachable(w) ==> o !in w'.h
    ensures Effect(w, CollectAll, w')
  {
  }

  lemma HeapActs(w: World, a: Action, w': World)
    requires w.running in w.h && w.h[w.running].Thread? && !a.Collect? && !a.CollectAll?
    requires !a.SwitchTo? && !a.StoreRegistry? && !a.StoreTypeMetatable? && SameRoots(w, w') && HeapEffect(w, a, w')
    ensures Effect(w, a, w')
  {
  }

  lemma RootsAct(w: World, a: Action, w': World)
    requires w.running in w.h && w.h[w.running].Thread? && (a.SwitchTo? || a.StoreRegistry? || a.StoreTypeMetatable?)
    requires w'.h == w.h && RootsEffect(w, a, w')
    ensures Effect(w, a, w')
  {
  }

  method DoMutate(g: GlobalState, a: Action)
    requires Sound(g.W()) && !a.Collect? && !a.CollectAll?
    modifies g
    ensures Sound(g.W()) && Effect(old(g.W()), a, g.W())
    ensures Unrevived(a, old(g.W()), g.W())
  {
    if a.Intern? {
      DoIntern(g, a.s);
    } else {
      DoProgram(g, a);
    }
  }

  method DoIntern(g: GlobalState, s: string)
    requires Sound(g.W())
    modifies g`heap, g`color, g`garbage, g`allgc, g`newref, g`names
    ensures Sound(g.W()) && Effect(old(g.W()), Intern(s), g.W()) && Unrevived(Intern(s), old(g.W()), g.W())
  {
    ghost var w := g.W();
    RunningThread(w);
    var o := InternString(g, s);
    assert IsString(g.W(), o, s);
    HeapActs(w, Intern(s), g.W());
  }

  /** An action of the program, other than to intern a string. */
  method DoProgram(g: GlobalState, a: Action)
    requires Sound(g.W()) && !a.Collect? && !a.CollectAll? && !a.Intern?
    modifies g`heap, g`color, g`gray, g`grayagain, g`twups, g`allgc, g`sweep, g`finobj, g`fixedgc, g`running, g`newref,
      g`names, g`registry, g`mt
    ensures Sound(g.W()) && NamesKept(old(g.W()), g.W())
    ensures Effect(old(g.W()), a, g.W())
  {
    if a.StoreRegistry? || a.StoreTypeMetatable? || a.SwitchTo? {
      DoRoot(g, a);
    } else if OnObject(a) {
      DoOnObject(g, a);
    } else {
      DoOwn(g, a);
    }
  }

  /** An action on the stack of the running thread, or one that creates an object. */
  method DoOwn(g: GlobalState, a: Action)
    requires Sound(g.W()) && (a.Load? || a.Pop? || a.CloseLevel? || a.Create? || a.FixString?)
    modifies g`heap, g`color, g`gray, g`allgc, g`fixedgc, g`newref, g`names
    ensures Sound(g.W()) && NamesKept(old(g.W()), g.W())
    ensures Effect(old(g.W()), a, g.W())
  {
    if a.Load? {
      DoLoad(g, a.from);
    } else if a.Pop? {
      DoPop(g, a.n);
    } else if a.Create? {
      DoCreate(g, a.kind);
    } else if a.CloseLevel? {
      DoCloseLevel(g, a.level);
    } else {
      DoFix(g, a.s);
    }
  }

  method DoLoad(g: GlobalState, from: Source)
    requires Sound(g.W())
    modifies g`heap
    ensures Sound(g.W()) && Effect(old(g.W()), Load(from), g.W())
  {
    ghost var w := g.W();
    RunningThread(w);
    var v := Read(g, from);
    PushValue(g, v);
    HeapActs(w, Load(from), g.W());
  }

  method DoFix(g: GlobalState, s: string)
    requires Sound(g.W())
    modifies g`heap, g`color, g`gray, g`allgc, g`fixedgc, g`newref, g`names
    ensures Sound(g.W()) && NamesKept(old(g.W()), g.W())
    ensures Effect(old(g.W()), FixString(s), g.W())
  {
    ghost var w := g.W();
    RunningThread(w);
    KeepString(g, s);
    HeapActs(w, FixString(s), g.W());
  }

  /** The invariant holds; folded. */
  ghost predicate Holding(w: World) { forall k: nat {:trigger Open(k)} :: Open(k) ==> Sound(w) }

  /** The states of a run, one after the other: each action has its effect, and the invariant holds throughout. */
  ghost predicate Traces(script: seq<Action>, trace: seq<World>) {
    && |trace| == |script| + 1 && (forall i {:trigger trace[i]} :: 0 <= i < |trace| ==> Holding(trace[i]))
    && forall i {:trigger script[i]} :: 0 <= i < |script| ==> Effect(trace[i], script[i], trace[i + 1])
  }

  lemma HoldingSound(w: World)
    ensures Holding(w) <==> Sound(w)
  {
    assert Open(0);
  }

  /** All runs: after any sequence of actions of the program and of steps of the collector, in any order, the invariant
      holds, so that nothing the program can reach was freed; and every action on the way had its effect. */
  method Run(g: GlobalState, script: seq<Action>) returns (ghost trace: seq<World>)
    requires Sound(g.W())
    modifies g
    ensures Sound(g.W()) && forall o :: Accessible(g.W(), o) ==> o in g.heap && Alive(g.W(), o)
    ensures Traces(script, trace) && trace[0] == old(g.W()) && trace[|script|] == g.W()
  {
    trace := [g.W()];
    HoldingSound(g.W());
    for i := 0 to |script|
      invariant Sound(g.W()) && Traces(script[..i], trace) && trace[0] == old(g.W()) && trace[i] == g.W()
    {
      Do(g, script[i]);
      HoldingSound(g.W());
      assert script[..i + 1] == script[..i] + [script[i]];
      TraceOn(script[..i], trace, script[i], g.W());
      trace := trace + [g.W()];
    }
    assert script[..|script|] == script;
    AllAccessibleAlive(g.W());
  }

  lemma AllAccessibleAlive(w: World)
    requires Sound(w)
    ensures forall o :: Accessible(w, o) ==> o in w.h && Alive(w, o)
  {
    forall o | Accessible(w, o) ensures Alive(w, o) { AccessibleAlive(w, o); }
  }

  lemma TraceOn(script: seq<Action>, trace: seq<World>, a: Action, w: World)
    requires Traces(script, trace) && Holding(w) && Effect(trace[|script|], a, w)
    ensures Traces(script + [a], trace + [w])
  {
    var t := trace + [w];
    forall i | 0 <= i < |t| ensures Holding(t[i]) { if i < |trace| { assert Holding(trace[i]); } }
    forall i | 0 <= i < |script + [a]| ensures Effect(t[i], (script + [a])[i], t[i + 1]) {
      if i < |script| { assert Effect(trace[i], script[i], trace[i + 1]); }
    }
  }

  /** A string with this content is interned. */
  predicate Interns(script: seq<Action>, names: map<Ref, string>, o: Ref) {
    o in names && exists i {:trigger script[i]} :: 0 <= i < |script| && script[i] == Intern(names[o])
  }

  /** What was unreachable when the cycle began still is. */
  lemma GarbageUnreachable(w: World, o: Ref)
    requires Sound(w) && o in w.garbage && o in w.h
    ensures o in Unreachable(w)
  {
    assert Open(0);
    if Reachable(w.h, Roots(w) + SeqSet(w.finobj), o) {
      ReachableStaysIn(w.h, Roots(w) + SeqSet(w.finobj), (iset x: Ref | x !in w.garbage), o);
    }
  }

  /** What waits to be freed in the cycle: it is garbage, and gone when the cycle has ended. */
  ghost predicate Condemned(w: World, dead: set<Ref>, names: map<Ref, string>, script: seq<Action>) {
    forall k: nat {:trigger Open(k)} :: Open(k) ==> Doomed(w, dead, names, script)
  }

  ghost predicate Doomed(w: World, dead: set<Ref>, names: map<Ref, string>, script: seq<Action>) {
    forall o {:trigger o in dead} :: o in dead && !Interns(script, names, o) ==>
      if w.phase == Pause then o !in w.h else o in w.garbage && SameName(w.names, names, o)
  }

  ghost predicate SameName(names: map<Ref, string>, names': map<Ref, string>, o: Ref) {
    (o in names' <==> o in names) && (o in names ==> names'[o] == names[o])
  }

  lemma FirstCondemned(w: World, dead: set<Ref>)
    requires w.phase != Pause && w.garbage == dead
    ensures Condemned(w, dead, w.names, [])
  {
  }

  lemma LastCondemned(w: World, dead: set<Ref>, names: map<Ref, string>, script: seq<Action>)
    requires Condemned(w, dead, names, script) && w.phase == Pause
    ensures forall o :: o in dead && !Interns(script, names, o) ==> o !in w.h
  {
    assert Open(0);
  }

  lemma GarbageBelow(w: World, o: Ref)
    requires Below(w) && o in w.garbage
    ensures o < w.newref
  {
    assert Open(0);
  }

  lemma FullKeys(w: World, w': World)
    requires Effect(w, CollectAll, w')
    ensures w'.h.Keys <= w.h.Keys
  {
    assert Open(0);
  }

  lemma InternsLonger(script: seq<Action>, names: map<Ref, string>, o: Ref, a: Action)
    requires Interns(script, names, o) || (o in names && a == Intern(names[o]))
    ensures Interns(script + [a], names, o)
  {
    if Interns(script, names, o) {
      var i :| 0 <= i < |script| && script[i] == Intern(names[o]);
      assert (script + [a])[i] == script[i];
    } else {
      assert (script + [a])[|script|] == a;
    }
  }

  lemma StillCondemned(w: World, w': World, dead: set<Ref>, names: map<Ref, string>, script: seq<Action>, a: Action)
    requires Sound(w) && Sound(w') && w.phase != Pause && Condemned(w, dead, names, script)
    requires a.CollectAll? ==> w'.phase == Pause && forall o :: o in Unreachable(w) ==> o !in w'.h
    requires !a.CollectAll? ==> Unrevived(a, w, w')
    requires Effect(w, a, w')
    ensures Condemned(w', dead, names, script + [a])
  {
    if w'.phase == Pause { GarbageFreed(w'); }
    if a.CollectAll? { FullKeys(w, w'); }
    forall o | o in dead && !Interns(script + [a], names, o)
      ensures if w'.phase == Pause then o !in w'.h else o in w'.garbage && SameName(w'.names, names, o)
    {
      if Interns(script, names, o) || (o in names && a == Intern(names[o])) { InternsLonger(script, names, o, a); }
      assert o in w.garbage && SameName(w.names, names, o) by { assert Open(0); }
      GarbageBelow(w, o);
      if a.CollectAll? && o in w.h { GarbageUnreachable(w, o); }
    }
  }

  /** The states of a run inside of a cycle: the first pause, if any, is at its end. */
  ghost predicate Within(script: seq<Action>, trace: seq<World>) {
    Traces(script, trace) && forall i {:trigger trace[i]} :: 0 <= i < |script| ==> trace[i].phase != Pause
  }

  lemma WithinOn(script: seq<Action>, trace: seq<World>, a: Action, w: World)
    requires Within(script, trace) && trace[|script|].phase != Pause && Holding(w) && Effect(trace[|script|], a, w)
    ensures Within(script + [a], trace + [w])
  {
    TraceOn(script, trace, a, w);
  }

  /** What a run inside of a cycle that began at `w` has led to; folded. */
  ghost predicate Cycling(w: World, emergency: bool, script: seq<Action>, trace: seq<World>, w': World) {
    && |trace| == |script| + 1
    && forall k: nat {:trigger Open(k)} :: Open(k) ==>
      && Condemned(w', Unreachable(w), w.names, script) && Within(script, trace) && Steps(w, trace[0], emergency)
      && trace[|script|] == w'
  }

  lemma CyclingFirst(w: World, emergency: bool, w': World)
    requires Sound(w) && w.phase == Pause && Sound(w') && Steps(w, w', emergency) && w'.names == w.names
    ensures Cycling(w, emergency, [], [w'], w')
  {
    var dead, names, trace, none: seq<Action> := Unreachable(w), w.names, [w'], [];
    StepsOpen(w, w', emergency);
    FirstCondemned(w', dead);
    assert Condemned(w', dead, names, none);
    WithinFirst(w');
    CyclingSo(w, emergency, none, trace, w');
  }

  lemma WithinFirst(w: World)
    requires Sound(w)
    ensures Within([], [w])
  {
    HoldingSound(w);
  }

  lemma CyclingSo(w: World, emergency: bool, script: seq<Action>, trace: seq<World>, w': World)
    requires |trace| == |script| + 1 && Condemned(w', Unreachable(w), w.names, script) && Within(script, trace)
    requires Steps(w, trace[0], emergency) && trace[|script|] == w'
    ensures Cycling(w, emergency, script, trace, w')
  {
  }

  lemma CyclingOn(w: World, emergency: bool, script: seq<Action>, trace: seq<World>, w1: World, a: Action, w': World)
    requires Cycling(w, emergency, script, trace, w1) && Sound(w1) && w1.phase != Pause && Sound(w')
    requires Effect(w1, a, w') && (!a.CollectAll? ==> Unrevived(a, w1, w'))
    requires a.CollectAll? ==> w'.phase == Pause && forall o :: o in Unreachable(w1) ==> o !in w'.h
    ensures Cycling(w, emergency, script + [a], trace + [w'], w')
  {
    assert Condemned(w1, Unreachable(w), w.names, script) && Within(script, trace) && trace[|script|] == w1 by {
      assert Open(0);
    }
    StillCondemned(w1, w', Unreachable(w), w.names, script, a);
    HoldingSound(w');
    WithinOn(script, trace, a, w');
    assert Steps(w, trace[0], emergency) by { assert Open(0); }
  }

  lemma CyclingLast(w: World, emergency: bool, script: seq<Action>, trace: seq<World>, w': World)
    requires Cycling(w, emergency, script, trace, w')
    ensures Within(script, trace) && Steps(w, trace[0], emergency) && trace[|script|] == w'
    ensures w'.phase == Pause ==> forall o :: o in Unreachable(w) && !Interns(script, w.names, o) ==> o !in w'.h
  {
    assert Open(0);
    if w'.phase == Pause { LastCondemned(w', Unreachable(w), w.names, script); }
  }

  method DoWithin(g: GlobalState, ghost w: World, emergency: bool, script: seq<Action>, n: nat,
      ghost trace0: seq<World>) returns (ghost trace: seq<World>)
    requires Sound(g.W()) && n < |script| && g.phase != Pause && Cycling(w, emergency, script[..n], trace0, g.W())
    modifies g
    ensures Sound(g.W()) && Cycling(w, emergency, script[..n + 1], trace, g.W())
  {
    var a := script[n];
    ghost var w1, before := g.W(), script[..n];
    assert before + [a] == script[..n + 1];
    Do(g, a);
    trace := trace0 + [g.W()];
    CyclingOn(w, emergency, before, trace0, w1, a, g.W());
  }

  /** Completeness over all runs: a cycle that starts at a pause frees, by the next pause, every object that was
      unreachable when it started, whatever the program does meanwhile, unless it is a string interned again. The run
      stops at the first pause, after `n` actions, or when the script ends; each action had its effect. */
  method RunCycle(g: GlobalState, emergency: bool, script: seq<Action>) returns (n: nat, ghost trace: seq<World>)
    requires Sound(g.W()) && g.phase == Pause
    modifies g
    ensures Sound(g.W()) && n <= |script| && (n == |script| || g.phase == Pause)
    ensures Within(script[..n], trace) && Steps(old(g.W()), trace[0], emergency) && trace[n] == g.W()
    ensures g.phase == Pause ==> forall o :: o in Unreachable(old(g.W())) && !Interns(script[..n], old(g.names), o) ==>
      o !in g.heap
  {
    ghost var w := g.W();
    SingleStep(g, emergency);
    CyclingFirst(w, emergency, g.W());
    n, trace := 0, [g.W()];
    while n < |script| && g.phase != Pause
      invariant Sound(g.W()) && n <= |script| && Cycling(w, emergency, script[..n], trace, g.W())
    {
      trace := DoWithin(g, w, emergency, script, n, trace);
      n := n + 1;
    }
    CyclingLast(w, emergency, script[..n], trace, g.W());
  }

  /** The same from a new state. */
  method RunNew(script: seq<Action>) returns (g: GlobalState, ghost trace: seq<World>)
    ensures fresh(g) && Sound(g.W()) && forall o :: Accessible(g.W(), o) ==> o in g.heap && Alive(g.W(), o)
    ensures Traces(script, trace) && trace[0] == InitialWorld() && trace[|script|] == g.W()
  {
    g := new GlobalState();
    InitialSound();
    trace := Run(g, script);
  }
}
