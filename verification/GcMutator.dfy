/** What the program does to the heap, through the barriers: the write sites of lapi.c and lfunc.c, and the
    operations of lgc.c that the program calls. */
module GcMutator {
  import opened GcObjects
  import opened GcTables
  import opened GcMarking
  import opened GcWorld
  import opened GcWrites
  import opened GcState
  import opened GcAlloc
  import opened Folding

  /** The forward barrier: 'luaC_objbarrier' and 'luaC_barrier_' (lgc.h:175-180, lgc.c:208-223). */
  method Barrier(g: GlobalState, o: Ref, v: Value)
    requires Breached(g.W(), o, v)
    modifies g`color, g`gray
    ensures Sound(g.W())
    ensures forall x {:trigger Alive(g.W(), x)} :: Alive(old(g.W()), x) ==> Alive(g.W(), x)
    ensures MarksFrom(g.heap, old(g.color), RefsOf([v]), g.color)
    ensures !InMark(g.phase) ==> g.gray == old(g.gray)
    ensures !InMark(g.phase) && o in old(g.color) ==>
      g.color == old(g.color) || (old(g.color)[o] == Black && g.color == old(g.color)[o := g.curwhite])
  {
    ghost var w := g.W();
    if v.Obj? && g.color[o] == Black && IsWhite(g.color[v.ref]) {
      NoBlackAtRest(w, o, v);
      if InMark(g.phase) {
        MarkReferent(g, o, v);
      } else {
        assert InSweep(g.phase);
        ForwardSwept(w, o, v);
        g.color := g.color[o := g.curwhite];
        FewerMarked(g.heap, w.c, RefsOf([v]), g.color);
      }
    } else {
      NotBreached(w, o, v);
      FewerMarked(g.heap, w.c, RefsOf([v]), g.color);
    }
  }

  /** Marks the object, and what the rules call for. */
  method MarkReferent(g: GlobalState, o: Ref, v: Value)
    requires Breached(g.W(), o, v) && InMark(g.phase) && v.Obj? && v.ref in g.heap && v.ref in g.color
    requires IsWhite(g.color[v.ref])
    modifies g`color, g`gray
    ensures Sound(g.W())
    ensures forall x {:trigger Alive(g.W(), x)} :: Alive(old(g.W()), x) ==> Alive(g.W(), x)
    ensures MarksFrom(g.heap, old(g.color), RefsOf([v]), g.color)
  {
    ghost var w := g.W();
    BreachedMark(w, o, v);
    assert Obj(v.ref) in [v];
    LeastMarkable(w.h, w.c, w.l, RefsOf([v]), Bound(w));
    g.ReallyMark(v.ref, Least(w.h, w.c, RefsOf([v]), Bound(w)));
    SameShrinks(w.h);
    LeastMarked(w.h, w.c, w.l, RefsOf([v]), Bound(w), g.heap, g.color, g.L());
    ForwardMarked(w, g.W(), o, v);
  }

  lemma SameShrinks(h: Heap)
    ensures HeapShrinks(h, h)
  {
  }

  /** The backward barrier: 'luaC_objbarrierback' and 'luaC_barrierback_' (lgc.h:182-186, lgc.c:230-240). */
  method BarrierBack(g: GlobalState, o: Ref, v: Value)
    requires Breached(g.W(), o, v) && o in g.heap && g.heap[o].Listable()
    modifies g`color, g`grayagain
    ensures Sound(g.W())
    ensures g.color == old(g.color) ||
      (o in old(g.color) && old(g.color)[o] == Black && g.color == old(g.color)[o := Gray])
    ensures o in g.color && g.color[o] == Black ==>
      o in old(g.color) && old(g.color)[o] == Black && ValueMarked(g.color, v)
  {
    if v.Obj? && g.color[o] == Black && IsWhite(g.color[v.ref]) {
      ghost var w := g.W();
      BackMarked(w, o, v);
      g.grayagain := [o] + g.grayagain;
      g.color := g.color[o := Gray];
      assert g.W() == GrayAgain(w, o);
    } else {
      NotBreached(g.W(), o, v);
    }
  }

  // ----- writes with a backward barrier: userdata values and tables (lapi.c:896-930, 973-987) -----

  function Put<T>(s: seq<T>, i: nat, x: T): (r: seq<T>)
    requires i <= |s|
    ensures |r| == if i < |s| then |s| else |s| + 1
    ensures forall k :: 0 <= k < |r| ==> r[k] == if k == i then x else s[k]
  {
    if i < |s| then s[i := x] else s + [x]
  }

  lemma MetaKept(w: World, o: Ref, b: Body)
    requires Sound(w) && o in w.h && SameKind(w.h[o], b) && (b.Udata? ==> b.meta == w.h[o].meta)
    ensures MetaIsTable(w.h[o := b], o)
  {
    assert Open(0);
    assert MetaIsTable(w.h, o);
  }

  lemma PutIn(s: seq<Value>, i: nat, v: Value, r: Ref)
    requires i <= |s| && Obj(r) in Put(s, i, v)
    ensures Obj(r) in s || Obj(r) == v
  {
    var k :| 0 <= k < |Put(s, i, v)| && Put(s, i, v)[k] == Obj(r);
  }

  lemma UserValueStores(w: World, u: Ref, i: nat, v: Value)
    requires Sound(w) && Safe(w, v) && u in w.h && w.h[u].Udata? && i < |w.h[u].uservals|
    ensures Stores(w, u, w.h[u].(uservals := Put(w.h[u].uservals, i, v)), v, {})
  {
    var b := w.h[u].(uservals := Put(w.h[u].uservals, i, v));
    MetaKept(w, u, b);
    forall r | Points(w.h[u := b], u, r) ensures Points(w.h, u, r) || r in News(v) + {} {
      if Obj(r) in b.uservals { PutIn(w.h[u].uservals, i, v, r); }
    }
  }

  method SetUserValue(g: GlobalState, u: Ref, i: nat, v: Value)
    requires Sound(g.W()) && Accessible(g.W(), u) && Holds(g.W(), v)
    requires u in g.heap && g.heap[u].Udata? && i < |g.heap[u].uservals|
    modifies g`heap, g`color, g`grayagain
    ensures Sound(g.W()) && g.heap == old(g.heap)[u := old(g.heap)[u].(uservals := Put(old(g.heap)[u].uservals, i, v))]
  {
    HeldSafe(g.W(), v);
    UserValueStores(g.W(), u, i, v);
    StoreBreaches(g.W(), u, g.heap[u].(uservals := Put(g.heap[u].uservals, i, v)), v, {});
    g.heap := g.heap[u := g.heap[u].(uservals := Put(g.heap[u].uservals, i, v))];
    BarrierBack(g, u, v);
  }

  lemma ArrayStores(w: World, t: Ref, i: nat, v: Value)
    requires Sound(w) && Safe(w, v) && t in w.h && w.h[t].Table? && i <= |w.h[t].arr|
    ensures Stores(w, t, w.h[t].(arr := Put(w.h[t].arr, i, v)), v, {})
  {
    var b := w.h[t].(arr := Put(w.h[t].arr, i, v));
    MetaKept(w, t, b);
    forall r | Points(w.h[t := b], t, r) ensures Points(w.h, t, r) || r in News(v) + {} {
      if Obj(r) in b.arr { PutIn(w.h[t].arr, i, v, r); }
    }
  }

  /** Stores into the array part of a table; `i` may be the first position after it. */
  method SetArray(g: GlobalState, t: Ref, i: nat, v: Value)
    requires Sound(g.W()) && Accessible(g.W(), t) && Holds(g.W(), v)
    requires t in g.heap && g.heap[t].Table? && i <= |g.heap[t].arr|
    modifies g`heap, g`color, g`grayagain
    ensures Sound(g.W())
    ensures g.heap == old(g.heap)[t := old(g.heap)[t].(arr := Put(old(g.heap)[t].arr, i, v))]
  {
    HeldSafe(g.W(), v);
    ArrayStores(g.W(), t, i, v);
    StoreBreaches(g.W(), t, g.heap[t].(arr := Put(g.heap[t].arr, i, v)), v, {});
    g.heap := g.heap[t := g.heap[t].(arr := Put(g.heap[t].arr, i, v))];
    BarrierBack(g, t, v);
  }

  lemma NodeStores(w: World, t: Ref, i: nat, n: Node, v: Value, more: set<Ref>)
    requires Sound(w) && t in w.h && w.h[t].Table? && i <= |w.h[t].nodes|
    requires forall r :: r in News(v) + more ==> Safe(w, Obj(r))
    requires forall r :: NodeRefers(w.h[t].mode, n, r) ==> r in News(v) + more
    requires t in w.c && w.c[t] == Black ==> forall r :: r in more ==> Marked(w.c, r)
    ensures Stores(w, t, w.h[t].(nodes := Put(w.h[t].nodes, i, n)), v, more)
  {
    var b := w.h[t].(nodes := Put(w.h[t].nodes, i, n));
    MetaKept(w, t, b);
    forall r | Points(w.h[t := b], t, r) ensures Points(w.h, t, r) || r in News(v) + more {
      if NodesRefer(b.mode, b.nodes, r) {
        var k :| 0 <= k < |b.nodes| && NodeRefers(b.mode, b.nodes[k], r);
        if k != i { assert NodeRefers(b.mode, w.h[t].nodes[k], r); }
      }
    }
  }

  /** A new key in a table, with an empty value (the barrier of 'luaH_newkey'). */
  method NewKey(g: GlobalState, t: Ref, i: nat, k: Value)
    requires Sound(g.W()) && Safe(g.W(), k)
    requires t in g.heap && g.heap[t].Table? && i <= |g.heap[t].nodes|
    modifies g`heap, g`color, g`grayagain
    ensures Sound(g.W())
    ensures g.heap == old(g.heap)[t := old(g.heap)[t].(nodes := Put(old(g.heap)[t].nodes, i, Node(Live(k), Nil)))]
    ensures t in g.color && g.color[t] == Black ==> ValueMarked(g.color, k)
    ensures forall v :: Safe(old(g.W()), v) ==> Safe(g.W(), v)
  {
    NodeStores(g.W(), t, i, Node(Live(k), Nil), k, {});
    StoreBreaches(g.W(), t, g.heap[t].(nodes := Put(g.heap[t].nodes, i, Node(Live(k), Nil))), k, {});
    g.heap := g.heap[t := g.heap[t].(nodes := Put(g.heap[t].nodes, i, Node(Live(k), Nil)))];
    BarrierBack(g, t, k);
  }

  /** The value of a node whose key is, for a black table, marked. */
  method SetNodeValue(g: GlobalState, t: Ref, i: nat, v: Value)
    requires Sound(g.W()) && Safe(g.W(), v)
    requires t in g.heap && g.heap[t].Table? && i < |g.heap[t].nodes| && g.heap[t].nodes[i].key.Live?
    requires Safe(g.W(), g.heap[t].nodes[i].key.v)
    requires t in g.color && g.color[t] == Black ==> ValueMarked(g.color, g.heap[t].nodes[i].key.v)
    modifies g`heap, g`color, g`grayagain
    ensures Sound(g.W())
    ensures g.heap == old(g.heap)[t := old(g.heap)[t].(nodes := Put(old(g.heap)[t].nodes, i,
      old(g.heap)[t].nodes[i].(val := v)))]
  {
    var n := g.heap[t].nodes[i].(val := v);
    NodeStores(g.W(), t, i, n, v, News(n.key.v));
    StoreBreaches(g.W(), t, g.heap[t].(nodes := Put(g.heap[t].nodes, i, n)), v, News(n.key.v));
    g.heap := g.heap[t := g.heap[t].(nodes := Put(g.heap[t].nodes, i, n))];
    BarrierBack(g, t, v);
  }

  /** Stores an entry under a key that is new, in an empty node or a further one. */
  method AddEntry(g: GlobalState, t: Ref, i: nat, k: Value, v: Value)
    requires Sound(g.W()) && Accessible(g.W(), t) && Holds(g.W(), k) && Holds(g.W(), v)
    requires t in g.heap && g.heap[t].Table? && i <= |g.heap[t].nodes|
    requires (i < |g.heap[t].nodes| ==> g.heap[t].nodes[i].val == Nil)
    modifies g`heap, g`color, g`grayagain
    ensures Sound(g.W())
    ensures g.heap == old(g.heap)[t := old(g.heap)[t].(nodes := Put(old(g.heap)[t].nodes, i, Node(Live(k), v)))]
  {
    HeldSafe(g.W(), k);
    HeldSafe(g.W(), v);
    ghost var h := g.heap;
    NewKey(g, t, i, k);
    EntryAdded(h, g.heap, t, i, k, v);
    SetNodeValue(g, t, i, v);
  }

  /** A new entry and then its value. */
  lemma EntryAdded(h: Heap, h': Heap, t: Ref, i: nat, k: Value, v: Value)
    requires t in h && h[t].Table? && i <= |h[t].nodes|
    requires h' == h[t := h[t].(nodes := Put(h[t].nodes, i, Node(Live(k), Nil)))]
    ensures t in h' && h'[t].Table? && i < |h'[t].nodes| && h'[t].nodes[i] == Node(Live(k), Nil)
    ensures h'[t := h'[t].(nodes := Put(h'[t].nodes, i,
      h'[t].nodes[i].(val := v)))] == h[t := h[t].(nodes := Put(h[t].nodes, i, Node(Live(k), v)))]
  {
    PutTwice(h[t].nodes, i, Node(Live(k), Nil), Node(Live(k), v));
  }

  lemma PutTwice(ns: seq<Node>, i: nat, n: Node, n': Node)
    requires i <= |ns|
    ensures Put(Put(ns, i, n), i, n') == Put(ns, i, n')
  {
  }

  /** The parts of a table, with the same entries and no others. */
  lemma ResizedStores(w: World, t: Ref, arr: seq<Value>, nodes: seq<Node>)
    requires Sound(w) && t in w.h && w.h[t].Table? && SameEntries(w.h[t].arr, w.h[t].nodes, arr, nodes)
    ensures Stores(w, t, w.h[t].(arr := arr, nodes := nodes), Nil, {})
  {
    var b := w.h[t].(arr := arr, nodes := nodes);
    MetaKept(w, t, b);
    forall r | Points(w.h[t := b], t, r) ensures Points(w.h, t, r) || r in News(Nil) + {} {
      if Obj(r) in arr {
        var i :| 0 <= i < |arr| && arr[i] == Obj(r);
        EntryRefers(w.h[t].mode, w.h[t].arr, w.h[t].nodes, arr, nodes, GcObjects.Plain(i + 1), Obj(r), r);
      } else if NodesRefer(b.mode, nodes, r) {
        var i :| 0 <= i < |nodes| && NodeRefers(b.mode, nodes[i], r);
        assert nodes[i] in nodes;
        EntryRefers(w.h[t].mode, w.h[t].arr, w.h[t].nodes, arr, nodes, nodes[i].key.v, nodes[i].val, r);
      }
    }
  }

  /** A reference of an entry of the new parts is one of the old parts. */
  lemma EntryRefers(mode: Mode, arr: seq<Value>, nodes: seq<Node>, arr': seq<Value>, nodes': seq<Node>, k: Value,
      v: Value, r: Ref)
    requires HasEntry(arr', nodes', k, v) ==> HasEntry(arr, nodes, k, v)
    requires HasEntry(arr', nodes', k, v) && (v == Obj(r) || k == Obj(r))
    ensures Obj(r) in arr || NodesRefer(mode, nodes, r)
  {
    if !InArray(arr, k, v) {
      var i :| 0 <= i < |nodes| && nodes[i] == Node(Live(k), v);
      assert NodeRefers(mode, nodes[i], r);
    }
  }

  /** Gives the array part of a table another size (ltable.c:553-586). The entries are the same ones, so that there
      is no barrier; empty nodes, and the dead keys in them, are gone. */
  method Resize(g: GlobalState, t: Ref, asize: nat)
    requires Sound(g.W()) && t in g.heap && g.heap[t].Table?
    modifies g`heap
    ensures Sound(g.W()) && t in g.heap && g.heap[t].Table? && |g.heap[t].arr| == asize
    ensures g.heap == old(g.heap)[t := old(g.heap)[t].(arr := g.heap[t].arr, nodes := g.heap[t].nodes)]
    ensures SameEntries(old(g.heap)[t].arr, old(g.heap)[t].nodes, g.heap[t].arr, g.heap[t].nodes)
  {
    var arr, nodes := Resized(g.heap[t].arr, g.heap[t].nodes, asize);
    var b := g.heap[t].(arr := arr, nodes := nodes);
    ResizedStores(g.W(), t, arr, nodes);
    StoreBreaches(g.W(), t, b, Nil, {});
    g.heap := g.heap[t := b];
    NotBreached(g.W(), t, Nil);
  }

  /** Overwrites the value of an entry; storing nil empties it but leaves its key for the collector to clear. */
  method SetEntry(g: GlobalState, t: Ref, i: nat, v: Value)
    requires Sound(g.W()) && Accessible(g.W(), t) && Holds(g.W(), v)
    requires t in g.heap && g.heap[t].Table? && i < |g.heap[t].nodes| && g.heap[t].nodes[i].val != Nil
    modifies g`heap, g`color, g`grayagain
    ensures Sound(g.W())
    ensures g.heap == old(g.heap)[t := old(g.heap)[t].(nodes := Put(old(g.heap)[t].nodes, i,
      old(g.heap)[t].nodes[i].(val := v)))]
  {
    HeldSafe(g.W(), v);
    var n := g.heap[t].nodes[i].(val := v);
    EntryStores(g.W(), t, i, v);
    StoreBreaches(g.W(), t, g.heap[t].(nodes := Put(g.heap[t].nodes, i, n)), v, {});
    g.heap := g.heap[t := g.heap[t].(nodes := Put(g.heap[t].nodes, i, n))];
    BarrierBack(g, t, v);
  }

  lemma EntryStores(w: World, t: Ref, i: nat, v: Value)
    requires Sound(w) && Safe(w, v) && t in w.h && w.h[t].Table? && i < |w.h[t].nodes| && w.h[t].nodes[i].val != Nil
    ensures Stores(w, t, w.h[t].(nodes := Put(w.h[t].nodes, i, w.h[t].nodes[i].(val := v))), v, {})
  {
    var b := w.h[t].(nodes := Put(w.h[t].nodes, i, w.h[t].nodes[i].(val := v)));
    MetaKept(w, t, b);
    forall r | Points(w.h[t := b], t, r) ensures Points(w.h, t, r) || r in News(v) + {} {
      if NodesRefer(b.mode, b.nodes, r) {
        var k :| 0 <= k < |b.nodes| && NodeRefers(b.mode, b.nodes[k], r);
        assert NodeRefers(b.mode, w.h[t].nodes[k], r) || r in News(v);
      }
    }
  }

  // ----- writes with a forward barrier: closures, prototypes, metatables, closed upvalues -----

  /** Stores into a closure or a prototype; only Lua closures hold upvalues. */
  method SetSlot(g: GlobalState, o: Ref, i: nat, v: Value)
    requires Sound(g.W()) && Accessible(g.W(), o) && (v.Obj? ==> v.ref in g.heap && Accessible(g.W(), v.ref))
    requires o in g.heap && (g.heap[o].Fn? || (g.heap[o].Rec? && Holds(g.W(), v))) && i < |g.heap[o].slots|
    modifies g`heap, g`color, g`gray
    ensures Sound(g.W())
    ensures g.heap == old(g.heap)[o := old(g.heap)[o].(slots := Put(old(g.heap)[o].slots, i, v))]
  {
    SlotStores(g.W(), o, i, v);
    StoreBreaches(g.W(), o, g.heap[o].(slots := Put(g.heap[o].slots, i, v)), v, {});
    g.heap := g.heap[o := g.heap[o].(slots := Put(g.heap[o].slots, i, v))];
    Barrier(g, o, v);
  }

  lemma SlotStores(w: World, o: Ref, i: nat, v: Value)
    requires Sound(w) && (v.Obj? ==> v.ref in w.h && Accessible(w, v.ref))
    requires o in w.h && (w.h[o].Fn? || (w.h[o].Rec? && Holds(w, v))) && i < |w.h[o].slots|
    ensures Stores(w, o, w.h[o].(slots := Put(w.h[o].slots, i, v)), v, {})
  {
    var b := w.h[o].(slots := Put(w.h[o].slots, i, v));
    MetaKept(w, o, b);
    if v.Obj? { AccessibleAlive(w, v.ref); }
    forall r | Points(w.h[o := b], o, r) ensures Points(w.h, o, r) || v == Obj(r) {
      PutIn(w.h[o].slots, i, v, r);
    }
    OneStored(w, o, b, v);
  }

  lemma OneStored(w: World, o: Ref, b: Body, v: Value)
    requires o in w.h && SameKind(w.h[o], b) && !b.Thread? && !b.OpenUp? && !b.Str? && MetaIsTable(w.h[o := b], o)
    requires v.Obj? ==> Alive(w, v.ref) && v.ref !in w.garbage && (w.h[o].Fn? || !w.h[v.ref].IsUpval())
    requires forall r {:trigger Points(w.h[o := b], o, r)} :: Points(w.h[o := b], o, r) ==>
      Points(w.h, o, r) || v == Obj(r)
    ensures Stores(w, o, b, v, {})
  {
  }

  /** Sets the metatable of a table that is not weak, or of a userdata (lapi.c:933-970). */
  method SetMetatable(g: GlobalState, o: Ref, v: Value)
    requires Sound(g.W()) && Accessible(g.W(), o) && Holds(g.W(), v)
    requires o in g.heap && (g.heap[o].Udata? || (g.heap[o].Table? && g.heap[o].mode == Strong))
    requires v == Nil || (v.Obj? && v.ref in g.heap && g.heap[v.ref].Table?)
    modifies g`heap, g`color, g`gray
    ensures Sound(g.W()) && g.heap == old(g.heap)[o := old(g.heap)[o].(meta := v)]
    ensures forall x {:trigger Alive(g.W(), x)} :: Alive(old(g.W()), x) ==> Alive(g.W(), x)
  {
    HeldSafe(g.W(), v);
    MetaStores(g.W(), o, v);
    StoreBreaches(g.W(), o, g.heap[o].(meta := v), v, {});
    g.heap := g.heap[o := g.heap[o].(meta := v)];
    Barrier(g, o, v);
  }

  lemma MetaStores(w: World, o: Ref, v: Value)
    requires Sound(w) && Safe(w, v) && o in w.h && (w.h[o].Udata? || (w.h[o].Table? && w.h[o].mode == Strong))
    requires v == Nil || (v.Obj? && v.ref in w.h && w.h[v.ref].Table?)
    ensures Stores(w, o, w.h[o].(meta := v), v, {})
  {
    OneStored(w, o, w.h[o].(meta := v), v);
  }

  /** Assigns to a closed upvalue. */
  method SetClosedUpval(g: GlobalState, u: Ref, v: Value)
    requires Sound(g.W()) && Accessible(g.W(), u) && Holds(g.W(), v) && u in g.heap && g.heap[u].ClosedUp?
    modifies g`heap, g`color, g`gray
    ensures Sound(g.W()) && g.heap == old(g.heap)[u := ClosedUp(v)]
  {
    HeldSafe(g.W(), v);
    UpvalStores(g.W(), u, v);
    StoreBreaches(g.W(), u, ClosedUp(v), v, {});
    g.heap := g.heap[u := ClosedUp(v)];
    Barrier(g, u, v);
  }

  lemma UpvalStores(w: World, u: Ref, v: Value)
    requires Sound(w) && Safe(w, v) && u in w.h && w.h[u].ClosedUp?
    ensures Stores(w, u, ClosedUp(v), v, {})
  {
    MetaKept(w, u, ClosedUp(v));
  }

  // ----- writes without a barrier -----

  /** Changes a stack: pushes, pops, or moves values between threads. Slots of open upvalues stay live. */
  method SetStack(g: GlobalState, th: Ref, stack: seq<Value>)
    requires Sound(g.W()) && Accessible(g.W(), th) && th in g.heap && g.heap[th].Thread?
    requires forall i :: 0 <= i < |stack| ==> Holds(g.W(), stack[i])
    requires forall u :: u in g.heap[th].upvals ==> u in g.heap && g.heap[u].OpenUp? && g.heap[u].level < |stack|
    modifies g`heap
    ensures Sound(g.W()) && g.heap == old(g.heap)[th := old(g.heap)[th].(stack := stack)]
  {
    forall r | r in SeqSet(RefsOf(stack)) ensures Safe(g.W(), Obj(r)) {
      HeldSafe(g.W(), Obj(r));
    }
    StackStoreSound(g.W(), th, stack, SeqSet(RefsOf(stack)));
    g.heap := g.heap[th := g.heap[th].(stack := stack)];
  }

  /** Assigns to an open upvalue, that is, to the stack slot it stands for; its thread need not be accessible. */
  method SetOpenUpval(g: GlobalState, u: Ref, v: Value)
    requires Sound(g.W()) && Accessible(g.W(), u) && Holds(g.W(), v) && u in g.heap && g.heap[u].OpenUp?
    modifies g`heap
    ensures Sound(g.W())
    ensures old(g.heap[u].thread in g.heap && g.heap[g.heap[u].thread].Thread? &&
      g.heap[u].level < |g.heap[g.heap[u].thread].stack|)
    ensures var th := old(g.heap)[u].thread;
      g.heap == old(g.heap)[th := old(g.heap)[th].(stack := old(g.heap)[th].stack[old(g.heap)[u].level := v])]
  {
    HeldSafe(g.W(), v);
    UpvalSlot(g.W(), u);
    var th := g.heap[u].thread;
    StackStoreSound(g.W(), th, g.heap[th].stack[g.heap[u].level := v], News(v));
    g.heap := g.heap[th := g.heap[th].(stack := g.heap[th].stack[g.heap[u].level := v])];
  }

  lemma UpvalSlot(w: World, u: Ref)
    requires Sound(w) && u in w.h && w.h[u].OpenUp?
    ensures var th := w.h[u].thread; th in w.h && w.h[th].Thread? && w.h[u].level < |w.h[th].stack|
    ensures var th := w.h[u].thread;
      forall x :: x in w.h[th].upvals ==> x in w.h && w.h[x].OpenUp? && w.h[x].level < |w.h[th].stack|
  {
    assert Open(0);
    assert SlotOk(w.h, u);
    var th := w.h[u].thread;
    forall x | x in w.h[th].upvals ensures x in w.h && w.h[x].OpenUp? && w.h[x].level < |w.h[th].stack| {
      assert SlotOk(w.h, x);
    }
  }

  // ----- roots -----

  method SetRegistry(g: GlobalState, v: Value)
    requires Sound(g.W()) && Holds(g.W(), v)
    modifies g`registry
    ensures Sound(g.W()) && g.registry == v
  {
    HeldSafe(g.W(), v);
    RootsSound(g.W(), g.W().(registry := v));
    g.registry := v;
  }

  /** The metatable of a basic type (lapi.c:963-966): a root, so no barrier. */
  method SetBasicMetatable(g: GlobalState, i: nat, v: Value)
    requires Sound(g.W()) && Holds(g.W(), v) && i < |g.mt|
    modifies g`mt
    ensures Sound(g.W()) && g.mt == old(g.mt)[i := v]
  {
    HeldSafe(g.W(), v);
    forall o | o in RefsOf(g.mt[i := v]) ensures o in RefsOf(g.mt) || Obj(o) == v {
      var k :| 0 <= k < |g.mt| && g.mt[i := v][k] == Obj(o);
    }
    RootsSound(g.W(), g.W().(mt := g.mt[i := v]));
    g.mt := g.mt[i := v];
  }

  /** Another coroutine runs. */
  method Resume(g: GlobalState, th: Ref)
    requires Sound(g.W()) && Holds(g.W(), Obj(th)) && g.heap[th].Thread?
    modifies g`running
    ensures Sound(g.W()) && g.running == th
  {
    HeldSafe(g.W(), Obj(th));
    RootsSound(g.W(), g.W().(running := th));
    g.running := th;
  }

  // ----- new objects -----

  /** Allocates an object of the current white and puts it in front of 'allgc' (lgc.c:258-267). */
  method Link(g: GlobalState, b: Body) returns (o: Ref)
    modifies g`heap, g`color, g`allgc, g`newref
    ensures o == old(g.newref) && g.W() == Added(old(g.W()), b)
  {
    o := g.newref;
    g.heap, g.color := g.heap[o := b], g.color[o := g.curwhite];
    g.allgc, g.newref := [o] + g.allgc, o + 1;
  }

  /** Creates an object in any phase of the collector (lgc.c:270-272). */
  method NewObject(g: GlobalState, b: Body) returns (o: Ref)
    requires Sound(g.W()) && NewBody(g.W(), b)
    modifies g`heap, g`color, g`allgc, g`newref
    ensures Sound(g.W()) && o == old(g.newref) && g.W() == Added(old(g.W()), b)
  {
    ghost var w := g.W();
    NewSound(w, b);
    o := Link(g, b);
  }

  /** Creates an object and pushes it on the stack of the running thread; nothing happens between the two. */
  method New(g: GlobalState, b: Body) returns (o: Ref)
    requires Sound(g.W()) && NewBody(g.W(), b) && !b.IsUpval()
    requires g.running in g.heap && g.heap[g.running].Thread?
    modifies g`heap, g`color, g`allgc, g`newref
    ensures Sound(g.W()) && o == old(g.newref) && o !in old(g.heap)
    ensures var th := old(g.heap)[g.running];
      g.heap == old(g.heap)[o := b][g.running := th.(stack := th.stack + [Obj(o)])]
  {
    ghost var w := g.W();
    o := NewObject(g, b);
    NewPush(w, b);
    var th := g.heap[g.running];
    g.heap := g.heap[g.running := th.(stack := th.stack + [Obj(o)])];
  }

  lemma NewPush(w: World, b: Body)
    requires Sound(w) && Sound(Added(w, b)) && NewBody(w, b) && !b.IsUpval() && w.running in w.h
    requires w.h[w.running].Thread?
    ensures var a := Added(w, b); var th := a.h[w.running];
      w.newref !in w.h && a.h[w.running] == w.h[w.running] &&
        Sound(a.(h := a.h[w.running := th.(stack := th.stack + [Obj(w.newref)])]))
  {
    var a := Added(w, b);
    AddedSafe(w, b);
    var th := a.h[w.running];
    LevelsLive(a, w.running);
    StackStoreSound(a, w.running, th.stack + [Obj(w.newref)], {w.newref});
  }

  lemma AddedSafe(w: World, b: Body)
    requires Basic(w) && Owned(w) && Below(w) && !b.IsUpval()
    ensures w.newref !in w.h && Safe(Added(w, b), Obj(w.newref))
  {
    FreshRef(w);
    assert Open(0);
  }

  lemma LevelsLive(w: World, th: Ref)
    requires Sound(w) && th in w.h && w.h[th].Thread?
    ensures forall u :: u in w.h[th].upvals ==> u in w.h && w.h[u].OpenUp? && w.h[u].level < |w.h[th].stack|
  {
    assert Open(0);
    forall u | u in w.h[th].upvals ensures u in w.h && w.h[u].OpenUp? && w.h[u].level < |w.h[th].stack| {
      assert SlotOk(w.h, u);
    }
  }

  // ----- upvalues -----

  /** Searches the open upvalues of a thread for one at a level. */
  method SearchUpval(g: GlobalState, th: Ref, level: nat) returns (found: bool, u: Ref)
    requires Sound(g.W()) && th in g.heap && g.heap[th].Thread?
    ensures found ==> u in g.heap[th].upvals && u in g.heap && g.heap[u] == OpenUp(th, level)
    ensures !found ==> forall x :: x in g.heap[th].upvals ==> x in g.heap && g.heap[x] != OpenUp(th, level)
  {
    UpvalThread(g.W(), th);
    u := th;
    var todo := g.heap[th].upvals;
    while todo != {}
      invariant todo <= g.heap[th].upvals
      invariant forall x :: x in g.heap[th].upvals && x !in todo ==> x in g.heap && g.heap[x] != OpenUp(th, level)
      decreases todo
    {
      u :| u in todo;
      if g.heap[u] == OpenUp(th, level) {
        return true, u;
      }
      todo := todo - {u};
    }
    found := false;
  }

  /** Creates the upvalue, with the thread in 'twups' (lfunc.c:65-80). */
  method LinkUpval(g: GlobalState, th: Ref, level: nat) returns (u: Ref)
    requires th in g.heap && g.heap[th].Thread? && g.newref != th
    modifies g`heap, g`color, g`allgc, g`newref, g`twups
    ensures u == old(g.newref) && g.W() == Opened(old(g.W()), th, level)
  {
    u := Link(g, OpenUp(th, level));
    g.heap := g.heap[th := g.heap[th].(upvals := g.heap[th].upvals + {u})];
    if th !in g.twups {
      g.twups := [th] + g.twups;
    }
  }

  method NewUpval(g: GlobalState, th: Ref, level: nat) returns (u: Ref)
    requires Sound(g.W()) && Safe(g.W(), Obj(th)) && th in g.heap && g.heap[th].Thread? && level < |g.heap[th].stack|
    modifies g`heap, g`color, g`allgc, g`newref, g`twups
    ensures Sound(g.W()) && u == old(g.newref) && g.W() == Opened(old(g.W()), th, level)
  {
    ghost var w := g.W();
    UpvalThread(w, th);
    OpenSound(w, th, level);
    u := LinkUpval(g, th, level);
  }

  /** Finds and reuses the open upvalue of a stack slot, or creates it (lfunc.c:87-99). */
  method FindUpval(g: GlobalState, th: Ref, level: nat) returns (u: Ref)
    requires Sound(g.W()) && Holds(g.W(), Obj(th)) && g.heap[th].Thread? && level < |g.heap[th].stack|
    modifies g`heap, g`color, g`allgc, g`newref, g`twups
    ensures Sound(g.W())
    ensures u in g.heap && g.heap[u] == OpenUp(th, level)
    ensures g.W() == old(g.W()) || (u !in old(g.heap) && g.W() == Opened(old(g.W()), th, level)
      && forall x :: x in old(g.heap)[th].upvals && x in old(g.heap) ==> old(g.heap)[x] != OpenUp(th, level))
  {
    var found;
    found, u := SearchUpval(g, th, level);
    if !found {
      HeldSafe(g.W(), Obj(th));
      UpvalThread(g.W(), th);
      u := NewUpval(g, th, level);
    }
  }

  lemma UpvalThread(w: World, th: Ref)
    requires Sound(w) && th in w.h && w.h[th].Thread?
    ensures w.newref !in w.h && forall u :: u in w.h[th].upvals ==> u in w.h && w.h[u].OpenUp? && w.h[u].thread == th
  {
    assert Open(0);
  }

  /** Closes one open upvalue: its value moves from the stack into it (lfunc.c:193-207). */
  method CloseUpval(g: GlobalState, u: Ref)
    requires Sound(g.W()) && CanClose(g.heap, u)
    modifies g`heap, g`color, g`gray
    ensures Sound(g.W()) && g.heap == CloseIn(old(g.heap), u)
    ensures !InMark(g.phase) ==> g.gray == old(g.gray)
    ensures !InMark(g.phase) && u in old(g.color) ==>
      g.color == old(g.color) || (!IsWhite(old(g.color)[u]) &&
        (g.color == old(g.color)[u := Black] || g.color == old(g.color)[u := g.curwhite]))
  {
    ghost var w := g.W();
    ClosedKeys(w, u);
    var v := g.heap[g.heap[u].thread].stack[g.heap[u].level];
    MoveValue(g, u);
    if !IsWhite(g.color[u]) {
      CloseMarked(w, u);
      Barrier(g, u, v);
    } else {
      CloseWhite(w, u);
    }
  }

  /** Moves the value into the upvalue, which is black then, unless it is white. */
  method MoveValue(g: GlobalState, u: Ref)
    requires CanClose(g.heap, u) && u in g.color
    modifies g`heap, g`color
    ensures g.W() == AfterClose(old(g.W()), u)
  {
    g.heap := CloseIn(g.heap, u);
    if !IsWhite(g.color[u]) {
      g.color := g.color[u := Black];
    }
  }

  lemma ClosedKeys(w: World, u: Ref)
    requires Sound(w) && CanClose(w.h, u)
    ensures u in w.c
  {
    assert Open(0);
  }
}
