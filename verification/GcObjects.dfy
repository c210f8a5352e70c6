/** The collected heap as the garbage collector sees it (lgc.c, lgc.h, lstate.h):
    objects, the references between them, colours, and what reachability means. */
module GcObjects {

  type Ref = nat

  /** A Lua value: `Plain` stands for every non-collectable value except nil. */
  datatype Value = Nil | Plain(n: int) | Obj(ref: Ref)

  /** A key of a hash node; a collectable key of an empty entry becomes dead. */
  datatype Key = DeadKey | Live(v: Value)

  datatype Node = Node(key: Key, val: Value)

  datatype Mode = Strong | WeakValues | Ephemeron | AllWeak

  /** What the collector distinguishes. `Fn` is a Lua closure (prototype and upvalues), `Rec` a C closure
      or a prototype; a userdata without user values never enters a gray list. */
  datatype Body =
    | Str
    | OpenUp(thread: Ref, level: nat)
    | ClosedUp(v: Value)
    | Udata(meta: Value, uservals: seq<Value>)
    | Fn(slots: seq<Value>)
    | Rec(slots: seq<Value>)
    | Table(mode: Mode, meta: Value, arr: seq<Value>, nodes: seq<Node>)
    | Thread(stack: seq<Value>, upvals: set<Ref>)
  {
    predicate IsUpval() { OpenUp? || ClosedUp? }

    /** Objects with a 'gclist' field that may wait in a gray list. */
    predicate Listable() { Fn? || Rec? || Table? || Thread? || (Udata? && uservals != []) }
  }

  type Heap = map<Ref, Body>

  datatype Color = White0 | White1 | Gray | Black

  predicate IsWhite(c: Color) { c == White0 || c == White1 }

  function OtherWhite(w: Color): Color { if w == White0 then White1 else White0 }

  type Colors = map<Ref, Color>

  // ----- references -----

  /** A node refers to its value, and to its key unless the entry is empty. The keys of empty entries
      are only looked at in tables whose keys and values are both weak. */
  ghost predicate NodeRefers(mode: Mode, n: Node, r: Ref) {
    n.val == Obj(r) || (n.key == Live(Obj(r)) && (n.val != Nil || mode == AllWeak))
  }

  ghost predicate NodesRefer(mode: Mode, ns: seq<Node>, r: Ref) {
    exists i {:trigger ns[i]} :: 0 <= i < |ns| && NodeRefers(mode, ns[i], r)
  }

  /** Object `o` refers, strongly or weakly, to `r`. An open upvalue refers to what its stack slot holds. */
  ghost predicate Points(h: Heap, o: Ref, r: Ref)
    requires o in h
  {
    match h[o]
    case Str => false
    case OpenUp(th, level) =>
      th in h && h[th].Thread? && level < |h[th].stack| && h[th].stack[level] == Obj(r)
    case ClosedUp(v) => v == Obj(r)
    case Udata(meta, uservals) => meta == Obj(r) || Obj(r) in uservals
    case Fn(slots) => Obj(r) in slots
    case Rec(slots) => Obj(r) in slots
    case Table(mode, meta, arr, nodes) =>
      meta == Obj(r) || Obj(r) in arr || NodesRefer(mode, nodes, r)
    case Thread(stack, upvals) => Obj(r) in stack || r in upvals
  }

  ghost predicate IsPath(h: Heap, roots: set<Ref>, p: seq<Ref>, o: Ref) {
    && |p| > 0 && p[0] in roots && p[|p| - 1] == o
    && forall i {:trigger p[i]} :: 0 <= i < |p| - 1 ==> p[i] in h && Points(h, p[i], p[i + 1])
  }

  /** `o` can be reached from the roots by following references of any kind. */
  ghost predicate Reachable(h: Heap, roots: set<Ref>, o: Ref) {
    exists p :: IsPath(h, roots, p, o)
  }

  /** A set that contains the roots and is closed under references contains all that is reachable. */
  lemma {:induction false} ReachableStaysIn(h: Heap, roots: set<Ref>, closed: iset<Ref>, o: Ref)
    requires Reachable(h, roots, o)
    requires forall r :: r in roots ==> r in closed
    requires forall x, r :: x in closed && x in h && Points(h, x, r) ==> r in closed
    ensures o in closed
  {
    var p :| IsPath(h, roots, p, o);
    PathStaysIn(h, roots, closed, p, |p| - 1);
  }

  lemma {:induction false} PathStaysIn(h: Heap, roots: set<Ref>, closed: iset<Ref>, p: seq<Ref>, i: nat)
    requires |p| > 0 && IsPath(h, roots, p, p[|p| - 1])
    requires i < |p|
    requires forall r :: r in roots ==> r in closed
    requires forall x, r :: x in closed && x in h && Points(h, x, r) ==> r in closed
    ensures p[i] in closed
  {
    if i > 0 {
      PathStaysIn(h, roots, closed, p, i - 1);
      assert Points(h, p[i - 1], p[i - 1 + 1]);
    }
  }

  /** Roots are reachable, and so is whatever a reachable object refers to. */
  lemma ReachableStep(h: Heap, roots: set<Ref>, o: Ref, r: Ref)
    requires o in roots || Reachable(h, roots, o)
    ensures Reachable(h, roots, o)
    ensures o in h && Points(h, o, r) ==> Reachable(h, roots, r)
  {
    var p: seq<Ref>;
    if o in roots {
      p := [o];
    } else {
      p :| IsPath(h, roots, p, o);
    }
    assert IsPath(h, roots, p, o);
    if o in h && Points(h, o, r) {
      var q := p + [r];
      assert forall i {:trigger q[i]} :: 0 <= i < |q| - 1 ==> q[i] == p[i] && (i + 1 < |p| ==> q[i + 1] == p[i + 1]);
      assert IsPath(h, roots, q, r);
    }
  }

  /** With fewer references, less is reachable. */
  lemma ReachableShrinks(h: Heap, h': Heap, roots: set<Ref>, o: Ref)
    requires Reachable(h', roots, o)
    requires forall x: Ref, r: Ref {:trigger Points(h', x, r)} :: x in h' && Points(h', x, r) ==>
      x in h && Points(h, x, r)
    ensures Reachable(h, roots, o)
  {
    var s := iset x: Ref | Reachable(h, roots, x);
    forall r | r in roots ensures r in s { ReachableStep(h, roots, r, r); }
    forall x: Ref, r: Ref | x in s && x in h' && Points(h', x, r) ensures r in s {
      ReachableStep(h, roots, x, r);
    }
    ReachableStaysIn(h', roots, s, o);
  }

  // ----- what marking follows -----

  /** A key counts as marked when it is not collectable or its object is marked. */
  ghost predicate KeyIn(k: Key, marked: iset<Ref>) {
    k.Live? && k.v.Obj? ==> k.v.ref in marked
  }

  ghost predicate KeyRefers(ns: seq<Node>, r: Ref) {
    exists i {:trigger ns[i]} :: 0 <= i < |ns| && ns[i].val != Nil && ns[i].key == Live(Obj(r))
  }

  ghost predicate MarkedKeyValue(ns: seq<Node>, marked: iset<Ref>, r: Ref) {
    exists i {:trigger ns[i]} :: 0 <= i < |ns| && ns[i].val == Obj(r) && KeyIn(ns[i].key, marked)
  }

  /** The reason for which an object of `marked` may cause `r` to be marked. Strings are values: any table,
      however weak, keeps them. An ephemeron table keeps a value only through a marked key. */
  ghost predicate Keeps(h: Heap, marked: iset<Ref>, o: Ref, r: Ref)
    requires o in h
  {
    if !h[o].Table? || h[o].mode == Strong then Points(h, o, r)
    else
      || h[o].meta == Obj(r)
      || (r in h && h[r].Str? && Points(h, o, r))
      || (h[o].mode == WeakValues && KeyRefers(h[o].nodes, r))
      || (h[o].mode == Ephemeron && (Obj(r) in h[o].arr || MarkedKeyValue(h[o].nodes, marked, r)))
  }

  /** The set is closed under the marking rules. */
  ghost predicate MarkClosed(h: Heap, s: iset<Ref>) {
    forall o, r {:trigger Keeps(h, s, o, r)} :: o in s && o in h && Keeps(h, s, o, r) ==> r in s
  }

  lemma KeepsPoints(h: Heap, s: iset<Ref>, o: Ref, r: Ref)
    requires o in h && Keeps(h, s, o, r)
    ensures Points(h, o, r)
  {
    if h[o].Table? && h[o].mode == WeakValues && KeyRefers(h[o].nodes, r) {
      var i :| 0 <= i < |h[o].nodes| && h[o].nodes[i].val != Nil && h[o].nodes[i].key == Live(Obj(r));
      assert NodeRefers(h[o].mode, h[o].nodes[i], r);
    } else if h[o].Table? && h[o].mode == Ephemeron && MarkedKeyValue(h[o].nodes, s, r) {
      var i :| 0 <= i < |h[o].nodes| && h[o].nodes[i].val == Obj(r) && KeyIn(h[o].nodes[i].key, s);
      assert NodeRefers(h[o].mode, h[o].nodes[i], r);
    }
  }

  // ----- strong references -----

  /** Strings are values: an entry under a string key counts as accessible. */
  ghost predicate KeyHeld(h: Heap, k: Key, s: iset<Ref>) {
    k.Live? && k.v.Obj? ==> k.v.ref in s || (k.v.ref in h && h[k.v.ref].Str?)
  }

  ghost predicate HeldKeyValue(h: Heap, ns: seq<Node>, s: iset<Ref>, r: Ref) {
    exists i {:trigger ns[i]} :: 0 <= i < |ns| && ns[i].val == Obj(r) && KeyHeld(h, ns[i].key, s)
  }

  /** `o` refers to `r` strongly, when the objects of `s` are accessible: an ephemeron table refers to a value
      only while its key is accessible. */
  ghost predicate StrongKeeps(h: Heap, s: iset<Ref>, o: Ref, r: Ref)
    requires o in h
  {
    if !h[o].Table? || h[o].mode == Strong then Points(h, o, r)
    else
      || h[o].meta == Obj(r)
      || (h[o].mode == WeakValues && KeyRefers(h[o].nodes, r))
      || (h[o].mode == Ephemeron && (Obj(r) in h[o].arr || HeldKeyValue(h, h[o].nodes, s, r)))
  }

  ghost predicate StrongClosed(h: Heap, s: iset<Ref>) {
    forall o, r {:trigger StrongKeeps(h, s, o, r)} :: o in s && o in h && StrongKeeps(h, s, o, r) ==> r in s
  }

  /** `o` is in the least set that contains `from` and is closed under strong references. */
  ghost predicate StronglyReached(h: Heap, from: iset<Ref>, o: Ref) {
    forall s: iset<Ref> {:trigger StrongClosed(h, s)} :: (forall r :: r in from ==> r in s) && StrongClosed(h, s) ==>
      o in s
  }

  /** What marking from `from` may mark: what is reached strongly, and strings. */
  ghost function StrongBound(h: Heap, from: iset<Ref>): iset<Ref> {
    iset o: Ref | StronglyReached(h, from, o) || (o in h && h[o].Str?)
  }

  lemma KeepsStrongly(h: Heap, s: iset<Ref>, o: Ref, r: Ref)
    requires o in h && Keeps(h, s, o, r) && !(r in h && h[r].Str?)
    ensures StrongKeeps(h, s, o, r)
  {
    if h[o].Table? && h[o].mode == Ephemeron && MarkedKeyValue(h[o].nodes, s, r) {
      var i :| 0 <= i < |h[o].nodes| && h[o].nodes[i].val == Obj(r) && KeyIn(h[o].nodes[i].key, s);
      assert KeyHeld(h, h[o].nodes[i].key, s);
    }
  }

  lemma StrongKeepsMore(h: Heap, s: iset<Ref>, s': iset<Ref>, o: Ref, r: Ref)
    requires o in h && StrongKeeps(h, s, o, r)
    requires forall x :: x in s ==> x in s' || (x in h && h[x].Str?)
    ensures StrongKeeps(h, s', o, r)
  {
    if h[o].Table? && h[o].mode == Ephemeron && HeldKeyValue(h, h[o].nodes, s, r) {
      var i :| 0 <= i < |h[o].nodes| && h[o].nodes[i].val == Obj(r) && KeyHeld(h, h[o].nodes[i].key, s);
      assert KeyHeld(h, h[o].nodes[i].key, s');
    }
  }

  /** That set is closed under the marking rules. */
  lemma StrongBoundClosed(h: Heap, from: iset<Ref>)
    ensures MarkClosed(h, StrongBound(h, from))
  {
    var b := StrongBound(h, from);
    forall o, r | o in b && o in h && Keeps(h, b, o, r) ensures r in b {
      if !(r in h && h[r].Str?) {
        KeepsStrongly(h, b, o, r);
        forall s: iset<Ref> | (forall x :: x in from ==> x in s) && StrongClosed(h, s) ensures r in s {
          assert forall x :: x in b ==> x in s || (x in h && h[x].Str?);
          StrongKeepsMore(h, b, s, o, r);
        }
      }
    }
  }

  lemma KeepsMore(h: Heap, s: iset<Ref>, s': iset<Ref>, o: Ref, r: Ref)
    requires o in h && Keeps(h, s, o, r) && forall x :: x in s ==> x in s'
    ensures Keeps(h, s', o, r)
  {
    if h[o].Table? && h[o].mode == Ephemeron && MarkedKeyValue(h[o].nodes, s, r) {
      var i :| 0 <= i < |h[o].nodes| && h[o].nodes[i].val == Obj(r) && KeyIn(h[o].nodes[i].key, s);
      assert KeyIn(h[o].nodes[i].key, s');
    }
  }

  /** `o` is in the least set that contains `from` and is closed under the marking rules. */
  ghost predicate MarkReached(h: Heap, from: iset<Ref>, o: Ref) {
    forall s: iset<Ref> {:trigger MarkClosed(h, s)} :: (forall r :: r in from ==> r in s) && MarkClosed(h, s) ==> o in s
  }

  /** That set. */
  ghost function MarkBound(h: Heap, from: iset<Ref>): iset<Ref> { iset o: Ref | MarkReached(h, from, o) }

  lemma MarkBoundClosed(h: Heap, from: iset<Ref>)
    ensures MarkClosed(h, MarkBound(h, from))
  {
    var b := MarkBound(h, from);
    forall o, r | o in b && o in h && Keeps(h, b, o, r) ensures r in b {
      forall s: iset<Ref> | (forall x :: x in from ==> x in s) && MarkClosed(h, s)
        ensures r in s { KeepsMore(h, b, s, o, r); }
    }
  }

  /** Apart from strings, all in it is reached strongly. */
  lemma MarkReachedStrongly(h: Heap, from: iset<Ref>, o: Ref)
    requires MarkReached(h, from, o)
    ensures o in StrongBound(h, from)
  {
    StrongBoundClosed(h, from);
    forall r | r in from ensures StronglyReached(h, from, r) {}
  }

  lemma ClosedBoth(h: Heap, a: iset<Ref>, b: iset<Ref>)
    requires MarkClosed(h, a) && MarkClosed(h, b)
    ensures MarkClosed(h, iset o | o in a && o in b)
  {
    var s := iset o | o in a && o in b;
    forall o, r | o in s && o in h && Keeps(h, s, o, r) ensures r in s {
      KeepsMore(h, s, a, o, r);
      KeepsMore(h, s, b, o, r);
    }
  }

  // ----- well-formed heaps -----

  /** Only Lua closures and threads refer to upvalues; metatables are tables. */
  ghost predicate Typed(h: Heap) {
    && (forall o, r {:trigger Points(h, o, r)} ::
          o in h && r in h && Points(h, o, r) && h[r].IsUpval() ==>
            h[o].Fn? || (h[o].Thread? && Obj(r) !in h[o].stack))
    && (forall o {:trigger MetaIsTable(h, o)} :: o in h ==> MetaIsTable(h, o))
  }

  ghost predicate MetaIsTable(h: Heap, o: Ref)
    requires o in h
  {
    h[o].Udata? && h[o].meta != Nil ==> h[o].meta.Obj? && (h[o].meta.ref in h ==> h[h[o].meta.ref].Table?)
  }

  /** The slot of an open upvalue lies in the live part of the stack of its thread, which knows the upvalue. */
  ghost predicate SlotOk(h: Heap, u: Ref)
    requires u in h
  {
    h[u].OpenUp? ==>
      && h[u].thread in h && h[h[u].thread].Thread?
      && u in h[h[u].thread].upvals && h[u].level < |h[h[u].thread].stack|
  }

  /** Threads and their open upvalues name each other. */
  ghost predicate Linked(h: Heap) {
    && (forall u {:trigger SlotOk(h, u)} :: u in h ==> SlotOk(h, u))
    && (forall t, u {:trigger u in h[t].upvals} :: t in h && h[t].Thread? && u in h[t].upvals ==>
          u in h && h[u].OpenUp? && h[u].thread == t)
  }

  // ----- heaps that only lose weak entries and dead keys -----

  predicate NodeShrinks(n: Node, n': Node) {
    && (n'.val == n.val || n'.val == Nil)
    && (n'.key == n.key || (n'.key == DeadKey && n'.val == Nil))
  }

  predicate ValuesShrink(a: seq<Value>, a': seq<Value>) {
    |a'| == |a| && forall i :: 0 <= i < |a| ==> a'[i] == a[i] || a'[i] == Nil
  }

  predicate NodesShrink(ns: seq<Node>, ns': seq<Node>) {
    |ns'| == |ns| && forall i :: 0 <= i < |ns| ==> NodeShrinks(ns[i], ns'[i])
  }

  /** At most the key of an empty entry is dead. */
  predicate NodeKept(n: Node, n': Node) { n' == n || (n.val == Nil && n' == Node(DeadKey, Nil)) }

  predicate EntriesKept(ns: seq<Node>, ns': seq<Node>) {
    |ns'| == |ns| && forall i :: 0 <= i < |ns| ==> NodeKept(ns[i], ns'[i])
  }

  /** A strong table loses nothing but keys of empty entries; a weak table may lose entries. */
  predicate BodyShrinks(b: Body, b': Body) {
    b' == b
    || (b.Table? && b'.Table? && b'.mode == b.mode && b'.meta == b.meta
        && ValuesShrink(b.arr, b'.arr) && NodesShrink(b.nodes, b'.nodes)
        && (b.mode == Strong ==> b'.arr == b.arr && EntriesKept(b.nodes, b'.nodes)))
  }

  ghost predicate HeapShrinks(h: Heap, h': Heap) {
    h'.Keys == h.Keys && forall o {:trigger h'[o]} {:trigger h[o]} :: o in h ==> BodyShrinks(h[o], h'[o])
  }

  /** Nothing but keys of empty entries is gone, in weak tables as well. */
  ghost predicate Intact(h: Heap, h': Heap) {
    h'.Keys == h.Keys && forall o {:trigger h'[o]} {:trigger h[o]} :: o in h ==> BodyIntact(h[o], h'[o])
  }

  predicate BodyIntact(b: Body, b': Body) {
    b' == b || (b.Table? && b'.Table? && b'.mode == b.mode && b'.meta == b.meta && b'.arr == b.arr &&
      EntriesKept(b.nodes, b'.nodes))
  }

  lemma IntactTrans(h: Heap, h': Heap, h'': Heap)
    requires Intact(h, h') && Intact(h', h'')
    ensures Intact(h, h'')
  {
    forall o | o in h ensures BodyIntact(h[o], h''[o]) {
      assert BodyIntact(h[o], h'[o]) && BodyIntact(h'[o], h''[o]);
    }
  }

  lemma ShrinkTrans(h: Heap, h': Heap, h'': Heap)
    requires HeapShrinks(h, h') && HeapShrinks(h', h'')
    ensures HeapShrinks(h, h'')
  {
    forall o | o in h ensures BodyShrinks(h[o], h''[o]) {
      assert BodyShrinks(h[o], h'[o]) && BodyShrinks(h'[o], h''[o]);
    }
  }

  lemma ShrinkPoints(h: Heap, h': Heap, o: Ref, r: Ref)
    requires HeapShrinks(h, h') && o in h && Points(h', o, r)
    ensures Points(h, o, r)
  {
    assert BodyShrinks(h[o], h'[o]);
    if h[o].OpenUp? {
      assert h[o].thread in h ==> BodyShrinks(h[h[o].thread], h'[h[o].thread]);
    } else if h[o].Table? {
      if Obj(r) in h'[o].arr {
        var i :| 0 <= i < |h'[o].arr| && h'[o].arr[i] == Obj(r);
        assert h[o].arr[i] == Obj(r);
      } else if NodesRefer(h'[o].mode, h'[o].nodes, r) {
        var i :| 0 <= i < |h'[o].nodes| && NodeRefers(h'[o].mode, h'[o].nodes[i], r);
        assert NodeRefers(h[o].mode, h[o].nodes[i], r);
      }
    }
  }

  lemma ShrinkKeeps(h: Heap, h': Heap, s: iset<Ref>, o: Ref, r: Ref)
    requires HeapShrinks(h, h') && o in h && Keeps(h', s, o, r)
    ensures Keeps(h, s, o, r)
  {
    KeepsPoints(h', s, o, r);
    ShrinkPoints(h, h', o, r);
    assert BodyShrinks(h[o], h'[o]);
    assert r in h ==> BodyShrinks(h[r], h'[r]);
    if h[o].Table? {
      var t, t' := h[o], h'[o];
      if t'.mode == WeakValues && KeyRefers(t'.nodes, r) {
        var i :| 0 <= i < |t'.nodes| && t'.nodes[i].val != Nil && t'.nodes[i].key == Live(Obj(r));
        assert NodeShrinks(t.nodes[i], t'.nodes[i]);
      } else if t'.mode == Ephemeron && MarkedKeyValue(t'.nodes, s, r) {
        var i :| 0 <= i < |t'.nodes| && t'.nodes[i].val == Obj(r) && KeyIn(t'.nodes[i].key, s);
        assert NodeShrinks(t.nodes[i], t'.nodes[i]);
      } else if t'.mode == Ephemeron && Obj(r) in t'.arr {
        var i :| 0 <= i < |t'.arr| && t'.arr[i] == Obj(r);
        assert t.arr[i] == Obj(r);
      }
    }
  }

  lemma ShrinkMarkClosed(h: Heap, h': Heap, s: iset<Ref>)
    requires HeapShrinks(h, h') && MarkClosed(h, s)
    ensures MarkClosed(h', s)
  {
    forall o, r | o in s && o in h' && Keeps(h', s, o, r) ensures r in s {
      ShrinkKeeps(h, h', s, o, r);
    }
  }

  lemma ShrinkTyped(h: Heap, h': Heap)
    requires HeapShrinks(h, h') && Typed(h) && Linked(h)
    ensures Typed(h') && Linked(h')
  {
    forall o, r | o in h' && r in h' && Points(h', o, r) && h'[r].IsUpval()
      ensures h'[o].Fn? || (h'[o].Thread? && Obj(r) !in h'[o].stack)
    {
      ShrinkPoints(h, h', o, r);
      assert BodyShrinks(h[o], h'[o]) && BodyShrinks(h[r], h'[r]);
    }
    forall o | o in h' ensures MetaIsTable(h', o) {
      assert MetaIsTable(h, o) && BodyShrinks(h[o], h'[o]);
      if h[o].Udata? && h[o].meta.Obj? && h[o].meta.ref in h {
        assert BodyShrinks(h[h[o].meta.ref], h'[h[o].meta.ref]);
      }
    }
    forall u | u in h' ensures SlotOk(h', u) {
      assert SlotOk(h, u) && BodyShrinks(h[u], h'[u]);
      if h[u].OpenUp? {
        assert BodyShrinks(h[h[u].thread], h'[h[u].thread]);
      }
    }
    forall t, u | t in h' && h'[t].Thread? && u in h'[t].upvals
      ensures u in h' && h'[u].OpenUp? && h'[u].thread == t
    {
      assert BodyShrinks(h[t], h'[t]);
      assert BodyShrinks(h[u], h'[u]);
    }
  }
}
