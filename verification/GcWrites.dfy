/** Writes of accessible values into objects, and the barriers that follow them: what they do to the invariant
    (lgc.c:208-240, lgc.h:175-186). */
module GcWrites {
  import opened GcObjects
  import opened GcMarking
  import opened GcWorld
  import opened Folding

  // ----- writes into the heap -----

  /** Two bodies of the same kind, as far as the collector's lists and colours are concerned. */
  predicate SameKind(b: Body, b': Body) {
    && b'.Listable() == b.Listable() && b'.IsUpval() == b.IsUpval() && b'.OpenUp? == b.OpenUp?
    && b'.Str? == b.Str? && b'.Thread? == b.Thread? && b'.Fn? == b.Fn? && b'.Udata? == b.Udata?
    && b'.Table? == b.Table? && (b.Table? ==> b'.mode == b.mode && (b.mode != Strong ==> b'.meta == b.meta))
    && (b.Thread? ==> b'.upvals == b.upvals)
  }

  /** The objects whose references a write into `o` may change: a thread shares its slots with open upvalues. */
  predicate Touched(h: Heap, o: Ref, x: Ref) {
    x == o || (x in h && o in h && h[o].Thread? && x in h[o].upvals)
  }

  /** A write into object `o`, the new references leading to `news`, which are alive. Folded. */
  ghost predicate Writes(g: World, o: Ref, b: Body, news: set<Ref>) {
    && o in g.h && SameKind(g.h[o], b)
    && forall k: nat {:trigger Open(k)} :: Open(k) ==>
      && Typed(g.h[o := b]) && Linked(g.h[o := b])
      && (forall r {:trigger r in news} :: r in news ==> Alive(g, r) && r !in g.garbage)
      && (forall x, r {:trigger Points(g.h[o := b], x, r)} :: x in g.h && Points(g.h[o := b], x, r) ==>
            Points(g.h, x, r) || (r in news && Touched(g.h, o, x)))
  }

  function Written(g: World, o: Ref, b: Body): World { g.(h := g.h[o := b]) }

  lemma WriteShape(g: World, o: Ref, b: Body, news: set<Ref>)
    requires Shape(g) && Writes(g, o, b, news)
    ensures Shape(Written(g, o, b))
  {
    var g' := Written(g, o, b);
    OwnedSame(g, g');
    ListsSame(g, g');
    WriteBelow(g, o, b, news);
    WriteKinds(g, o, b, news);
  }

  lemma WriteBelow(g: World, o: Ref, b: Body, news: set<Ref>)
    requires Below(g) && Writes(g, o, b, news)
    ensures Below(Written(g, o, b))
  {
    assert Open(0);
    BelowSame(g, Written(g, o, b));
  }

  lemma WriteKinds(g: World, o: Ref, b: Body, news: set<Ref>)
    requires KindsOk(g) && Writes(g, o, b, news)
    ensures KindsOk(Written(g, o, b)) && TypedOk(Written(g, o, b))
  {
    assert Open(0);
  }

  lemma WriteLife(g: World, o: Ref, b: Body, news: set<Ref>)
    requires AliveClosed(g) && RootsAlive(g) && GarbageKept(g) && Writes(g, o, b, news)
    ensures var g' := Written(g, o, b); AliveClosed(g') && RootsAlive(g') && GarbageKept(g')
  {
    assert Open(0);
    var g' := Written(g, o, b);
    assert Roots(g') == Roots(g);
    assert forall x {:trigger Alive(g', x)} :: Alive(g', x) == Alive(g, x);
    forall x, r | Alive(g', x) && Points(g'.h, x, r) ensures Alive(g', r) {
      assert Alive(g, x) && (Points(g.h, x, r) || r in news);
    }
  }

  lemma WriteMarkState(g: World, o: Ref, b: Body, news: set<Ref>)
    requires Basic(g) && MarkStateOk(g) && GarbageKept(g) && KindsOk(g) && Writes(g, o, b, news)
    ensures MarkStateOk(Written(g, o, b))
  {
    assert Open(0);
    if InMark(g.phase) {
      var h' := g.h[o := b];
      forall x, r | x in h' && Points(h', x, r) ensures r in h' {
        assert Points(g.h, x, r) || r in news;
      }
      WriteListed(g, o, b);
      WriteMarkClosed(g, o, b, news);
    }
  }

  lemma WriteListed(g: World, o: Ref, b: Body)
    requires GrayListed(g.h, g.c, g.l) && o in g.h && SameKind(g.h[o], b)
    ensures GrayListed(g.h[o := b], g.c, g.l)
  {
    var h' := g.h[o := b];
    forall x ensures Times(g.l, x) == if x in h' && x in g.c && g.c[x] == Gray && h'[x].Listable() then 1 else 0 {
      assert Times(g.l, x) == if x in g.h && x in g.c && g.c[x] == Gray && g.h[x].Listable() then 1 else 0;
    }
  }

  lemma WriteMarkClosed(g: World, o: Ref, b: Body, news: set<Ref>)
    requires GarbageKept(g) && Writes(g, o, b, news)
    ensures MarkClosed(g.h[o := b], Bound(g))
  {
    assert Open(0);
    var h' := g.h[o := b];
    forall x, r | x in Bound(g) && x in h' && Keeps(h', Bound(g), x, r) ensures r in Bound(g) {
      KeepsPoints(h', Bound(g), x, r);
      assert Points(g.h, x, r) || r in news;
    }
  }

  lemma WritePropagation(g: World, o: Ref, b: Body, news: set<Ref>)
    requires PropagationOk(g) && Writes(g, o, b, news)
    ensures PropagationOk(Written(g, o, b))
  {
    assert Open(0);
    if InMark(g.phase) {
      forall x | x in g.l.allweak && x in g.h
        ensures g.h[o := b][x].Table? && g.h[o := b][x].mode == AllWeak && ValueMarked(g.c, g.h[o := b][x].meta) {
      }
    }
  }

  /** A write of accessible values keeps the invariant but for the colours. */
  lemma WriteCore(g: World, o: Ref, b: Body, news: set<Ref>)
    requires Core(g) && Writes(g, o, b, news)
    ensures Core(Written(g, o, b))
  {
    var g' := Written(g, o, b);
    WriteShape(g, o, b, news);
    WriteLife(g, o, b, news);
    assert forall x {:trigger Alive(g', x)} :: Alive(g', x) == Alive(g, x);
    TwupsSame(g, g');
    SweepSame(g, g');
    WriteMarkState(g, o, b, news);
    WritePropagation(g, o, b, news);
    WriteNoDead(g, o, b);
  }

  lemma WriteNoDead(g: World, o: Ref, b: Body)
    requires NoDead(g)
    ensures NoDead(Written(g, o, b))
  {
    assert Open(0);
  }

  /** A write that concerns no black object keeps the tri-colour invariant. */
  lemma WriteColoured(g: World, o: Ref, b: Body, news: set<Ref>)
    requires Basic(g) && Coloured(g) && KindsOk(g) && TypedOk(g) && Writes(g, o, b, news)
    requires InMark(g.phase) ==> g.c[o] != Black
    ensures Coloured(Written(g, o, b))
  {
    assert Open(0);
    if InMark(g.phase) {
      var h' := g.h[o := b];
      forall x | x in h' && x in g.c && g.c[x] == Black ensures AllMarked(h', g.c, x) {
        forall r | Points(h', x, r) ensures Marked(g.c, r) {
          assert Points(g.h, x, r) || Touched(g.h, o, x);
        }
      }
    }
  }

  // ----- barriers -----

  ghost predicate TriColourBut(h: Heap, c: Colors, o: Ref) {
    forall x {:trigger c[x]} :: x in h && x in c && x != o && c[x] == Black ==> AllMarked(h, c, x)
  }

  /** A value `v` was just stored into object `o`, and the barrier is still to come: at most the reference from
      `o` to `v` violates the invariant. */
  ghost predicate Breached(g: World, o: Ref, v: Value) {
    && Core(g) && o in g.h && o in g.c && !g.h[o].Str? && (v.Obj? ==> Alive(g, v.ref) && v.ref !in g.garbage)
    && (forall k: nat {:trigger Open(k)} :: Open(k) ==> InMark(g.phase) ==>
          && TriColourBut(g.h, g.c, o)
          && (g.c[o] == Black ==> forall r {:trigger Points(g.h, o, r)} :: Points(g.h, o, r) ==>
            Marked(g.c, r) || Obj(r) == v))
  }

  /** No barrier is needed unless `o` is black and `v` white. */
  lemma NotBreached(g: World, o: Ref, v: Value)
    requires Breached(g, o, v) && !(v.Obj? && g.c[o] == Black && IsWhite(g.c[v.ref]))
    ensures Sound(g)
  {
    assert Open(0);
    if InMark(g.phase) {
      forall x | x in g.h && x in g.c && g.c[x] == Black ensures AllMarked(g.h, g.c, x) {
        if x == o {
          forall r | Points(g.h, o, r) ensures Marked(g.c, r) { assert Marked(g.c, r) || Obj(r) == v; }
        }
      }
    }
  }

  /** The barriers act only while marking or sweeping: at other times no object but a fixed string is black. */
  lemma NoBlackAtRest(g: World, o: Ref, v: Value)
    requires Breached(g, o, v) && g.c[o] == Black
    ensures InMark(g.phase) || InSweep(g.phase)
  {
    OwnedListed(g);
    assert Open(0);
  }

  /** What the forward barrier needs to mark the new referent. */
  lemma BreachedMark(g: World, o: Ref, v: Value)
    requires Breached(g, o, v) && v.Obj? && InMark(g.phase)
    ensures Markable(g.h, g.c, g.l, Bound(g)) && v.ref in Bound(g)
  {
    assert Open(0);
  }

  /** Marking more objects while the phase lasts. */
  ghost predicate MarksMore(g: World, g': World) {
    && InMark(g.phase) && g' == g.(c := g'.c, l := g.l.(gray := g'.l.gray))
    && Extends(g.h, g.c, g'.c) && Markable(g.h, g'.c, g'.l, Bound(g))
  }

  lemma MarkedMore(g: World, g': World)
    requires Core(g) && MarksMore(g, g')
    ensures Core(g')
  {
    MoreAlive(g, g');
    OwnedSame(g, g');
    ListsSame(g, g');
    LifeSame(g, g');
    BelowSame(g, g');
    TwupsSame(g, g');
    MoreLists(g, g');
    MoreSweep(g, g');
  }

  lemma MoreSweep(g: World, g': World)
    requires InMark(g.phase) && SweepOk(g) && GarbageSwept(g) && g' == g.(c := g'.c, l := g'.l)
    ensures SweepOk(g') && GarbageSwept(g')
  {
  }

  lemma MoreAlive(g: World, g': World)
    requires Basic(g) && NoDead(g) && MarksMore(g, g')
    ensures forall x {:trigger Alive(g', x)} :: Alive(g', x) == Alive(g, x)
    ensures NoDead(g')
  {
    assert Open(0);
    forall x | x in g'.c ensures g'.c[x] != OtherWhite(g.w) { assert g.c[x] != OtherWhite(g.w); }
    forall x | x in g.tobefnz ensures Marked(g'.c, x) { assert Marked(g.c, x); }
  }

  lemma MoreLists(g: World, g': World)
    requires Basic(g) && PropagationOk(g) && TypedOk(g) && MarksMore(g, g')
    ensures PropagationOk(g') && MarkStateOk(g') && KindsOk(g') && TypedOk(g')
  {
    assert Open(0);
    forall x | x in g.h && x in g'.c && (g.h[x].Thread? || IsWeak(g.h[x])) ensures g'.c[x] != Black {
      if IsWhite(g.c[x]) && !IsWhite(g'.c[x]) { assert Finished(g.h, g'.c, x); }
    }
    forall x | x in g'.l.allweak && x in g.h
      ensures g.h[x].Table? && g.h[x].mode == AllWeak && ValueMarked(g'.c, g.h[x].meta) {
      assert ValueMarked(g.c, g.h[x].meta);
    }
  }

  /** After the forward barrier has marked the new referent (lgc.c:211-212). */
  lemma ForwardMarked(g: World, g': World, o: Ref, v: Value)
    requires Breached(g, o, v) && v.Obj? && MarksMore(g, g') && Marked(g'.c, v.ref)
    ensures Sound(g')
  {
    MarkedMore(g, g');
    ForwardColours(g, g', o, v);
  }

  lemma ForwardColours(g: World, g': World, o: Ref, v: Value)
    requires Breached(g, o, v) && v.Obj? && MarksMore(g, g') && Marked(g'.c, v.ref)
    ensures Coloured(g')
  {
    assert Open(0);
    forall x | x in g'.h && x in g'.c && g'.c[x] == Black ensures AllMarked(g'.h, g'.c, x) {
      if x in g.c && g.c[x] == Black {
        forall r | Points(g'.h, x, r) ensures Marked(g'.c, r) {
          assert x == o ==> Marked(g.c, r) || Obj(r) == v;
          assert x != o ==> AllMarked(g.h, g.c, x) && Marked(g.c, r);
        }
      } else {
        assert Finished(g.h, g'.c, x);
      }
    }
  }

  /** Painting an unswept black object gray, or in the sweep phase white, as the barriers do. */
  ghost predicate Repaints(g: World, g': World, o: Ref) {
    && o in g.h && o in g.c && g.c[o] == Black && !g.h[o].Str? && g' == g.(c := g'.c, l := g'.l)
    && ((g'.c == g.c[o := g.w] && !InMark(g.phase)) || (g'.c == g.c[o := Gray] && g.h[o].Listable()))
  }

  lemma RepaintedShape(g: World, g': World, o: Ref)
    requires Shape(g) && Repaints(g, g', o)
    ensures Shape(g')
  {
    OwnedSame(g, g');
    BelowSame(g, g');
    RepaintedKinds(g, g', o);
    RepaintedLists(g, g', o);
  }

  lemma RepaintedLists(g: World, g': World, o: Ref)
    requires ListsOk(g) && Repaints(g, g', o)
    ensures ListsOk(g')
  {
    assert Open(0);
    assert o !in g.fixedgc;
    ListsSame(g, g');
  }

  lemma RepaintedKinds(g: World, g': World, o: Ref)
    requires Basic(g) && KindsOk(g) && TypedOk(g) && Repaints(g, g', o)
    ensures KindsOk(g') && TypedOk(g')
  {
    assert Open(0);
    forall x | x in g'.h && x in g'.c && !IsWhite(g'.c[x]) && !g'.h[x].Listable() && !g'.h[x].Str?
      ensures g'.c[x] == if g'.h[x].OpenUp? then Gray else Black
    {
      assert x != o && g'.c[x] == g.c[x];
    }
  }

  lemma Repainted(g: World, g': World, o: Ref)
    requires Core(g) && Repaints(g, g', o) && MarkStateOk(g') && PropagationOk(g') && NoDead(g')
    ensures Core(g')
  {
    RepaintedShape(g, g', o);
    assert forall x {:trigger Alive(g', x)} :: Alive(g', x) == Alive(g, x);
    LifeSame(g, g');
    TwupsSame(g, g');
    SweepSame(g, g');
  }

  /** The forward barrier of the sweep phase: the black object is swept at once (lgc.c:218-222). */
  lemma ForwardSwept(g: World, o: Ref, v: Value)
    requires Breached(g, o, v) && InSweep(g.phase) && g.c[o] == Black
    ensures Sound(g.(c := g.c[o := g.w]))
  {
    var g' := g.(c := g.c[o := g.w]);
    NotMarking(g');
    Repainted(g, g', o);
  }

  lemma NotMarking(g: World)
    requires !InMark(g.phase)
    ensures MarkStateOk(g) && PropagationOk(g) && NoDead(g) && Coloured(g)
  {
  }

  /** The backward barrier: the black object is gray again and waits for the atomic phase (lgc.c:230-240). */
  function GrayAgain(g: World, o: Ref): World {
    g.(c := g.c[o := Gray], l := g.l.(grayagain := [o] + g.l.grayagain))
  }

  lemma BackMarkState(g: World, o: Ref)
    requires Basic(g) && MarkStateOk(g) && PropagationOk(g) && NoDead(g) && o in g.h && g.c[o] == Black
    requires g.h[o].Listable()
    ensures var g' := GrayAgain(g, o); MarkStateOk(g') && PropagationOk(g') && NoDead(g')
  {
    assert Open(0);
    if InMark(g.phase) {
      var g' := GrayAgain(g, o);
      Link(g.h, g.c, g.l, g'.l, o);
      forall x | x in g.l.allweak && x in g.h
        ensures g.h[x].Table? && g.h[x].mode == AllWeak && ValueMarked(g'.c, g.h[x].meta) {
        assert ValueMarked(g.c, g.h[x].meta);
      }
      forall x | x in g.tobefnz ensures Marked(g'.c, x) { assert Marked(g.c, x); }
    }
  }

  lemma BackColours(g: World, o: Ref, v: Value)
    requires Breached(g, o, v) && g.c[o] == Black
    ensures Coloured(GrayAgain(g, o))
  {
    assert Open(0);
    if InMark(g.phase) {
      var g' := GrayAgain(g, o);
      forall x | x in g'.h && x in g'.c && g'.c[x] == Black ensures AllMarked(g'.h, g'.c, x) {
        forall r | Points(g'.h, x, r) ensures Marked(g'.c, r) {
          assert AllMarked(g.h, g.c, x) && Marked(g.c, r);
        }
      }
    }
  }

  lemma BackMarked(g: World, o: Ref, v: Value)
    requires Breached(g, o, v) && g.c[o] == Black && g.h[o].Listable()
    ensures Sound(GrayAgain(g, o))
  {
    BackMarkState(g, o);
    BackColours(g, o, v);
    Repainted(g, GrayAgain(g, o), o);
  }

  // ----- storing -----

  /** A value the running program can get hold of. */
  ghost predicate Holds(g: World, v: Value) {
    v.Obj? ==> v.ref in g.h && Accessible(g, v.ref) && !g.h[v.ref].IsUpval()
  }

  /** What makes a value safe to store: it is neither dead nor recorded as unreachable, and no upvalue. */
  ghost predicate Safe(g: World, v: Value) {
    v.Obj? ==> Alive(g, v.ref) && v.ref !in g.garbage && !g.h[v.ref].IsUpval()
  }

  lemma HeldSafe(g: World, v: Value)
    requires Sound(g) && Holds(g, v)
    ensures Safe(g, v)
  {
    if v.Obj? { AccessibleAlive(g, v.ref); }
  }

  function News(v: Value): set<Ref> { if v.Obj? then {v.ref} else {} }

  /** A store of `v`, and of references to `more` that need no barrier, into an object other than a thread. Folded. */
  ghost predicate Stores(g: World, o: Ref, b: Body, v: Value, more: set<Ref>) {
    && o in g.h && SameKind(g.h[o], b) && !b.Thread? && !b.OpenUp? && !b.Str?
    && forall k: nat {:trigger Open(k)} :: Open(k) ==>
      && MetaIsTable(g.h[o := b], o)
      && (forall r {:trigger r in News(v) + more} :: r in News(v) + more ==>
            Alive(g, r) && r !in g.garbage && (g.h[o].Fn? || !g.h[r].IsUpval()))
      && (forall r {:trigger Points(g.h[o := b], o, r)} :: Points(g.h[o := b], o, r) ==>
        Points(g.h, o, r) || r in News(v) + more)
      && (o in g.c && g.c[o] == Black ==> forall r {:trigger r in more} :: r in more ==> Marked(g.c, r))
  }

  lemma StoreTyped(g: World, o: Ref, b: Body, v: Value, more: set<Ref>)
    requires TypedOk(g) && Stores(g, o, b, v, more)
    ensures Typed(g.h[o := b]) && Linked(g.h[o := b])
  {
    assert Open(0);
    var h' := g.h[o := b];
    forall x | x in h' ensures MetaIsTable(h', x) && SlotOk(h', x) {
      assert MetaIsTable(g.h, x) && SlotOk(g.h, x);
    }
    forall t, u | t in h' && h'[t].Thread? && u in h'[t].upvals ensures u in h' && h'[u].OpenUp? && h'[u].thread == t {
      assert t in g.h && g.h[t].Thread? && u in g.h[t].upvals;
    }
    forall x, r | x in h' && r in h' && Points(h', x, r) && h'[r].IsUpval()
      ensures h'[x].Fn? || (h'[x].Thread? && Obj(r) !in h'[x].stack)
    {
      assert g.h[r].IsUpval();
      if x != o { StorePoints(g, o, b, x, r); } else { assert Points(g.h, o, r) || r in News(v) + more; }
    }
  }

  lemma StorePoints(g: World, o: Ref, b: Body, x: Ref, r: Ref)
    requires o in g.h && SameKind(g.h[o], b) && !b.Thread? && x in g.h && x != o
    ensures Points(g.h[o := b], x, r) == Points(g.h, x, r)
  {
  }

  lemma StoreWrites(g: World, o: Ref, b: Body, v: Value, more: set<Ref>)
    requires TypedOk(g) && Stores(g, o, b, v, more)
    ensures Writes(g, o, b, News(v) + more)
  {
    StoreTyped(g, o, b, v, more);
    assert Open(0);
    forall x, r | x in g.h && Points(g.h[o := b], x, r)
      ensures Points(g.h, x, r) || (r in News(v) + more && Touched(g.h, o, x))
    {
      if x != o { StorePoints(g, o, b, x, r); }
    }
  }

  lemma StoreColours(g: World, o: Ref, b: Body, v: Value, more: set<Ref>)
    requires Basic(g) && Coloured(g) && Stores(g, o, b, v, more) && InMark(g.phase)
    ensures TriColourBut(g.h[o := b], g.c, o)
    ensures g.c[o] == Black ==> forall r {:trigger Points(g.h[o := b], o, r)} :: Points(g.h[o := b], o, r) ==>
      Marked(g.c, r) || Obj(r) == v
  {
    assert Open(0);
    var h' := g.h[o := b];
    forall x | x in h' && x in g.c && x != o && g.c[x] == Black ensures AllMarked(h', g.c, x) {
      forall r | Points(h', x, r) ensures Marked(g.c, r) { StorePoints(g, o, b, x, r); }
    }
    if g.c[o] == Black {
      forall r | Points(h', o, r) ensures Marked(g.c, r) || Obj(r) == v {
        assert Points(g.h, o, r) ==> Marked(g.c, r);
      }
    }
  }

  lemma StoredAlive(g: World, o: Ref, b: Body, v: Value, more: set<Ref>)
    requires Stores(g, o, b, v, more) && v.Obj?
    ensures Alive(Written(g, o, b), v.ref) && v.ref !in g.garbage
  {
    assert Open(0);
    assert v.ref in News(v) + more;
  }

  lemma StoreBreaches(g: World, o: Ref, b: Body, v: Value, more: set<Ref>)
    requires Sound(g) && Stores(g, o, b, v, more)
    ensures Breached(Written(g, o, b), o, v)
  {
    StoreWrites(g, o, b, v, more);
    WriteCore(g, o, b, News(v) + more);
    if v.Obj? { StoredAlive(g, o, b, v, more); }
    if InMark(g.phase) { StoreColours(g, o, b, v, more); }
  }

  // ----- stacks -----

  /** A thread's stack may get any values that were on it already, or that are safe; slots of open upvalues
      stay live. */
  ghost predicate StackStores(g: World, o: Ref, stack: seq<Value>, news: set<Ref>) {
    && o in g.h && g.h[o].Thread?
    && (forall r {:trigger r in news} :: r in news ==> Safe(g, Obj(r)))
    && (forall i {:trigger stack[i]} :: 0 <= i < |stack| && stack[i].Obj? ==>
          stack[i].ref in news || (i < |g.h[o].stack| && g.h[o].stack[i] == stack[i]))
    && (forall u {:trigger u in g.h[o].upvals} :: u in g.h[o].upvals ==>
      u in g.h && g.h[u].OpenUp? && g.h[u].level < |stack|)
  }

  lemma StackPoints(g: World, o: Ref, stack: seq<Value>, news: set<Ref>, x: Ref, r: Ref)
    requires StackStores(g, o, stack, news) && TypedOk(g) && x in g.h && Points(g.h[o := g.h[o].(stack := stack)], x, r)
    ensures Points(g.h, x, r) || (r in news && Touched(g.h, o, x))
  {
    assert Open(0);
    if x == o {
      if Obj(r) in stack {
        var i :| 0 <= i < |stack| && stack[i] == Obj(r);
      }
    } else if g.h[x].OpenUp? && g.h[x].thread == o {
      assert SlotOk(g.h, x);
    }
  }

  lemma StackTyped(g: World, o: Ref, stack: seq<Value>, news: set<Ref>)
    requires StackStores(g, o, stack, news) && TypedOk(g)
    ensures Typed(g.h[o := g.h[o].(stack := stack)]) && Linked(g.h[o := g.h[o].(stack := stack)])
  {
    assert Open(0);
    var h' := g.h[o := g.h[o].(stack := stack)];
    forall x | x in h' ensures MetaIsTable(h', x) && SlotOk(h', x) {
      assert MetaIsTable(g.h, x) && SlotOk(g.h, x);
    }
    forall t, u | t in h' && h'[t].Thread? && u in h'[t].upvals ensures u in h' && h'[u].OpenUp? && h'[u].thread == t {
      assert t in g.h && g.h[t].Thread? && u in g.h[t].upvals;
    }
    forall x, r | x in h' && r in h' && Points(h', x, r) && h'[r].IsUpval()
      ensures h'[x].Fn? || (h'[x].Thread? && Obj(r) !in h'[x].stack)
    {
      assert g.h[r].IsUpval();
      StackPoints(g, o, stack, news, x, r);
      if x == o && Obj(r) in stack {
        var i :| 0 <= i < |stack| && stack[i] == Obj(r);
        NotUpval(g, o, stack, news, i);
      } else if r in news {
        assert Safe(g, Obj(r));
      }
    }
  }

  lemma NotUpval(g: World, o: Ref, stack: seq<Value>, news: set<Ref>, i: nat)
    requires StackStores(g, o, stack, news) && TypedOk(g) && i < |stack| && stack[i].Obj? && stack[i].ref in g.h
    ensures !g.h[stack[i].ref].IsUpval()
  {
    assert Open(0);
    var r := stack[i].ref;
    if r in news {
      assert Safe(g, Obj(r));
    } else {
      assert Obj(r) in g.h[o].stack && Points(g.h, o, r);
    }
  }

  lemma StackWrites(g: World, o: Ref, stack: seq<Value>, news: set<Ref>)
    requires StackStores(g, o, stack, news) && TypedOk(g)
    ensures Writes(g, o, g.h[o].(stack := stack), news)
  {
    StackTyped(g, o, stack, news);
    var b := g.h[o].(stack := stack);
    forall r | r in news ensures Alive(g, r) && r !in g.garbage { assert Safe(g, Obj(r)); }
    forall x, r | x in g.h && Points(g.h[o := b], x, r) ensures Points(g.h, x, r) || (r in news && Touched(g.h, o, x)) {
      StackPoints(g, o, stack, news, x, r);
    }
  }

  lemma ThreadNotBlack(g: World, o: Ref)
    requires Basic(g) && PropagationOk(g) && InMark(g.phase) && o in g.h && g.h[o].Thread?
    ensures g.c[o] != Black
  {
    assert Open(0);
  }

  /** Writing a stack needs no barrier: while marking, threads are never black. */
  lemma StackStoreSound(g: World, o: Ref, stack: seq<Value>, news: set<Ref>)
    requires Sound(g) && StackStores(g, o, stack, news)
    ensures Sound(Written(g, o, g.h[o].(stack := stack)))
  {
    StackWrites(g, o, stack, news);
    WriteCore(g, o, g.h[o].(stack := stack), news);
    if InMark(g.phase) { ThreadNotBlack(g, o); }
    WriteColoured(g, o, g.h[o].(stack := stack), news);
  }

  // ----- roots -----

  /** Changing the roots to objects that are safe keeps the invariant. */
  lemma RootsSound(g: World, g': World)
    requires Sound(g)
    requires g' == g.(running := g'.running, registry := g'.registry, mt := g'.mt)
    requires forall o :: o in Roots(g') ==> o in Roots(g) || (Alive(g, o) && o !in g.garbage && !g.h[o].IsUpval())
    requires g'.running == g.running || (g'.running in g.h && g.h[g'.running].Thread?)
    ensures Sound(g')
  {
    OwnedSame(g, g');
    ListsSame(g, g');
    BelowSame(g, g');
    assert forall x {:trigger Alive(g', x)} :: Alive(g', x) == Alive(g, x);
    TwupsSame(g, g');
    SweepSame(g, g');
    RootsLife(g, g');
    RootsMark(g, g');
  }

  lemma RootsLife(g: World, g': World)
    requires AliveClosed(g) && RootsAlive(g) && GarbageKept(g)
    requires g' == g.(running := g'.running, registry := g'.registry, mt := g'.mt)
    requires forall o :: o in Roots(g') ==> o in Roots(g) || (Alive(g, o) && o !in g.garbage && !g.h[o].IsUpval())
    ensures AliveClosed(g') && RootsAlive(g') && GarbageKept(g')
  {
    assert Open(0);
    assert forall x {:trigger Alive(g', x)} :: Alive(g', x) == Alive(g, x);
    forall x, r | Alive(g', x) && Points(g'.h, x, r) ensures Alive(g', r) { assert Alive(g, x) && Alive(g, r); }
  }

  lemma RootsMark(g: World, g': World)
    requires TypedOk(g) && KindsOk(g) && MarkStateOk(g) && PropagationOk(g) && NoDead(g) && Coloured(g)
    requires g' == g.(running := g'.running, registry := g'.registry, mt := g'.mt)
    ensures TypedOk(g') && KindsOk(g') && MarkStateOk(g') && PropagationOk(g') && NoDead(g') && Coloured(g')
  {
    assert Open(0);
  }
}
