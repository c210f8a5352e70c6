/** New objects, and open upvalues: creating one for a stack slot, closing one (lgc.c:258-267, lfunc.c:65-99,
    182-207). */
module GcAlloc {
  import opened GcObjects
  import opened GcMarking
  import opened GcWorld
  import opened GcWrites
  import opened Folding

  // ----- allocation -----

  /** A new object: it refers to nothing but, when it is a weak table, its metatable. */
  ghost predicate NewBody(g: World, b: Body) {
    match b
    case Str => true
    case OpenUp(_, _) => false
    case ClosedUp(v) => v == Nil
    case Udata(meta, uservals) => meta == Nil && forall i :: 0 <= i < |uservals| ==> uservals[i] == Nil
    case Fn(slots) => forall i :: 0 <= i < |slots| ==> slots[i] == Nil
    case Rec(slots) => forall i :: 0 <= i < |slots| ==> slots[i] == Nil
    case Table(mode, meta, arr, nodes) => arr == [] && nodes == [] && Safe(g, meta) && (mode == Strong ==> meta == Nil)
    case Thread(stack, upvals) => stack == [] && upvals == {}
  }

  /** The world with one more object, which body `b` need not be the final one of. */
  function Added(g: World, b: Body): World {
    g.(h := g.h[g.newref := b], c := g.c[g.newref := g.w], allgc := [g.newref] + g.allgc, newref := g.newref + 1)
  }

  lemma FreshRef(g: World)
    requires Below(g) && Owned(g)
    ensures g.newref !in g.h && g.newref !in g.garbage
    ensures g.newref !in g.allgc && g.newref !in g.finobj && g.newref !in g.tobefnz && g.newref !in g.fixedgc
    ensures forall o: Ref :: o in g.h ==> !Points(g.h, o, g.newref)
  {
    OwnedListed(g);
    assert Open(0);
    assert g.newref !in g.h;
  }

  lemma AddedOwned(g: World, b: Body)
    requires Basic(g) && Owned(g) && Below(g)
    ensures Owned(Added(g, b))
  {
    FreshRef(g);
    assert Open(0);
    var g' := Added(g, b);
    forall o ensures ListTimes(g', o) == if o in g'.h then 1 else 0 {
      assert ListTimes(g, o) == if o in g.h then 1 else 0;
    }
  }

  lemma AddedLists(g: World, b: Body)
    requires Basic(g) && Owned(g) && Below(g) && ListsOk(g)
    ensures ListsOk(Added(g, b))
  {
    FreshRef(g);
    assert Open(0);
  }

  lemma BehindIn(l: seq<Ref>, s: Sweep)
    ensures forall o :: o in Behind(l, s) ==> o in l
  {
  }

  lemma AddedSweep(g: World, b: Body)
    requires Basic(g) && Owned(g) && Below(g) && SweepOk(g)
    ensures SweepOk(Added(g, b))
  {
    FreshRef(g);
    AddedLists3(g, b);
    if g.phase == SweepAllgc {
      AddedSweepAllgc(g, b);
    } else {
      BehindIn(g.finobj, g.sweep);
      BehindIn(g.tobefnz, g.sweep);
      AddedList(g, b, Behind(g.finobj, g.sweep));
      AddedList(g, b, Behind(g.tobefnz, g.sweep));
      assert Open(0);
    }
  }

  lemma AddedLists3(g: World, b: Body)
    requires Basic(g) && Owned(g) && Below(g)
    ensures AllWhite(g, g.allgc) ==> AllWhite(Added(g, b), Added(g, b).allgc)
    ensures AllWhite(g, g.finobj) ==> AllWhite(Added(g, b), g.finobj)
    ensures AllWhite(g, g.tobefnz) ==> AllWhite(Added(g, b), g.tobefnz)
    ensures NoneDead(g, g.finobj) ==> NoneDead(Added(g, b), g.finobj)
    ensures NoneDead(g, g.tobefnz) ==> NoneDead(Added(g, b), g.tobefnz)
  {
    FreshRef(g);
    AddedList(g, b, g.allgc);
    AddedList(g, b, g.finobj);
    AddedList(g, b, g.tobefnz);
  }

  lemma AddedSweepAllgc(g: World, b: Body)
    requires Basic(g) && Owned(g) && Below(g) && SweepOk(g) && g.phase == SweepAllgc
    ensures SweepOk(Added(g, b))
  {
    FreshRef(g);
    AddedLists3(g, b);
    BehindIn(g.allgc, g.sweep);
    AddedList(g, b, Behind(g.allgc, g.sweep));
    assert Open(0);
    assert Behind(Added(g, b).allgc, g.sweep) == [g.newref] + Behind(g.allgc, g.sweep);
  }

  lemma AddedGarbage(g: World, b: Body)
    requires Basic(g) && Owned(g) && Below(g) && GarbageSwept(g)
    ensures GarbageSwept(Added(g, b))
  {
    FreshRef(g);
    assert Open(0);
    assert forall x :: x in g.garbage ==> Alive(Added(g, b), x) == Alive(g, x);
  }

  lemma AddedList(g: World, b: Body, l: seq<Ref>)
    requires g.newref !in g.h && g.newref !in l
    ensures AllWhite(g, l) ==> AllWhite(Added(g, b), l)
    ensures NoneDead(g, l) ==> NoneDead(Added(g, b), l)
  {
    var g' := Added(g, b);
    if NoneDead(g, l) {
      forall o | o in l ensures Alive(g', o) { assert Alive(g, o); }
    }
  }

  /** The parts of the invariant about who is in which list, which do not depend on the new body. */
  lemma AddedFrame(g: World, b: Body)
    requires Sound(g)
    ensures var g' := Added(g, b); Owned(g') && ListsOk(g') && SweepOk(g') && GarbageSwept(g') && NoDead(g')
  {
    AddedOwned(g, b);
    AddedLists(g, b);
    AddedSweep(g, b);
    AddedGarbage(g, b);
    AddedNoDead(g, b);
  }

  lemma AddedNoDead(g: World, b: Body)
    requires Basic(g) && NoDead(g) && Owned(g) && Below(g)
    ensures NoDead(Added(g, b))
  {
    FreshRef(g);
    assert Open(0);
    if InMark(g.phase) {
      forall x | x in g.tobefnz ensures Marked(Added(g, b).c, x) { assert Marked(g.c, x); }
    }
  }

  lemma NewPoints(g: World, b: Body, x: Ref, r: Ref)
    requires Below(g) && Owned(g) && TypedOk(g) && NewBody(g, b) && x in Added(g, b).h
    ensures Points(Added(g, b).h, x, r) ==>
      (x != g.newref && Points(g.h, x, r)) ||
        (x == g.newref && b.Table? && b.meta == Obj(r) && Alive(g, r) && r !in g.garbage)
  {
    FreshRef(g);
    assert Open(0);
    if x != g.newref && g.h[x].OpenUp? { assert SlotOk(g.h, x); }
  }

  lemma NewTyped(g: World, b: Body)
    requires Basic(g) && TypedOk(g) && Owned(g) && Below(g) && NewBody(g, b)
    ensures TypedOk(Added(g, b))
  {
    FreshRef(g);
    NewRefs(g, b);
    var h' := Added(g, b).h;
    assert Open(0);
    forall x, r | x in h' && r in h' && Points(h', x, r) && h'[r].IsUpval()
      ensures h'[x].Fn? || (h'[x].Thread? && Obj(r) !in h'[x].stack)
    {
      NewPoints(g, b, x, r);
    }
  }

  lemma NewRefs(g: World, b: Body)
    requires Basic(g) && TypedOk(g) && Owned(g) && Below(g) && NewBody(g, b)
    ensures Linked(Added(g, b).h) && forall x :: x in Added(g, b).h ==> MetaIsTable(Added(g, b).h, x)
  {
    FreshRef(g);
    assert Open(0);
    var h' := Added(g, b).h;
    forall x | x in h' ensures MetaIsTable(h', x) && SlotOk(h', x) {
      if x != g.newref {
        assert g.h[x].Udata? && g.h[x].meta.Obj? ==> Points(g.h, x, g.h[x].meta.ref);
        assert MetaIsTable(g.h, x) && SlotOk(g.h, x);
      }
    }
    forall t, u | t in h' && h'[t].Thread? && u in h'[t].upvals ensures u in h' && h'[u].OpenUp? && h'[u].thread == t {
      assert t != g.newref && u in g.h[t].upvals;
    }
  }

  lemma NewKinds(g: World, b: Body)
    requires Basic(g) && KindsOk(g)
    ensures KindsOk(Added(g, b))
  {
    assert Open(0);
  }

  lemma NewBelow(g: World, b: Body)
    requires Below(g) && Owned(g) && TypedOk(g) && NewBody(g, b)
    ensures Below(Added(g, b))
  {
    var g' := Added(g, b);
    forall x: Ref, r: Ref | x in g'.h && Points(g'.h, x, r) ensures r < g'.newref {
      NewPoints(g, b, x, r);
      assert Open(0);
    }
    assert Open(0);
  }

  lemma NewLife(g: World, b: Body)
    requires Shape(g) && AliveClosed(g) && RootsAlive(g) && GarbageKept(g) && NewBody(g, b)
    ensures var g' := Added(g, b); AliveClosed(g') && RootsAlive(g') && GarbageKept(g')
  {
    FreshRef(g);
    var g' := Added(g, b);
    assert forall x {:trigger Alive(g', x)} :: Alive(g', x) == (Alive(g, x) || x == g.newref);
    assert Roots(g') == Roots(g);
    forall x, r | x in g'.h && Points(g'.h, x, r)
      ensures Alive(g', x) ==> Alive(g', r)
      ensures x !in g'.garbage ==> r !in g'.garbage
    {
      NewPoints(g, b, x, r);
      assert Open(0);
    }
    assert Open(0);
  }

  lemma NewTwups(g: World, b: Body)
    requires Basic(g) && Owned(g) && Below(g) && TwupsOk(g) && (b.Thread? ==> b.upvals == {})
    ensures TwupsOk(Added(g, b))
  {
    FreshRef(g);
    var g' := Added(g, b);
    assert Open(0);
    forall t | Alive(g', t) && g'.h[t].Thread? && g'.h[t].upvals != {}
      ensures t in g'.tw { assert Alive(g, t) && g.h[t].Thread?; }
    forall t | t in g'.tw ensures Alive(g', t) && g'.h[t].Thread? { assert Alive(g, t) && g.h[t].Thread?; }
  }

  lemma AddedListed(g: World, b: Body)
    requires g.newref !in g.h && IsWhite(g.w) && GrayListed(g.h, g.c, g.l)
    ensures GrayListed(Added(g, b).h, Added(g, b).c, g.l)
  {
    var g' := Added(g, b);
    forall x ensures Times(g.l, x) == if x in g'.h && x in g'.c && g'.c[x] == Gray && g'.h[x].Listable() then 1 else 0 {
      assert Times(g.l, x) == if x in g.h && x in g.c && g.c[x] == Gray && g.h[x].Listable() then 1 else 0;
    }
  }

  lemma NewMarkState(g: World, b: Body)
    requires Shape(g) && GarbageKept(g) && MarkStateOk(g) && NewBody(g, b)
    requires TypedOk(Added(g, b)) && KindsOk(Added(g, b))
    ensures MarkStateOk(Added(g, b))
  {
    FreshRef(g);
    var g' := Added(g, b);
    forall x, r | x in g'.h && Points(g'.h, x, r)
      ensures InMark(g.phase) ==> r in g'.h
      ensures x !in g'.garbage ==> r !in g'.garbage
    {
      NewPoints(g, b, x, r);
      assert Open(0);
    }
    assert Open(0);
    if InMark(g.phase) {
      AddedListed(g, b);
      forall x, r | x in Bound(g) && x in g'.h && Keeps(g'.h, Bound(g), x, r) ensures r in Bound(g) {
        KeepsPoints(g'.h, Bound(g), x, r);
      }
    }
  }

  lemma NewPropagation(g: World, b: Body)
    requires Basic(g) && Owned(g) && Below(g) && PropagationOk(g) && MarkStateOk(g)
    ensures PropagationOk(Added(g, b))
  {
    FreshRef(g);
    var g' := Added(g, b);
    assert Open(0);
    if InMark(g.phase) {
      forall x | x in g.l.allweak && x in g'.h
        ensures g'.h[x].Table? && g'.h[x].mode == AllWeak && ValueMarked(g'.c, g'.h[x].meta) {
        Member(g.h, g.c, g.l, x);
      }
    }
  }

  lemma NewColoured(g: World, b: Body)
    requires Shape(g) && Coloured(g) && NewBody(g, b)
    ensures Coloured(Added(g, b))
  {
    FreshRef(g);
    var g' := Added(g, b);
    forall x, r | x in g'.h && x in g'.c && g'.c[x] == Black && InMark(g.phase) && Points(g'.h, x, r)
      ensures Marked(g'.c, r) {
      NewPoints(g, b, x, r);
      assert Open(0);
      assert g.c[x] == Black && Marked(g.c, r);
    }
  }

  /** Allocation paints the new object with the current white; nothing else changes. */
  lemma NewSound(g: World, b: Body)
    requires Sound(g) && NewBody(g, b)
    ensures Sound(Added(g, b))
  {
    FreshRef(g);
    AddedFrame(g, b);
    NewTyped(g, b);
    NewKinds(g, b);
    NewBelow(g, b);
    NewLife(g, b);
    NewTwups(g, b);
    NewMarkState(g, b);
    NewPropagation(g, b);
    NewColoured(g, b);
  }

  // ----- creating an open upvalue -----

  /** The world after thread `th` got an open upvalue for a stack slot (lfunc.c:65-80). */
  function Opened(g: World, th: Ref, level: nat): World
    requires th in g.h && g.h[th].Thread?
  {
    var a := Added(g, OpenUp(th, level));
    a.(h := a.h[th := g.h[th].(upvals := g.h[th].upvals + {g.newref})], tw := if th in g.tw then g.tw else [th] + g.tw)
  }

  ghost predicate CanOpen(g: World, th: Ref, level: nat) {
    Shape(g) && AliveClosed(g) && Alive(g, th) && th !in g.garbage && g.h[th].Thread? && level < |g.h[th].stack|
  }

  lemma OpenPoints(g: World, th: Ref, level: nat, x: Ref, r: Ref)
    requires CanOpen(g, th, level) && x in Opened(g, th, level).h
    ensures Points(Opened(g, th, level).h, x, r) ==>
      (x != g.newref && Points(g.h, x, r)) || (x == th && r == g.newref) || (x == g.newref && Points(g.h, th, r))
    ensures x != g.newref && Points(g.h, x, r) ==> Points(Opened(g, th, level).h, x, r)
  {
    FreshRef(g);
    assert Open(0);
    if x != g.newref && g.h[x].OpenUp? { assert SlotOk(g.h, x); }
  }

  lemma OpenFrame(g: World, th: Ref, level: nat)
    requires CanOpen(g, th, level) && Sound(g)
    ensures var g' := Opened(g, th, level); Owned(g') && ListsOk(g') && SweepOk(g') && GarbageSwept(g') && NoDead(g')
  {
    FreshRef(g);
    AddedFrame(g, OpenUp(th, level));
    var a, g' := Added(g, OpenUp(th, level)), Opened(g, th, level);
    assert g'.h.Keys == a.h.Keys;
    OwnedSame(a, g');
    ListsSame(a, g');
    assert forall x {:trigger Alive(g', x)} :: Alive(g', x) == Alive(a, x);
    SweepSame(a, g');
    OpenNoDead(a, g');
  }

  lemma OpenNoDead(g: World, g': World)
    requires NoDead(g) && g' == g.(h := g'.h, tw := g'.tw)
    ensures NoDead(g')
  {
    assert Open(0);
  }

  lemma OpenLinked(g: World, th: Ref, level: nat)
    requires CanOpen(g, th, level)
    ensures Linked(Opened(g, th, level).h)
    ensures forall x :: x in Opened(g, th, level).h ==> MetaIsTable(Opened(g, th, level).h, x)
  {
    FreshRef(g);
    assert Open(0);
    var h' := Opened(g, th, level).h;
    var n := g.newref;
    forall x | x in h' ensures MetaIsTable(h', x) && SlotOk(h', x) {
      if x != n {
        assert MetaIsTable(g.h, x) && SlotOk(g.h, x);
        assert g.h[x].Udata? && g.h[x].meta.Obj? ==> Points(g.h, x, g.h[x].meta.ref);
      }
    }
    forall t, u | t in h' && h'[t].Thread? && u in h'[t].upvals ensures u in h' && h'[u].OpenUp? && h'[u].thread == t {
      assert u == n || u in g.h[t].upvals;
    }
  }

  lemma OpenTyped(g: World, th: Ref, level: nat)
    requires CanOpen(g, th, level)
    ensures TypedOk(Opened(g, th, level))
  {
    FreshRef(g);
    OpenLinked(g, th, level);
    assert Open(0);
    var h' := Opened(g, th, level).h;
    forall x, r | x in h' && r in h' && Points(h', x, r) && h'[r].IsUpval()
      ensures h'[x].Fn? || (h'[x].Thread? && Obj(r) !in h'[x].stack)
    {
      OpenPoints(g, th, level, x, r);
      if x == g.newref { OpenSlotPoints(g, th, level, r); }
      if x != g.newref && r != g.newref { assert g.h[r].IsUpval(); }
    }
  }

  /** What an open upvalue refers to is on the stack, so it is no upvalue. */
  lemma OpenSlotPoints(g: World, th: Ref, level: nat, r: Ref)
    requires CanOpen(g, th, level) && r in Opened(g, th, level).h && Points(Opened(g, th, level).h, g.newref, r)
    ensures !Opened(g, th, level).h[r].IsUpval()
  {
    FreshRef(g);
    assert Open(0);
    assert g.h[th].stack[level] == Obj(r) && Points(g.h, th, r);
  }

  lemma OpenKinds(g: World, th: Ref, level: nat)
    requires CanOpen(g, th, level)
    ensures KindsOk(Opened(g, th, level)) && Basic(Opened(g, th, level))
  {
    FreshRef(g);
    assert Open(0);
  }

  lemma OpenBelow(g: World, th: Ref, level: nat)
    requires CanOpen(g, th, level)
    ensures Below(Opened(g, th, level))
  {
    FreshRef(g);
    assert Open(0);
    var g' := Opened(g, th, level);
    InternedLess(g, g');
    forall x: Ref, r: Ref | x in g'.h && Points(g'.h, x, r) ensures r < g'.newref { OpenPoints(g, th, level, x, r); }
  }

  lemma OpenLife(g: World, th: Ref, level: nat)
    requires CanOpen(g, th, level) && RootsAlive(g) && GarbageKept(g)
    ensures var g' := Opened(g, th, level); AliveClosed(g') && RootsAlive(g') && GarbageKept(g')
  {
    FreshRef(g);
    assert Open(0);
    var g' := Opened(g, th, level);
    assert forall x {:trigger Alive(g', x)} :: Alive(g', x) == (Alive(g, x) || x == g.newref);
    assert Roots(g') == Roots(g);
    forall x, r | x in g'.h && Points(g'.h, x, r)
      ensures Alive(g', x) ==> Alive(g', r)
      ensures x !in g'.garbage ==> r !in g'.garbage
    {
      OpenPoints(g, th, level, x, r);
    }
  }

  lemma OpenTwups(g: World, th: Ref, level: nat)
    requires CanOpen(g, th, level) && TwupsOk(g)
    ensures TwupsOk(Opened(g, th, level))
  {
    FreshRef(g);
    assert Open(0);
    var g' := Opened(g, th, level);
    forall t | Alive(g', t) && g'.h[t].Thread? && g'.h[t].upvals != {} ensures t in g'.tw {
      if t != th { assert Alive(g, t) && g.h[t].Thread?; }
    }
    forall t | t in g'.tw ensures Alive(g', t) && g'.h[t].Thread? { assert t == th || t in g.tw; }
  }

  lemma OpenClosed(g: World, th: Ref, level: nat)
    requires CanOpen(g, th, level) && Closed(g.h)
    ensures Closed(Opened(g, th, level).h)
  {
    FreshRef(g);
    var g' := Opened(g, th, level);
    forall x, r | x in g'.h && Points(g'.h, x, r) ensures r in g'.h {
      OpenPoints(g, th, level, x, r);
    }
  }

  lemma OpenListed(g: World, th: Ref, level: nat)
    requires CanOpen(g, th, level) && GrayListed(g.h, g.c, g.l)
    ensures GrayListed(Opened(g, th, level).h, Opened(g, th, level).c, g.l)
  {
    FreshRef(g);
    var g' := Opened(g, th, level);
    AddedListed(g, OpenUp(th, level));
    forall x ensures Times(g.l, x) == if x in g'.h && x in g'.c && g'.c[x] == Gray && g'.h[x].Listable() then 1 else 0 {
      assert Times(g.l, x) == if x in g.h && x in g.c && g.c[x] == Gray && g.h[x].Listable() then 1 else 0;
    }
  }

  lemma OpenMarkState(g: World, th: Ref, level: nat)
    requires CanOpen(g, th, level) && GarbageKept(g) && MarkStateOk(g)
    ensures MarkStateOk(Opened(g, th, level))
  {
    OpenTyped(g, th, level);
    OpenKinds(g, th, level);
    assert Open(0);
    if InMark(g.phase) {
      OpenClosed(g, th, level);
      OpenListed(g, th, level);
      OpenMarkClosed(g, th, level);
      OpenBounded(g, th, level);
    }
  }

  lemma OpenBounded(g: World, th: Ref, level: nat)
    requires CanOpen(g, th, level) && Bounded(g.c, Bound(g))
    ensures Bounded(Opened(g, th, level).c, Bound(Opened(g, th, level)))
  {
    FreshRef(g);
    assert Open(0);
  }

  lemma OpenMarkClosed(g: World, th: Ref, level: nat)
    requires CanOpen(g, th, level) && GarbageKept(g)
    ensures MarkClosed(Opened(g, th, level).h, Bound(g))
  {
    FreshRef(g);
    assert Open(0);
    var g' := Opened(g, th, level);
    forall x, r | x in Bound(g) && x in g'.h && Keeps(g'.h, Bound(g), x, r) ensures r in Bound(g) {
      KeepsPoints(g'.h, Bound(g), x, r);
      OpenPoints(g, th, level, x, r);
    }
  }

  lemma OpenPropagation(g: World, th: Ref, level: nat)
    requires CanOpen(g, th, level) && PropagationOk(g) && MarkStateOk(g)
    ensures PropagationOk(Opened(g, th, level))
  {
    FreshRef(g);
    assert Open(0);
    if InMark(g.phase) {
      var g' := Opened(g, th, level);
      forall x | x in g.l.allweak && x in g'.h
        ensures g'.h[x].Table? && g'.h[x].mode == AllWeak && ValueMarked(g'.c, g'.h[x].meta)
      {
        Member(g.h, g.c, g.l, x);
        OpenWeak(g, th, level, x);
      }
    }
  }

  lemma OpenWeak(g: World, th: Ref, level: nat, x: Ref)
    requires th in g.h && g.h[th].Thread? && g.newref !in g.h && x in g.h && g.h[x].Table?
    requires ValueMarked(g.c, g.h[x].meta) && g.c.Keys == g.h.Keys
    ensures Opened(g, th, level).h[x] == g.h[x] && ValueMarked(Opened(g, th, level).c, g.h[x].meta)
  {
  }

  lemma OpenColoured(g: World, th: Ref, level: nat)
    requires CanOpen(g, th, level) && PropagationOk(g) && Coloured(g)
    ensures Coloured(Opened(g, th, level))
  {
    FreshRef(g);
    assert Open(0);
    if InMark(g.phase) {
      var g' := Opened(g, th, level);
      forall x | x in g'.h && x in g'.c && g'.c[x] == Black ensures AllMarked(g'.h, g'.c, x) {
        forall r | Points(g'.h, x, r) ensures Marked(g'.c, r) {
          OpenPoints(g, th, level, x, r);
          assert x != th && g.c[x] == Black && Marked(g.c, r);
        }
      }
    }
  }

  lemma OpenSound(g: World, th: Ref, level: nat)
    requires Sound(g) && Alive(g, th) && th !in g.garbage && g.h[th].Thread? && level < |g.h[th].stack|
    ensures Sound(Opened(g, th, level))
  {
    OpenFrame(g, th, level);
    OpenTyped(g, th, level);
    OpenKinds(g, th, level);
    OpenBelow(g, th, level);
    OpenLife(g, th, level);
    OpenTwups(g, th, level);
    OpenMarkState(g, th, level);
    OpenPropagation(g, th, level);
    OpenColoured(g, th, level);
  }

  // ----- closing an open upvalue -----

  /** The heap after the value of `u` moved into the upvalue, and the upvalue left its thread. */
  function CloseIn(h: Heap, u: Ref): Heap
    requires u in h && h[u].OpenUp? && h[u].thread in h && h[h[u].thread].Thread? && h[u].level < |h[h[u].thread].stack|
  {
    var th := h[u].thread;
    h[u := ClosedUp(h[th].stack[h[u].level])][th := h[th].(upvals := h[th].upvals - {u})]
  }

  ghost predicate CanClose(h: Heap, u: Ref) {
    u in h && h[u].OpenUp? && SlotOk(h, u)
  }

  lemma ClosePoints(h: Heap, u: Ref, x: Ref, r: Ref)
    requires CanClose(h, u) && Linked(h) && x in h
    ensures Points(CloseIn(h, u), x, r) ==> Points(h, x, r)
    ensures Points(h, x, r) && !(x == h[u].thread && r == u) ==> Points(CloseIn(h, u), x, r)
  {
    if x != u && h[x].OpenUp? { assert SlotOk(h, x); }
  }

  lemma CloseTyped(h: Heap, u: Ref)
    requires CanClose(h, u) && Typed(h) && Linked(h)
    ensures Typed(CloseIn(h, u)) && Linked(CloseIn(h, u))
  {
    var h' := CloseIn(h, u);
    forall x, r | x in h' && r in h' && Points(h', x, r) && h'[r].IsUpval()
      ensures h'[x].Fn? || (h'[x].Thread? && Obj(r) !in h'[x].stack)
    {
      ClosePoints(h, u, x, r);
      assert h[r].IsUpval();
    }
    forall x | x in h' ensures MetaIsTable(h', x) && SlotOk(h', x) {
      assert MetaIsTable(h, x) && SlotOk(h, x);
    }
    forall t, v | t in h' && h'[t].Thread? && v in h'[t].upvals ensures v in h' && h'[v].OpenUp? && h'[v].thread == t {
      assert v in h[t].upvals;
    }
  }

  /** The world after closing `u`; a marked upvalue becomes black (lfunc.c:196-205). */
  function AfterClose(g: World, u: Ref): World
    requires u in g.h && g.h[u].OpenUp? && SlotOk(g.h, u) && u in g.c
  {
    g.(h := CloseIn(g.h, u), c := if IsWhite(g.c[u]) then g.c else g.c[u := Black])
  }

  lemma CloseShape(g: World, u: Ref)
    requires Shape(g) && CanClose(g.h, u)
    ensures Shape(AfterClose(g, u))
  {
    var g' := AfterClose(g, u);
    OwnedSame(g, g');
    ListsSame(g, g');
    CloseKinds(g, u);
    CloseBelow(g, u);
  }

  lemma CloseBelow(g: World, u: Ref)
    requires Basic(g) && TypedOk(g) && Below(g) && CanClose(g.h, u)
    ensures Below(AfterClose(g, u))
  {
    var g' := AfterClose(g, u);
    forall x: Ref, r: Ref | x in g'.h && Points(g'.h, x, r) ensures Points(g.h, x, r) {
      assert Open(0);
      ClosePoints(g.h, u, x, r);
    }
    BelowSame(g, g');
  }

  lemma CloseKinds(g: World, u: Ref)
    requires Basic(g) && TypedOk(g) && KindsOk(g) && CanClose(g.h, u)
    ensures KindsOk(AfterClose(g, u)) && TypedOk(AfterClose(g, u))
  {
    assert Open(0);
    CloseTyped(g.h, u);
    var g' := AfterClose(g, u);
    forall x | x in g'.h && x in g'.c && !IsWhite(g'.c[x]) && !g'.h[x].Listable() && !g'.h[x].Str?
      ensures g'.c[x] == if g'.h[x].OpenUp? then Gray else Black
    {
      assert x != u ==> g'.c[x] == g.c[x];
    }
  }

  lemma CloseLife(g: World, u: Ref)
    requires Shape(g) && CanClose(g.h, u) && Life(g)
    ensures Life(AfterClose(g, u))
  {
    var g' := AfterClose(g, u);
    assert forall x {:trigger Alive(g', x)} :: Alive(g', x) == Alive(g, x);
    forall x, r | x in g'.h && Points(g'.h, x, r) ensures Points(g.h, x, r) {
      assert Open(0);
      ClosePoints(g.h, u, x, r);
    }
    LifeSame(g, g');
    TwupsSame(g, g');
    SweepSame(g, g');
  }

  lemma CloseMarkState(g: World, u: Ref)
    requires Shape(g) && GarbageKept(g) && MarkStateOk(g) && CanClose(g.h, u)
    ensures MarkStateOk(AfterClose(g, u))
  {
    CloseKinds(g, u);
    CloseMarkClosed(g, u);
    assert Open(0);
    if InMark(g.phase) {
      var g' := AfterClose(g, u);
      CloseListed(g, u);
      forall x, r | x in g'.h && Points(g'.h, x, r) ensures r in g'.h { ClosePoints(g.h, u, x, r); }
    }
  }

  lemma CloseListed(g: World, u: Ref)
    requires CanClose(g.h, u) && u in g.c && GrayListed(g.h, g.c, g.l)
    ensures GrayListed(AfterClose(g, u).h, AfterClose(g, u).c, g.l)
  {
    var g' := AfterClose(g, u);
    forall x ensures Times(g.l, x) == if x in g'.h && x in g'.c && g'.c[x] == Gray && g'.h[x].Listable() then 1 else 0 {
      assert Times(g.l, x) == if x in g.h && x in g.c && g.c[x] == Gray && g.h[x].Listable() then 1 else 0;
    }
  }

  lemma CloseMarkClosed(g: World, u: Ref)
    requires Basic(g) && TypedOk(g) && GarbageKept(g) && CanClose(g.h, u)
    ensures MarkClosed(AfterClose(g, u).h, Bound(g))
  {
    assert Open(0);
    var g' := AfterClose(g, u);
    forall x, r | x in Bound(g) && x in g'.h && Keeps(g'.h, Bound(g), x, r) ensures r in Bound(g) {
      KeepsPoints(g'.h, Bound(g), x, r);
      ClosePoints(g.h, u, x, r);
    }
  }

  lemma ClosePropagation(g: World, u: Ref)
    requires Basic(g) && MarkStateOk(g) && PropagationOk(g) && CanClose(g.h, u)
    ensures PropagationOk(AfterClose(g, u))
  {
    assert Open(0);
    if InMark(g.phase) {
      var g' := AfterClose(g, u);
      forall x | x in g.l.allweak && x in g'.h
        ensures g'.h[x].Table? && g'.h[x].mode == AllWeak && ValueMarked(g'.c, g'.h[x].meta) {
        Member(g.h, g.c, g.l, x);
      }
      forall x | x in g'.h && x in g'.c && (g'.h[x].Thread? || IsWeak(g'.h[x])) ensures g'.c[x] != Black {
        assert x != u && g'.c[x] == g.c[x];
      }
    }
  }

  lemma CloseNoDead(g: World, u: Ref)
    requires Basic(g) && NoDead(g) && CanClose(g.h, u)
    ensures NoDead(AfterClose(g, u))
  {
    assert Open(0);
    if InMark(g.phase) {
      forall x | x in g.tobefnz ensures Marked(AfterClose(g, u).c, x) { assert Marked(g.c, x); }
    }
  }

  lemma CloseCore(g: World, u: Ref)
    requires Core(g) && CanClose(g.h, u)
    ensures Core(AfterClose(g, u))
  {
    CloseShape(g, u);
    CloseLife(g, u);
    CloseMarkState(g, u);
    ClosePropagation(g, u);
    CloseNoDead(g, u);
  }

  lemma CloseColours(g: World, u: Ref)
    requires Basic(g) && TypedOk(g) && Coloured(g) && CanClose(g.h, u) && InMark(g.phase)
    ensures TriColourBut(AfterClose(g, u).h, AfterClose(g, u).c, u)
  {
    assert Open(0);
    var g' := AfterClose(g, u);
    forall x | x in g'.h && x in g'.c && x != u && g'.c[x] == Black ensures AllMarked(g'.h, g'.c, x) {
      forall r | Points(g'.h, x, r) ensures Marked(g'.c, r) {
        ClosePoints(g.h, u, x, r);
        assert g.c[x] == Black && Marked(g.c, r);
      }
    }
  }

  /** A white upvalue is closed without a barrier. */
  lemma CloseWhite(g: World, u: Ref)
    requires Sound(g) && CanClose(g.h, u) && u in g.c && IsWhite(g.c[u])
    ensures Sound(AfterClose(g, u))
  {
    CloseCore(g, u);
    if InMark(g.phase) { CloseColours(g, u); }
    assert Open(0);
  }

  /** Closing a marked upvalue; only the reference to its value may now need a barrier. */
  lemma CloseMarked(g: World, u: Ref)
    requires Sound(g) && CanClose(g.h, u) && u in g.c && !IsWhite(g.c[u])
    ensures Breached(AfterClose(g, u), u, g.h[g.h[u].thread].stack[g.h[u].level])
  {
    CloseCore(g, u);
    CloseValue(g, u);
    if InMark(g.phase) { CloseColours(g, u); }
    BreachedAt(AfterClose(g, u), u, g.h[g.h[u].thread].stack[g.h[u].level]);
  }

  lemma BreachedAt(g: World, o: Ref, v: Value)
    requires Core(g) && o in g.h && g.h[o] == ClosedUp(v) && o in g.c
    requires (v.Obj? ==> Alive(g, v.ref) && v.ref !in g.garbage)
    requires InMark(g.phase) ==> TriColourBut(g.h, g.c, o)
    ensures Breached(g, o, v)
  {
  }

  lemma CloseValue(g: World, u: Ref)
    requires Core(g) && CanClose(g.h, u) && u in g.c && !IsWhite(g.c[u])
    ensures var v := g.h[g.h[u].thread].stack[g.h[u].level];
      v.Obj? ==> Alive(AfterClose(g, u), v.ref) && v.ref !in g.garbage
  {
    assert Open(0);
    var v := g.h[g.h[u].thread].stack[g.h[u].level];
    assert Alive(g, u);
    assert u !in g.garbage by {
      if InMark(g.phase) { assert Marked(g.c, u); }
    }
    if v.Obj? {
      assert Points(g.h, u, v.ref) && Alive(g, v.ref);
    }
  }
}
