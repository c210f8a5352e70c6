/** Freeing and sweeping: what removing a dead object, or whitening a live one, means for the invariant
    (lgc.c:772-857). */
module GcSweep {
  import opened GcObjects
  import opened GcWorld
  import opened GcWrites
  import opened Folding

  predicate Sweeping(p: Phase) { p == SweepAllgc || p == SweepFinobj || p == SweepTobefnz }

  /** The list that a sweep phase works on. */
  function SweptList(g: World): seq<Ref> {
    if g.phase == SweepAllgc then g.allgc else if g.phase == SweepFinobj then g.finobj else g.tobefnz
  }

  /** The object the sweep pointer leads to. */
  predicate SweepsNext(g: World, o: Ref) {
    Sweeping(g.phase) && g.sweep.At? && 0 < g.sweep.rem <= |SweptList(g)| &&
      SweptList(g)[|SweptList(g)| - g.sweep.rem] == o
  }

  // ----- whitening -----

  function Whitened(g: World, o: Ref): World {
    g.(c := g.c[o := g.w], sweep := if g.sweep.At? && g.sweep.rem > 0 then At(g.sweep.rem - 1, true) else g.sweep)
  }

  lemma BehindNext(l: seq<Ref>, rem: nat)
    requires 0 < rem <= |l|
    ensures Behind(l, At(rem - 1, true)) == Behind(l, At(rem, true)) + [l[|l| - rem]]
    ensures forall b :: Behind(l, At(rem, b)) == Behind(l, At(rem, true))
  {
  }

  lemma WhitenSweep(g: World, o: Ref)
    requires Basic(g) && SweepOk(g) && SweepsNext(g, o) && Alive(g, o)
    ensures SweepOk(Whitened(g, o))
  {
    var g1 := g.(c := g.c[o := g.w]);
    assert forall x {:trigger Alive(g1, x)} :: Alive(g1, x) == Alive(g, x);
    WhiteSame(g, g1, g.allgc);
    WhiteSame(g, g1, g.finobj);
    WhiteSame(g, g1, g.tobefnz);
    WhiteSame(g, g1, Behind(SweptList(g), g.sweep));
    BehindNext(SweptList(g), g.sweep.rem);
    WhitenPointer(g, g1, o);
  }

  lemma WhitenPointer(g: World, g1: World, o: Ref)
    requires SweepOk(g) && SweepsNext(g, o) && Alive(g, o) && g1 == g.(c := g.c[o := g.w])
    requires forall x {:trigger Alive(g1, x)} :: Alive(g1, x) == Alive(g, x)
    requires Behind(SweptList(g), At(g.sweep.rem - 1, true)) == Behind(SweptList(g), g.sweep) + [o]
    ensures SweepOk(Whitened(g, o))
  {
    WhitenList(g, o, g.allgc);
    WhitenList(g, o, g.finobj);
    WhitenList(g, o, g.tobefnz);
    WhitenList(g, o, Behind(SweptList(g), g.sweep));
    assert Open(0);
  }

  lemma WhitenList(g: World, o: Ref, l: seq<Ref>)
    requires Alive(g, o)
    ensures AllWhite(g, l) ==> AllWhite(Whitened(g, o), l + [o]) && AllWhite(Whitened(g, o), l)
    ensures NoneDead(g, l) ==> NoneDead(Whitened(g, o), l)
  {
    var g' := Whitened(g, o);
    assert forall x {:trigger Alive(g', x)} :: Alive(g, x) ==> Alive(g', x);
  }

  lemma WhitenKinds(g: World, o: Ref)
    requires Basic(g) && TypedOk(g) && KindsOk(g) && Alive(g, o)
    ensures TypedOk(Whitened(g, o)) && KindsOk(Whitened(g, o))
  {
    assert Open(0);
    var g' := Whitened(g, o);
    forall x | x in g'.h && x in g'.c && !IsWhite(g'.c[x]) && !g'.h[x].Listable() && !g'.h[x].Str?
      ensures g'.c[x] == if g'.h[x].OpenUp? then Gray else Black
    {
      assert x != o && g'.c[x] == g.c[x];
    }
  }

  lemma NotFixed(g: World, o: Ref)
    requires Owned(g) && SweepsNext(g, o)
    ensures o !in g.fixedgc && o in g.h
  {
    assert Open(0);
    assert o in SweptList(g);
    assert multiset(SweptList(g))[o] >= 1;
    assert ListTimes(g, o) >= 1;
  }

  /** Every live object met by the sweep is painted with the current white. */
  lemma WhitenSound(g: World, o: Ref)
    requires Sound(g) && SweepsNext(g, o) && Alive(g, o)
    ensures Sound(Whitened(g, o))
  {
    var g' := Whitened(g, o);
    assert forall x {:trigger Alive(g', x)} :: Alive(g', x) == Alive(g, x);
    NotFixed(g, o);
    OwnedSame(g, g');
    ListsSame(g, g');
    LifeSame(g, g');
    BelowSame(g, g');
    TwupsSame(g, g');
    WhitenKinds(g, o);
    WhitenSweep(g, o);
    WhitenGarbage(g, g');
    NotMarking(g');
  }

  lemma WhitenGarbage(g: World, g': World)
    requires GarbageSwept(g) && g'.garbage == g.garbage && g'.phase == g.phase && g'.h.Keys == g.h.Keys
    requires forall x :: Alive(g', x) ==> Alive(g, x)
    ensures GarbageSwept(g')
  {
    assert Open(0);
  }

  // ----- freeing -----

  function Without(l: seq<Ref>, k: nat): seq<Ref>
    requires k < |l|
  {
    l[..k] + l[k + 1..]
  }

  /** The world without object `o`, which the sweep pointer led to in 'allgc'. */
  function Removed(g: World, o: Ref): World
    requires g.phase == SweepAllgc && SweepsNext(g, o)
  {
    g.(h := g.h - {o}, c := g.c - {o}, allgc := Without(g.allgc, |g.allgc| - g.sweep.rem),
      sweep := At(g.sweep.rem - 1, g.sweep.inside))
  }

  /** A dead object that is neither an open upvalue nor a thread with open upvalues. */
  ghost predicate Removable(g: World, o: Ref) {
    && g.phase == SweepAllgc && SweepsNext(g, o) && Basic(g) && TypedOk(g) && o in g.h && !Alive(g, o)
    && !g.h[o].OpenUp? && (g.h[o].Thread? ==> g.h[o].upvals == {})
  }

  lemma RemovedPoints(g: World, o: Ref, x: Ref, r: Ref)
    requires Removable(g, o) && x in Removed(g, o).h
    ensures Points(Removed(g, o).h, x, r) == Points(g.h, x, r)
  {
    assert Open(0);
    if g.h[x].OpenUp? { assert SlotOk(g.h, x); }
  }

  lemma RemovedRefs(g: World, o: Ref)
    requires Removable(g, o)
    ensures Linked(Removed(g, o).h) && forall x :: x in Removed(g, o).h ==> MetaIsTable(Removed(g, o).h, x)
  {
    assert Open(0);
    var g' := Removed(g, o);
    forall x | x in g'.h ensures MetaIsTable(g'.h, x) && SlotOk(g'.h, x) {
      assert MetaIsTable(g.h, x) && SlotOk(g.h, x);
    }
    forall t, u | t in g'.h && g'.h[t].Thread? && u in g'.h[t].upvals
      ensures u in g'.h && g'.h[u].OpenUp? && g'.h[u].thread == t {
      assert u in g.h[t].upvals;
    }
  }

  lemma RemovedTyped(g: World, o: Ref)
    requires Removable(g, o)
    ensures TypedOk(Removed(g, o))
  {
    RemovedRefs(g, o);
    assert Open(0);
    var g' := Removed(g, o);
    forall x, r | x in g'.h && r in g'.h && Points(g'.h, x, r) && g'.h[r].IsUpval()
      ensures g'.h[x].Fn? || (g'.h[x].Thread? && Obj(r) !in g'.h[x].stack)
    {
      RemovedPoints(g, o, x, r);
    }
  }

  lemma RemovedKinds(g: World, o: Ref)
    requires Removable(g, o) && KindsOk(g)
    ensures KindsOk(Removed(g, o))
  {
    assert Open(0);
    var g' := Removed(g, o);
    forall x | x in g'.h && x in g'.c && !IsWhite(g'.c[x]) && !g'.h[x].Listable() && !g'.h[x].Str?
      ensures g'.c[x] == if g'.h[x].OpenUp? then Gray else Black
    {
      assert g.c[x] == g'.c[x];
    }
  }

  lemma WithoutTimes(l: seq<Ref>, k: nat)
    requires k < |l|
    ensures multiset(l) == multiset(Without(l, k)) + multiset{l[k]}
  {
    assert l == l[..k] + [l[k]] + l[k + 1..];
  }

  lemma RemovedOwned(g: World, o: Ref)
    requires Removable(g, o) && Owned(g)
    ensures Owned(Removed(g, o))
  {
    assert Open(0);
    var g' := Removed(g, o);
    forall x ensures ListTimes(g', x) == if x in g'.h then 1 else 0 {
      RemovedTimes(g, o, x);
      assert ListTimes(g, x) == if x in g.h then 1 else 0;
    }
  }

  lemma RemovedTimes(g: World, o: Ref, x: Ref)
    requires Removable(g, o)
    ensures ListTimes(Removed(g, o), x) == ListTimes(g, x) - if x == o then 1 else 0
  {
    WithoutTimes(g.allgc, |g.allgc| - g.sweep.rem);
  }

  lemma RemovedLists(g: World, o: Ref)
    requires Removable(g, o) && RootsAlive(g) && ListsOk(g) && Owned(g) && Below(g)
    ensures ListsOk(Removed(g, o)) && Basic(Removed(g, o))
  {
    assert Open(0);
    assert multiset(g.allgc)[o] >= 1 && ListTimes(g, o) == 1;
    assert o !in g.finobj && o !in g.tobefnz && o !in g.fixedgc;
    assert g.main in Roots(g) && g.running in Roots(g);
  }

  lemma RemovedBelow(g: World, o: Ref)
    requires Removable(g, o) && Below(g)
    ensures Below(Removed(g, o))
  {
    assert Open(0);
    var g' := Removed(g, o);
    InternedLess(g, g');
    forall x: Ref, r: Ref | x in g'.h && Points(g'.h, x, r) ensures r < g'.newref { RemovedPoints(g, o, x, r); }
  }

  lemma RemovedLife(g: World, o: Ref)
    requires Removable(g, o) && AliveClosed(g) && RootsAlive(g) && GarbageKept(g)
    ensures var g' := Removed(g, o); AliveClosed(g') && RootsAlive(g') && GarbageKept(g')
  {
    assert Open(0);
    var g' := Removed(g, o);
    assert forall x {:trigger Alive(g', x)} :: Alive(g', x) == Alive(g, x);
    assert Roots(g') == Roots(g);
    forall x, r | x in g'.h && Points(g'.h, x, r)
      ensures Alive(g', x) ==> Alive(g', r)
      ensures x !in g'.garbage ==> r !in g'.garbage
    {
      RemovedPoints(g, o, x, r);
    }
  }

  lemma RemovedTwups(g: World, o: Ref)
    requires Removable(g, o) && TwupsOk(g) && GarbageSwept(g)
    ensures TwupsOk(Removed(g, o)) && GarbageSwept(Removed(g, o))
  {
    assert Open(0);
    var g' := Removed(g, o);
    assert forall x {:trigger Alive(g', x)} :: Alive(g', x) == Alive(g, x);
    forall t | Alive(g', t) && g'.h[t].Thread? && g'.h[t].upvals != {}
      ensures t in g'.tw { assert Alive(g, t) && g.h[t].Thread?; }
    forall t | t in g'.tw ensures Alive(g', t) && g'.h[t].Thread? { assert Alive(g, t) && g.h[t].Thread?; }
  }

  lemma RemovedSweep(g: World, o: Ref)
    requires Removable(g, o) && SweepOk(g)
    ensures SweepOk(Removed(g, o))
  {
    assert Open(0);
    var g' := Removed(g, o);
    assert Behind(g'.allgc, g'.sweep) == Behind(g.allgc, g.sweep);
    forall x | x in Behind(g.allgc, g.sweep) ensures x in g'.c && g'.c[x] == g'.w {
      assert x in g.c && g.c[x] == g.w;
    }
    forall x | x in g.finobj ensures Alive(g', x) { assert Alive(g, x); }
    forall x | x in g.tobefnz ensures Alive(g', x) { assert Alive(g, x); }
  }

  lemma RemovedSound(g: World, o: Ref)
    requires Sound(g) && Removable(g, o)
    ensures Sound(Removed(g, o))
  {
    RemovedTyped(g, o);
    RemovedKinds(g, o);
    RemovedOwned(g, o);
    RemovedLists(g, o);
    RemovedBelow(g, o);
    RemovedLife(g, o);
    RemovedTwups(g, o);
    RemovedSweep(g, o);
    NotMarking(Removed(g, o));
  }

  // ----- the pointer and the phase -----

  /** Moving the sweep pointer or the phase outside marking concerns only what is swept. */
  lemma PhaseSound(g: World, g': World)
    requires Sound(g) && g' == g.(phase := g'.phase, sweep := g'.sweep)
    requires !InMark(g'.phase) && g'.phase != Atomic && SweepOk(g') && GarbageSwept(g')
    ensures Sound(g')
  {
    assert forall x {:trigger Alive(g', x)} :: Alive(g', x) == Alive(g, x);
    OwnedSame(g, g');
    ListsSame(g, g');
    LifeSame(g, g');
    BelowSame(g, g');
    TwupsSame(g, g');
    SameTyped(g, g');
    NotMarking(g');
  }

  lemma SameTyped(g: World, g': World)
    requires TypedOk(g) && KindsOk(g) && g'.h == g.h && g'.c == g.c
    ensures TypedOk(g') && KindsOk(g')
  {
    assert Open(0);
  }

  lemma PointerDone(g: World)
    requires Sound(g) && Sweeping(g.phase) && g.sweep.At? && g.sweep.rem == 0
    ensures Sound(g.(sweep := Done))
  {
    var g' := g.(sweep := Done);
    assert forall x {:trigger Alive(g', x)} :: Alive(g', x) == Alive(g, x);
    PointerSweep(g);
    WhitenGarbage(g, g');
    PhaseSound(g, g');
  }

  lemma PointerSweep(g: World)
    requires SweepOk(g) && Sweeping(g.phase) && g.sweep.At? && g.sweep.rem == 0
    ensures SweepOk(g.(sweep := Done))
  {
    assert Open(0);
    var g' := g.(sweep := Done);
    assert forall x {:trigger Alive(g', x)} :: Alive(g', x) == Alive(g, x);
    WhiteSame(g, g', g.allgc);
    WhiteSame(g, g', g.finobj);
    WhiteSame(g, g', g.tobefnz);
    assert Behind(SweptList(g), g.sweep) == SweptList(g);
  }

  // ----- what the program sees of it -----

  /** What the program can read of an object stays: its body, but for open upvalues of dead threads, which are
      closed with their value, and for dead upvalues, which leave their thread. */
  ghost predicate Kept(h: Heap, h': Heap, x: Ref)
    requires x in h
  {
    x in h' && (
      || h'[x] == h[x]
      || (h[x].Thread? && h'[x].Thread? && h'[x].stack == h[x].stack && h'[x].upvals <= h[x].upvals)
      || (h[x].OpenUp? && SlotOk(h, x) && h'[x] == ClosedUp(h[h[x].thread].stack[h[x].level])))
  }

  /** A live object is as it was; an open upvalue whose thread is freed is closed with its value. */
  ghost predicate KeptAlive(h: Heap, h': Heap, x: Ref)
    requires x in h
  {
    x in h' && (h'[x] == h[x] || (h[x].OpenUp? && SlotOk(h, x) && h'[x] == ClosedUp(h[h[x].thread].stack[h[x].level])))
  }

  /** What sweeping does to the heap: objects disappear, but none that is alive, and what remains is kept. */
  ghost predicate SweptTo(g: World, g': World) {
    forall k: nat {:trigger Open(k)} :: Open(k) ==> SweptNow(g, g')
  }

  ghost predicate SweptNow(g: World, g': World) {
    && (forall x {:trigger x in g'.h} :: x in g'.h ==> x in g.h && Kept(g.h, g'.h, x))
    && (forall x {:trigger Alive(g', x)} {:trigger Alive(g, x)} :: Alive(g', x) == Alive(g, x))
    && (forall x {:trigger Alive(g', x)} {:trigger Alive(g, x)} :: Alive(g, x) ==> KeptAlive(g.h, g'.h, x))
    && Linked(g.h) && Linked(g'.h) && Roots(g') == Roots(g) && g'.finobj == g.finobj
  }

  lemma SweptRefl(g: World)
    requires TypedOk(g)
    ensures SweptTo(g, g)
  {
    assert Open(0);
  }

  lemma SweptKept(g: World, g': World, g'': World, x: Ref)
    requires SweptTo(g, g') && SweptTo(g', g'') && x in g''.h
    ensures x in g.h && Kept(g.h, g''.h, x)
  {
    assert Open(0);
    assert x in g'.h;
    if g'.h[x].OpenUp? { SweptSlot(g, g', x); }
  }

  lemma SweptKeptAlive(g: World, g': World, g'': World, x: Ref)
    requires SweptTo(g, g') && SweptTo(g', g'') && Alive(g, x)
    ensures Alive(g'', x) && KeptAlive(g.h, g''.h, x)
  {
    assert Open(0);
    assert Alive(g', x);
    if g'.h[x].OpenUp? { SweptSlot(g, g', x); }
  }

  lemma SweptTrans(g: World, g': World, g'': World)
    requires SweptTo(g, g') && SweptTo(g', g'')
    ensures SweptTo(g, g'')
  {
    forall x | x in g''.h ensures x in g.h && Kept(g.h, g''.h, x) { SweptKept(g, g', g'', x); }
    forall x | Alive(g, x) ensures Alive(g'', x) && KeptAlive(g.h, g''.h, x) { SweptKeptAlive(g, g', g'', x); }
    SweptRest(g, g');
    SweptRest(g', g'');
  }

  lemma SweptRest(g: World, g': World)
    requires SweptTo(g, g')
    ensures Linked(g.h) && Linked(g'.h) && Roots(g') == Roots(g) && g'.finobj == g.finobj
  {
    assert Open(0);
  }

  lemma SweptKeys(g: World, g': World)
    requires SweptTo(g, g')
    ensures g'.h.Keys <= g.h.Keys
  {
    assert Open(0);
    forall x | x in g'.h ensures x in g.h {}
  }

  lemma SweptAlive(g: World, g': World)
    requires SweptTo(g, g')
    ensures forall x {:trigger Alive(g, x)} {:trigger Alive(g', x)} :: Alive(g, x) ==>
      Alive(g', x) && x in g.h && KeptAlive(g.h, g'.h, x)
  {
    assert Open(0);
  }

  lemma SweptSlot(g: World, g': World, x: Ref)
    requires SweptTo(g, g') && x in g'.h && g'.h[x].OpenUp?
    ensures x in g.h && g.h[x] == g'.h[x] && SlotOk(g.h, x)
    ensures var t := g.h[x].thread;
      t in g'.h && t in g.h && g'.h[t].Thread? && g.h[t].Thread? && g'.h[t].stack == g.h[t].stack
  {
    assert Open(0);
    assert SlotOk(g'.h, x) && SlotOk(g.h, x);
    assert g'.h[x].thread in g'.h;
  }

  lemma RemovedSwept(g: World, o: Ref)
    requires Removable(g, o)
    ensures SweptTo(g, Removed(g, o))
  {
    RemovedRefs(g, o);
    assert Open(0);
  }

  lemma WhitenedSwept(g: World, o: Ref)
    requires TypedOk(g) && Alive(g, o)
    ensures SweptTo(g, Whitened(g, o))
  {
    assert Open(0);
    assert forall x {:trigger Alive(Whitened(g, o), x)} :: Alive(Whitened(g, o), x) == Alive(g, x);
  }
}
