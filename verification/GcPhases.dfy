/** The transitions between the phases of a collection cycle (lgc.c:394-409, 1486-1491, 1568-1645). */
module GcPhases {
  import opened GcObjects
  import opened GcMarking
  import opened GcWorld
  import opened GcWrites
  import opened GcSweep
  import opened Folding

  // ----- from the atomic phase to the first sweep -----

  function SnapOf(g: World): Snap { Snap(g.h, g.c, g.l, g.tw) }

  /** The roots that may have changed without a barrier. */
  function GlobalRoots(g: World): seq<Ref> { [g.running] + RefsOf([g.registry]) + RefsOf(g.mt) }

  /** What the atomic phase achieves, `strong` being the marks when it had marked all that is strongly
      accessible; folded. */
  ghost predicate Finishes(g: World, g': World, strong: Colors) {
    && g' == g.(h := g'.h, c := g'.c, l := g'.l, tw := g'.tw, w := OtherWhite(g.w), phase := g'.phase,
                finobj := g'.finobj, tobefnz := g'.tobefnz)
    && Later(SnapOf(g), SnapOf(g')) && StronglyMarked(g.h, g.c, GlobalRoots(g), strong)
    && Weakened(g.h, g'.h, strong, g'.c) && Purged(g'.h, strong) && NeededOnly(g.h, strong, g'.tobefnz, g'.c)
    && Separated(g.h, strong, g.finobj, g.tobefnz, g'.finobj, g'.tobefnz)
    && multiset(g'.finobj) + multiset(g'.tobefnz) == multiset(g.finobj) + multiset(g.tobefnz)
    && forall k: nat {:trigger Open(k)} :: Open(k) ==>
      && MarkState(g'.h, g'.c, g'.l, Bound(g)) && Settled(g'.h, g'.c) && TwupsMarked(g'.h, g'.c, g'.tw)
      && (forall t {:trigger g'.h[t]} :: t in g'.h && g'.h[t].Thread? && g'.h[t].upvals != {} && Marked(g'.c, t) ==>
        t in g'.tw)
      && ListMarked(g'.c, g'.finobj + g'.tobefnz)
  }

  /** The first sweep starts at the head of 'allgc'. Nothing is created before the pointer has moved on to the
      link of an object, so that it counts as one from the start. */
  function EnterSweep(g: World): World { g.(phase := SweepAllgc, sweep := At(|g.allgc|, true)) }

  lemma FinishAlive(g: World, g': World, strong: Colors)
    requires Basic(g) && NoDead(g) && InMark(g.phase) && Finishes(g, g', strong)
    ensures g'.c.Keys == g'.h.Keys == g.h.Keys == g.c.Keys
    ensures forall x {:trigger Alive(EnterSweep(g'), x)} :: Alive(EnterSweep(g'), x) == Marked(g'.c, x)
    ensures forall x :: Marked(g.c, x) ==> Marked(g'.c, x)
  {
    assert Open(0);
    forall x ensures Alive(EnterSweep(g'), x) == Marked(g'.c, x) {
      if x in g.c { assert g.c[x] != OtherWhite(g.w); }
    }
    forall x | Marked(g.c, x) ensures Marked(g'.c, x) { assert !IsWhite(g.c[x]); }
  }

  lemma FinishOwned(g: World, g': World, strong: Colors)
    requires Basic(g) && NoDead(g) && InMark(g.phase) && Owned(g) && Finishes(g, g', strong)
    ensures Owned(EnterSweep(g'))
  {
    FinishAlive(g, g', strong);
    forall o ensures ListTimes(EnterSweep(g'), o) == ListTimes(g, o) {
      assert (multiset(g'.finobj) + multiset(g'.tobefnz))[o] == (multiset(g.finobj) + multiset(g.tobefnz))[o];
    }
    OwnedSame(g, EnterSweep(g'));
  }

  lemma FinishKind(g: World, g': World, strong: Colors, o: Ref)
    requires Finishes(g, g', strong) && o in g.h
    ensures o in g'.h && BodyShrinks(g.h[o], g'.h[o])
  {
    assert Open(0);
  }

  lemma FinishLists(g: World, g': World, strong: Colors)
    requires Basic(g) && NoDead(g) && InMark(g.phase) && ListsOk(g) && Finishes(g, g', strong)
    ensures ListsOk(EnterSweep(g')) && Basic(EnterSweep(g'))
  {
    FinishAlive(g, g', strong);
    assert Open(0);
    FinishKind(g, g', strong, g.main);
    FinishKind(g, g', strong, g.running);
    forall o | o in g.fixedgc ensures o in g'.h && g'.h[o].Str? && Marked(g'.c, o) { FinishKind(g, g', strong, o); }
    forall o | o in g'.finobj || o in g'.tobefnz ensures o in g'.h && (g'.h[o].Table? || g'.h[o].Udata?) {
      assert o in multiset(g'.finobj) + multiset(g'.tobefnz);
      assert o in g.finobj || o in g.tobefnz;
      FinishKind(g, g', strong, o);
    }
  }

  lemma FinishPoints(g: World, g': World, strong: Colors, x: Ref, r: Ref)
    requires Finishes(g, g', strong) && x in g.h && x in g'.h && Points(g'.h, x, r)
    ensures Points(g.h, x, r)
  {
    assert Open(0);
    ShrinkPoints(g.h, g'.h, x, r);
  }

  lemma FinishBelow(g: World, g': World, strong: Colors)
    requires Basic(g) && NoDead(g) && InMark(g.phase) && Below(g) && Finishes(g, g', strong)
    ensures Below(EnterSweep(g'))
  {
    FinishAlive(g, g', strong);
    forall x: Ref, r: Ref | x in g'.h && Points(g'.h, x, r)
      ensures Points(g.h, x, r) { FinishPoints(g, g', strong, x, r); }
    forall o | o in g.h ensures o in g'.h && g'.h[o].Str? == g.h[o].Str? { FinishKind(g, g', strong, o); }
    BelowSame(g, EnterSweep(g'));
  }

  lemma FinishLife(g: World, g': World, strong: Colors)
    requires Basic(g) && NoDead(g) && InMark(g.phase) && ListsOk(g) && GarbageKept(g) && Finishes(g, g', strong)
    requires RootsAlive(g)
    ensures AliveClosed(EnterSweep(g')) && RootsAlive(EnterSweep(g')) && GarbageKept(EnterSweep(g'))
  {
    FinishGarbage(g, g', strong);
    FinishAlive(g, g', strong);
    assert Open(0);
    var s := EnterSweep(g');
    forall o | o in Roots(s) ensures Alive(s, o) && o !in s.garbage && !s.h[o].IsUpval() {
      FinishRoot(g, g', strong, o);
      FinishRootKind(g, g', strong, o);
    }
  }

  lemma FinishGarbage(g: World, g': World, strong: Colors)
    requires Basic(g) && NoDead(g) && InMark(g.phase) && GarbageKept(g) && Finishes(g, g', strong)
    ensures GarbageKept(EnterSweep(g'))
  {
    FinishAlive(g, g', strong);
    assert Open(0);
    var s := EnterSweep(g');
    forall x, r | x in s.h && x !in s.garbage && Points(s.h, x, r)
      ensures r !in s.garbage { FinishPoints(g, g', strong, x, r); }
    forall o | o in s.finobj ensures o !in s.garbage { assert o in g'.finobj + g'.tobefnz; }
  }

  lemma FixedMarked(g: World, o: Ref)
    requires ListsOk(g) && o in g.fixedgc
    ensures Marked(g.c, o)
  {
    assert Open(0);
  }

  lemma MainMarked(g: World)
    requires NoDead(g) && InMark(g.phase)
    ensures Marked(g.c, g.main)
  {
    assert Open(0);
  }

  lemma FinishMarked(g: World, g': World, strong: Colors, o: Ref)
    requires Finishes(g, g', strong)
    requires o in g'.finobj || o in g'.tobefnz || o in GlobalRoots(g)
    ensures Marked(g'.c, o)
    ensures o in GlobalRoots(g) ==> Marked(strong, o)
  {
    assert Open(0);
    assert o in g'.finobj + g'.tobefnz || o in GlobalRoots(g);
  }

  lemma FinishRoot(g: World, g': World, strong: Colors, o: Ref)
    requires Basic(g) && NoDead(g) && InMark(g.phase) && ListsOk(g) && Finishes(g, g', strong)
    requires o in Roots(EnterSweep(g'))
    ensures Marked(g'.c, o)
  {
    FinishAlive(g, g', strong);
    if o in g.fixedgc {
      FixedMarked(g, o);
    } else if o == g.main {
      MainMarked(g);
    } else {
      FinishMarked(g, g', strong, o);
    }
  }

  lemma FinishRootKind(g: World, g': World, strong: Colors, o: Ref)
    requires Basic(g) && ListsOk(g) && RootsAlive(g) && Finishes(g, g', strong) && o in Roots(EnterSweep(g'))
    ensures o in g'.h && !g'.h[o].IsUpval()
  {
    assert Open(0);
    if o !in Roots(g) { assert o in g'.tobefnz && o !in g.tobefnz && o in g.finobj; }
    FinishKind(g, g', strong, o);
  }

  lemma FinishTwups(g: World, g': World, strong: Colors)
    requires Basic(g) && NoDead(g) && InMark(g.phase) && Finishes(g, g', strong)
    ensures TwupsOk(EnterSweep(g'))
  {
    FinishAlive(g, g', strong);
    assert Open(0);
    var s := EnterSweep(g');
    forall t | Alive(s, t) && s.h[t].Thread? && s.h[t].upvals != {} ensures t in s.tw { assert Marked(g'.c, t); }
    forall t | t in s.tw ensures Alive(s, t) && s.h[t].Thread? { assert Marked(g'.c, t); }
  }

  lemma FinishSweep(g: World, g': World, strong: Colors)
    requires Basic(g) && NoDead(g) && InMark(g.phase) && Finishes(g, g', strong)
    ensures GarbageSwept(EnterSweep(g')) && TypedOk(EnterSweep(g')) && KindsOk(EnterSweep(g'))
  {
    FinishAlive(g, g', strong);
    assert Open(0);
  }

  lemma FinishPointer(g: World, g': World, strong: Colors)
    requires Basic(g) && NoDead(g) && InMark(g.phase) && Finishes(g, g', strong)
    ensures SweepOk(EnterSweep(g'))
  {
    FinishAlive(g, g', strong);
    assert Open(0);
    var s := EnterSweep(g');
    forall o | o in s.finobj || o in s.tobefnz ensures Alive(s, o) {
      assert o in g'.finobj + g'.tobefnz;
      assert Marked(g'.c, o);
    }
  }

  /** After the atomic phase the first sweep can start: whatever is not marked is dead, and nothing that the
      program can still reach is. */
  lemma FinishSound(g: World, g': World, strong: Colors)
    requires Sound(g) && InMark(g.phase) && Finishes(g, g', strong)
    ensures Sound(EnterSweep(g'))
  {
    FinishOwned(g, g', strong);
    FinishLists(g, g', strong);
    FinishBelow(g, g', strong);
    FinishLife(g, g', strong);
    FinishTwups(g, g', strong);
    FinishSweep(g, g', strong);
    FinishPointer(g, g', strong);
    NotMarking(EnterSweep(g'));
  }

  // ----- what the atomic phase preserves -----

  /** What the program can reach without going through weak references, an entry of an ephemeron table
      counting while its key is accessible. */
  ghost predicate StronglyAccessible(g: World, o: Ref) {
    StronglyReached(g.h, (iset x: Ref | x in Roots(g)), o)
  }

  lemma StrongMarked(g: World, g': World, strong: Colors, o: Ref)
    requires Sound(g) && InMark(g.phase) && Finishes(g, g', strong) && StronglyAccessible(g, o)
    ensures Marked(strong, o)
  {
    forall r | r in Roots(g) ensures r in MarkedSet(strong) {
      RootStrong(g, g', strong, r);
    }
    assert StrongClosed(g.h, MarkedSet(strong));
  }

  lemma RootStrong(g: World, g': World, strong: Colors, o: Ref)
    requires ListsOk(g) && NoDead(g) && InMark(g.phase) && Finishes(g, g', strong) && o in Roots(g)
    ensures Marked(strong, o)
  {
    if o in g.fixedgc {
      FixedMarked(g, o);
    } else if o == g.main {
      MainMarked(g);
    } else if o in g.tobefnz {
      AwaitedMarked(g, o);
    } else {
      assert o in GlobalRoots(g);
    }
  }

  lemma AwaitedMarked(g: World, o: Ref)
    requires NoDead(g) && InMark(g.phase) && o in g.tobefnz
    ensures Marked(g.c, o)
  {
    assert Open(0);
  }

  /** The marks are exact. Whatever is marked, strings included, is in the least set that holds what was marked when
      the phase began and the roots, and is closed under the marking rules; and apart from strings an object is marked
      if and only if it is strongly accessible from these. */
  lemma MarksExact(g: World, g': World, strong: Colors, o: Ref)
    requires Finishes(g, g', strong)
    ensures Marked(strong, o) ==> MarkReached(g.h, (iset x: Ref | Marked(g.c, x) || x in GlobalRoots(g)), o)
    ensures !(o in g.h && g.h[o].Str?) ==>
      (Marked(strong, o) <==> StronglyReached(g.h, (iset x: Ref | Marked(g.c, x) || x in GlobalRoots(g)), o))
  {
    var from := iset x: Ref | Marked(g.c, x) || x in GlobalRoots(g);
    if Marked(strong, o) {
      MarkReachedStrongly(g.h, from, o);
    }
    assert forall r :: r in from ==> r in MarkedSet(strong);
    assert StrongClosed(g.h, MarkedSet(strong));
  }

  /** A reason for a weak table to lose an entry: a value, or a key, that is not strongly accessible, and no string. */
  ghost predicate Lost(g: World, v: Value) {
    v.Obj? && !StronglyAccessible(g, v.ref) && !(v.ref in g.h && g.h[v.ref].Str?)
  }

  /** What is strongly accessible from what was marked when the atomic phase began, and from the roots. */
  ghost function Reached(g: World): iset<Ref> {
    iset o: Ref | StronglyReached(g.h, FromMarks(g.c, GlobalRoots(g)), o)
  }

  /** Of the objects with finalizers, exactly those that are not strongly accessible are to be finalized, after those
      that were already, and in the order of the list; the others stay in it. */
  lemma SeparatedExactly(g: World, g': World, strong: Colors)
    requires Sound(g) && InMark(g.phase) && Finishes(g, g', strong)
    ensures g'.tobefnz == g.tobefnz + Chosen(g.finobj, Reached(g), false)
    ensures g'.finobj == Chosen(g.finobj, Reached(g), true)
  {
    forall o | o in g.finobj ensures o in g.h && !g.h[o].Str? && (o in MarkedSet(strong) <==> o in Reached(g)) {
      FinobjOnce(g, o);
      MarksExact(g, g', strong, o);
      assert FromMarks(g.c, GlobalRoots(g)) == iset x: Ref | Marked(g.c, x) || x in GlobalRoots(g);
    }
    ChosenSame(g.finobj, MarkedSet(strong), Reached(g), true);
    ChosenSame(g.finobj, MarkedSet(strong), Reached(g), false);
  }

  lemma FinobjOnce(g: World, o: Ref)
    requires Shape(g) && o in g.finobj
    ensures o in g.h && !g.h[o].Str? && multiset(g.finobj)[o] == 1 && o !in g.tobefnz
  {
    assert Open(0);
    assert ListTimes(g, o) == 1;
    assert multiset(g.finobj)[o] >= 1 && multiset(g.tobefnz)[o] == 0;
  }

  /** A table keeps its entries, but that one with weak values may lose those whose value is not strongly accessible,
      and one with weak keys those whose key is not. */
  ghost predicate TableKept(g: World, b: Body, b': Body) {
    && b.Table? && b'.Table? && BodyShrinks(b, b')
    && (forall i {:trigger b'.arr[i]} :: 0 <= i < |b.arr| ==>
          b'.arr[i] == b.arr[i] || (ValueWeak(b.mode) && Lost(g, b.arr[i])))
    && (forall i {:trigger b'.nodes[i]} :: 0 <= i < |b.nodes| ==>
          b'.nodes[i].val == b.nodes[i].val || (ValueWeak(b.mode) && Lost(g, b.nodes[i].val)) ||
            (KeyWeak(b.mode) && b.nodes[i].key.Live? && Lost(g, b.nodes[i].key.v)))
  }

  /** What is left of a value of a table, or of an entry. */
  ghost predicate ValueGone(g: World, strong: Colors, m: Mode, v: Value) { ValueWeak(m) && Clearable(g.h, strong, v) }

  ghost predicate KeyGone(g: World, c: Colors, m: Mode, k: Key) { KeyWeak(m) && k.Live? && Clearable(g.h, c, k.v) }

  /** Weak tables are cleared exactly. Of a table that is strongly accessible an entry is gone if and only if its value
      is weak, and is not strongly accessible, or its key is weak, and is not marked even after what is to be finalized
      was marked: such objects are removed from weak values before their finalizers run, but not from weak keys. Strings
      are never a reason, and the other entries stay as they are. */
  lemma ClearedExactly(g: World, g': World, strong: Colors, t: Ref)
    requires Sound(g) && InMark(g.phase) && Finishes(g, g', strong) && t in g.h && g.h[t].Table? && Marked(strong, t)
    ensures t in g'.h && g'.h[t].Table? && |g'.h[t].arr| == |g.h[t].arr| && |g'.h[t].nodes| == |g.h[t].nodes|
    ensures forall i {:trigger g'.h[t].arr[i]} :: 0 <= i < |g.h[t].arr| ==>
      g'.h[t].arr[i] == if ValueGone(g, strong, g.h[t].mode, g.h[t].arr[i]) then Nil else g.h[t].arr[i]
    ensures forall i {:trigger g'.h[t].nodes[i]} :: 0 <= i < |g.h[t].nodes| && g.h[t].nodes[i].val != Nil ==>
      var n, n', m := g.h[t].nodes[i], g'.h[t].nodes[i], g.h[t].mode;
      if ValueGone(g, strong, m, n.val) || KeyGone(g, g'.c, m, n.key) then n'.val == Nil else n' == n
  {
    FinishKind(g, g', strong, t);
    FinishLoses(g, g', strong, t);
    if ValueWeak(g'.h[t].mode) { FinishPurged(g, g', strong, t); }
    var b, b' := g.h[t], g'.h[t];
    forall i | 0 <= i < |b.arr|
      ensures b'.arr[i] == if ValueGone(g, strong, b.mode, b.arr[i]) then Nil else b.arr[i]
    {
      assert b'.arr[i] == b.arr[i] || b'.arr[i] == Nil;
      if Clearable(g.h, strong, b.arr[i]) { StringsStay(g, g', strong, b.arr[i]); }
    }
    forall i | 0 <= i < |b.nodes| && b.nodes[i].val != Nil
      ensures if ValueGone(g, strong, b.mode, b.nodes[i].val) || KeyGone(g, g'.c, b.mode, b.nodes[i].key)
        then b'.nodes[i].val == Nil else b'.nodes[i] == b.nodes[i]
    {
      assert NodeShrinks(b.nodes[i], b'.nodes[i]) &&
        (b' == b || NodeLost(g.h, b.mode, strong, g'.c, b.nodes[i], b'.nodes[i]));
      if Clearable(g.h, strong, b.nodes[i].val) { StringsStay(g, g', strong, b.nodes[i].val); }
      if b'.nodes[i].val != Nil && b.nodes[i].key.Live? && b.nodes[i].key.v.Obj? {
        assert NodeRefers(b'.mode, b'.nodes[i], b.nodes[i].key.v.ref);
        SettledPoints(g, g', strong, t, b.nodes[i].key.v.ref);
      }
    }
  }

  lemma StringsStay(g: World, g': World, strong: Colors, v: Value)
    requires Finishes(g, g', strong) && Clearable(g.h, strong, v)
    ensures Clearable(g'.h, strong, v)
  {
    FinishKind(g, g', strong, v.ref);
  }

  lemma FinishPurged(g: World, g': World, strong: Colors, t: Ref)
    requires Finishes(g, g', strong) && t in g'.h && Marked(strong, t) && g'.h[t].Table? && ValueWeak(g'.h[t].mode)
    ensures NoneClearable(g'.h, strong, g'.h[t])
  {
    assert Open(0);
  }

  lemma SettledPoints(g: World, g': World, strong: Colors, t: Ref, r: Ref)
    requires Finishes(g, g', strong) && t in g'.h && Marked(strong, t) && Points(g'.h, t, r)
    ensures Marked(g'.c, r)
  {
    assert Open(0);
    assert Marked(g'.c, t);
  }

  lemma FinishKept(g: World, g': World, strong: Colors, o: Ref)
    requires Sound(g) && InMark(g.phase) && Finishes(g, g', strong) && o in g.h
    ensures o in g'.h && (g'.h[o] == g.h[o] || TableKept(g, g.h[o], g'.h[o]))
  {
    FinishKind(g, g', strong, o);
    FinishLoses(g, g', strong, o);
    forall r | StronglyAccessible(g, r) ensures Marked(strong, r) { StrongMarked(g, g', strong, r); }
  }

  lemma FinishLoses(g: World, g': World, strong: Colors, o: Ref)
    requires Finishes(g, g', strong) && o in g.h && o in g'.h
    ensures BodyLoses(g.h, strong, g'.c, g.h[o], g'.h[o])
  {
    assert Open(0);
  }

  /** What is strongly accessible when the atomic phase begins is alive when it ends. */
  lemma FinishSafe(g: World, g': World, strong: Colors, o: Ref)
    requires Sound(g) && InMark(g.phase) && Finishes(g, g', strong) && StronglyAccessible(g, o)
    ensures Alive(EnterSweep(g'), o)
  {
    StrongMarked(g, g', strong, o);
    FinishAlive(g, g', strong);
  }

  // ----- from one sweep to the next -----

  /** What follows when a list is swept to its end, or when nothing is left to sweep (lgc.c:1577-1581, 1624-1639). */
  function NextPhase(g: World): World {
    g.(phase := PhaseAfter(g.phase), sweep := NextSweep(g.phase, |g.finobj|, |g.tobefnz|, g.sweep))
  }

  function PhaseAfter(p: Phase): Phase {
    match p
    case SweepAllgc => SweepFinobj
    case SweepFinobj => SweepTobefnz
    case SweepTobefnz => SweepEnd
    case SweepEnd => CallFin
    case _ => Pause
  }

  /** The sweep pointer at the head of the list that is next. */
  function NextSweep(p: Phase, nfinobj: nat, ntobefnz: nat, s: Sweep): Sweep {
    match p
    case SweepAllgc => At(nfinobj, false)
    case SweepFinobj => At(ntobefnz, false)
    case SweepTobefnz => Done
    case _ => s
  }

  predicate SweptOver(g: World) {
    (Sweeping(g.phase) && g.sweep.Done?) || g.phase == SweepEnd || g.phase == CallFin
  }

  lemma NextSweepOk(g: World)
    requires SweepOk(g) && SweptOver(g)
    ensures SweepOk(NextPhase(g))
  {
    assert Open(0);
    var g' := NextPhase(g);
    assert forall x {:trigger Alive(g', x)} :: Alive(g', x) == Alive(g, x);
    WhiteSame(g, g', g.allgc);
    WhiteSame(g, g', g.finobj);
    WhiteSame(g, g', g.tobefnz);
  }

  /** When 'allgc' has been swept to its end, no dead object is left anywhere. */
  lemma AllSweptAlive(g: World, o: Ref)
    requires Basic(g) && SweepOk(g) && Owned(g) && ListsOk(g) && g.phase == SweepAllgc && g.sweep.Done? && o in g.h
    ensures Alive(g, o)
  {
    OwnedListed(g);
    assert Open(0);
    assert o in g.allgc || o in g.finobj || o in g.tobefnz || o in g.fixedgc;
    assert Behind(g.allgc, g.sweep) == g.allgc;
  }

  lemma NextGarbage(g: World)
    requires Shape(g) && SweepOk(g) && GarbageSwept(g) && SweptOver(g)
    ensures GarbageSwept(NextPhase(g))
  {
    if g.phase == SweepAllgc {
      forall o | o in g.h ensures Alive(g, o) { AllSweptAlive(g, o); }
    }
    assert Open(0);
  }

  lemma NextSound(g: World)
    requires Sound(g) && SweptOver(g)
    ensures Sound(NextPhase(g))
  {
    NextSweepOk(g);
    NextGarbage(g);
    PhaseSound(g, NextPhase(g));
  }

  // ----- marking -----

  /** The end of propagation, or a full collection that skips it (lgc.c:1598-1601, 1716). */
  lemma EnterAtomicSound(g: World)
    requires Sound(g) && InMark(g.phase)
    ensures Sound(g.(phase := EnterAtomic))
  {
    assert Open(0);
    var g' := g.(phase := EnterAtomic);
    assert forall x {:trigger Alive(g', x)} :: Alive(g', x) == Alive(g, x);
    OwnedSame(g, g');
    ListsSame(g, g');
    LifeSame(g, g');
    BelowSame(g, g');
    TwupsSame(g, g');
  }

  /** Visits of gray objects between steps of the program; folded. */
  ghost predicate Propagates(g: World, g': World) {
    && InMark(g.phase) && g' == g.(h := g'.h, c := g'.c, l := g'.l)
    && forall k: nat {:trigger Open(k)} :: Open(k) ==>
      && CleanShrink(g.h, g'.h) && Grows(g.c, g'.c) && MarkState(g'.h, g'.c, g'.l, Bound(g))
      && TriColour(g'.h, g'.c) && PropagationLists(g'.h, g'.c, g'.l)
  }

  lemma PropagatedAlive(g: World, g': World)
    requires Basic(g) && NoDead(g) && Propagates(g, g')
    ensures g'.c.Keys == g'.h.Keys == g.h.Keys
    ensures forall x {:trigger Alive(g', x)} :: Alive(g', x) == Alive(g, x)
    ensures NoDead(g')
  {
    assert Open(0);
    forall x | x in g'.c ensures g'.c[x] != OtherWhite(g.w) { assert g.c[x] != OtherWhite(g.w); }
    forall x | x in g.tobefnz ensures Marked(g'.c, x) { assert Marked(g.c, x); }
  }

  lemma PropagatedKind(g: World, g': World, o: Ref)
    requires Propagates(g, g') && o in g.h
    ensures o in g'.h && BodyShrinks(g.h[o], g'.h[o])
    ensures forall r :: Points(g'.h, o, r) ==> Points(g.h, o, r)
    ensures Marked(g.c, o) ==> Marked(g'.c, o)
  {
    assert Open(0);
    forall r | Points(g'.h, o, r) ensures Points(g.h, o, r) { ShrinkPoints(g.h, g'.h, o, r); }
  }

  lemma PropagatedParts(g: World, g': World)
    requires Propagates(g, g')
    ensures TypedOk(g') && KindsOk(g') && MarkStateOk(g') && PropagationOk(g') && Coloured(g')
  {
    assert Open(0);
  }

  lemma PropagatedSound(g: World, g': World)
    requires Sound(g) && Propagates(g, g')
    ensures Sound(g')
  {
    PropagatedAlive(g, g');
    forall o | o in g.h
      ensures o in g'.h && BodyShrinks(g.h[o], g'.h[o])
      ensures forall r :: Points(g'.h, o, r) ==> Points(g.h, o, r)
      ensures Marked(g.c, o) ==> Marked(g'.c, o)
    {
      PropagatedKind(g, g', o);
    }
    OwnedSame(g, g');
    OwnedListed(g);
    ListsSame(g, g');
    LifeSame(g, g');
    BelowSame(g, g');
    TwupsSame(g, g');
    PropagatedSweep(g, g');
    PropagatedParts(g, g');
  }

  lemma PropagatedSweep(g: World, g': World)
    requires InMark(g'.phase)
    ensures SweepOk(g') && GarbageSwept(g')
  {
  }

  // ----- a new cycle -----

  /** All objects that nothing leads to, not even weakly, and that no pending finalizer needs. */
  ghost function Unreachable(g: World): set<Ref> {
    set o | o in g.h && !Reachable(g.h, Roots(g) + SeqSet(g.finobj), o)
  }

  const NO_LISTS := Lists([], [], [], [], [], [])

  /** A new cycle has marked its roots; folded. */
  ghost predicate Restarts(g: World, g': World) {
    && g.phase == Pause && g' == g.(phase := Propagate, c := g'.c, l := NO_LISTS.(gray := g'.l.gray),
      garbage := Unreachable(g))
    && forall k: nat {:trigger Open(k)} :: Open(k) ==>
      && Extends(g.h, g.c, g'.c) && MarkState(g'.h, g'.c, g'.l, Bound(g'))
      && Marked(g'.c, g.main) && ListMarked(g'.c, g.tobefnz)
  }

  /** When a cycle begins, everything is alive: white, or a fixed string. */
  lemma PauseAlive(g: World, o: Ref)
    requires Basic(g) && SweepOk(g) && Owned(g) && ListsOk(g) && g.phase == Pause && o in g.h
    ensures Alive(g, o)
    ensures g.c[o] == g.w || (g.h[o].Str? && Marked(g.c, o) && o in g.fixedgc)
  {
    OwnedListed(g);
    assert Open(0);
    assert o in g.allgc || o in g.finobj || o in g.tobefnz || o in g.fixedgc;
  }

  /** What marking starts from: nothing is gray, and what is reachable is closed under references. */
  lemma PauseMarkState(g: World)
    requires Sound(g) && g.phase == Pause
    ensures MarkState(g.h, g.c, NO_LISTS, iset o: Ref | o !in Unreachable(g))
  {
    forall o | o in g.h
      ensures Alive(g, o) && (g.c[o] == g.w || (g.h[o].Str? && Marked(g.c, o) && o in g.fixedgc)) { PauseAlive(g, o); }
    PauseClosed(g);
    PauseBound(g);
    PauseListed(g);
    assert Open(0);
  }

  lemma PauseListed(g: World)
    requires forall o :: o in g.h && o in g.c ==> g.c[o] == g.w || g.h[o].Str?
    requires IsWhite(g.w)
    ensures GrayListed(g.h, g.c, NO_LISTS)
  {
  }

  lemma PauseClosed(g: World)
    requires Basic(g) && AliveClosed(g) && forall o :: o in g.h ==> Alive(g, o)
    ensures Closed(g.h)
  {
    assert Open(0);
    forall o, r | o in g.h && Points(g.h, o, r) ensures r in g.h { assert Alive(g, o) && Alive(g, r); }
  }

  lemma PauseBound(g: World)
    requires Basic(g) && forall o :: o in g.h ==> g.c[o] == g.w || o in g.fixedgc
    ensures var b := iset o: Ref | o !in Unreachable(g); MarkClosed(g.h, b) && Bounded(g.c, b)
  {
    var b := iset o: Ref | o !in Unreachable(g);
    var roots := Roots(g) + SeqSet(g.finobj);
    forall x, r | x in b && x in g.h && Keeps(g.h, b, x, r) ensures r in b {
      KeepsPoints(g.h, b, x, r);
      ReachableStep(g.h, roots, x, r);
    }
    forall o | Marked(g.c, o) ensures o in b {
      if o in g.h {
        assert o in g.fixedgc;
        ReachableStep(g.h, roots, o, o);
      }
    }
  }

  /** The roots are not garbage. */
  lemma RootsBound(g: World, o: Ref)
    requires o in Roots(g) || o in g.finobj
    ensures o !in Unreachable(g)
  {
    ReachableStep(g.h, Roots(g) + SeqSet(g.finobj), o, o);
  }

  lemma RestartLife(g: World, g': World)
    requires Basic(g) && AliveClosed(g) && RootsAlive(g) && Restarts(g, g')
    requires forall x {:trigger Alive(g', x)} :: Alive(g', x) == Alive(g, x)
    ensures AliveClosed(g') && RootsAlive(g') && GarbageKept(g')
  {
    assert Open(0);
    var roots := Roots(g) + SeqSet(g.finobj);
    assert Roots(g') == Roots(g);
    forall x, r | Alive(g', x) && Points(g'.h, x, r) ensures Alive(g', r) { assert Alive(g, x) && Alive(g, r); }
    forall o | o in Roots(g') || o in g'.finobj ensures o !in g'.garbage { RootsBound(g, o); }
    forall x, r | x in g'.h && x !in g'.garbage && Points(g'.h, x, r) ensures r !in g'.garbage {
      ReachableStep(g.h, roots, x, r);
    }
  }

  lemma RestartBelow(g: World, g': World)
    requires Below(g) && Restarts(g, g')
    ensures Below(g')
  {
    assert Open(0);
  }

  lemma RestartAlive(g: World, g': World)
    requires Sound(g) && Restarts(g, g')
    ensures forall x {:trigger Alive(g', x)} :: Alive(g', x) == Alive(g, x)
    ensures g'.c.Keys == g'.h.Keys
    ensures NoDead(g')
  {
    forall o | o in g.h ensures Alive(g, o) { PauseAlive(g, o); }
    PauseDone(g);
    RestartAllAlive(g, g');
  }

  lemma PauseDone(g: World)
    requires SweepOk(g) && g.phase == Pause
    ensures g.sweep == Done
  {
    assert Open(0);
  }

  lemma RestartAllAlive(g: World, g': World)
    requires Basic(g) && Restarts(g, g') && g.sweep == Done && forall o :: o in g.h ==> Alive(g, o)
    ensures forall x {:trigger Alive(g', x)} :: Alive(g', x) == Alive(g, x)
    ensures g'.c.Keys == g'.h.Keys
    ensures NoDead(g')
  {
    assert Open(0);
    forall x | x in g'.c ensures g'.c[x] != OtherWhite(g.w) { assert Alive(g, x); }
  }

  lemma RestartBlack(g: World, g': World, o: Ref)
    requires Sound(g) && Restarts(g, g') && o in g'.h && o in g'.c && g'.c[o] == Black
    ensures AllMarked(g'.h, g'.c, o) && !g'.h[o].Thread? && !IsWeak(g'.h[o])
  {
    PauseAlive(g, o);
    assert Open(0);
    if IsWhite(g.c[o]) { assert Finished(g'.h, g'.c, o); }
  }

  lemma RestartColours(g: World, g': World)
    requires Sound(g) && Restarts(g, g')
    ensures PropagationOk(g') && Coloured(g') && MarkStateOk(g') && TypedOk(g') && KindsOk(g')
  {
    forall o | o in g'.h && o in g'.c && g'.c[o] == Black
      ensures AllMarked(g'.h, g'.c, o) && !g'.h[o].Thread? && !IsWeak(g'.h[o])
    {
      RestartBlack(g, g', o);
    }
    RestartParts(g, g');
  }

  lemma RestartParts(g: World, g': World)
    requires Restarts(g, g')
    requires forall o {:trigger g'.c[o]} :: o in g'.h && o in g'.c && g'.c[o] == Black ==>
      AllMarked(g'.h, g'.c, o) && !g'.h[o].Thread? && !IsWeak(g'.h[o])
    ensures PropagationOk(g') && Coloured(g') && MarkStateOk(g') && TypedOk(g') && KindsOk(g')
  {
    assert Open(0);
  }

  lemma RestartLists(g: World, g': World)
    requires ListsOk(g) && Restarts(g, g')
    ensures ListsOk(g')
  {
    assert Open(0);
    ListsSame(g, g');
  }

  lemma RestartSound(g: World, g': World)
    requires Sound(g) && Restarts(g, g')
    ensures Sound(g')
  {
    RestartAlive(g, g');
    OwnedSame(g, g');
    RestartLists(g, g');
    RestartLife(g, g');
    RestartBelow(g, g');
    TwupsSame(g, g');
    PropagatedSweep(g, g');
    RestartColours(g, g');
  }

  // ----- a full collection that finds marking under way -----

  /** All objects are swept back to white without a flip, so that nothing is collected (lgc.c:1711-1712). */
  function Abandoned(g: World): World { EnterSweep(g.(garbage := {})) }

  lemma AbandonSound(g: World)
    requires Sound(g) && InMark(g.phase)
    ensures Sound(Abandoned(g))
  {
    var g' := Abandoned(g);
    assert forall x {:trigger Alive(g', x)} :: Alive(g', x) == Alive(g, x);
    OwnedSame(g, g');
    ListsSame(g, g');
    TwupsSame(g, g');
    AbandonLife(g);
    AbandonSweep(g);
    NotMarking(g');
  }

  lemma AbandonLife(g: World)
    requires Shape(g) && AliveClosed(g) && RootsAlive(g)
    ensures var g' := Abandoned(g);
      AliveClosed(g') && RootsAlive(g') && GarbageKept(g') && TypedOk(g') && KindsOk(g') && Below(g')
  {
    assert Open(0);
    var g' := Abandoned(g);
    assert Roots(g') == Roots(g);
    assert forall x {:trigger Alive(g', x)} :: Alive(g', x) == Alive(g, x);
    forall x, r | Alive(g', x) && Points(g'.h, x, r) ensures Alive(g', r) { assert Alive(g, x) && Alive(g, r); }
  }

  lemma AbandonSweep(g: World)
    requires Basic(g) && Owned(g) && NoDead(g) && InMark(g.phase)
    ensures SweepOk(Abandoned(g)) && GarbageSwept(Abandoned(g))
  {
    OwnedListed(g);
    assert Open(0);
    forall o | o in g.finobj || o in g.tobefnz ensures Alive(Abandoned(g), o) { assert o in g.c; }
  }
}
