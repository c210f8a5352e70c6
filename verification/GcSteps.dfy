/** The single steps that drive a collection cycle (lgc.c:394-409, 851-857, 1486-1491, 1525-1645). */
module GcSteps {
  import opened GcObjects
  import opened GcMarking
  import opened GcWorld
  import opened GcState
  import opened GcSweep
  import opened GcCycle
  import opened GcPhases
  import opened Folding

  // ----- sweeping until something lives -----

  /** Sweeps one object at a time until the pointer has moved past a live object, or the list ends
      (lgc.c:851-857). */
  method SweepToLive(g: GlobalState)
    requires Sound(g.W()) && g.phase == SweepAllgc && g.sweep.At?
    modifies g`heap, g`color, g`gray, g`allgc, g`sweep
    ensures Sound(g.W()) && SweptTo(old(g.W()), g.W())
    ensures g.sweep.At? ==> |g.allgc| - g.sweep.rem == |old(g.allgc)| - old(g.sweep).rem + 1
    ensures Passed(old(g.allgc), old(g.sweep).rem, g.allgc)
  {
    LiveFirst(g.W());
    var moved := false;
    while !moved && g.sweep.At?
      invariant Sound(g.W()) && Living(old(g.W()), g.W(), moved)
      decreases if g.sweep.At? then g.sweep.rem + 1 else 0, !moved
    {
      ghost var w := g.W();
      var before := |g.allgc|;
      LiveOpen(old(g.W()), w);
      SweepList(g, 1);
      moved := |g.allgc| == before;
      LiveNext(old(g.W()), w, g.W(), moved);
    }
    LiveLast(old(g.W()), g.W(), moved);
  }

  /** What holds between two objects: the pointer has not moved on yet, or only past the last object; folded. */
  ghost predicate Living(w0: World, w: World, moved: bool) {
    && SweptTo(w0, w) && w.phase == w0.phase
    && forall k: nat {:trigger Open(k)} :: Open(k) ==>
        && w0.sweep.At? && (w.sweep.At? ==> |w.allgc| - w.sweep.rem == |w0.allgc| - w0.sweep.rem + if moved then 1
          else 0)
        && Passed(w0.allgc, w0.sweep.rem, w.allgc)
  }

  lemma LiveFirst(w: World)
    requires Sound(w) && w.phase == SweepAllgc && w.sweep.At?
    ensures Living(w, w, false)
  {
    SweptRefl(w);
    PointerInside(w);
  }

  lemma LiveOpen(w0: World, w: World)
    requires Living(w0, w, false)
    ensures w.sweep.At? ==> w0.sweep.At? && |w.allgc| - w.sweep.rem == |w0.allgc| - w0.sweep.rem
    ensures w0.sweep.At? && Passed(w0.allgc, w0.sweep.rem, w.allgc)
  {
    assert Open(0);
  }

  lemma LiveNext(w0: World, w: World, w': World, moved: bool)
    requires Living(w0, w, false) && w.phase == SweepAllgc && w'.phase == w.phase && w.sweep.At? && SweptTo(w, w')
    requires Passed(w.allgc, w.sweep.rem, w'.allgc)
    requires if w.sweep.rem <= 1 then w'.sweep == Done else w'.sweep.At? && w'.sweep.rem == w.sweep.rem - 1
    requires |w.allgc| - 1 <= |w'.allgc| <= |w.allgc| && moved == (|w'.allgc| == |w.allgc|)
    ensures Living(w0, w', moved)
  {
    LiveOpen(w0, w);
    SweptTrans(w0, w, w');
    PassedMore(w0.allgc, w0.sweep.rem, w.allgc, w.sweep.rem, w'.allgc);
  }

  lemma LiveLast(w0: World, w: World, moved: bool)
    requires Living(w0, w, moved) && (moved || !w.sweep.At?)
    ensures SweptTo(w0, w) && w0.sweep.At? && Passed(w0.allgc, w0.sweep.rem, w.allgc)
    ensures w.sweep.At? ==> |w.allgc| - w.sweep.rem == |w0.allgc| - w0.sweep.rem + 1
  {
    assert Open(0);
  }

  // ----- the atomic step -----

  lemma AtomicEntry(w: World)
    requires Sound(w) && w.phase == EnterAtomic
    ensures Markable(w.h, w.c, w.l, Bound(w)) && Tracing(w.h, w.c, w.l, false) && TwupsAll(w.h, w.tw)
  {
    assert Open(0);
    forall t | t in w.h && w.h[t].Thread? && w.h[t].upvals != {} ensures t in w.tw {
      assert Alive(w, t);
    }
  }

  lemma AtomicRoots(w: World)
    requires Basic(w) && Owned(w) && RootsAlive(w) && GarbageKept(w)
    ensures forall o :: o in [w.running] + RefsOf([w.registry]) + RefsOf(w.mt) || o in w.finobj || o in w.tobefnz ==>
      o in w.h && o in w.c && o in Bound(w)
  {
    OwnedListed(w);
    forall o | o in [w.running] + RefsOf([w.registry]) + RefsOf(w.mt) || o in w.finobj || o in w.tobefnz
      ensures o in Roots(w) || o in w.finobj
    {
      InRoots(w, o);
    }
    assert Open(0);
  }

  lemma InRoots(w: World, o: Ref)
    requires o in [w.running] + RefsOf([w.registry]) + RefsOf(w.mt) || o in w.tobefnz || o in w.finobj
    ensures o in Roots(w) || o in w.finobj
  {
  }

  /** Runs the atomic phase. */
  method Atomically(g: GlobalState) returns (ghost strong: Colors)
    requires Sound(g.W()) && g.phase == EnterAtomic
    modifies g`heap, g`color, g`gray, g`grayagain, g`weak, g`ephemeron, g`allweak, g`twups, g`detached, g`finobj,
      g`tobefnz, g`phase, g`curwhite
    ensures Finishes(old(g.W()), g.W(), strong)
  {
    ghost var w := g.W();
    AtomicEntry(w);
    AtomicRoots(w);
    strong := g.RunAtomic(Bound(w));
    Finished(w, g.W(), strong);
  }

  lemma Finished(w: World, w': World, strong: Colors)
    requires w' == w.(h := w'.h, c := w'.c, l := w'.l, tw := w'.tw, w := OtherWhite(w.w), phase := w'.phase,
                      finobj := w'.finobj, tobefnz := w'.tobefnz)
    requires Later(SnapOf(w), SnapOf(w')) && StronglyMarked(w.h, w.c, GlobalRoots(w), strong)
    requires Weakened(w.h, w'.h, strong, w'.c) && Purged(w'.h, strong) && NeededOnly(w.h, strong, w'.tobefnz, w'.c)
    requires Separated(w.h, strong, w.finobj, w.tobefnz, w'.finobj, w'.tobefnz)
    requires multiset(w'.finobj) + multiset(w'.tobefnz) == multiset(w.finobj) + multiset(w.tobefnz)
    requires Markable(w'.h, w'.c, w'.l, Bound(w)) && Settled(w'.h, w'.c) && TwupsMarked(w'.h, w'.c, w'.tw)
    requires forall t :: t in w'.h && w'.h[t].Thread? && w'.h[t].upvals != {} && Marked(w'.c, t) ==> t in w'.tw
    requires ListMarked(w'.c, w'.finobj + w'.tobefnz)
    ensures Finishes(w, w', strong)
  {
  }

  /** The value that an upvalue stands for. */
  ghost predicate Reads(h: Heap, u: Ref, v: Value)
    requires u in h
  {
    h[u] == ClosedUp(v) || (h[u].OpenUp? && SlotOk(h, u) && h[h[u].thread].stack[h[u].level] == v)
  }

  /** What a step of the collector leaves of an object: it is not freed, and what the program can read of it
      stays, but for weak entries whose key or value is not strongly accessible, and no string. The running thread may
      get an object to finalize on top of its stack. An open upvalue may be closed, with the value it stands for. */
  ghost predicate Survives(w: World, w': World, o: Ref)
    requires o in w.h
  {
    && o in w'.h
    && if w.h[o].OpenUp? then
      SlotOk(w.h, o) && (w'.h[o] == w.h[o] || w'.h[o].ClosedUp?) &&
        Reads(w'.h, o, w.h[w.h[o].thread].stack[w.h[o].level])
    else
      w'.h[o] == w.h[o] || TableKept(w, w.h[o], w'.h[o])
        || (o == w.running && w.h[o].Thread? && w'.h[o].Thread? && w.h[o].stack <= w'.h[o].stack &&
          w'.h[o].upvals == w.h[o].upvals)
  }

  /** The promise of the collector to the program: what is strongly accessible is alive and survives. */
  ghost predicate StepSafe(w: World, w': World) {
    forall k: nat {:trigger Open(k)} :: Open(k) ==>
      forall o {:trigger StronglyAccessible(w, o)} :: StronglyAccessible(w, o) ==>
        o in w.h && Survives(w, w', o) && Alive(w', o)
  }

  lemma StepSurvives(w: World, w': World)
    requires StepSafe(w, w')
    ensures forall o {:trigger StronglyAccessible(w, o)} :: StronglyAccessible(w, o) ==>
      o in w.h && Survives(w, w', o) && Alive(w', o)
  {
    assert Open(0);
  }

  /** There are no new objects; folded. */
  ghost predicate NoneAdded(w: World, w': World) {
    forall k: nat {:trigger Open(k)} :: Open(k) ==> w'.h.Keys <= w.h.Keys
  }

  lemma AtomicSafe(w: World, w1: World, w2: World, strong: Colors)
    requires Sound(w) && InMark(w.phase) && Finishes(w, w1, strong) && SweptTo(EnterSweep(w1), w2)
    ensures StepSafe(w, w2) && NoneAdded(w, w2)
  {
    forall o | StronglyAccessible(w, o) ensures o in w.h && Survives(w, w2, o) && Alive(w2, o) {
      AtomicSurvival(w, w1, w2, strong, o);
    }
    FinishAlive(w, w1, strong);
    SweptKeys(EnterSweep(w1), w2);
  }

  lemma AtomicSurvival(w: World, w1: World, w2: World, strong: Colors, o: Ref)
    requires Sound(w) && InMark(w.phase) && Finishes(w, w1, strong) && SweptTo(EnterSweep(w1), w2)
    requires StronglyAccessible(w, o)
    ensures o in w.h && Survives(w, w2, o) && Alive(w2, o)
  {
    FinishSafe(w, w1, strong, o);
    FinishAlive(w, w1, strong);
    FinishKept(w, w1, strong, o);
    if w.h[o].OpenUp? { AtomicSlot(w, w1, strong, o); }
    SurvivesSwept(w, EnterSweep(w1), w2, o);
  }

  lemma KeptWhileSwept(w: World, w': World, o: Ref)
    requires SweptTo(w, w') && Alive(w, o)
    ensures Alive(w', o) && o in w.h && KeptAlive(w.h, w'.h, o)
  {
    assert Open(0);
  }

  lemma AtomicSlot(w: World, w1: World, strong: Colors, o: Ref)
    requires Sound(w) && InMark(w.phase) && Finishes(w, w1, strong) && o in w.h && w.h[o].OpenUp?
    ensures SlotOk(w.h, o) && o in w1.h && w1.h[o] == w.h[o] && w.h[o].thread in w1.h
    ensures w1.h[w.h[o].thread] == w.h[w.h[o].thread]
  {
    assert Open(0);
    assert SlotOk(w.h, o);
    FinishKind(w, w1, strong, o);
    FinishKind(w, w1, strong, w.h[o].thread);
  }

  /** What the atomic step leaves: the atomic phase is over, and dead objects may be gone; folded. */
  ghost predicate Concluded(w: World, w': World) {
    forall k: nat {:trigger Open(k)} :: Open(k) ==> ConcludedSo(w, w')
  }

  ghost predicate ConcludedSo(w: World, w': World) {
    exists w1: World, strong: Colors {:trigger Finishes(w, w1, strong)} ::
      Finishes(w, w1, strong) && SweptTo(EnterSweep(w1), w') && w'.tobefnz == w1.tobefnz
  }

  /** The atomic phase, and the sweep up to the first live object (lgc.c:1606-1608). */
  method AtomicStep(g: GlobalState)
    requires Sound(g.W()) && g.phase == EnterAtomic
    modifies g`heap, g`color, g`gray, g`grayagain, g`weak, g`ephemeron, g`allweak, g`twups, g`detached, g`finobj,
      g`tobefnz, g`phase, g`curwhite, g`allgc, g`sweep
    ensures Sound(g.W()) && g.phase == SweepAllgc && NoneAdded(old(g.W()), g.W()) && StepSafe(old(g.W()), g.W())
    ensures Concluded(old(g.W()), g.W())
  {
    ghost var w := g.W();
    ghost var strong := Atomically(g);
    ghost var w1 := g.W();
    FinishSound(w, w1, strong);
    g.phase, g.sweep := SweepAllgc, At(|g.allgc|, true);
    assert g.W() == EnterSweep(w1);
    SweepToLive(g);
    ghost var w2 := g.W();
    AtomicSafe(w, w1, w2, strong);
    AtomicConcluded(w, w1, w2, strong);
  }

  lemma AtomicConcluded(w: World, w1: World, w2: World, strong: Colors)
    requires Finishes(w, w1, strong) && SweptTo(EnterSweep(w1), w2) && w2.tobefnz == w1.tobefnz
    ensures Concluded(w, w2)
  {
  }

  // ----- the other steps -----

  function FirstRoots(w: World): seq<Ref> { [w.main] + RefsOf([w.registry]) + RefsOf(w.mt) + w.tobefnz }

  lemma RestartRoot(w: World, o: Ref)
    requires RootsAlive(w) && o in FirstRoots(w)
    ensures o in w.h && o !in Unreachable(w)
  {
    assert Open(0);
    assert o in Roots(w);
    RootsBound(w, o);
  }

  /** Marking can start from the roots. */
  ghost predicate CanRestart(w: World, bound: iset<Ref>) {
    Markable(w.h, w.c, NO_LISTS, bound) && forall o :: o in FirstRoots(w) ==> o in w.h && o in bound
  }

  lemma RestartReady(w: World, bound: iset<Ref>)
    requires Sound(w) && w.phase == Pause && bound == iset o: Ref | o !in Unreachable(w)
    ensures CanRestart(w, bound)
  {
    PauseMarkState(w);
    forall o | o in FirstRoots(w) ensures o in w.h && o in bound { RestartRoot(w, o); }
  }

  /** Marks the roots and resets the gray lists (lgc.c:403-409). */
  method RestartCollection(g: GlobalState, ghost bound: iset<Ref>)
    requires CanRestart(g.W(), bound)
    modifies g`color, g`gray, g`grayagain, g`weak, g`ephemeron, g`allweak, g`detached
    ensures g.W() == old(g.W()).(c := g.color, l := NO_LISTS.(gray := g.gray))
    ensures Extends(g.heap, old(g.color), g.color) && g.CanMark(bound) && ListMarked(g.color, old(FirstRoots(g.W())))
  {
    ClearGrayLists(g);
    g.MarkObjects([g.mainthread] + RefsOf([g.registry]) + RefsOf(g.mt) + g.tobefnz, bound);
  }

  /** All gray lists are reset (lgc.c:394-397). */
  method ClearGrayLists(g: GlobalState)
    modifies g`gray, g`grayagain, g`weak, g`ephemeron, g`allweak, g`detached
    ensures g.W() == old(g.W()).(l := NO_LISTS)
  {
    g.gray, g.grayagain, g.weak, g.ephemeron, g.allweak, g.detached := [], [], [], [], [], [];
  }

  /** Marks no more than the roots call for. */
  method RestartLeast(g: GlobalState, ghost bound: iset<Ref>)
    requires CanRestart(g.W(), bound)
    modifies g`color, g`gray, g`grayagain, g`weak, g`ephemeron, g`allweak, g`detached
    ensures g.W() == old(g.W()).(c := g.color, l := NO_LISTS.(gray := g.gray))
    ensures Extends(g.heap, old(g.color), g.color) && g.CanMark(bound) && ListMarked(g.color, old(FirstRoots(g.W())))
    ensures MarksFrom(g.heap, old(g.color), old(FirstRoots(g.W())), g.color)
  {
    ghost var w := g.W();
    LeastMarkable(w.h, w.c, NO_LISTS, FirstRoots(w), bound);
    RestartCollection(g, Least(w.h, w.c, FirstRoots(w), bound));
    LeastMarked(w.h, w.c, NO_LISTS, FirstRoots(w), bound, g.heap, g.color, g.L());
  }

  lemma RestartDone(w: World, w': World)
    requires w.phase == Pause
    requires w' == w.(phase := Propagate, c := w'.c, l := NO_LISTS.(gray := w'.l.gray), garbage := Unreachable(w))
    requires Extends(w.h, w.c, w'.c) && Markable(w'.h, w'.c, w'.l, Bound(w')) && ListMarked(w'.c, FirstRoots(w))
    ensures Restarts(w, w')
  {
    assert w.main in FirstRoots(w) && forall o :: o in w.tobefnz ==> o in FirstRoots(w);
  }

  method StartCycle(g: GlobalState)
    requires g.phase == Pause && CanRestart(g.W(), iset o: Ref | o !in Unreachable(g.W()))
    modifies g`color, g`gray, g`grayagain, g`weak, g`ephemeron, g`allweak, g`detached, g`garbage, g`phase
    ensures Restarts(old(g.W()), g.W()) && MarksFrom(g.heap, old(g.color), old(FirstRoots(g.W())), g.color)
  {
    ghost var w := g.W();
    ghost var dead := Unreachable(w);
    RestartLeast(g, iset o: Ref | o !in dead);
    g.phase, g.garbage := Propagate, dead;
    assert Bound(g.W()) == iset o: Ref | o !in dead;
    RestartDone(w, g.W());
  }

  /** Starts a cycle. */
  method RestartStep(g: GlobalState)
    requires Sound(g.W()) && g.phase == Pause
    modifies g`color, g`gray, g`grayagain, g`weak, g`ephemeron, g`allweak, g`detached, g`garbage, g`phase
    ensures Sound(g.W()) && g.phase == Propagate && g.garbage == Unreachable(old(g.W()))
    ensures MarksFrom(g.heap, old(g.color), old(FirstRoots(g.W())), g.color)
  {
    ghost var w := g.W();
    RestartReady(w, iset o: Ref | o !in Unreachable(w));
    StartCycle(g);
    RestartSound(w, g.W());
  }

  lemma PropagateEntry(w: World)
    requires Sound(w) && w.phase == Propagate
    ensures Markable(w.h, w.c, w.l, Bound(w)) && Tracing(w.h, w.c, w.l, false)
  {
    assert Open(0);
  }

  method Propagating(g: GlobalState)
    requires Sound(g.W()) && g.phase == Propagate && g.gray != []
    modifies g`heap, g`color, g`gray, g`grayagain, g`weak, g`ephemeron, g`allweak, g`twups
    ensures Propagates(old(g.W()), g.W()) && Intact(old(g.heap), g.heap)
    ensures |g.gray| + |Whites(g.color)| < |old(g.gray)| + |Whites(old(g.color))|
    ensures MarksFrom(old(g.heap), old(g.color), [], g.color)
  {
    ghost var w := g.W();
    PropagateEntry(w);
    LeastMarkable(w.h, w.c, w.l, [], Bound(w));
    g.PropagateMark(Least(w.h, w.c, [], Bound(w)));
    AdvancedPropagates(w, g.W());
  }

  lemma AdvancedPropagates(w: World, w': World)
    requires InMark(w.phase) && w' == w.(h := w'.h, c := w'.c, l := w'.l, tw := w'.tw) && Intact(w.h, w'.h)
    requires Markable(w.h, w.c, w.l, Bound(w))
    requires Advanced(SnapOf(w), SnapOf(w'), false) && Markable(w'.h, w'.c, w'.l, Least(w.h, w.c, [], Bound(w)))
    ensures Propagates(w, w') && MarksFrom(w.h, w.c, [], w'.c)
  {
    IntactShrinks(w.h, w'.h);
    LeastMarked(w.h, w.c, w.l, [], Bound(w), w'.h, w'.c, w'.l);
    assert Open(0);
  }

  /** Visits one gray object (lgc.c:660-673). */
  method PropagateStep(g: GlobalState)
    requires Sound(g.W()) && g.phase == Propagate && g.gray != []
    modifies g`heap, g`color, g`gray, g`grayagain, g`weak, g`ephemeron, g`allweak, g`twups
    ensures Sound(g.W()) && Intact(old(g.heap), g.heap)
    ensures |g.gray| + |Whites(g.color)| < |old(g.gray)| + |Whites(old(g.color))|
    ensures MarksFrom(old(g.heap), old(g.color), [], g.color)
  {
    ghost var w := g.W();
    Propagating(g);
    PropagatedSound(w, g.W());
  }

  /** Sweeps some objects, or moves on to the next list (lgc.c:1568-1582). */
  method SweepStep(g: GlobalState)
    requires Sound(g.W()) && Sweeping(g.phase)
    modifies g`heap, g`color, g`gray, g`allgc, g`sweep, g`phase
    ensures Sound(g.W()) && SweptTo(old(g.W()), g.W())
    ensures old(g.sweep).Done? ==> g.W() == NextPhase(old(g.W()))
    ensures old(g.sweep).At? ==> g.phase == old(g.phase)
    ensures old(g.sweep).At? ==>
      if old(g.sweep).rem <= GCSWEEPMAX then g.sweep == Done
        else g.sweep.At? && g.sweep.rem == old(g.sweep).rem - GCSWEEPMAX
  {
    if g.sweep.At? {
      SweepList(g, GCSWEEPMAX);
    } else {
      NextStep(g);
    }
  }

  method NextStep(g: GlobalState)
    requires Sound(g.W()) && SweptOver(g.W())
    modifies g`phase, g`sweep
    ensures Sound(g.W()) && g.W() == NextPhase(old(g.W())) && SweptTo(old(g.W()), g.W())
  {
    ghost var w := g.W();
    NextSound(w);
    g.sweep, g.phase := NextSweep(g.phase, |g.finobj|, |g.tobefnz|, g.sweep), PhaseAfter(g.phase);
    assert g.W() == NextPhase(w);
    NextSwept(w);
  }

  lemma NextSwept(w: World)
    requires Sound(w) && SweptOver(w)
    ensures SweptTo(w, NextPhase(w))
  {
    SweptRefl(w);
    SweptSame(w, w, NextPhase(w));
  }

  lemma SweptSame(w: World, w': World, w'': World)
    requires SweptTo(w, w') && w''.h == w'.h && w''.c == w'.c && w''.w == w'.w
    requires Roots(w'') == Roots(w') && w''.finobj == w'.finobj
    ensures SweptTo(w, w'')
  {
    assert SweptNow(w, w') by { assert Open(0); }
    SweptNowSame(w, w', w'');
  }

  lemma SweptNowSame(w: World, w': World, w'': World)
    requires SweptNow(w, w') && w''.h == w'.h && w''.c == w'.c && w''.w == w'.w
    requires Roots(w'') == Roots(w') && w''.finobj == w'.finobj
    ensures SweptNow(w, w'')
  {
    forall x ensures Alive(w'', x) == Alive(w, x) { assert Alive(w', x) == Alive(w, x); }
    forall x | x in w''.h ensures x in w.h && Kept(w.h, w''.h, x) { assert x in w'.h; }
  }

  // ----- the other steps are safe too -----

  lemma StrongAlive(w: World, o: Ref)
    requires AliveClosed(w) && RootsAlive(w) && StronglyAccessible(w, o)
    ensures Alive(w, o)
  {
    assert Open(0);
    var s := iset x: Ref | Alive(w, x);
    forall x, r | x in s && x in w.h && StrongKeeps(w.h, s, x, r) ensures r in s {
      StrongPoints(w.h, s, x, r);
      assert Alive(w, x);
    }
    assert StrongClosed(w.h, s);
  }

  lemma SweptSafe(w: World, w': World)
    requires Sound(w) && SweptTo(w, w')
    ensures StepSafe(w, w')
  {
    forall o | StronglyAccessible(w, o) ensures o in w.h && Survives(w, w', o) && Alive(w', o) {
      StrongAlive(w, o);
      SweptSurvives(w, w', o);
    }
  }

  lemma SweptSurvives(w: World, w': World, o: Ref)
    requires SweptTo(w, w') && Alive(w, o)
    ensures o in w.h && Survives(w, w', o) && Alive(w', o)
  {
    assert Open(0);
    assert KeptAlive(w.h, w'.h, o);
    if w'.h[o].OpenUp? { SweptSlot(w, w', o); }
  }

  /** What survived is kept while sweeping. */
  lemma SurvivesSwept(w: World, w': World, w'': World, o: Ref)
    requires o in w.h && Survives(w, w', o) && Alive(w', o) && SweptTo(w', w'')
    ensures Survives(w, w'', o) && Alive(w'', o)
  {
    SweptSurvives(w', w'', o);
    KeptWhileSwept(w', w'', o);
    if w''.h[o].OpenUp? { SweptSlot(w', w'', o); }
  }

  /** What survives after sweeping has survived from the beginning. */
  lemma SweptThenSurvives(w: World, w': World, w'': World, o: Ref)
    requires Sound(w) && SweptTo(w, w') && w'.running == w.running && Alive(w, o) && o in w'.h && Survives(w', w'', o)
    ensures o in w.h && Survives(w, w'', o)
  {
    SweptSurvives(w, w', o);
    KeptWhileSwept(w, w', o);
    if w.h[o].OpenUp? {
      if w'.h[o].OpenUp? { SweptSlot(w, w', o); }
    } else if w''.h[o] != w.h[o] && w.h[o].Table? {
      KeptBefore(w, w', o, w''.h[o]);
    }
  }

  lemma KeptBefore(w: World, w': World, o: Ref, b: Body)
    requires Sound(w) && SweptTo(w, w') && Alive(w, o) && o in w.h && w.h[o].Table? && TableKept(w', w.h[o], b)
    ensures TableKept(w, w.h[o], b)
  {
    var t := w.h[o];
    forall i | 0 <= i < |t.arr| && b.arr[i] != t.arr[i] ensures ValueWeak(t.mode) && Lost(w, t.arr[i]) {
      assert Obj(t.arr[i].ref) in t.arr;
      LostBefore(w, w', o, t.arr[i]);
    }
    forall i | 0 <= i < |t.nodes| && b.nodes[i].val != t.nodes[i].val
      ensures (ValueWeak(t.mode) && Lost(w, t.nodes[i].val)) ||
        (KeyWeak(t.mode) && t.nodes[i].key.Live? && Lost(w, t.nodes[i].key.v))
    {
      var n := t.nodes[i];
      assert NodeShrinks(n, b.nodes[i]);
      if ValueWeak(t.mode) && Lost(w', n.val) {
        assert NodeRefers(t.mode, t.nodes[i], n.val.ref);
        LostBefore(w, w', o, n.val);
      } else {
        assert NodeRefers(t.mode, t.nodes[i], n.key.v.ref);
        LostBefore(w, w', o, n.key.v);
      }
    }
  }

  lemma LostBefore(w: World, w': World, o: Ref, v: Value)
    requires Sound(w) && SweptTo(w, w') && Alive(w, o) && o in w.h && Lost(w', v) && Points(w.h, o, v.ref)
    ensures Lost(w, v)
  {
    if StronglyAccessible(w, v.ref) { SweptStrong(w, w', v.ref); }
    assert Alive(w, v.ref) by { assert Open(0); }
    SweptSurvives(w, w', v.ref);
    KeptWhileSwept(w, w', v.ref);
  }

  lemma IntactSafe(w: World, w': World)
    requires Sound(w) && Intact(w.h, w'.h) && forall x {:trigger Alive(w, x)} :: Alive(w, x) ==> Alive(w', x)
    ensures StepSafe(w, w')
  {
    forall o | StronglyAccessible(w, o) ensures o in w.h && Survives(w, w', o) && Alive(w', o) {
      StrongAlive(w, o);
      UpvalPlace(w, o);
      IntactSurvives(w, w', o);
    }
  }

  lemma IntactSurvives(w: World, w': World, o: Ref)
    requires Intact(w.h, w'.h) && o in w.h && (w.h[o].OpenUp? ==> SlotOk(w.h, o))
    ensures Survives(w, w', o)
  {
    assert BodyIntact(w.h[o], w'.h[o]);
    if w.h[o].OpenUp? { assert BodyIntact(w.h[w.h[o].thread], w'.h[w.h[o].thread]); }
  }

  lemma UpvalPlace(w: World, o: Ref)
    requires TypedOk(w) && o in w.h
    ensures w.h[o].OpenUp? ==> SlotOk(w.h, o)
  {
    assert Open(0);
  }

  /** While sweeping, what is strongly accessible stays so. */
  lemma SweptStrong(w: World, w': World, o: Ref)
    requires Sound(w) && SweptTo(w, w') && StronglyAccessible(w, o)
    ensures StronglyAccessible(w', o)
  {
    assert Open(0);
    var from := iset x: Ref | x in Roots(w');
    forall s: iset<Ref> | (forall r :: r in from ==> r in s) && StrongClosed(w'.h, s) ensures o in s {
      var a := iset x: Ref | x in s && Alive(w, x);
      SweptClosed(w, w', s, a);
      SweptRoots(w, a);
    }
  }

  lemma SweptRoots(w: World, a: iset<Ref>)
    requires RootsAlive(w) && forall x :: x in Roots(w) && Alive(w, x) ==> x in a
    ensures forall x :: x in Roots(w) ==> x in a
  {
    assert Open(0);
  }

  lemma SweptClosed(w: World, w': World, s: iset<Ref>, a: iset<Ref>)
    requires AliveClosed(w) && SweptTo(w, w') && StrongClosed(w'.h, s) && a == iset x: Ref | x in s && Alive(w, x)
    ensures StrongClosed(w.h, a)
  {
    assert Open(0);
    forall x, r | x in a && x in w.h && StrongKeeps(w.h, a, x, r) ensures r in a {
      StrongPoints(w.h, a, x, r);
      assert Alive(w, x) && KeptAlive(w.h, w'.h, x);
      AliveStep(w, x, r);
      SweptKeeps(w, w', a, x, r);
      StrongKeepsMore(w'.h, a, s, x, r);
    }
  }

  lemma AliveStep(w: World, x: Ref, r: Ref)
    requires AliveClosed(w) && Alive(w, x) && Points(w.h, x, r)
    ensures Alive(w, r)
  {
    assert Open(0);
  }

  lemma SweptKeeps(w: World, w': World, a: iset<Ref>, x: Ref, r: Ref)
    requires AliveClosed(w) && SweptTo(w, w') && Alive(w, x) && StrongKeeps(w.h, a, x, r)
    ensures x in w'.h && StrongKeeps(w'.h, a, x, r)
  {
    assert Open(0);
    assert KeptAlive(w.h, w'.h, x);
    if w'.h[x].OpenUp? {
      SweptSlot(w, w', x);
    } else if w.h[x].Table? && w.h[x].mode == Ephemeron && HeldKeyValue(w.h, w.h[x].nodes, a, r) {
      var i :| 0 <= i < |w.h[x].nodes| && w.h[x].nodes[i].val == Obj(r) && KeyHeld(w.h, w.h[x].nodes[i].key, a);
      var k := w.h[x].nodes[i].key;
      if k.Live? && k.v.Obj? {
        assert NodeRefers(Ephemeron, w.h[x].nodes[i], k.v.ref);
        AliveStep(w, x, k.v.ref);
        assert KeptAlive(w.h, w'.h, k.v.ref);
      }
      assert KeyHeld(w'.h, k, a);
    }
  }

  /** What is unreachable before sweeping is still so, or freed. */
  lemma SweptUnreachable(w: World, w': World, o: Ref)
    requires SweptTo(w, w') && o in Unreachable(w) && o in w'.h
    ensures o in Unreachable(w')
  {
    assert Open(0);
    var roots := Roots(w) + SeqSet(w.finobj);
    if Reachable(w'.h, roots, o) {
      forall x: Ref, r: Ref | x in w'.h && Points(w'.h, x, r) ensures x in w.h && Points(w.h, x, r) {
        SweptPoints(w, w', x, r);
      }
      ReachableShrinks(w.h, w'.h, roots, o);
    }
  }

  lemma SweptPoints(w: World, w': World, x: Ref, r: Ref)
    requires SweptTo(w, w') && x in w'.h && Points(w'.h, x, r)
    ensures x in w.h && Points(w.h, x, r)
  {
    assert Open(0);
    assert Kept(w.h, w'.h, x);
    if w'.h[x].OpenUp? { SweptSlot(w, w', x); }
  }
}
