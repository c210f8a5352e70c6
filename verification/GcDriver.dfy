/** Finalizers, interned and fixed strings, and the dispatch of single steps and full collections
    (lgc.c:243-251, 886-932, 1019-1041, 1585-1656, 1710-1739). */
module GcDriver {
  import opened GcObjects
  import opened GcMarking
  import opened GcWorld
  import opened GcWrites
  import opened GcState
  import opened GcAlloc
  import opened GcSweep
  import opened GcMutator
  import opened GcCycle
  import opened GcPhases
  import opened GcSteps
  import opened GcExact
  import opened GcLists
  import opened Folding

  // ----- finalizers -----

  /** Takes the first object off 'tobefnz' and links it back into 'allgc' (lgc.c:886-898). */
  method UdataToFinalize(g: GlobalState) returns (o: Ref)
    requires Sound(g.W()) && g.phase == CallFin && g.tobefnz != []
    modifies g`tobefnz, g`allgc
    ensures o == old(g.tobefnz)[0] && g.W() == ToAllgc(old(g.W())) && Sound(g.W()) && Safe(g.W(), Obj(o))
  {
    ghost var w := g.W();
    ToAllgcSound(w);
    o := g.tobefnz[0];
    g.tobefnz, g.allgc := g.tobefnz[1..], [o] + g.allgc;
  }

  /** Pushes an object that is safe to use on the stack of the running thread. */
  method Push(g: GlobalState, o: Ref)
    requires Sound(g.W()) && Safe(g.W(), Obj(o)) && g.running in g.heap && g.heap[g.running].Thread?
    modifies g`heap
    ensures Sound(g.W())
    ensures var th := old(g.heap)[g.running];
      g.heap == old(g.heap)[g.running := th.(stack := th.stack + [Obj(o)])]
  {
    var th := g.heap[g.running];
    LevelsLive(g.W(), g.running);
    StackStoreSound(g.W(), g.running, th.stack + [Obj(o)], {o});
    g.heap := g.heap[g.running := th.(stack := th.stack + [Obj(o)])];
  }

  lemma RunningThread(w: World)
    requires Sound(w)
    ensures w.running in w.h && w.h[w.running].Thread?
  {
  }

  /** Makes the first object of 'tobefnz' an ordinary one and hands it to its finalizer (lgc.c:907-944). */
  method CallFinalizer(g: GlobalState)
    requires Sound(g.W()) && g.phase == CallFin && g.tobefnz != []
    modifies g`heap, g`tobefnz, g`allgc
    ensures Sound(g.W()) && g.tobefnz == old(g.tobefnz)[1..] && g.allgc == [old(g.tobefnz)[0]] + old(g.allgc)
    ensures old(g.running in g.heap && g.heap[g.running].Thread?)
    ensures var th := old(g.heap)[g.running];
      g.heap == old(g.heap)[g.running := th.(stack := th.stack + [Obj(old(g.tobefnz)[0])])]
  {
    RunningThread(g.W());
    var o := UdataToFinalize(g);
    Push(g, o);
  }

  /** An object that is in use and may get a finalizer. */
  ghost predicate Finalizable(w: World, o: Ref) {
    o in w.h && Safe(w, Obj(o)) && (w.h[o].Table? || w.h[o].Udata?) && o !in w.finobj && o !in w.tobefnz
  }

  lemma FinalizableListed(w: World, o: Ref)
    requires Sound(w) && Finalizable(w, o)
    ensures o in w.allgc && o !in w.fixedgc && o in w.c
  {
    OwnedListed(w);
    assert Open(0);
  }

  lemma FinalizableStays(w: World, w': World, o: Ref)
    requires SweptTo(w, w') && Finalizable(w, o) && w'.finobj == w.finobj && w'.tobefnz == w.tobefnz
    requires w'.garbage == w.garbage
    ensures Finalizable(w', o)
  {
    assert Open(0);
    assert Alive(w, o) && KeptAlive(w.h, w'.h, o);
  }

  lemma PaintedSwept(w: World, o: Ref)
    requires TypedOk(w) && Alive(w, o)
    ensures SweptTo(w, w.(c := w.c[o := w.w]))
  {
    assert Open(0);
    var w' := w.(c := w.c[o := w.w]);
    assert forall x {:trigger Alive(w', x)} :: Alive(w', x) == Alive(w, x);
  }

  /** "Sweeps" an object before its turn. */
  method PaintWhite(g: GlobalState, o: Ref)
    requires Sound(g.W()) && Finalizable(g.W(), o) && InSweep(g.phase)
    modifies g`color
    ensures Sound(g.W()) && Finalizable(g.W(), o) && SweptTo(old(g.W()), g.W())
    ensures o in g.color && g.color == old(g.color)[o := g.curwhite]
  {
    ghost var w := g.W();
    FinalizableListed(w, o);
    PaintedSound(w, o);
    PaintedSwept(w, o);
    g.color := g.color[o := g.curwhite];
    assert g.W() == w.(c := w.c[o := w.w]);
    FinalizableStays(w, g.W(), o);
  }

  /** Searches 'allgc' for an object that is on it. */
  method FindListed(g: GlobalState, o: Ref) returns (k: nat)
    requires o in g.allgc
    ensures k < |g.allgc| && g.allgc[k] == o
  {
    k := 0;
    while g.allgc[k] != o
      invariant k < |g.allgc| && o !in g.allgc[..k]
      decreases |g.allgc| - k
    {
      k := k + 1;
    }
  }

  /** The sweep pointer is the link of object `o` of 'allgc'. */
  predicate PointerAt(w: World, o: Ref) {
    && w.phase == SweepAllgc && w.sweep.At? && 0 < |w.allgc| - w.sweep.rem <= |w.allgc|
    && w.allgc[|w.allgc| - w.sweep.rem - 1] == o
  }

  /** Sweeps ahead so that the pointer does not stay at the link of the object (lgc.c:1029-1030). */
  method MovePointer(g: GlobalState, o: Ref)
    requires Sound(g.W()) && Finalizable(g.W(), o) && PointerAt(g.W(), o)
    modifies g`heap, g`color, g`gray, g`allgc, g`sweep
    ensures Sound(g.W()) && Finalizable(g.W(), o) && SweptTo(old(g.W()), g.W()) && !PointerAt(g.W(), o)
    ensures o in g.color && g.color[o] == g.curwhite
  {
    ghost var w := g.W();
    SweepToLive(g);
    FinalizableStays(w, g.W(), o);
    PointerMoved(w, g.W(), o);
  }

  lemma PointerMoved(w: World, w': World, o: Ref)
    requires Sound(w') && PointerAt(w, o) && w'.phase == w.phase && Passed(w.allgc, w.sweep.rem, w'.allgc)
    requires w'.sweep.At? ==> |w'.allgc| - w'.sweep.rem == |w.allgc| - w.sweep.rem + 1
    ensures !PointerAt(w', o) && o in w'.c && w'.c[o] == w'.w
  {
    var k := |w.allgc| - w.sweep.rem;
    assert w'.allgc[..k][k - 1] == o;
    if w'.sweep.At? {
      ListedOnce(w', k - 1, k);
      assert w'.allgc[..k + 1][k - 1] == o;
    }
    BehindWhite(w', o);
  }

  lemma BehindWhite(w: World, o: Ref)
    requires SweepOk(w) && w.phase == SweepAllgc && o in Behind(w.allgc, w.sweep)
    ensures o in w.c && w.c[o] == w.w
  {
    assert Open(0);
  }

  lemma ListedOnce(w: World, i: nat, j: nat)
    requires Sound(w) && i < j < |w.allgc|
    ensures w.allgc[i] != w.allgc[j]
  {
    assert Open(0);
    assert ListTimes(w, w.allgc[i]) <= 1;
    if w.allgc[i] == w.allgc[j] { TwiceIn(w.allgc, i, j); }
  }

  lemma TwiceIn(l: seq<Ref>, i: nat, j: nat)
    requires i < j < |l| && l[i] == l[j]
    ensures multiset(l)[l[i]] >= 2
  {
    assert l == l[..j] + [l[j]] + l[j + 1..];
    assert l[i] in l[..j];
  }

  lemma Movable(w: World, k: nat)
    requires Sound(w) && k < |w.allgc| && Finalizable(w, w.allgc[k]) && !PointerAt(w, w.allgc[k])
    ensures CanMove(w, k)
  {
    assert Open(0);
  }

  method Relink(g: GlobalState, k: nat)
    requires CanMove(g.W(), k) && (InSweep(g.phase) ==> g.color[g.allgc[k]] == g.curwhite)
    modifies g`allgc, g`finobj, g`sweep
    ensures g.W() == ToFinobj(old(g.W()), k)
  {
    if InSweep(g.phase) { SameColour(g.color, g.allgc[k], g.curwhite); }
    StepPointer(g, k);
    g.allgc, g.finobj := Without(g.allgc, k), [g.allgc[k]] + g.finobj;
  }

  /** Corrects the sweep pointer before object number `k` of 'allgc' goes to 'finobj'. */
  method StepPointer(g: GlobalState, k: nat)
    requires CanMove(g.W(), k)
    modifies g`sweep
    ensures g.sweep == MovedPointer(old(g.W()), k)
  {
    if g.phase == SweepAllgc && g.sweep.At? && |g.allgc| - k <= g.sweep.rem {
      g.sweep := At(g.sweep.rem - 1, g.sweep.inside);
    } else if g.phase == SweepFinobj && g.sweep.At? && !g.sweep.inside {
      g.sweep := At(g.sweep.rem + 1, false);
    }
  }

  lemma SameColour(c: Colors, o: Ref, w: Color)
    requires o in c && c[o] == w
    ensures c[o := w] == c
  {
  }

  /** Moves the object from 'allgc' to the front of 'finobj'. */
  method MoveToFinobj(g: GlobalState, o: Ref)
    requires Sound(g.W()) && Finalizable(g.W(), o) && !PointerAt(g.W(), o)
    requires (InSweep(g.phase) ==> o in g.color && g.color[o] == g.curwhite)
    modifies g`allgc, g`finobj, g`sweep
    ensures Sound(g.W()) && g.finobj == [o] + old(g.finobj) && multiset(old(g.allgc)) == multiset(g.allgc) + multiset{o}
  {
    FinalizableListed(g.W(), o);
    var k := FindListed(g, o);
    Movable(g.W(), k);
    MoveSound(g.W(), k);
    WithoutTimes(g.allgc, k);
    Relink(g, k);
  }

  /** An object whose metatable has a finalizer moves from 'allgc' to 'finobj', once (lgc.c:1019-1041). */
  method CheckFinalizer(g: GlobalState, o: Ref, hasgc: bool)
    requires Sound(g.W()) && o in g.heap && Safe(g.W(), Obj(o)) && (g.heap[o].Table? || g.heap[o].Udata?)
    modifies g`heap, g`color, g`gray, g`allgc, g`sweep, g`finobj
    ensures Sound(g.W())
    ensures g.finobj == if hasgc && o !in old(g.finobj) && o !in g.tobefnz then [o] + old(g.finobj) else old(g.finobj)
    ensures forall x :: Alive(old(g.W()), x) ==>
      Alive(g.W(), x) && x in old(g.heap) && KeptAlive(old(g.heap), g.heap, x)
    ensures g.heap.Keys <= old(g.heap).Keys
  {
    SweptRefl(g.W());
    if hasgc && o !in g.finobj && o !in g.tobefnz {
      ReadyToMove(g, o);
      ghost var w := g.W();
      SweptAlive(old(g.W()), w);
      SweptKeys(old(g.W()), w);
      MoveToFinobj(g, o);
      assert forall x {:trigger Alive(g.W(), x)} :: Alive(g.W(), x) == Alive(w, x);
    } else {
      SweptAlive(g.W(), g.W());
    }
  }

  method ReadyToMove(g: GlobalState, o: Ref)
    requires Sound(g.W()) && Finalizable(g.W(), o)
    modifies g`heap, g`color, g`gray, g`allgc, g`sweep
    ensures Sound(g.W()) && Finalizable(g.W(), o) && !PointerAt(g.W(), o) && SweptTo(old(g.W()), g.W())
    ensures InSweep(g.phase) ==> o in g.color && g.color[o] == g.curwhite
  {
    SweptRefl(g.W());
    if InSweep(g.phase) {
      PaintWhite(g, o);
      ghost var w := g.W();
      if g.phase == SweepAllgc && g.sweep.At? && 0 < |g.allgc| - g.sweep.rem <= |g.allgc| &&
        g.allgc[|g.allgc| - g.sweep.rem - 1] == o {
        MovePointer(g, o);
        SweptTrans(old(g.W()), w, g.W());
      }
    }
  }

  // ----- strings -----

  /** Interning finds a string that the string table still has, be it dead, and pushes it (lstring.c:196-203). */
  method InternHit(g: GlobalState, o: Ref)
    requires Sound(g.W()) && o in g.heap && g.heap[o].Str?
    modifies g`heap, g`color, g`garbage
    ensures Sound(g.W()) && g.garbage == old(g.garbage) - {o}
    ensures old(g.running in g.heap && g.heap[g.running].Thread? && o in g.color)
    ensures var th := old(g.heap)[g.running]; g.heap == old(g.heap)[g.running := th.(stack := th.stack + [Obj(o)])]
    ensures g.color == if old(g.color)[o] == OtherWhite(g.curwhite) then old(g.color)[o := g.curwhite] else old(g.color)
  {
    RunningThread(g.W());
    Revive(g, o);
    Push(g, o);
  }

  lemma Colored(w: World, o: Ref)
    requires Sound(w) && o in w.h
    ensures o in w.c
  {
  }

  method Revive(g: GlobalState, o: Ref)
    requires Sound(g.W()) && o in g.heap && g.heap[o].Str?
    modifies g`color, g`garbage
    ensures o in old(g.color) && g.W() == Revived(old(g.W()), o) && Sound(g.W()) && Safe(g.W(), Obj(o))
  {
    Colored(g.W(), o);
    RevivedSound(g.W(), o);
    if g.color[o] == OtherWhite(g.curwhite) {
      g.color := g.color[o := g.curwhite];
    }
    g.garbage := g.garbage - {o};
  }

  /** Fixes the newest object, a string (lgc.c:243-251). */
  method Fix(g: GlobalState, o: Ref)
    requires Sound(g.W()) && CanFix(g.W()) && o == g.allgc[0]
    modifies g`color, g`allgc, g`fixedgc
    ensures Sound(g.W()) && g.W() == Fixed(old(g.W()))
  {
    FixSound(g.W());
    g.color := g.color[o := Gray];
    g.allgc, g.fixedgc := g.allgc[1..], [o] + g.fixedgc;
  }

  /** A new string that is never collected, as the reserved words and the names of metamethods are. */
  method NewFixed(g: GlobalState) returns (o: Ref)
    requires Sound(g.W())
    modifies g`heap, g`color, g`allgc, g`newref, g`fixedgc
    ensures Sound(g.W()) && o == old(g.newref) && o in g.fixedgc && g.heap == old(g.heap)[o := Str]
  {
    ghost var w := g.W();
    o := NewObject(g, Str);
    NewFixable(w);
    Fix(g, o);
  }

  lemma NewFixable(w: World)
    requires Sound(w)
    ensures CanFix(Added(w, Str)) && Added(w, Str).allgc[0] == w.newref
  {
    FreshRef(w);
    assert Open(0);
  }

  // ----- single steps -----

  /** How far a cycle still is from its end. */
  function Rank(p: Phase): nat {
    match p
    case Propagate => 8 case EnterAtomic => 7 case Atomic => 7 case SweepAllgc => 6 case SweepFinobj => 5
    case SweepTobefnz => 4 case SweepEnd => 3 case CallFin => 2 case Pause => 1
  }

  ghost function Inner(w: World): nat {
    if w.phase == Propagate then |w.l.gray| + |Whites(w.c)|
    else if Sweeping(w.phase) && w.sweep.At? then w.sweep.rem + 1 else 0
  }

  ghost predicate Closer(w: World, w': World) {
    Rank(w'.phase) < Rank(w.phase) || (w'.phase == w.phase && Inner(w') < Inner(w))
  }

  /** The order of the phases. */
  predicate PhaseStep(p: Phase, p': Phase) {
    p' == p || match p
    case Pause => p' == Propagate case Propagate => p' == EnterAtomic case EnterAtomic => p' == SweepAllgc
    case SweepAllgc => p' == SweepFinobj case SweepFinobj => p' == SweepTobefnz case SweepTobefnz => p' == SweepEnd
    case SweepEnd => p' == CallFin case CallFin => p' == Pause case Atomic => false
  }

  /** What a step of the marking phases does, the collector's invariant aside; folded. */
  ghost predicate MarksOn(w: World, w': World) {
    forall k: nat {:trigger Open(k)} :: Open(k) ==>
      && StepSafe(w, w') && NoneAdded(w, w') && PhaseStep(w.phase, w'.phase)
      && (w.phase == Pause ==> w'.phase == Propagate && w'.h == w.h && w'.garbage == Unreachable(w))
      && (w.phase != Pause ==> w'.garbage == w.garbage && Closer(w, w')) && MarksRightly(w, w')
  }

  /** A step marks, and concludes, what the rules call for and no more. */
  ghost predicate MarksRightly(w: World, w': World) {
    && (w.phase == Pause ==> Begun(w, w')) && (w.phase == Propagate ==> MarksFrom(w.h, w.c, [], w'.c))
    && (w.phase == EnterAtomic ==> Concluded(w, w'))
  }

  /** The next step calls a finalizer. */
  predicate Calls(w: World, emergency: bool) { w.phase == CallFin && w.tobefnz != [] && !emergency }

  /** The first object of 'tobefnz' goes back to 'allgc', and to the top of the stack. */
  predicate Finalizes(w: World, w': World)
    requires w.tobefnz != []
  {
    && w'.phase == w.phase && w'.tobefnz == w.tobefnz[1..] && w'.allgc == [w.tobefnz[0]] + w.allgc
    && w.running in w.h && w.h[w.running].Thread?
    && w'.h == w.h[w.running := w.h[w.running].(stack := w.h[w.running].stack + [Obj(w.tobefnz[0])])]
  }

  /** What one step of the collector does, its invariant aside. What is strongly accessible survives, and no object is
      new. The phases follow each other. A cycle starts with what is unreachable as garbage, and nothing becomes garbage
      later. A step either calls a finalizer or brings the cycle closer to its end. Folded. */
  ghost predicate Steps(w: World, w': World, emergency: bool) {
    forall k: nat {:trigger Open(k)} :: Open(k) ==>
      && StepSafe(w, w') && NoneAdded(w, w') && PhaseStep(w.phase, w'.phase)
      && w'.garbage == (if w.phase == Pause then Unreachable(w) else w.garbage) && MarksRightly(w, w')
      && (w.phase != Pause && !InMark(w.phase) && !Calls(w, emergency) ==> SweptTo(w, w') && w'.tobefnz == w.tobefnz)
      && if Calls(w, emergency) then Finalizes(w, w') else if w.phase == Pause then w'.phase == Propagate
        else Closer(w, w')
  }

  lemma StepsOpen(w: World, w': World, emergency: bool)
    requires Steps(w, w', emergency)
    ensures StepSafe(w, w') && NoneAdded(w, w')
    ensures w'.garbage == if w.phase == Pause then Unreachable(w) else w.garbage
    ensures w.phase == Pause ==> w'.phase == Propagate
  {
    assert Open(0);
  }

  lemma MarksStep(w: World, w': World, emergency: bool)
    requires MarksOn(w, w') && (w.phase == Pause || InMark(w.phase))
    ensures Steps(w, w', emergency)
  {
    assert Open(0);
  }

  method MarkStep(g: GlobalState)
    requires Sound(g.W()) && (g.phase == Pause || InMark(g.phase))
    modifies g`heap, g`color, g`gray, g`grayagain, g`weak, g`ephemeron, g`allweak, g`twups, g`detached, g`finobj,
      g`tobefnz, g`phase, g`curwhite, g`allgc, g`sweep, g`garbage
    ensures Sound(g.W()) && MarksOn(old(g.W()), g.W())
  {
    if g.phase == Pause {
      RestartSafely(g);
    } else {
      MarkOn(g);
    }
  }

  method MarkOn(g: GlobalState)
    requires Sound(g.W()) && InMark(g.phase)
    modifies g`heap, g`color, g`gray, g`grayagain, g`weak, g`ephemeron, g`allweak, g`twups, g`detached, g`finobj,
      g`tobefnz, g`phase, g`curwhite, g`allgc, g`sweep
    ensures Sound(g.W()) && MarksOn(old(g.W()), g.W())
  {
    ghost var w := g.W();
    if g.phase == Propagate {
      PropagateOrEnter(g);
      StepMarks(w, g.W());
    } else {
      AtomicStep(g);
      NextPhaseCloser(w, g.W());
    }
  }

  lemma NextPhaseCloser(w: World, w': World)
    requires StepSafe(w, w') && NoneAdded(w, w') && w.phase == EnterAtomic && w'.phase == SweepAllgc
    requires w'.garbage == w.garbage && Concluded(w, w')
    ensures MarksOn(w, w')
  {
  }

  lemma StepMarks(w: World, w': World)
    requires StepSafe(w, w') && NoneAdded(w, w') && w.phase == Propagate && w'.phase in {Propagate, EnterAtomic}
    requires w'.garbage == w.garbage && Closer(w, w') && MarksFrom(w.h, w.c, [], w'.c)
    ensures MarksOn(w, w')
  {
  }

  method RestartSafely(g: GlobalState)
    requires Sound(g.W()) && g.phase == Pause
    modifies g`color, g`gray, g`grayagain, g`weak, g`ephemeron, g`allweak, g`detached, g`garbage, g`phase
    ensures Sound(g.W()) && MarksOn(old(g.W()), g.W())
  {
    ghost var w := g.W();
    RestartStep(g);
    UnchangedSafe(w, g.W());
    BegunFrom(w, g.W());
    NewCycleMarks(w, g.W());
  }

  lemma NewCycleMarks(w: World, w': World)
    requires StepSafe(w, w') && w.phase == Pause && w'.phase == Propagate && w'.h == w.h && w'.garbage == Unreachable(w)
    requires Begun(w, w')
    ensures MarksOn(w, w')
  {
  }

  lemma UnchangedSafe(w: World, w': World)
    requires Sound(w) && Sound(w') && w.phase == Pause && w'.h == w.h && InMark(w'.phase)
    ensures StepSafe(w, w')
  {
    forall x | Alive(w, x) ensures Alive(w', x) { MarkingAlive(w', x); }
    IntactSafe(w, w');
  }

  lemma MarkingAlive(w: World, x: Ref)
    requires Basic(w) && NoDead(w) && InMark(w.phase) && x in w.h
    ensures Alive(w, x)
  {
    assert Open(0);
  }

  method ToAtomic(g: GlobalState)
    requires Sound(g.W()) && InMark(g.phase)
    modifies g`phase
    ensures Sound(g.W()) && g.W() == old(g.W()).(phase := EnterAtomic)
  {
    EnterAtomicSound(g.W());
    g.phase := EnterAtomic;
  }

  method PropagateOrEnter(g: GlobalState)
    requires Sound(g.W()) && g.phase == Propagate
    modifies g`heap, g`color, g`gray, g`grayagain, g`weak, g`ephemeron, g`allweak, g`twups, g`phase
    ensures Sound(g.W()) && StepSafe(old(g.W()), g.W()) && Closer(old(g.W()), g.W()) && NoneAdded(old(g.W()), g.W())
    ensures g.phase == if old(g.gray) == [] then EnterAtomic else Propagate
    ensures MarksFrom(old(g.heap), old(g.color), [], g.color)
  {
    ghost var w := g.W();
    if g.gray == [] {
      ToAtomic(g);
      EnteredIntact(w, g.W());
      FewerMarked(w.h, w.c, [], w.c);
    } else {
      PropagateStep(g);
    }
    MarkingSafe(w, g.W());
  }

  lemma EnteredIntact(w: World, w': World)
    requires w.phase == Propagate && w' == w.(phase := EnterAtomic)
    ensures Intact(w.h, w'.h) && Closer(w, w')
  {
  }

  lemma MarkingSafe(w: World, w': World)
    requires Sound(w) && Sound(w') && Intact(w.h, w'.h) && InMark(w'.phase)
    ensures StepSafe(w, w')
  {
    forall x | Alive(w, x) ensures Alive(w', x) { MarkingAlive(w', x); }
    IntactSafe(w, w');
  }

  /** A step of the sweep phases, or the end of a cycle without finalizers to call. */
  method CleanStep(g: GlobalState)
    requires Sound(g.W()) && (Sweeping(g.phase) || g.phase == SweepEnd || g.phase == CallFin)
    modifies g`heap, g`color, g`gray, g`allgc, g`sweep, g`phase
    ensures Sound(g.W()) && SweptTo(old(g.W()), g.W()) && PhaseStep(old(g.phase), g.phase) && Closer(old(g.W()), g.W())
    ensures !InMark(g.phase)
  {
    if Sweeping(g.phase) {
      SweepStep(g);
    } else {
      NextStep(g);
    }
  }

  /** One step of the collector (lgc.c:1585-1645); `emergency` says that no finalizer may be called. */
  method SingleStep(g: GlobalState, emergency: bool)
    requires Sound(g.W())
    modifies g`heap, g`color, g`gray, g`grayagain, g`weak, g`ephemeron, g`allweak, g`twups, g`detached, g`finobj,
      g`tobefnz, g`phase, g`curwhite, g`allgc, g`sweep, g`garbage
    ensures Sound(g.W()) && Steps(old(g.W()), g.W(), emergency)
  {
    ghost var w := g.W();
    if g.phase == Pause || g.phase == Propagate || g.phase == EnterAtomic {
      MarkStep(g);
      MarksStep(w, g.W(), emergency);
    } else {
      AfterMarking(g, emergency);
    }
  }

  /** A step of the other phases: of a sweep, or the call of a finalizer. */
  method AfterMarking(g: GlobalState, emergency: bool)
    requires Sound(g.W()) && g.phase != Pause && !InMark(g.phase)
    modifies g`heap, g`color, g`gray, g`allgc, g`sweep, g`phase, g`tobefnz
    ensures Sound(g.W()) && Steps(old(g.W()), g.W(), emergency)
  {
    ghost var w := g.W();
    if g.phase == CallFin && g.tobefnz != [] && !emergency {
      CallFinalizer(g);
      FinalizerSafe(w, g.W());
      FinalizerSteps(w, g.W(), emergency);
    } else {
      CleanStep(g);
      CleanSteps(w, g.W(), emergency);
    }
  }

  lemma FinalizerSteps(w: World, w': World, emergency: bool)
    requires Calls(w, emergency) && Finalizes(w, w') && StepSafe(w, w') && w'.garbage == w.garbage
    ensures Steps(w, w', emergency)
  {
  }

  lemma CleanSteps(w: World, w': World, emergency: bool)
    requires Sound(w) && SweptTo(w, w') && PhaseStep(w.phase, w'.phase) && Closer(w, w') && w'.garbage == w.garbage
    requires w.phase != Pause && !InMark(w.phase) && !Calls(w, emergency) && w'.tobefnz == w.tobefnz
    ensures Steps(w, w', emergency)
  {
    SweptSafe(w, w');
    SweptKeys(w, w');
  }

  lemma FinalizerSafe(w: World, w': World)
    requires Sound(w) && w.running in w.h && w.h[w.running].Thread? && w'.c == w.c && w'.w == w.w && w.tobefnz != []
    requires w'.h == w.h[w.running := w.h[w.running].(stack := w.h[w.running].stack + [Obj(w.tobefnz[0])])]
    ensures StepSafe(w, w')
  {
    forall o | StronglyAccessible(w, o) ensures o in w.h && Survives(w, w', o) && Alive(w', o) {
      StrongAlive(w, o);
      UpvalPlace(w, o);
    }
  }

  // ----- a full collection -----

  /** Sweeps everything back to white: marking was under way and starts anew (lgc.c:1711-1712). */
  method Abandon(g: GlobalState)
    requires Sound(g.W()) && InMark(g.phase)
    modifies g`heap, g`color, g`gray, g`allgc, g`sweep, g`phase, g`garbage
    ensures Sound(g.W()) && SweptTo(old(g.W()), g.W()) && g.phase == SweepAllgc
  {
    ghost var w := g.W();
    AbandonSound(w);
    g.phase, g.sweep, g.garbage := SweepAllgc, At(|g.allgc|, true), {};
    assert g.W() == Abandoned(w);
    AbandonSwept(w);
    SweepToLive(g);
    SweptTrans(w, Abandoned(w), g.W());
  }

  lemma AbandonSwept(w: World)
    requires TypedOk(w)
    ensures SweptTo(w, Abandoned(w))
  {
    assert Open(0);
    assert forall x {:trigger Alive(Abandoned(w), x)} :: Alive(Abandoned(w), x) == Alive(w, x);
  }

  /** Runs the sweep phases, and to the end of the cycle. */
  method SweepToPause(g: GlobalState)
    requires Sound(g.W()) && !InMark(g.phase)
    modifies g`heap, g`color, g`gray, g`allgc, g`sweep, g`phase
    ensures Sound(g.W()) && SweptTo(old(g.W()), g.W()) && g.phase == Pause
  {
    SweptRefl(g.W());
    while g.phase != Pause
      invariant Sound(g.W()) && SweptTo(old(g.W()), g.W()) && !InMark(g.phase)
      decreases Rank(g.phase), Inner(g.W())
    {
      ghost var w := g.W();
      CleanStep(g);
      SweptTrans(old(g.W()), w, g.W());
    }
  }

  /** From a pause, a whole cycle that goes straight to the atomic phase (lgc.c:1714-1720). */
  method WholeCycle(g: GlobalState)
    requires Sound(g.W()) && g.phase == Pause
    modifies g`heap, g`color, g`gray, g`grayagain, g`weak, g`ephemeron, g`allweak, g`twups, g`detached, g`finobj,
      g`tobefnz, g`phase, g`curwhite, g`allgc, g`sweep, g`garbage
    ensures Sound(g.W()) && g.phase == Pause && g.garbage == Unreachable(old(g.W())) && g.heap.Keys <= old(g.heap).Keys
    ensures StepSafe(old(g.W()), g.W()) && Exactly(old(g.W()), g.W())
  {
    ghost var w := g.W();
    ghost var w2 := StartAndMark(g);
    ghost var w3 := g.W();
    SweepToPause(g);
    CycleDone(w, w2, w3, g.W());
  }

  /** What the first half of such a cycle leaves; folded. */
  ghost predicate MarkedFrom(w: World, w': World) {
    forall k: nat {:trigger Open(k)} :: Open(k) ==>
      w'.h.Keys <= w.h.Keys && w'.garbage == Unreachable(w) && StepSafe(w, w')
  }

  method StartAndMark(g: GlobalState) returns (ghost w2: World)
    requires Sound(g.W()) && g.phase == Pause
    modifies g`heap, g`color, g`gray, g`grayagain, g`weak, g`ephemeron, g`allweak, g`twups, g`detached, g`finobj,
      g`tobefnz, g`phase, g`curwhite, g`allgc, g`sweep, g`garbage
    ensures Sound(g.W()) && g.phase == SweepAllgc && Midway(old(g.W()), w2, g.W())
  {
    ghost var w := g.W();
    StartAtomic(g);
    w2 := g.W();
    AtomicStep(g);
    MarkingDone(w, w2, g.W());
    HalfDone(w, w2, g.W());
  }

  /** Between the two halves; folded. */
  ghost predicate Midway(w: World, w2: World, w3: World) {
    forall k: nat {:trigger Open(k)} :: Open(k) ==>
      MarkedFrom(w, w3) && Begun(w, w2) && Sound(w2) && InMark(w2.phase) && Concluded(w2, w3)
  }

  lemma HalfDone(w: World, w2: World, w3: World)
    requires MarkedFrom(w, w3) && Begun(w, w2) && Sound(w2) && InMark(w2.phase) && Concluded(w2, w3)
    ensures Midway(w, w2, w3)
  {
  }

  /** The same objects are reachable in the same way; folded. */
  ghost predicate SameReach(w: World, w': World) {
    forall k: nat {:trigger Open(k)} :: Open(k) ==> w'.h == w.h && Roots(w') == Roots(w) && w'.running == w.running
  }

  method StartAtomic(g: GlobalState)
    requires Sound(g.W()) && g.phase == Pause
    modifies g`color, g`gray, g`grayagain, g`weak, g`ephemeron, g`allweak, g`detached, g`garbage, g`phase
    ensures Sound(g.W()) && g.phase == EnterAtomic && g.garbage == Unreachable(old(g.W()))
    ensures SameReach(old(g.W()), g.W()) && Begun(old(g.W()), g.W())
  {
    ghost var w0 := g.W();
    RestartStep(g);
    ToAtomic(g);
    ReachSame(w0, g.W());
    BegunFrom(w0, g.W());
  }

  lemma ReachSame(w: World, w': World)
    requires w'.h == w.h && w'.main == w.main && w'.running == w.running && w'.registry == w.registry && w'.mt == w.mt
    requires w'.tobefnz == w.tobefnz && w'.fixedgc == w.fixedgc
    ensures SameReach(w, w')
  {
  }

  lemma MarkingDone(w: World, w2: World, w3: World)
    requires StepSafe(w2, w3) && NoneAdded(w2, w3) && SameReach(w, w2) && w2.garbage == w3.garbage == Unreachable(w)
    ensures MarkedFrom(w, w3)
  {
    assert w3.h.Keys <= w2.h.Keys && w2.h == w.h && Roots(w2) == Roots(w) && w2.running == w.running by
      { assert Open(0); }
    StepSurvives(w2, w3);
    forall o ensures StronglyAccessible(w, o) == StronglyAccessible(w2, o) {}
    forall o | StronglyAccessible(w, o) ensures o in w.h && Survives(w, w3, o) && Alive(w3, o) {
      SameLost(w, w2, w3, o);
    }
  }

  lemma SameLost(w: World, w2: World, w3: World, o: Ref)
    requires w2.h == w.h && w2.running == w.running && o in w.h && Survives(w2, w3, o)
    requires forall x :: StronglyAccessible(w, x) == StronglyAccessible(w2, x)
    ensures Survives(w, w3, o)
  {
    assert forall v {:trigger Lost(w, v)} {:trigger Lost(w2, v)} :: Lost(w, v) == Lost(w2, v);
  }

  lemma CycleDone(w: World, w2: World, w3: World, w4: World)
    requires Sound(w) && w.phase == Pause && Midway(w, w2, w3) && SweptTo(w3, w4)
    requires Sound(w4) && w4.phase == Pause && w4.tobefnz == w3.tobefnz
    ensures w4.h.Keys <= w.h.Keys && w3.garbage == Unreachable(w) && StepSafe(w, w4) && Exactly(w, w4)
  {
    assert MarkedFrom(w, w3) && Begun(w, w2) && Sound(w2) && InMark(w2.phase) && Concluded(w2, w3) by {
      assert Open(0);
    }
    SweptDone(w, w3, w4);
    CycleExact(w, w2, w3, w4);
  }

  lemma SweptDone(w: World, w3: World, w4: World)
    requires MarkedFrom(w, w3) && SweptTo(w3, w4)
    ensures w4.h.Keys <= w.h.Keys && w3.garbage == Unreachable(w) && StepSafe(w, w4)
  {
    assert w3.h.Keys <= w.h.Keys && w3.garbage == Unreachable(w) && StepSafe(w, w3) by { assert Open(0); }
    SweptKeys(w3, w4);
    StepSurvives(w, w3);
    forall o | StronglyAccessible(w, o) ensures o in w.h && Survives(w, w4, o) && Alive(w4, o) {
      SurvivesSwept(w, w3, w4, o);
    }
  }

  /** A full collection without finalizers (lgc.c:1710-1739): every object that nothing leads to, not even weakly,
      is freed, and every object that is strongly accessible survives, with what can be read of it. */
  method FullGc(g: GlobalState)
    requires Sound(g.W())
    modifies g`heap, g`color, g`gray, g`grayagain, g`weak, g`ephemeron, g`allweak, g`twups, g`detached, g`finobj,
      g`tobefnz, g`phase, g`curwhite, g`allgc, g`sweep, g`garbage
    ensures Sound(g.W()) && g.phase == Pause && g.heap.Keys <= old(g.heap).Keys
    ensures forall o :: o in Unreachable(old(g.W())) ==> o !in g.heap
    ensures StepSafe(old(g.W()), g.W()) && Exactly(old(g.W()), g.W())
  {
    ghost var w := g.W();
    FinishCycle(g);
    ghost var w2 := g.W();
    WholeCycle(g);
    FullDone(w, w2, g.W());
    SweptExactly(w, w2, g.W());
  }

  /** Ends the cycle that is under way. */
  method FinishCycle(g: GlobalState)
    requires Sound(g.W())
    modifies g`heap, g`color, g`gray, g`allgc, g`sweep, g`phase, g`garbage
    ensures Sound(g.W()) && SweptTo(old(g.W()), g.W()) && g.phase == Pause
  {
    ghost var w := g.W();
    SweptRefl(w);
    if g.phase == Propagate || g.phase == EnterAtomic {
      Abandon(g);
    }
    ghost var w1 := g.W();
    SweepToPause(g);
    SweptTrans(w, w1, g.W());
  }

  lemma FullDone(w: World, w2: World, w3: World)
    requires Sound(w) && SweptTo(w, w2) && Sound(w3) && w3.phase == Pause && w3.garbage == Unreachable(w2)
    requires w3.h.Keys <= w2.h.Keys && StepSafe(w2, w3) && w2.running == w.running
    ensures w3.h.Keys <= w.h.Keys && forall o :: o in Unreachable(w) ==> o !in w3.h
    ensures StepSafe(w, w3)
  {
    SweptKeys(w, w2);
    GarbageFreed(w3);
    forall o | o in Unreachable(w) ensures o !in w3.h {
      if o in w2.h { SweptUnreachable(w, w2, o); }
    }
    StepSurvives(w2, w3);
    forall o | StronglyAccessible(w, o) ensures o in w.h && Survives(w, w3, o) && Alive(w3, o) {
      SweptStrong(w, w2, o);
      StrongAlive(w, o);
      SweptThenSurvives(w, w2, w3, o);
    }
  }

  /** After the first list was swept, what was unreachable when the cycle began is gone. */
  lemma GarbageFreed(w: World)
    requires Sound(w) && w.phase in {SweepFinobj, SweepTobefnz, SweepEnd, CallFin, Pause}
    ensures forall o :: o in w.garbage ==> o !in w.h
  {
    assert Open(0);
  }
}
