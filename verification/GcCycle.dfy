/** The steps of a collection cycle after the atomic phase, and the single steps that drive the whole cycle
    (lgc.c:772-857, 1486-1491, 1568-1645). */
module GcCycle {
  import opened GcObjects
  import opened GcWorld
  import opened GcState
  import opened GcAlloc
  import opened GcSweep
  import opened GcMutator
  import opened Folding

  const GCSWEEPMAX := 100

  // ----- freeing -----

  lemma UpvalsOf(w: World, t: Ref)
    requires Sound(w) && t in w.h && w.h[t].Thread?
    ensures forall u :: u in w.h[t].upvals ==> CanClose(w.h, u) && u in w.c && w.h[u].thread == t && u != t
  {
    assert Open(0);
    forall u | u in w.h[t].upvals ensures CanClose(w.h, u) && u in w.c && w.h[u].thread == t && u != t {
      assert SlotOk(w.h, u);
    }
  }

  ghost predicate DeadThread(w: World, t: Ref) {
    t in w.h && w.h[t].Thread? && t in w.c && w.c[t] == OtherWhite(w.w) && !InMark(w.phase)
  }

  method CloseOne(g: GlobalState, t: Ref)
    requires Sound(g.W()) && DeadThread(g.W(), t) && g.heap[t].upvals != {}
    modifies g`heap, g`color, g`gray
    ensures Sound(g.W()) && SweptTo(old(g.W()), g.W()) && g.gray == old(g.gray) && DeadThread(g.W(), t)
    ensures g.heap[t].upvals < old(g.heap)[t].upvals
  {
    ghost var w := g.W();
    UpvalsOf(w, t);
    var u :| u in g.heap[t].upvals;
    CloseUpval(g, u);
    ClosedSwept(w, g.W(), u);
    ClosedDead(w, g.W(), t, u);
  }

  lemma ClosedDead(w: World, w': World, t: Ref, u: Ref)
    requires DeadThread(w, t) && CanClose(w.h, u) && u in w.h[t].upvals && w.h[u].thread == t && u != t
    requires w' == w.(h := CloseIn(w.h, u), c := w'.c) && t in w'.c && w'.c[t] == w.c[t]
    ensures DeadThread(w', t) && w'.h[t].upvals < w.h[t].upvals
  {
  }

  /** Closes all the upvalues of a thread that is freed ('luaE_freethread'). */
  method CloseAll(g: GlobalState, t: Ref)
    requires Sound(g.W()) && DeadThread(g.W(), t)
    modifies g`heap, g`color, g`gray
    ensures Sound(g.W()) && SweptTo(old(g.W()), g.W()) && g.gray == old(g.gray)
    ensures DeadThread(g.W(), t) && g.heap[t].upvals == {}
  {
    SweptRefl(g.W());
    while g.heap[t].upvals != {}
      invariant Sound(g.W()) && DeadThread(g.W(), t) && SweptTo(old(g.W()), g.W()) && g.gray == old(g.gray)
      decreases g.heap[t].upvals
    {
      ghost var w := g.W();
      CloseOne(g, t);
      SweptTrans(old(g.W()), w, g.W());
    }
  }

  lemma ClosedLinked(w: World, u: Ref)
    requires TypedOk(w) && CanClose(w.h, u)
    ensures Linked(w.h) && Linked(CloseIn(w.h, u)) && SlotOk(w.h, u)
  {
    assert Open(0);
    CloseTyped(w.h, u);
  }

  lemma ClosedSwept(w: World, w': World, u: Ref)
    requires Sound(w) && CanClose(w.h, u) && u in w.c && w' == w.(h := CloseIn(w.h, u), c := w'.c)
    requires !Alive(w, w.h[u].thread)
    requires w'.c == w.c || (!IsWhite(w.c[u]) && (w'.c == w.c[u := Black] || w'.c == w.c[u := w.w]))
    ensures SweptTo(w, w')
  {
    ClosedLinked(w, u);
    ColoursComplete(w);
    ClosedSweptNow(w, w', u);
  }

  lemma ColoursComplete(w: World)
    requires Basic(w)
    ensures w.c.Keys == w.h.Keys
  {
    assert Open(0);
  }

  lemma ClosedSweptNow(w: World, w': World, u: Ref)
    requires CanClose(w.h, u) && u in w.c && w' == w.(h := CloseIn(w.h, u), c := w'.c) && w.c.Keys == w.h.Keys
    requires !Alive(w, w.h[u].thread) && Linked(w.h) && Linked(CloseIn(w.h, u)) && SlotOk(w.h, u)
    requires w'.c == w.c || (!IsWhite(w.c[u]) && (w'.c == w.c[u := Black] || w'.c == w.c[u := w.w]))
    ensures SweptNow(w, w')
  {
    assert forall x {:trigger Alive(w', x)} :: Alive(w', x) == Alive(w, x);
  }

  /** What holds when the sweep pointer leads to object `o`. */
  lemma NextObject(w: World)
    requires Sound(w) && Sweeping(w.phase) && w.sweep.At? && w.sweep.rem > 0
    ensures w.sweep.rem <= |SweptList(w)|
    ensures var o := SweptList(w)[|SweptList(w)| - w.sweep.rem];
      SweepsNext(w, o) && o in w.h && o in w.c && Shape(w) &&
        (Alive(w, o) || (w.phase == SweepAllgc && w.c[o] == OtherWhite(w.w)))
  {
    assert Open(0);
    var o := SweptList(w)[|SweptList(w)| - w.sweep.rem];
    assert o in SweptList(w);
    OwnedListed(w);
    if w.phase != SweepAllgc { assert Alive(w, o); }
  }

  /** Undoes the links between threads and open upvalues that the object to be freed takes part in. */
  method ReleaseLinks(g: GlobalState, o: Ref)
    requires Sound(g.W()) && g.phase == SweepAllgc && o in g.heap && o in g.color
    requires g.color[o] == OtherWhite(g.curwhite)
    requires IsWhite(g.curwhite)
    modifies g`heap, g`color, g`gray
    ensures Sound(g.W()) && SweptTo(old(g.W()), g.W()) && g.gray == old(g.gray)
    ensures o in g.heap && o in g.color && g.color[o] == OtherWhite(g.curwhite)
    ensures !g.heap[o].OpenUp? && (g.heap[o].Thread? ==> g.heap[o].upvals == {})
  {
    SweptRefl(g.W());
    if g.heap[o].OpenUp? {
      UnlinkUpval(g, o);
    } else if g.heap[o].Thread? {
      CloseAll(g, o);
    }
  }

  lemma RemovalSound(w: World, o: Ref)
    requires Sound(w) && w.phase == SweepAllgc && SweepsNext(w, o) && o in w.h && o in w.c && w.c[o] == OtherWhite(w.w)
    requires !w.h[o].OpenUp? && (w.h[o].Thread? ==> w.h[o].upvals == {})
    ensures Sound(Removed(w, o)) && SweptTo(w, Removed(w, o))
  {
    RemovedSound(w, o);
    RemovedSwept(w, o);
  }

  /** Takes an object off 'allgc' and frees it. */
  method DropObject(g: GlobalState, o: Ref)
    requires g.phase == SweepAllgc && SweepsNext(g.W(), o)
    modifies g`heap, g`color, g`allgc, g`sweep
    ensures g.W() == Removed(old(g.W()), o)
  {
    var k := |g.allgc| - g.sweep.rem;
    g.heap, g.color := g.heap - {o}, g.color - {o};
    g.allgc, g.sweep := Without(g.allgc, k), At(g.sweep.rem - 1, g.sweep.inside);
  }

  method RemoveObject(g: GlobalState, o: Ref)
    requires Sound(g.W()) && g.phase == SweepAllgc && SweepsNext(g.W(), o)
    requires o in g.heap && o in g.color && g.color[o] == OtherWhite(g.curwhite)
    requires !g.heap[o].OpenUp? && (g.heap[o].Thread? ==> g.heap[o].upvals == {})
    modifies g`heap, g`color, g`allgc, g`sweep
    ensures g.W() == Removed(old(g.W()), o)
    ensures Sound(g.W()) && SweptTo(old(g.W()), g.W())
  {
    RemovalSound(g.W(), o);
    DropObject(g, o);
  }

  /** Frees the dead object the sweep pointer leads to (lgc.c:772-814, 833-836). */
  method FreeObject(g: GlobalState, o: Ref)
    requires Sound(g.W()) && g.phase == SweepAllgc && SweepsNext(g.W(), o) && IsWhite(g.curwhite)
    requires o in g.heap && o in g.color && g.color[o] == OtherWhite(g.curwhite)
    modifies g`heap, g`color, g`gray, g`allgc, g`sweep
    ensures Sound(g.W()) && SweptTo(old(g.W()), g.W()) && o !in g.heap
    ensures g.allgc == Without(old(g.allgc), |old(g.allgc)| - old(g.sweep).rem)
    ensures g.sweep == At(old(g.sweep).rem - 1, old(g.sweep).inside)
  {
    ReleaseLinks(g, o);
    ghost var w := g.W();
    RemoveObject(g, o);
    SweptTrans(old(g.W()), w, g.W());
  }

  /** Takes a dead open upvalue off the list of its thread; its value moves with it and is freed with it. */
  method UnlinkUpval(g: GlobalState, u: Ref)
    requires Sound(g.W()) && u in g.heap && g.heap[u].OpenUp? && u in g.color && g.color[u] == OtherWhite(g.curwhite)
    modifies g`heap
    ensures Sound(g.W()) && SweptTo(old(g.W()), g.W()) && u in g.heap && g.heap[u].ClosedUp?
    ensures g.heap.Keys == old(g.heap.Keys)
  {
    ghost var w := g.W();
    DeadUpval(w, u);
    CloseWhite(w, u);
    ClosedSwept(w, AfterClose(w, u), u);
    g.heap := CloseIn(g.heap, u);
    assert g.W() == AfterClose(w, u);
  }

  /** A live thread has only live upvalues. */
  lemma DeadUpval(w: World, u: Ref)
    requires Sound(w) && u in w.h && w.h[u].OpenUp?
    ensures CanClose(w.h, u) && (Alive(w, w.h[u].thread) ==> Alive(w, u))
  {
    assert Open(0);
    assert SlotOk(w.h, u);
    assert Points(w.h, w.h[u].thread, u);
  }

  // ----- sweeping -----

  /** What the sweep pointer has passed in 'allgc' stays in place. */
  predicate Passed(before: seq<Ref>, rem: nat, after: seq<Ref>) {
    rem <= |before| && |before| - rem <= |after| && after[..|before| - rem] == before[..|before| - rem]
  }

  method WhitenOne(g: GlobalState, o: Ref)
    requires Sound(g.W()) && SweepsNext(g.W(), o) && Alive(g.W(), o)
    modifies g`color, g`sweep
    ensures Sound(g.W()) && SweptTo(old(g.W()), g.W()) && g.W() == Whitened(old(g.W()), o)
  {
    WhitenSound(g.W(), o);
    WhitenedSwept(g.W(), o);
    g.color := g.color[o := g.curwhite];
    g.sweep := At(g.sweep.rem - 1, true);
  }

  /** Sweeps one object: a dead one is freed, another painted with the current white (lgc.c:831-840). */
  method SweepOne(g: GlobalState)
    requires Sound(g.W()) && Sweeping(g.phase) && g.sweep.At? && g.sweep.rem > 0
    modifies g`heap, g`color, g`gray, g`allgc, g`sweep
    ensures Sound(g.W()) && SweptSome(old(g.W()), g.W(), 1)
  {
    NextObject(g.W());
    var l := if g.phase == SweepAllgc then g.allgc else if g.phase == SweepFinobj then g.finobj else g.tobefnz;
    var curr := l[|l| - g.sweep.rem];
    if g.color[curr] == OtherWhite(g.curwhite) {
      FreeObject(g, curr);
    } else {
      WhitenOne(g, curr);
    }
  }

  lemma PointerInside(w: World)
    requires Sound(w) && w.sweep.At?
    ensures w.phase == SweepAllgc ==> w.sweep.rem <= |w.allgc|
  {
    assert Open(0);
  }

  /** Some objects were swept: the pointer has moved on, and what it had passed in 'allgc' is unchanged. */
  ghost predicate SweptSome(w: World, w': World, n: nat) {
    && SweptTo(w, w') && w'.phase == w.phase && w.sweep.At? && w'.sweep.At? && w'.sweep.rem + n == w.sweep.rem
    && |w.allgc| - n <= |w'.allgc| <= |w.allgc| && (w.phase == SweepAllgc ==> Passed(w.allgc, w.sweep.rem, w'.allgc))
  }

  lemma PassedMore(a: seq<Ref>, ra: nat, b: seq<Ref>, rb: nat, c: seq<Ref>)
    requires Passed(a, ra, b) && Passed(b, rb, c) && |a| - ra <= |b| - rb
    ensures Passed(a, ra, c)
  {
    var k := |a| - ra;
    assert c[..k] == c[..|b| - rb][..k] && b[..k] == b[..|b| - rb][..k];
  }

  lemma SweptMore(w: World, w1: World, w2: World, n: nat)
    requires SweptSome(w, w1, n) && SweptSome(w1, w2, 1)
    ensures SweptSome(w, w2, n + 1)
  {
    if w.phase == SweepAllgc { PassedMore(w.allgc, w.sweep.rem, w1.allgc, w1.sweep.rem, w2.allgc); }
    SweptTrans(w, w1, w2);
  }

  lemma SweptNone(w: World)
    requires Sound(w) && w.sweep.At?
    ensures SweptSome(w, w, 0)
  {
    SweptRefl(w);
    PointerInside(w);
  }

  /** Sweeps at most `countin` objects (lgc.c:824-845). */
  method SweepList(g: GlobalState, countin: nat)
    requires Sound(g.W()) && Sweeping(g.phase) && g.sweep.At?
    modifies g`heap, g`color, g`gray, g`allgc, g`sweep
    ensures Sound(g.W()) && SweptTo(old(g.W()), g.W())
    ensures if old(g.sweep).rem <= countin then g.sweep == Done
      else g.sweep.At? && g.sweep.rem == old(g.sweep).rem - countin
    ensures |old(g.allgc)| - countin <= |g.allgc| <= |old(g.allgc)|
    ensures g.phase == SweepAllgc ==> Passed(old(g.allgc), old(g.sweep).rem, g.allgc)
  {
    SweptNone(g.W());
    var i := 0;
    while g.sweep.rem > 0 && i < countin
      invariant 0 <= i <= countin && Sound(g.W()) && SweptSome(old(g.W()), g.W(), i)
      decreases countin - i
    {
      ghost var w := g.W();
      SweepOne(g);
      SweptMore(old(g.W()), w, g.W(), i);
      i := i + 1;
    }
    if g.sweep.rem == 0 {
      ghost var w := g.W();
      PointerDone(w);
      g.sweep := Done;
      assert g.W() == w.(sweep := Done);
      DoneSwept(old(g.W()), w);
    }
  }

  lemma DoneSwept(w0: World, w: World)
    requires SweptTo(w0, w)
    ensures SweptTo(w0, w.(sweep := Done))
  {
    var w' := w.(sweep := Done);
    SweptOpen(w0, w);
    assert forall x {:trigger Alive(w', x)} :: Alive(w', x) == Alive(w, x);
    DoneSweptNow(w0, w, w');
  }

  lemma SweptOpen(w0: World, w: World)
    requires SweptTo(w0, w)
    ensures SweptNow(w0, w)
  {
    assert Open(0);
  }

  lemma DoneSweptNow(w0: World, w: World, w': World)
    requires SweptNow(w0, w) && w' == w.(sweep := Done)
    requires forall x {:trigger Alive(w', x)} :: Alive(w', x) == Alive(w, x)
    ensures SweptNow(w0, w')
  {
  }
}
