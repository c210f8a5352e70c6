/** What a whole collection keeps, clears and finalizes, exactly (lgc.c:1525-1565, 1710-1720). */
module GcExact {
  import opened GcObjects
  import opened GcMarking
  import opened GcWorld
  import opened GcSweep
  import opened GcPhases
  import opened GcSteps
  import opened Folding

  // ----- strong references, followed in two steps -----

  /** A closed set stays closed with all strings in it. */
  lemma StringsClosed(h: Heap, s: iset<Ref>)
    requires StrongClosed(h, s)
    ensures StrongClosed(h, iset x: Ref | x in s || (x in h && h[x].Str?))
  {
    var s' := iset x: Ref | x in s || (x in h && h[x].Str?);
    forall x, r | x in s' && x in h && StrongKeeps(h, s', x, r) ensures r in s' {
      StrongKeepsMore(h, s', s, x, r);
      if x !in s { StrongPoints(h, s, x, r); }
    }
  }

  lemma StrongWithin(h: Heap, from: iset<Ref>, from': iset<Ref>, o: Ref)
    requires o in StrongBound(h, from) && forall x :: x in from ==> x in StrongBound(h, from')
    ensures o in StrongBound(h, from')
  {
    if !(o in h && h[o].Str?) {
      forall s: iset<Ref> | (forall r :: r in from' ==> r in s) && StrongClosed(h, s) ensures o in s {
        var s' := iset x: Ref | x in s || (x in h && h[x].Str?);
        StringsClosed(h, s);
        forall x | x in from ensures x in s' { assert x in StrongBound(h, from'); }
        assert StronglyReached(h, from, o);
      }
    }
  }

  lemma FromBound(h: Heap, from: iset<Ref>, o: Ref)
    requires o in from
    ensures o in StrongBound(h, from)
  {
    assert StronglyReached(h, from, o);
  }

  // ----- the atomic phase -----

  /** Whatever is marked when the atomic phase has ended is a string, or was strongly accessible, or is needed by an
      object that is to be finalized. */
  lemma MarkedExactly(w: World, w': World, strong: Colors, o: Ref)
    requires Finishes(w, w', strong) && Marked(w'.c, o)
    ensures o in StrongBound(w.h, FromMarks(w.c, GlobalRoots(w) + w'.tobefnz))
  {
    var from, from' := FromMarks(strong, w'.tobefnz), FromMarks(w.c, GlobalRoots(w) + w'.tobefnz);
    FinishNeeded(w, w', strong, o);
    forall x | x in from ensures x in StrongBound(w.h, from') {
      if Marked(strong, x) {
        MarksExact(w, w', strong, x);
        MarkReachedStrongly(w.h, (iset y: Ref | Marked(w.c, y) || y in GlobalRoots(w)), x);
        forall y | y in (iset y: Ref | Marked(w.c, y) || y in GlobalRoots(w)) ensures y in StrongBound(w.h, from') {
          FromBound(w.h, from', y);
        }
        StrongWithin(w.h, (iset y: Ref | Marked(w.c, y) || y in GlobalRoots(w)), from', x);
      } else {
        FromBound(w.h, from', x);
      }
    }
    StrongWithin(w.h, from, from', o);
  }

  lemma FinishNeeded(w: World, w': World, strong: Colors, o: Ref)
    requires Finishes(w, w', strong) && Marked(w'.c, o)
    ensures o in StrongBound(w.h, FromMarks(strong, w'.tobefnz))
  {
    assert Open(0);
  }

  // ----- a cycle without the program -----

  ghost function RootSet(w: World): iset<Ref> { iset x: Ref | x in Roots(w) }

  ghost function Strong(w: World): iset<Ref> { iset o: Ref | StronglyAccessible(w, o) }

  /** A cycle has just begun: the roots are marked, and what they call for; folded. */
  ghost predicate Begun(w: World, w': World) {
    forall k: nat {:trigger Open(k)} :: Open(k) ==> BegunSo(w, w')
  }

  ghost predicate BegunSo(w: World, w': World) {
    && w'.h == w.h && w'.finobj == w.finobj && w'.tobefnz == w.tobefnz && Roots(w') == Roots(w)
    && GlobalRoots(w') == GlobalRoots(w) && MarksFrom(w.h, w.c, FirstRoots(w), w'.c)
  }

  lemma BegunOpen(w: World, w': World)
    requires Begun(w, w')
    ensures BegunSo(w, w')
  {
    assert Open(0);
  }

  lemma BegunFrom(w: World, w': World)
    requires w'.h == w.h && w'.finobj == w.finobj && w'.tobefnz == w.tobefnz && w'.fixedgc == w.fixedgc
    requires w'.main == w.main && w'.running == w.running && w'.registry == w.registry && w'.mt == w.mt
    requires MarksFrom(w.h, w.c, FirstRoots(w), w'.c)
    ensures Begun(w, w')
  {
  }

  /** What marking begins with is what is strongly accessible. */
  lemma BegunStrong(w: World, w': World, o: Ref)
    requires Sound(w) && w.phase == Pause && Begun(w, w') && o in FromMarks(w'.c, GlobalRoots(w'))
    ensures o in StrongBound(w.h, RootSet(w))
  {
    BegunOpen(w, w');
    if o in GlobalRoots(w') {
      GlobalRoot(w, o);
      FromBound(w.h, RootSet(w), o);
    } else {
      StrongBoundClosed(w.h, RootSet(w));
      forall x | x in FromMarks(w.c, FirstRoots(w)) ensures x in StrongBound(w.h, RootSet(w)) {
        FirstMarked(w, x);
      }
      MarksFromClosed(w.h, w.c, FirstRoots(w), w'.c, StrongBound(w.h, RootSet(w)), o);
    }
  }

  lemma GlobalRoot(w: World, o: Ref)
    requires o in GlobalRoots(w)
    ensures o in Roots(w)
  {
  }

  lemma FirstMarked(w: World, x: Ref)
    requires Sound(w) && w.phase == Pause && x in FromMarks(w.c, FirstRoots(w))
    ensures x in StrongBound(w.h, RootSet(w))
  {
    if x in FirstRoots(w) {
      assert x in Roots(w);
    } else {
      assert x in w.h by { assert Open(0); }
      PauseAlive(w, x);
    }
    FromBound(w.h, RootSet(w), x);
  }

  lemma RootBegun(w: World, w': World, o: Ref)
    requires Sound(w') && InMark(w'.phase) && o in Roots(w')
    ensures o in FromMarks(w'.c, GlobalRoots(w'))
  {
    if o in w'.fixedgc {
      FixedMarked(w', o);
    } else if o == w'.main {
      MainMarked(w');
    } else if o in w'.tobefnz {
      AwaitedMarked(w', o);
    } else {
      assert o in GlobalRoots(w');
    }
  }

  /** An object other than a string is reached from what a cycle began with exactly if it is strongly accessible. */
  lemma BegunExactly(w: World, w': World, o: Ref)
    requires Sound(w) && w.phase == Pause && Begun(w, w') && Sound(w') && InMark(w'.phase)
    requires !(o in w.h && w.h[o].Str?)
    ensures StronglyReached(w.h, FromMarks(w'.c, GlobalRoots(w')), o) <==> StronglyAccessible(w, o)
  {
    BegunOpen(w, w');
    var from := FromMarks(w'.c, GlobalRoots(w'));
    if StronglyReached(w.h, from, o) {
      forall x | x in from ensures x in StrongBound(w.h, RootSet(w)) { BegunStrong(w, w', x); }
      StrongWithin(w.h, from, RootSet(w), o);
    }
    if StronglyAccessible(w, o) {
      forall x | x in RootSet(w) ensures x in StrongBound(w.h, from) {
        RootBegun(w, w', x);
        FromBound(w.h, from, x);
      }
      StrongWithin(w.h, RootSet(w), from, o);
    }
  }

  /** What a collection from `w` to `w'` did. The objects with finalizers that are not strongly accessible are to be
      finalized, after those that already were, in order. Whatever is left is a string, or strongly accessible, or
      needed by an object to be finalized. A weak value in a table that is strongly accessible is left exactly if it is
      no object, a string, or strongly accessible itself. Folded. */
  ghost predicate Exactly(w: World, w': World) {
    forall k: nat {:trigger Open(k)} :: Open(k) ==>
      && w'.finobj == Chosen(w.finobj, Strong(w), true) && w'.tobefnz == w.tobefnz + Chosen(w.finobj, Strong(w), false)
      && (forall o {:trigger o in w'.h} :: o in w'.h ==> o in StrongBound(w.h, Needs(w, w')))
      && (forall t {:trigger StronglyAccessible(w, t)} :: StronglyAccessible(w, t) && t in w.h && w.h[t].Table? ==>
        ValuesExact(w, w', t))
  }

  ghost function Needs(w: World, w': World): iset<Ref> { iset x: Ref | x in Roots(w) || x in w'.tobefnz }

  ghost predicate ValuesExact(w: World, w': World, t: Ref)
    requires t in w.h && w.h[t].Table?
  {
    && t in w'.h && w'.h[t].Table? && |w'.h[t].arr| == |w.h[t].arr| && |w'.h[t].nodes| == |w.h[t].nodes|
    && (forall i {:trigger w'.h[t].arr[i]} :: 0 <= i < |w.h[t].arr| ==>
      w'.h[t].arr[i] == if ValueWeak(w.h[t].mode) && Lost(w, w.h[t].arr[i]) then Nil else w.h[t].arr[i])
    && (forall i {:trigger w'.h[t].nodes[i]} :: 0 <= i < |w.h[t].nodes| ==>
      ValueWeak(w.h[t].mode) && Lost(w, w.h[t].nodes[i].val) ==> w'.h[t].nodes[i].val == Nil)
  }

  /** A cycle that goes straight to the atomic phase, and then sweeps. */
  lemma CycleExact(w: World, w2: World, w3: World, w4: World)
    requires Sound(w) && w.phase == Pause && Begun(w, w2) && Sound(w2) && InMark(w2.phase) && Concluded(w2, w3)
    requires SweptTo(w3, w4) && Sound(w4) && w4.phase == Pause && w4.tobefnz == w3.tobefnz
    ensures Exactly(w, w4)
  {
    BegunOpen(w, w2);
    assert ConcludedSo(w2, w3) by { assert Open(0); }
    var w1: World, strong: Colors :| Finishes(w2, w1, strong) && SweptTo(EnterSweep(w1), w3) &&
      w3.tobefnz == w1.tobefnz;
    SweptRest(EnterSweep(w1), w3);
    SweptRest(w3, w4);
    CycleSeparates(w, w2, w1, strong);
    forall o | o in w4.h ensures o in StrongBound(w.h, Needs(w, w4)) { CycleKeeps(w, w2, w1, strong, w3, w4, o); }
    forall t | StronglyAccessible(w, t) && t in w.h && w.h[t].Table? ensures ValuesExact(w, w4, t) {
      CycleClears(w, w2, w1, strong, w3, w4, t);
    }
  }

  lemma CycleSeparates(w: World, w2: World, w1: World, strong: Colors)
    requires Sound(w) && w.phase == Pause && Begun(w, w2) && Sound(w2) && InMark(w2.phase) && Finishes(w2, w1, strong)
    ensures w1.finobj == Chosen(w.finobj, Strong(w), true)
    ensures w1.tobefnz == w.tobefnz + Chosen(w.finobj, Strong(w), false)
  {
    BegunOpen(w, w2);
    SeparatedExactly(w2, w1, strong);
    forall o | o in w.finobj ensures o in Reached(w2) <==> o in Strong(w) {
      FinobjOnce(w2, o);
      BegunExactly(w, w2, o);
    }
    ChosenSame(w.finobj, Reached(w2), Strong(w), true);
    ChosenSame(w.finobj, Reached(w2), Strong(w), false);
  }

  lemma CycleKeeps(w: World, w2: World, w1: World, strong: Colors, w3: World, w4: World, o: Ref)
    requires Sound(w) && w.phase == Pause && Begun(w, w2) && Sound(w2) && InMark(w2.phase) && Finishes(w2, w1, strong)
    requires SweptTo(EnterSweep(w1), w3) && SweptTo(w3, w4) && Sound(w4) && w4.phase == Pause
    requires w4.tobefnz == w1.tobefnz && o in w4.h
    ensures o in StrongBound(w.h, Needs(w, w4))
  {
    BegunOpen(w, w2);
    PauseAlive(w4, o);
    SweptTrans(EnterSweep(w1), w3, w4);
    SweptAliveSame(EnterSweep(w1), w4, o);
    FinishAlive(w2, w1, strong);
    MarkedExactly(w2, w1, strong, o);
    var from := FromMarks(w2.c, GlobalRoots(w2) + w1.tobefnz);
    forall x | x in from ensures x in StrongBound(w.h, Needs(w, w4)) {
      if x in w1.tobefnz {
        FromBound(w.h, Needs(w, w4), x);
      } else {
        BegunStrong(w, w2, x);
        forall y | y in RootSet(w) ensures y in StrongBound(w.h, Needs(w, w4)) { FromBound(w.h, Needs(w, w4), y); }
        StrongWithin(w.h, RootSet(w), Needs(w, w4), x);
      }
    }
    StrongWithin(w.h, from, Needs(w, w4), o);
  }

  lemma SweptAliveSame(w: World, w': World, o: Ref)
    requires SweptTo(w, w')
    ensures Alive(w', o) == Alive(w, o)
  {
    assert Open(0);
  }

  lemma CycleClears(w: World, w2: World, w1: World, strong: Colors, w3: World, w4: World, t: Ref)
    requires Sound(w) && w.phase == Pause && Begun(w, w2) && Sound(w2) && InMark(w2.phase) && Finishes(w2, w1, strong)
    requires SweptTo(EnterSweep(w1), w3) && SweptTo(w3, w4)
    requires StronglyAccessible(w, t) && t in w.h && w.h[t].Table?
    ensures ValuesExact(w, w4, t)
  {
    BegunOpen(w, w2);
    BegunExactly(w, w2, t);
    MarksExact(w2, w1, strong, t);
    ClearedExactly(w2, w1, strong, t);
    FinishAlive(w2, w1, strong);
    SweptTrans(EnterSweep(w1), w3, w4);
    KeptWhileSwept(EnterSweep(w1), w4, t);
    var b := w.h[t];
    forall i | 0 <= i < |b.arr|
      ensures ValueGone(w2, strong, b.mode, b.arr[i]) <==> ValueWeak(b.mode) && Lost(w, b.arr[i])
    {
      assert b.arr[i].Obj? ==> Obj(b.arr[i].ref) in b.arr;
      GoneLost(w, w2, w1, strong, t, b.arr[i]);
    }
    forall i | 0 <= i < |b.nodes|
      ensures ValueGone(w2, strong, b.mode, b.nodes[i].val) <==> ValueWeak(b.mode) && Lost(w, b.nodes[i].val)
    {
      assert b.nodes[i].val.Obj? ==> NodeRefers(b.mode, b.nodes[i], b.nodes[i].val.ref);
      GoneLost(w, w2, w1, strong, t, b.nodes[i].val);
    }
  }

  lemma GoneLost(w: World, w2: World, w1: World, strong: Colors, t: Ref, v: Value)
    requires Sound(w) && w.phase == Pause && Begun(w, w2) && Sound(w2) && InMark(w2.phase) && Finishes(w2, w1, strong)
    requires t in w.h && (v.Obj? ==> Points(w.h, t, v.ref))
    ensures Clearable(w2.h, strong, v) <==> Lost(w, v)
  {
    BegunOpen(w, w2);
    if v.Obj? {
      PauseAlive(w, t);
      AliveStep(w, t, v.ref);
      StrongColoured(w2, w1, strong, v.ref);
      if !w.h[v.ref].Str? {
        BegunExactly(w, w2, v.ref);
        MarksExact(w2, w1, strong, v.ref);
      }
    }
  }

  lemma StrongColoured(w: World, w': World, strong: Colors, o: Ref)
    requires Sound(w) && Finishes(w, w', strong) && o in w.h
    ensures o in strong
  {
  }

  // ----- from any state -----

  /** Sweeping adds no references. */
  lemma SweptRefers(w: World, w1: World, s: iset<Ref>, x: Ref, r: Ref)
    requires SweptTo(w, w1) && x in w1.h && StrongKeeps(w1.h, s, x, r)
    ensures x in w.h && StrongKeeps(w.h, s, x, r)
  {
    StrongPoints(w1.h, s, x, r);
    SweptPoints(w, w1, x, r);
    SweptBody(w, w1, x);
    if w1.h[x].Table? && w1.h[x].mode == Ephemeron && HeldKeyValue(w1.h, w1.h[x].nodes, s, r) {
      var i :| 0 <= i < |w1.h[x].nodes| && w1.h[x].nodes[i].val == Obj(r) && KeyHeld(w1.h, w1.h[x].nodes[i].key, s);
      var k := w1.h[x].nodes[i].key;
      if k.Live? && k.v.Obj? && k.v.ref in w1.h { SweptBody(w, w1, k.v.ref); }
      assert KeyHeld(w.h, k, s);
    }
  }

  lemma SweptBody(w: World, w1: World, x: Ref)
    requires SweptTo(w, w1) && x in w1.h
    ensures x in w.h && w1.h[x].Str? == w.h[x].Str? && w1.h[x].Table? == w.h[x].Table?
    ensures w1.h[x].Table? ==> w1.h[x] == w.h[x]
  {
    assert Open(0);
    assert Kept(w.h, w1.h, x);
  }

  lemma SweptBound(w: World, w1: World, from: iset<Ref>, o: Ref)
    requires SweptTo(w, w1) && o in StrongBound(w1.h, from)
    ensures o in StrongBound(w.h, from)
  {
    if o in w1.h && w1.h[o].Str? {
      SweptBody(w, w1, o);
    } else {
      forall s: iset<Ref> | (forall r :: r in from ==> r in s) && StrongClosed(w.h, s) ensures o in s {
        forall x, r | x in s && x in w1.h && StrongKeeps(w1.h, s, x, r) ensures r in s { SweptRefers(w, w1, s, x, r); }
        assert StrongClosed(w1.h, s);
      }
    }
  }

  /** An object that is left is strongly accessible exactly if it was. */
  lemma SweptStrongSame(w: World, w1: World, o: Ref)
    requires Sound(w) && SweptTo(w, w1) && !(o in w.h && w.h[o].Str?)
    ensures StronglyAccessible(w1, o) <==> StronglyAccessible(w, o)
  {
    SweptRest(w, w1);
    if StronglyAccessible(w, o) { SweptStrong(w, w1, o); }
    if StronglyAccessible(w1, o) {
      assert RootSet(w1) == RootSet(w);
      SweptBound(w, w1, RootSet(w1), o);
    }
  }

  /** The dead objects that are swept before a collection do not matter. */
  lemma SweptExactly(w: World, w1: World, w': World)
    requires Sound(w) && SweptTo(w, w1) && w1.tobefnz == w.tobefnz && Exactly(w1, w')
    ensures Exactly(w, w')
  {
    SweptRest(w, w1);
    SweptSeparates(w, w1, w');
    forall o | o in w'.h ensures o in StrongBound(w.h, Needs(w, w')) {
      assert o in StrongBound(w1.h, Needs(w1, w')) by { assert Open(0); }
      assert Needs(w1, w') == Needs(w, w');
      SweptBound(w, w1, Needs(w, w'), o);
    }
    forall t | StronglyAccessible(w, t) && t in w.h && w.h[t].Table? ensures ValuesExact(w, w', t) {
      SweptClears(w, w1, w', t);
    }
  }

  lemma SweptSeparates(w: World, w1: World, w': World)
    requires Sound(w) && SweptTo(w, w1) && w1.tobefnz == w.tobefnz && w1.finobj == w.finobj && Exactly(w1, w')
    ensures w'.finobj == Chosen(w.finobj, Strong(w), true)
    ensures w'.tobefnz == w.tobefnz + Chosen(w.finobj, Strong(w), false)
  {
    assert Open(0);
    forall o | o in w.finobj ensures o in Strong(w1) <==> o in Strong(w) {
      FinobjOnce(w, o);
      SweptStrongSame(w, w1, o);
    }
    ChosenSame(w.finobj, Strong(w1), Strong(w), true);
    ChosenSame(w.finobj, Strong(w1), Strong(w), false);
  }

  lemma SweptClears(w: World, w1: World, w': World, t: Ref)
    requires Sound(w) && SweptTo(w, w1) && Exactly(w1, w') && StronglyAccessible(w, t) && t in w.h && w.h[t].Table?
    ensures ValuesExact(w, w', t)
  {
    SweptStrong(w, w1, t);
    StrongAlive(w, t);
    KeptWhileSwept(w, w1, t);
    assert w1.h[t] == w.h[t] && ValuesExact(w1, w', t) by { assert Open(0); }
    var b := w.h[t];
    forall i | 0 <= i < |b.arr| ensures Lost(w1, b.arr[i]) <==> Lost(w, b.arr[i]) {
      assert b.arr[i].Obj? ==> Obj(b.arr[i].ref) in b.arr;
      LostSame(w, w1, t, b.arr[i]);
    }
    forall i | 0 <= i < |b.nodes| ensures Lost(w1, b.nodes[i].val) <==> Lost(w, b.nodes[i].val) {
      assert b.nodes[i].val.Obj? ==> NodeRefers(b.mode, b.nodes[i], b.nodes[i].val.ref);
      LostSame(w, w1, t, b.nodes[i].val);
    }
  }

  lemma LostSame(w: World, w1: World, t: Ref, v: Value)
    requires Sound(w) && SweptTo(w, w1) && Alive(w, t) && (v.Obj? ==> Points(w.h, t, v.ref))
    ensures Lost(w1, v) <==> Lost(w, v)
  {
    if v.Obj? {
      AliveStep(w, t, v.ref);
      KeptWhileSwept(w, w1, v.ref);
      if !w.h[v.ref].Str? { SweptStrongSame(w, w1, v.ref); }
    }
  }
}
