/** Objects that change lists, and strings that come back: finalizers, fixed strings, interning
    (lgc.c:243-251, 886-898, 1019-1041, lstring.c:196-203). */
module GcLists {
  import opened GcObjects
  import opened GcMarking
  import opened GcWorld
  import opened GcWrites
  import opened GcAlloc
  import opened GcSweep
  import opened Folding

  // ----- an object gets a finalizer -----

  /** Where the sweep pointer leads after object number `k` of 'allgc' moved to the front of 'finobj'. */
  function MovedPointer(g: World, k: nat): Sweep
    requires g.sweep.At? ==> g.sweep.rem <= |SweptList(g)|
  {
    if g.phase == SweepAllgc && g.sweep.At? && k < |g.allgc| && |g.allgc| - k <= g.sweep.rem
      then At(g.sweep.rem - 1, g.sweep.inside)
    else if g.phase == SweepFinobj && g.sweep.At? && !g.sweep.inside then At(g.sweep.rem + 1, false)
    else g.sweep
  }

  /** The world after object number `k` of 'allgc' moved to 'finobj'; while sweeping it counts as swept. */
  function ToFinobj(g: World, k: nat): World
    requires k < |g.allgc| && (g.sweep.At? ==> g.sweep.rem <= |SweptList(g)|)
  {
    g.(c := if InSweep(g.phase) then g.c[g.allgc[k] := g.w] else g.c,
       allgc := Without(g.allgc, k), finobj := [g.allgc[k]] + g.finobj, sweep := MovedPointer(g, k))
  }

  /** Object number `k` of 'allgc' is alive and may get a finalizer, and the sweep pointer is not its link, which
      would lead into 'finobj' after the move. */
  ghost predicate CanMove(g: World, k: nat) {
    && (g.phase == SweepAllgc && g.sweep.At? ==> |g.allgc| - g.sweep.rem != k + 1)
    && k < |g.allgc| && (g.sweep.At? ==> g.sweep.rem <= |SweptList(g)|) && Basic(g)
    && Alive(g, g.allgc[k]) && g.allgc[k] !in g.garbage && (g.h[g.allgc[k]].Table? || g.h[g.allgc[k]].Udata?)
  }

  lemma MoveAlive(g: World, k: nat)
    requires CanMove(g, k)
    ensures forall x {:trigger Alive(ToFinobj(g, k), x)} :: Alive(ToFinobj(g, k), x) == Alive(g, x)
    ensures ToFinobj(g, k).c.Keys == g.c.Keys
  {
  }

  lemma MoveOwned(g: World, k: nat)
    requires CanMove(g, k) && Owned(g)
    ensures Owned(ToFinobj(g, k))
  {
    MoveAlive(g, k);
    WithoutTimes(g.allgc, k);
    OwnedSame(g, ToFinobj(g, k));
  }

  lemma MoveLists(g: World, k: nat)
    requires CanMove(g, k) && ListsOk(g)
    ensures ListsOk(ToFinobj(g, k))
  {
    assert Open(0);
  }

  lemma MoveKinds(g: World, k: nat)
    requires CanMove(g, k) && TypedOk(g) && KindsOk(g)
    ensures TypedOk(ToFinobj(g, k)) && KindsOk(ToFinobj(g, k))
  {
    assert Open(0);
    var g' := ToFinobj(g, k);
    forall x | x in g'.h && x in g'.c && !IsWhite(g'.c[x]) && !g'.h[x].Listable() && !g'.h[x].Str?
      ensures g'.c[x] == if g'.h[x].OpenUp? then Gray else Black
    {
      assert g'.c[x] == g.c[x];
    }
  }

  lemma MoveLife(g: World, k: nat)
    requires CanMove(g, k) && AliveClosed(g) && RootsAlive(g) && GarbageKept(g) && GarbageSwept(g) && TwupsOk(g)
    requires Below(g)
    ensures var g' := ToFinobj(g, k);
      AliveClosed(g') && RootsAlive(g') && GarbageKept(g') && GarbageSwept(g') && TwupsOk(g') && Below(g')
  {
    MoveAlive(g, k);
    var g' := ToFinobj(g, k);
    TwupsSame(g, g');
    BelowSame(g, g');
    LifeSame(g, g'.(finobj := g.finobj));
    WhitenGarbage(g, g');
    MoveGarbage(g, k);
  }

  lemma MoveGarbage(g: World, k: nat)
    requires CanMove(g, k)
    requires var g1 := ToFinobj(g, k).(finobj := g.finobj); AliveClosed(g1) && RootsAlive(g1) && GarbageKept(g1)
    ensures var g' := ToFinobj(g, k); AliveClosed(g') && RootsAlive(g') && GarbageKept(g')
  {
    assert Open(0);
    var g', g1 := ToFinobj(g, k), ToFinobj(g, k).(finobj := g.finobj);
    assert Roots(g') == Roots(g1);
    assert forall x {:trigger Alive(g', x)} :: Alive(g', x) == Alive(g1, x);
    forall x, r | Alive(g', x) && Points(g'.h, x, r) ensures Alive(g', r) { assert Alive(g1, x) && Alive(g1, r); }
  }

  lemma WithoutIn(l: seq<Ref>, k: nat)
    requires k < |l|
    ensures forall o :: o in Without(l, k) ==> o in l
  {
  }

  lemma MoveBehind(l: seq<Ref>, k: nat, rem: nat)
    requires k < |l| && rem <= |l|
    ensures |l| - k <= rem ==> Behind(Without(l, k), At(rem - 1, true)) == Behind(l, At(rem, true))
    ensures |l| - k > rem ==> forall o :: o in Behind(Without(l, k), At(rem, true)) ==> o in Behind(l, At(rem, true))
    ensures forall s: Sweep :: s.At? && s.rem == rem ==> Behind(l, s) == Behind(l, At(rem, true))
  {
    if |l| - k > rem {
      var w := Behind(Without(l, k), At(rem, true));
      assert w == l[..k] + l[k + 1..|l| - rem];
    } else {
      assert Behind(Without(l, k), At(rem - 1, true)) == l[..|l| - rem];
    }
  }

  lemma MoveSweepAllgc(g: World, k: nat)
    requires CanMove(g, k) && SweepOk(g) && g.phase == SweepAllgc
    ensures SweepOk(ToFinobj(g, k))
  {
    MoveAlive(g, k);
    var g' := ToFinobj(g, k);
    WithoutIn(g.allgc, k);
    MoveBehind(g.allgc, k, if g.sweep.At? then g.sweep.rem else 0);
    assert Open(0);
    forall o | o in Behind(g'.allgc, g'.sweep) ensures o in g'.c && g'.c[o] == g'.w {
      assert o in Behind(g.allgc, g.sweep);
    }
    forall o | o in g'.finobj || o in g'.tobefnz ensures Alive(g', o) { assert Alive(g, o); }
  }

  lemma MoveSweep(g: World, k: nat)
    requires CanMove(g, k) && SweepOk(g)
    ensures SweepOk(ToFinobj(g, k))
  {
    if g.phase == SweepAllgc {
      MoveSweepAllgc(g, k);
    } else {
      MoveAlive(g, k);
      WithoutIn(g.allgc, k);
      MoveSweepLater(g, k);
    }
  }

  lemma MoveSweepLater(g: World, k: nat)
    requires CanMove(g, k) && SweepOk(g) && g.phase != SweepAllgc
    requires forall x {:trigger Alive(ToFinobj(g, k), x)} :: Alive(ToFinobj(g, k), x) == Alive(g, x)
    requires forall o :: o in Without(g.allgc, k) ==> o in g.allgc
    ensures SweepOk(ToFinobj(g, k))
  {
    assert Open(0);
    var g' := ToFinobj(g, k);
    var o := g.allgc[k];
    assert o in g.allgc;
    if g.phase == SweepFinobj {
      MoveBehindFinobj(g, k);
    }
    WhiteSame(g, g', g.finobj);
    WhiteSame(g, g', g.tobefnz);
    WhiteSame(g, g', Behind(g.finobj, g.sweep));
    WhiteSame(g, g', Behind(g.tobefnz, g.sweep));
  }

  lemma MoveBehindFinobj(g: World, k: nat)
    requires CanMove(g, k) && g.phase == SweepFinobj
    ensures forall x :: x in Behind(ToFinobj(g, k).finobj, ToFinobj(g, k).sweep) ==>
      x == g.allgc[k] || x in Behind(g.finobj, g.sweep)
  {
    var g' := ToFinobj(g, k);
    if g.sweep.At? && !g.sweep.inside {
      assert forall x :: x in Behind(g'.finobj, g'.sweep) ==> x == g.allgc[k] || x in Behind(g.finobj, g.sweep);
    }
  }

  lemma MoveMark(g: World, k: nat)
    requires CanMove(g, k) && MarkStateOk(g) && PropagationOk(g) && NoDead(g) && Coloured(g)
    ensures var g' := ToFinobj(g, k); MarkStateOk(g') && PropagationOk(g') && NoDead(g') && Coloured(g')
  {
    if InMark(g.phase) {
      assert Open(0);
      assert Bound(ToFinobj(g, k)) == Bound(g);
    } else {
      NotMarking(ToFinobj(g, k));
    }
  }

  lemma MoveSound(g: World, k: nat)
    requires Sound(g) && CanMove(g, k)
    ensures Sound(ToFinobj(g, k))
  {
    MoveAlive(g, k);
    MoveOwned(g, k);
    MoveLists(g, k);
    MoveKinds(g, k);
    MoveLife(g, k);
    MoveSweep(g, k);
    MoveMark(g, k);
  }

  lemma PaintedKinds(g: World, o: Ref)
    requires Basic(g) && TypedOk(g) && KindsOk(g) && Alive(g, o)
    ensures TypedOk(g.(c := g.c[o := g.w])) && KindsOk(g.(c := g.c[o := g.w]))
  {
    assert Open(0);
    var g' := g.(c := g.c[o := g.w]);
    forall x | x in g'.h && x in g'.c && !IsWhite(g'.c[x]) && !g'.h[x].Listable() && !g'.h[x].Str?
      ensures g'.c[x] == if g'.h[x].OpenUp? then Gray else Black
    {
      assert x != o && g'.c[x] == g.c[x];
    }
  }

  /** While sweeping, a live object may be painted white before its turn. */
  lemma PaintedSound(g: World, o: Ref)
    requires Sound(g) && InSweep(g.phase) && Alive(g, o) && o !in g.fixedgc
    ensures Sound(g.(c := g.c[o := g.w]))
  {
    var g' := g.(c := g.c[o := g.w]);
    assert forall x {:trigger Alive(g', x)} :: Alive(g', x) == Alive(g, x);
    OwnedSame(g, g');
    ListsSame(g, g');
    LifeSame(g, g');
    BelowSame(g, g');
    TwupsSame(g, g');
    SweepSame(g, g');
    PaintedKinds(g, o);
    NotMarking(g');
  }

  // ----- an object is about to be finalized -----

  /** The first object of 'tobefnz' goes back to 'allgc', and on the stack for its finalizer. */
  function ToAllgc(g: World): World
    requires g.tobefnz != []
  {
    g.(tobefnz := g.tobefnz[1..], allgc := [g.tobefnz[0]] + g.allgc)
  }

  lemma ToAllgcOwned(g: World)
    requires g.tobefnz != [] && Owned(g)
    ensures Owned(ToAllgc(g))
  {
    assert g.tobefnz == [g.tobefnz[0]] + g.tobefnz[1..];
    OwnedSame(g, ToAllgc(g));
  }

  lemma ToAllgcParts(g: World)
    requires g.tobefnz != [] && g.phase == CallFin && ListsOk(g) && SweepOk(g) && GarbageSwept(g) && TypedOk(g)
    requires KindsOk(g)
    ensures var g' := ToAllgc(g); ListsOk(g') && SweepOk(g') && GarbageSwept(g') && TypedOk(g') && KindsOk(g')
  {
    assert Open(0);
    var g' := ToAllgc(g);
    assert AllWhite(g, g.allgc) && AllWhite(g, g.finobj) && AllWhite(g, g.tobefnz);
    assert g.tobefnz[0] in g.tobefnz && forall o :: o in g'.tobefnz ==> o in g.tobefnz;
    assert AllWhite(g', g'.allgc) && AllWhite(g', g'.finobj) && AllWhite(g', g'.tobefnz);
    assert SweepDef(g');
  }

  lemma ToAllgcSound(g: World)
    requires Sound(g) && g.tobefnz != [] && g.phase == CallFin
    ensures Sound(ToAllgc(g))
    ensures Safe(ToAllgc(g), Obj(g.tobefnz[0]))
  {
    var g' := ToAllgc(g);
    assert forall x {:trigger Alive(g', x)} :: Alive(g', x) == Alive(g, x);
    ToAllgcOwned(g);
    ToAllgcParts(g);
    LifeSame(g, g');
    BelowSame(g, g');
    TwupsSame(g, g');
    NotMarking(g');
    FirstSafe(g);
  }

  lemma FirstSafe(g: World)
    requires ListsOk(g) && RootsAlive(g) && g.tobefnz != []
    ensures Safe(g, Obj(g.tobefnz[0]))
  {
    assert Open(0);
    assert g.tobefnz[0] in g.tobefnz && g.tobefnz[0] in Roots(g);
  }

  // ----- a string that the string table still has -----

  /** A dead string found by interning is alive again; any string found can be used. */
  function Revived(g: World, o: Ref): World
    requires o in g.c
  {
    g.(c := if g.c[o] == OtherWhite(g.w) then g.c[o := g.w] else g.c, garbage := g.garbage - {o})
  }

  lemma RevivedAlive(g: World, o: Ref)
    requires Basic(g) && o in g.h && g.h[o].Str?
    ensures forall x {:trigger Alive(Revived(g, o), x)} :: Alive(Revived(g, o), x) == (Alive(g, x) || x == o)
    ensures Revived(g, o).c.Keys == g.c.Keys
    ensures forall x :: Marked(Revived(g, o).c, x) == Marked(g.c, x)
  {
  }

  lemma RevivedShape(g: World, o: Ref)
    requires Shape(g) && o in g.h && g.h[o].Str?
    ensures Shape(Revived(g, o))
  {
    var g' := Revived(g, o);
    OwnedSame(g, g');
    ListsSame(g, g');
    RevivedKinds(g, o);
  }

  lemma RevivedKinds(g: World, o: Ref)
    requires Basic(g) && TypedOk(g) && KindsOk(g) && Below(g) && o in g.h && g.h[o].Str?
    ensures TypedOk(Revived(g, o)) && KindsOk(Revived(g, o)) && Below(Revived(g, o))
  {
    assert Open(0);
    var g' := Revived(g, o);
    forall x | x in g'.h && x in g'.c && !IsWhite(g'.c[x]) && !g'.h[x].Listable() && !g'.h[x].Str?
      ensures g'.c[x] == if g'.h[x].OpenUp? then Gray else Black
    {
      assert g'.c[x] == g.c[x];
    }
  }

  lemma RevivedLife(g: World, o: Ref)
    requires Basic(g) && AliveClosed(g) && RootsAlive(g) && GarbageKept(g) && TwupsOk(g) && o in g.h && g.h[o].Str?
    ensures var g' := Revived(g, o); AliveClosed(g') && RootsAlive(g') && GarbageKept(g') && TwupsOk(g')
  {
    RevivedAlive(g, o);
    assert Open(0);
    var g' := Revived(g, o);
    assert Roots(g') == Roots(g);
    forall x, r | Alive(g', x) && Points(g'.h, x, r)
      ensures Alive(g', r) { assert x != o && Alive(g, x) && Alive(g, r); }
    forall x, r | x in g'.h && x !in g'.garbage && Points(g'.h, x, r) ensures r !in g'.garbage { assert x != o; }
    forall t | Alive(g', t) && g'.h[t].Thread? && g'.h[t].upvals != {} ensures t in g'.tw { assert Alive(g, t); }
    forall t | t in g'.tw ensures Alive(g', t) && g'.h[t].Thread? { assert Alive(g, t); }
  }

  lemma RevivedSweep(g: World, o: Ref)
    requires Basic(g) && SweepOk(g) && GarbageSwept(g) && o in g.h && g.h[o].Str?
    ensures SweepOk(Revived(g, o)) && GarbageSwept(Revived(g, o))
  {
    RevivedAlive(g, o);
    assert Open(0);
    var g' := Revived(g, o);
    forall x | x in g.c && g.c[x] == g.w ensures x in g'.c && g'.c[x] == g'.w {}
    RevivedList(g, g', g.allgc);
    RevivedList(g, g', g.finobj);
    RevivedList(g, g', g.tobefnz);
    RevivedList(g, g', Behind(g.allgc, g.sweep));
    RevivedList(g, g', Behind(g.finobj, g.sweep));
    RevivedList(g, g', Behind(g.tobefnz, g.sweep));
  }

  lemma RevivedList(g: World, g': World, l: seq<Ref>)
    requires g'.w == g.w && forall x :: Alive(g, x) ==> Alive(g', x)
    requires forall x :: x in g.c && g.c[x] == g.w ==> x in g'.c && g'.c[x] == g.w
    ensures AllWhite(g, l) ==> AllWhite(g', l)
    ensures NoneDead(g, l) ==> NoneDead(g', l)
  {
    if NoneDead(g, l) {
      forall o | o in l ensures Alive(g', o) { assert Alive(g, o); }
    }
  }

  /** Nothing outside the garbage has the string as a key, so enlarging the bound by it adds no reasons to mark. */
  lemma RevivedBound(g: World, o: Ref)
    requires Basic(g) && GarbageKept(g) && MarkClosed(g.h, Bound(g)) && o in g.h && g.h[o].Str?
    ensures MarkClosed(g.h, Bound(Revived(g, o)))
  {
    assert Open(0);
    var b := Bound(Revived(g, o));
    forall x, r | x in b && x in g.h && Keeps(g.h, b, x, r) ensures r in b {
      KeepsPoints(g.h, b, x, r);
    }
  }

  lemma RevivedMark(g: World, o: Ref)
    requires Basic(g) && GarbageKept(g) && MarkStateOk(g) && PropagationOk(g) && NoDead(g) && Coloured(g) && o in g.h
    requires g.h[o].Str?
    ensures var g' := Revived(g, o); MarkStateOk(g') && PropagationOk(g') && NoDead(g') && Coloured(g')
  {
    if InMark(g.phase) {
      assert Open(0);
      RevivedBound(g, o);
      assert Revived(g, o).c == g.c;
    } else {
      NotMarking(Revived(g, o));
    }
  }

  lemma RevivedSound(g: World, o: Ref)
    requires Sound(g) && o in g.h && g.h[o].Str?
    ensures Sound(Revived(g, o)) && Safe(Revived(g, o), Obj(o))
  {
    RevivedAlive(g, o);
    RevivedShape(g, o);
    RevivedLife(g, o);
    RevivedSweep(g, o);
    RevivedMark(g, o);
  }

  // ----- a string that is never collected -----

  /** The newest object leaves 'allgc' and is painted gray for ever (lgc.c:243-251). */
  function Fixed(g: World): World
    requires g.allgc != []
  {
    g.(c := g.c[g.allgc[0] := Gray], allgc := g.allgc[1..], fixedgc := [g.allgc[0]] + g.fixedgc)
  }

  ghost predicate CanFix(g: World) {
    && g.allgc != [] && Basic(g) && Alive(g, g.allgc[0]) && g.allgc[0] !in g.garbage && g.h[g.allgc[0]].Str?
    && (g.phase == SweepAllgc && g.sweep.At? ==> g.sweep.rem < |g.allgc|)
  }

  lemma FixOwned(g: World)
    requires CanFix(g) && Owned(g)
    ensures Owned(Fixed(g)) && g.allgc[0] !in g.allgc[1..] && g.allgc[0] !in g.finobj && g.allgc[0] !in g.tobefnz
  {
    assert g.allgc == [g.allgc[0]] + g.allgc[1..];
    OwnedSame(g, Fixed(g));
    assert Open(0);
    assert ListTimes(g, g.allgc[0]) == 1;
    assert multiset(g.allgc) == multiset{g.allgc[0]} + multiset(g.allgc[1..]);
  }

  lemma FixShape(g: World)
    requires CanFix(g) && Shape(g)
    ensures Shape(Fixed(g))
  {
    FixOwned(g);
    FixKinds(g);
  }

  lemma FixKinds(g: World)
    requires CanFix(g) && TypedOk(g) && KindsOk(g) && ListsOk(g) && Below(g)
    ensures TypedOk(Fixed(g)) && KindsOk(Fixed(g)) && ListsOk(Fixed(g)) && Below(Fixed(g))
  {
    assert Open(0);
    var g' := Fixed(g);
    forall x | x in g'.h && x in g'.c && !IsWhite(g'.c[x]) && !g'.h[x].Listable() && !g'.h[x].Str?
      ensures g'.c[x] == if g'.h[x].OpenUp? then Gray else Black
    {
      assert g'.c[x] == g.c[x];
    }
  }

  lemma FixLife(g: World)
    requires CanFix(g) && AliveClosed(g) && RootsAlive(g) && GarbageKept(g) && TwupsOk(g) && GarbageSwept(g)
    ensures var g' := Fixed(g); AliveClosed(g') && RootsAlive(g') && GarbageKept(g') && TwupsOk(g') && GarbageSwept(g')
  {
    assert Open(0);
    var g' := Fixed(g);
    assert forall x {:trigger Alive(g', x)} :: Alive(g', x) == Alive(g, x);
    assert forall o :: o in Roots(g') ==> o in Roots(g) || o == g.allgc[0];
    forall x, r | Alive(g', x) && Points(g'.h, x, r) ensures Alive(g', r) { assert Alive(g, x) && Alive(g, r); }
    forall t | Alive(g', t) && g'.h[t].Thread? && g'.h[t].upvals != {} ensures t in g'.tw { assert Alive(g, t); }
    forall t | t in g'.tw ensures Alive(g', t) && g'.h[t].Thread? { assert Alive(g, t); }
  }

  lemma FixBehind(l: seq<Ref>, s: Sweep)
    requires l != [] && (s.At? ==> s.rem < |l|)
    ensures Behind(l[1..], s) == Behind(l, s)[1..] && |Behind(l, s)| > 0
  {
  }

  lemma FixSweep(g: World)
    requires CanFix(g) && SweepOk(g) && Owned(g)
    ensures SweepOk(Fixed(g))
  {
    FixOwned(g);
    FixList(g, g.allgc[1..]);
    FixList(g, g.finobj);
    FixList(g, g.tobefnz);
    assert forall o :: o in g.allgc[1..] ==> o in g.allgc;
    if g.phase == SweepAllgc {
      FixSweepAllgc(g);
    } else if g.phase == SweepFinobj {
      BehindIn(g.finobj, g.sweep);
      FixList(g, Behind(g.finobj, g.sweep));
      assert Open(0);
    } else if g.phase == SweepTobefnz {
      BehindIn(g.tobefnz, g.sweep);
      FixList(g, Behind(g.tobefnz, g.sweep));
      assert Open(0);
    } else {
      assert Open(0);
    }
  }

  lemma FixSweepAllgc(g: World)
    requires CanFix(g) && SweepOk(g) && g.phase == SweepAllgc
    requires g.allgc[0] !in g.allgc[1..] && g.allgc[0] !in g.finobj && g.allgc[0] !in g.tobefnz
    ensures SweepOk(Fixed(g))
  {
    FixList(g, g.finobj);
    FixList(g, g.tobefnz);
    FixBehind(g.allgc, g.sweep);
    BehindIn(g.allgc[1..], g.sweep);
    FixList(g, Behind(g.allgc[1..], g.sweep));
    assert Open(0);
    assert forall o :: o in Behind(g.allgc, g.sweep)[1..] ==> o in Behind(g.allgc, g.sweep);
  }

  lemma FixList(g: World, l: seq<Ref>)
    requires CanFix(g) && g.allgc[0] !in l
    ensures AllWhite(g, l) ==> AllWhite(Fixed(g), l)
    ensures NoneDead(g, l) ==> NoneDead(Fixed(g), l)
  {
    if NoneDead(g, l) {
      forall o | o in l ensures Alive(Fixed(g), o) { assert Alive(g, o); }
    }
  }

  lemma FixMark(g: World)
    requires CanFix(g) && MarkStateOk(g) && PropagationOk(g) && NoDead(g) && Coloured(g) && TypedOk(g) && KindsOk(g)
    requires KindsOk(Fixed(g))
    ensures var g' := Fixed(g); MarkStateOk(g') && PropagationOk(g') && NoDead(g') && Coloured(g')
  {
    if InMark(g.phase) {
      FixMarkState(g);
      FixPropagation(g);
      FixColours(g);
    } else {
      NotMarking(Fixed(g));
    }
  }

  lemma FixMarkState(g: World)
    requires CanFix(g) && MarkStateOk(g) && TypedOk(g) && KindsOk(g) && KindsOk(Fixed(g)) && InMark(g.phase)
    ensures MarkStateOk(Fixed(g))
  {
    var g' := Fixed(g);
    assert Open(0);
    assert Bound(g') == Bound(g);
    forall x ensures Times(g'.l, x) == if x in g'.h && x in g'.c && g'.c[x] == Gray && g'.h[x].Listable() then 1
      else 0 {
      assert Times(g.l, x) == if x in g.h && x in g.c && g.c[x] == Gray && g.h[x].Listable() then 1 else 0;
    }
  }

  lemma FixPropagation(g: World)
    requires CanFix(g) && PropagationOk(g) && InMark(g.phase)
    ensures PropagationOk(Fixed(g))
  {
    var g' := Fixed(g);
    assert Open(0);
    forall x | x in g.l.allweak && x in g.h
      ensures g.h[x].Table? && g.h[x].mode == AllWeak && ValueMarked(g'.c, g.h[x].meta) {
      assert ValueMarked(g.c, g.h[x].meta);
    }
  }

  lemma FixColours(g: World)
    requires CanFix(g) && NoDead(g) && Coloured(g) && InMark(g.phase)
    ensures NoDead(Fixed(g)) && Coloured(Fixed(g))
  {
    var g' := Fixed(g);
    assert Open(0);
    assert forall x :: Marked(g.c, x) ==> Marked(g'.c, x);
    forall x | x in g'.h && x in g'.c && g'.c[x] == Black ensures AllMarked(g'.h, g'.c, x) {
      assert AllMarked(g.h, g.c, x);
    }
  }

  lemma FixSound(g: World)
    requires Sound(g) && CanFix(g)
    ensures Sound(Fixed(g))
  {
    FixShape(g);
    FixLife(g);
    FixSweep(g);
    FixMark(g);
  }
}
