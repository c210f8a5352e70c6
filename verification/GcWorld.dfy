/** The whole state of the collector as a value, and the invariant that every step of the collector and of the
    mutator keeps, through all phases of a cycle. */
module GcWorld {
  import opened GcObjects
  import opened GcMarking
  import opened Folding

  datatype Phase = Propagate | EnterAtomic | Atomic | SweepAllgc | SweepFinobj | SweepTobefnz | SweepEnd | CallFin
    | Pause

  /** `sweepgc`: nothing left to sweep, or a pointer to a link of the list being swept; `rem` objects follow it.
      `inside` says that it is the link of an object and not the head of the list. */
  datatype Sweep = Done | At(rem: nat, inside: bool)

  /** `garbage` records what was unreachable when the cycle began. */
  datatype World = World(
    h: Heap, c: Colors, l: Lists, tw: seq<Ref>, w: Color, phase: Phase, sweep: Sweep,
    allgc: seq<Ref>, finobj: seq<Ref>, tobefnz: seq<Ref>, fixedgc: seq<Ref>,
    main: Ref, running: Ref, registry: Value, mt: seq<Value>, newref: Ref, garbage: set<Ref>, names: map<Ref, string>)

  // ----- roots -----

  function SeqSet(s: seq<Ref>): set<Ref> { set o | o in s }

  /** What the program can start from: the main and the running thread, the registry, the metatables of basic
      types, objects whose finalizer will be called, and fixed strings. */
  function Roots(g: World): set<Ref> {
    {g.main, g.running} + SeqSet(RefsOf([g.registry])) + SeqSet(RefsOf(g.mt)) + SeqSet(g.tobefnz) + SeqSet(g.fixedgc)
  }

  ghost predicate Accessible(g: World, o: Ref) { Reachable(g.h, Roots(g), o) }

  // ----- the parts of the invariant -----

  /** Not waiting to be freed: a dead object has the white that is not current. */
  ghost predicate Alive(g: World, o: Ref) { o in g.h && o in g.c && g.c[o] != OtherWhite(g.w) }

  predicate InMark(p: Phase) { p == Propagate || p == EnterAtomic }

  predicate InSweep(p: Phase) { p == SweepAllgc || p == SweepFinobj || p == SweepTobefnz || p == SweepEnd }

  function ListTimes(g: World, o: Ref): nat {
    multiset(g.allgc)[o] + multiset(g.finobj)[o] + multiset(g.tobefnz)[o] + multiset(g.fixedgc)[o]
  }

  predicate Basic(g: World) {
    && g.c.Keys == g.h.Keys && IsWhite(g.w) && g.phase != Atomic
    && g.main in g.h && g.h[g.main].Thread? && g.running in g.h && g.h[g.running].Thread?
  }

  ghost predicate TypedOk(g: World) {
    forall k: nat {:trigger Open(k)} :: Open(k) ==> Typed(g.h) && Linked(g.h)
  }

  ghost predicate KindsOk(g: World) {
    forall k: nat {:trigger Open(k)} :: Open(k) ==> Kinds(g.h, g.c)
  }

  /** Every object is on exactly one of 'allgc', 'finobj', 'tobefnz' and 'fixedgc', once. */
  ghost predicate Owned(g: World) {
    forall k: nat {:trigger Open(k)} :: Open(k) ==>
      forall o {:trigger ListTimes(g, o)} {:trigger o in g.h} :: ListTimes(g, o) == if o in g.h then 1 else 0
  }

  /** Fixed objects are marked strings; only tables and userdata have finalizers. */
  ghost predicate ListsOk(g: World) {
    forall k: nat {:trigger Open(k)} :: Open(k) ==>
      && (forall o {:trigger o in g.fixedgc} :: o in g.fixedgc ==> o in g.h && g.h[o].Str? && Marked(g.c, o))
      && (forall o {:trigger o in g.finobj} {:trigger o in g.tobefnz} :: o in g.finobj || o in g.tobefnz ==>
            o in g.h && (g.h[o].Table? || g.h[o].Udata?))
  }

  /** `names` has the contents of the short strings. Of those in the heap no two have the same one, so that a string
      is found by its content. */
  ghost predicate Interned(g: World) {
    && (forall o {:trigger o in g.names} :: o in g.names ==> o < g.newref && (o in g.h ==> g.h[o].Str?))
    && (forall x, y {:trigger g.names[x], g.names[y]} ::
          x in g.h && y in g.h && x in g.names && y in g.names && g.names[x] == g.names[y] ==> x == y)
  }

  /** References are never reused: all that exist, or are mentioned, are below the next one. */
  ghost predicate Below(g: World) {
    forall k: nat {:trigger Open(k)} :: Open(k) ==>
      && (forall o {:trigger o in g.h} :: o in g.h ==> o < g.newref)
      && (forall o: Ref, r: Ref {:trigger Points(g.h, o, r)} :: o in g.h && Points(g.h, o, r) ==> r < g.newref)
      && (forall o {:trigger o in g.garbage} :: o in g.garbage ==> o < g.newref) && Interned(g)
  }

  /** Nothing alive refers to anything dead or freed, not even weakly. */
  ghost predicate AliveClosed(g: World) {
    forall k: nat {:trigger Open(k)} :: Open(k) ==>
      forall o, r {:trigger Points(g.h, o, r)} :: Alive(g, o) && Points(g.h, o, r) ==> Alive(g, r)
  }

  ghost predicate RootsAlive(g: World) {
    forall k: nat {:trigger Open(k)} :: Open(k) ==>
      forall o {:trigger o in Roots(g)} :: o in Roots(g) ==> Alive(g, o) && o !in g.garbage && !g.h[o].IsUpval()
  }

  /** 'twups' has every live thread with open upvalues, and no dead one. */
  ghost predicate TwupsOk(g: World) {
    forall k: nat {:trigger Open(k)} :: Open(k) ==>
      && (forall t {:trigger g.h[t]} :: Alive(g, t) && g.h[t].Thread? && g.h[t].upvals != {} ==> t in g.tw)
      && (forall t {:trigger t in g.tw} :: t in g.tw ==> Alive(g, t) && g.h[t].Thread?)
  }

  /** All but the objects recorded as unreachable when the cycle began. */
  ghost function Bound(g: World): iset<Ref> { iset o: Ref | o !in g.garbage }

  /** What was unreachable stays so: nothing else refers to it. */
  ghost predicate GarbageKept(g: World) {
    forall k: nat {:trigger Open(k)} :: Open(k) ==>
      && (forall o, r {:trigger Points(g.h, o, r)} :: o in g.h && o !in g.garbage && Points(g.h, o, r) ==>
        r !in g.garbage)
      && (forall o {:trigger o in g.finobj} :: o in g.finobj ==> o !in g.garbage)
  }

  /** Garbage is white while marking, dead when sweeping starts, and gone when the first list is swept. */
  ghost predicate GarbageSwept(g: World) {
    forall k: nat {:trigger Open(k)} :: Open(k) ==>
      && (g.phase == SweepAllgc ==> forall o {:trigger o in g.garbage} :: o in g.garbage ==> !Alive(g, o))
      && (g.phase in {SweepFinobj, SweepTobefnz, SweepEnd, CallFin, Pause} ==> g.garbage !! g.h.Keys)
  }

  ghost predicate AllWhite(g: World, l: seq<Ref>) {
    forall o {:trigger o in l} :: o in l ==> o in g.c && g.c[o] == g.w
  }

  ghost predicate NoneDead(g: World, l: seq<Ref>) {
    forall o {:trigger o in l} :: o in l ==> Alive(g, o)
  }

  /** The part of a list that the sweep pointer has passed. */
  function Behind(l: seq<Ref>, s: Sweep): seq<Ref> {
    if s.Done? then l else if s.rem <= |l| then l[..|l| - s.rem] else []
  }

  ghost predicate SweepDef(g: World) {
    match g.phase
    case SweepAllgc =>
      && AllWhite(g, Behind(g.allgc, g.sweep)) && (g.sweep.At? ==> g.sweep.rem <= |g.allgc| && g.sweep.inside)
      && NoneDead(g, g.finobj) && NoneDead(g, g.tobefnz)
    case SweepFinobj =>
      && AllWhite(g, g.allgc)
      && AllWhite(g, Behind(g.finobj, g.sweep)) && (g.sweep.At? ==> g.sweep.rem <= |g.finobj|)
      && NoneDead(g, g.finobj) && NoneDead(g, g.tobefnz)
    case SweepTobefnz =>
      && AllWhite(g, g.allgc) && AllWhite(g, g.finobj)
      && AllWhite(g, Behind(g.tobefnz, g.sweep)) && (g.sweep.At? ==> g.sweep.rem <= |g.tobefnz|)
      && NoneDead(g, g.tobefnz)
    case SweepEnd => g.sweep.Done? && AllWhite(g, g.allgc) && AllWhite(g, g.finobj) && AllWhite(g, g.tobefnz)
    case CallFin => g.sweep.Done? && AllWhite(g, g.allgc) && AllWhite(g, g.finobj) && AllWhite(g, g.tobefnz)
    case Pause => g.sweep.Done? && AllWhite(g, g.allgc) && AllWhite(g, g.finobj) && AllWhite(g, g.tobefnz)
    case _ => true
  }

  /** What the sweep has passed is white, and only 'allgc' can still hold dead objects. */
  ghost predicate SweepOk(g: World) {
    forall k: nat {:trigger Open(k)} :: Open(k) ==> SweepDef(g)
  }

  ghost predicate MarkStateOk(g: World) {
    forall k: nat {:trigger Open(k)} :: Open(k) ==> InMark(g.phase) ==> MarkState(g.h, g.c, g.l, Bound(g))
  }

  ghost predicate PropagationOk(g: World) {
    forall k: nat {:trigger Open(k)} :: Open(k) ==> InMark(g.phase) ==> PropagationLists(g.h, g.c, g.l)
  }

  /** While marking, no object is dead, and the main thread and what awaits finalization are marked. */
  ghost predicate NoDead(g: World) {
    forall k: nat {:trigger Open(k)} :: Open(k) ==> InMark(g.phase) ==>
      && (forall o {:trigger g.c[o]} :: o in g.c ==> g.c[o] != OtherWhite(g.w))
      && Marked(g.c, g.main) && ListMarked(g.c, g.tobefnz) && g.sweep == Done
  }

  /** While marking, no black object points to a white one. */
  ghost predicate Coloured(g: World) {
    forall k: nat {:trigger Open(k)} :: Open(k) ==> InMark(g.phase) ==> TriColour(g.h, g.c)
  }

  // ----- the invariant -----

  ghost predicate Shape(g: World) {
    Basic(g) && TypedOk(g) && KindsOk(g) && Owned(g) && ListsOk(g) && Below(g)
  }

  ghost predicate Life(g: World) {
    AliveClosed(g) && RootsAlive(g) && TwupsOk(g) && GarbageKept(g) && GarbageSwept(g) && SweepOk(g)
  }

  ghost predicate Core(g: World) {
    Shape(g) && Life(g) && MarkStateOk(g) && PropagationOk(g) && NoDead(g)
  }

  /** The invariant that every step of the collector and of the program keeps. */
  ghost predicate Sound(g: World) {
    Core(g) && Coloured(g)
  }

  function InitialWorld(): World {
    World(map[0 := Thread([], {})], map[0 := White0], Lists([], [], [], [], [], []), [], White0, Pause, Done, [0], [],
      [], [], 0, 0, Nil, [Nil, Nil, Nil, Nil, Nil, Nil, Nil, Nil, Nil], 1, {}, map[])
  }

  lemma InitialRoots(o: Ref)
    requires o in Roots(InitialWorld())
    ensures o == 0
  {
    var g := InitialWorld();
    assert forall k :: 0 <= k < |g.mt| ==> g.mt[k] == Nil;
    assert Obj(o) !in g.mt;
  }

  lemma InitialShape()
    ensures Shape(InitialWorld())
  {
    var g := InitialWorld();
    assert forall o, r :: o in g.h ==> !Points(g.h, o, r);
    forall o ensures ListTimes(g, o) == if o in g.h then 1 else 0 {}
  }

  lemma InitialAlive()
    ensures AliveClosed(InitialWorld()) && TwupsOk(InitialWorld())
  {
    var g := InitialWorld();
    assert forall o, r :: o in g.h ==> !Points(g.h, o, r);
  }

  lemma InitialRootsAlive()
    ensures RootsAlive(InitialWorld())
  {
    forall o | o in Roots(InitialWorld()) ensures o == 0 { InitialRoots(o); }
  }

  lemma InitialSwept()
    ensures GarbageKept(InitialWorld()) && GarbageSwept(InitialWorld()) && SweepOk(InitialWorld())
  {
  }

  /** A new state satisfies the invariant. */
  lemma InitialSound()
    ensures Sound(InitialWorld())
  {
    InitialShape();
    InitialAlive();
    InitialRootsAlive();
    InitialSwept();
  }

  // ----- safety, from the invariant -----

  /** Whatever the program can still reach is neither freed nor waiting to be freed. */
  lemma AccessibleAlive(g: World, o: Ref)
    requires AliveClosed(g) && RootsAlive(g) && GarbageKept(g) && Accessible(g, o)
    ensures Alive(g, o) && o !in g.garbage
  {
    assert Open(0);
    var kept := iset x: Ref | Alive(g, x) && x !in g.garbage;
    ReachableStaysIn(g.h, Roots(g), kept, o);
  }

  /** What the invariant says of every state of a run. Each object is on exactly one of the lists of objects. While
      marking, no black object refers to a white one, and a gray object that has a place in a gray list waits in exactly
      one of them. Nothing that the program can reach is freed, or dead. */
  lemma AtEveryState(g: World, o: Ref)
    requires Sound(g)
    ensures ListTimes(g, o) == if o in g.h then 1 else 0
    ensures InMark(g.phase) && o in g.h && o in g.c && g.c[o] == Black ==>
      forall r {:trigger Points(g.h, o, r)} :: Points(g.h, o, r) ==> r in g.h && Marked(g.c, r)
    ensures InMark(g.phase) ==> Times(g.l, o) == if o in g.h && o in g.c && g.c[o] == Gray && g.h[o].Listable() then 1
      else 0
    ensures Accessible(g, o) ==> o in g.h && Alive(g, o)
  {
    assert Open(0);
    if Accessible(g, o) { AccessibleAlive(g, o); }
  }

  /** A short string in the heap, with its content. */
  predicate IsString(g: World, o: Ref, s: string) {
    o in g.h && g.h[o].Str? && o in g.names && g.names[o] == s
  }

  /** Short strings are the same object exactly if they have the same content. */
  lemma OneString(g: World, x: Ref, y: Ref, s: string, t: string)
    requires Sound(g) && IsString(g, x, s) && IsString(g, y, t)
    ensures x == y <==> s == t
  {
    assert Open(0);
    assert g.names[x] == s && g.names[y] == t;
  }

  // ----- frames: which parts of the invariant a change leaves alone -----

  lemma OwnedSame(g: World, g': World)
    requires Owned(g) && g'.h.Keys == g.h.Keys
    requires forall o :: ListTimes(g', o) == ListTimes(g, o)
    ensures Owned(g')
  {
    assert Open(0);
    forall o ensures ListTimes(g', o) == if o in g'.h then 1 else 0 { assert ListTimes(g', o) == ListTimes(g, o); }
  }

  /** The same objects of the same kinds, marked as before, in the same lists. */
  lemma ListsSame(g: World, g': World)
    requires ListsOk(g) && g'.fixedgc == g.fixedgc && g'.finobj == g.finobj && g'.tobefnz == g.tobefnz
    requires forall o :: o in g.h && o in g'.h ==>
      g'.h[o].Str? == g.h[o].Str? && g'.h[o].Table? == g.h[o].Table? && g'.h[o].Udata? == g.h[o].Udata?
    requires forall o :: o in g.h && (o in g.fixedgc || o in g.finobj || o in g.tobefnz) ==> o in g'.h
    requires forall o :: o in g.fixedgc && Marked(g.c, o) ==> Marked(g'.c, o)
    ensures ListsOk(g')
  {
    assert Open(0);
  }

  /** Fewer or the same references among the same objects, and the same objects alive. */
  lemma LifeSame(g: World, g': World)
    requires AliveClosed(g) && RootsAlive(g) && GarbageKept(g) && g'.h.Keys == g.h.Keys
    requires forall x :: Alive(g', x) == Alive(g, x)
    requires forall x, r :: x in g'.h && Points(g'.h, x, r) ==> Points(g.h, x, r)
    requires Roots(g') <= Roots(g) && g'.garbage == g.garbage && g'.finobj == g.finobj
    requires forall o :: o in g.h ==> g'.h[o].IsUpval() == g.h[o].IsUpval()
    ensures AliveClosed(g') && RootsAlive(g') && GarbageKept(g')
  {
    assert Open(0);
    forall o | o in Roots(g') ensures Alive(g', o) && o !in g'.garbage && !g'.h[o].IsUpval() { assert Alive(g, o); }
    forall x, r | Alive(g', x) && Points(g'.h, x, r) ensures Alive(g', r) {
      assert Alive(g, x) && Points(g.h, x, r);
    }
  }

  /** Whatever happens to the heap, new objects have no name. */
  lemma InternedLess(g: World, g': World)
    requires Interned(g) && g'.names == g.names && g.newref <= g'.newref
    requires forall o {:trigger o in g'.h} :: o in g'.h && o < g.newref ==> o in g.h && g'.h[o].Str? == g.h[o].Str?
    ensures Interned(g')
  {
  }

  lemma BelowSame(g: World, g': World)
    requires Below(g) && g'.h.Keys == g.h.Keys && g'.garbage == g.garbage && g'.newref == g.newref
    requires g'.names == g.names && forall o :: o in g.h ==> g'.h[o].Str? == g.h[o].Str?
    requires forall x: Ref, r: Ref :: x in g'.h && Points(g'.h, x, r) ==> Points(g.h, x, r) || r in g.h
    ensures Below(g')
  {
    assert Open(0);
    forall o | o in g'.h ensures o < g'.newref { assert o in g.h; }
  }

  lemma TwupsSame(g: World, g': World)
    requires TwupsOk(g) && g'.tw == g.tw && forall x :: Alive(g', x) == Alive(g, x)
    requires forall t :: t in g.h && t in g'.h ==> g'.h[t].Thread? == g.h[t].Thread?
    requires forall t :: t in g.h && t in g'.h && g.h[t].Thread? && g.h[t].upvals == {} ==> g'.h[t].upvals == {}
    ensures TwupsOk(g')
  {
    assert Open(0);
    forall t | Alive(g', t) && g'.h[t].Thread? && g'.h[t].upvals != {} ensures t in g'.tw {
      assert Alive(g, t) && g.h[t].Thread?;
    }
    forall t | t in g'.tw ensures Alive(g', t) && g'.h[t].Thread? { assert Alive(g, t) && g.h[t].Thread?; }
  }

  /** White objects stay white, live ones alive, and lists and phase are the same. */
  lemma SweepSame(g: World, g': World)
    requires SweepOk(g) && GarbageSwept(g) && g'.phase == g.phase && g'.sweep == g.sweep && g'.w == g.w
    requires g'.garbage == g.garbage
    requires g'.allgc == g.allgc && g'.finobj == g.finobj && g'.tobefnz == g.tobefnz && g'.h.Keys == g.h.Keys
    requires forall x :: Alive(g', x) == Alive(g, x)
    requires forall x :: x in g.c && g.c[x] == g.w ==> x in g'.c && g'.c[x] == g.w
    ensures SweepOk(g') && GarbageSwept(g')
  {
    assert Open(0);
    WhiteSame(g, g', g.allgc);
    WhiteSame(g, g', g.finobj);
    WhiteSame(g, g', g.tobefnz);
    WhiteSame(g, g', Behind(g.allgc, g.sweep));
    WhiteSame(g, g', Behind(g.finobj, g.sweep));
    WhiteSame(g, g', Behind(g.tobefnz, g.sweep));
  }

  lemma WhiteSame(g: World, g': World, l: seq<Ref>)
    requires g'.w == g.w && forall x :: Alive(g', x) == Alive(g, x)
    requires forall x :: x in g.c && g.c[x] == g.w ==> x in g'.c && g'.c[x] == g.w
    ensures AllWhite(g, l) ==> AllWhite(g', l)
    ensures NoneDead(g, l) ==> NoneDead(g', l)
  {
    if NoneDead(g, l) {
      forall o | o in l ensures Alive(g', o) { assert Alive(g, o); }
    }
  }

  lemma OwnedListed(g: World)
    requires Owned(g)
    ensures forall o :: o in g.allgc || o in g.finobj || o in g.tobefnz || o in g.fixedgc ==> o in g.h
    ensures forall o :: o in g.h ==> o in g.allgc || o in g.finobj || o in g.tobefnz || o in g.fixedgc
  {
    assert Open(0);
    forall o | o in g.allgc || o in g.finobj || o in g.tobefnz || o in g.fixedgc
      ensures o in g.h { assert ListTimes(g, o) >= 1; }
    forall o | o in g.h
      ensures o in g.allgc || o in g.finobj || o in g.tobefnz || o in g.fixedgc { assert ListTimes(g, o) == 1; }
  }
}
