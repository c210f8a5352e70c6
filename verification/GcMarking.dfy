/** Invariants of the marking phases, stated on plain values: colours, gray lists and their relation to the heap
    (lgc.h:15-25, lstate.h:56-81). */
module GcMarking {
  import opened GcObjects
  import opened Folding

  /** The gray lists; `detached` is a list a running collector function has unhooked and still walks. */
  datatype Lists = Lists(gray: seq<Ref>, grayagain: seq<Ref>, weak: seq<Ref>,
                         ephemeron: seq<Ref>, allweak: seq<Ref>, detached: seq<Ref>)

  ghost function Times(l: Lists, o: Ref): nat {
    multiset(l.gray)[o] + multiset(l.grayagain)[o] + multiset(l.weak)[o]
    + multiset(l.ephemeron)[o] + multiset(l.allweak)[o] + multiset(l.detached)[o]
  }

  /** Every gray object that can be listed is in exactly one gray list, once; nothing else is in any. */
  ghost predicate GrayListed(h: Heap, c: Colors, l: Lists) {
    forall o {:trigger Times(l, o)} ::
      Times(l, o) == if o in h && o in c && c[o] == Gray && h[o].Listable() then 1 else 0
  }

  ghost predicate Marked(c: Colors, o: Ref) { o in c && !IsWhite(c[o]) }

  ghost predicate ValueMarked(c: Colors, v: Value) { v.Obj? ==> Marked(c, v.ref) }

  ghost predicate ValuesMarked(c: Colors, vs: seq<Value>) {
    forall i {:trigger vs[i]} :: 0 <= i < |vs| ==> ValueMarked(c, vs[i])
  }

  ghost predicate AllMarked(h: Heap, c: Colors, o: Ref)
    requires o in h
  {
    forall r {:trigger Points(h, o, r)} :: Points(h, o, r) ==> Marked(c, r)
  }

  /** Every reference leads to an object of the heap. */
  ghost predicate Closed(h: Heap) {
    forall o, r {:trigger Points(h, o, r)} :: o in h && Points(h, o, r) ==> r in h
  }

  /** The tri-colour invariant: a black object never points to a white one. */
  ghost predicate TriColour(h: Heap, c: Colors) {
    forall o {:trigger c[o]} :: o in h && o in c && c[o] == Black ==> AllMarked(h, c, o)
  }

  /** The colours a marked object of each kind may have. */
  ghost predicate Kinds(h: Heap, c: Colors) {
    forall o {:trigger c[o]} :: o in h && o in c && !IsWhite(c[o]) && !h[o].Listable() && !h[o].Str? ==>
      c[o] == if h[o].OpenUp? then Gray else Black
  }

  ghost predicate Bounded(c: Colors, bound: iset<Ref>) {
    forall o {:trigger c[o]} {:trigger o in bound} :: Marked(c, o) ==> o in bound
  }

  function Whites(c: Colors): set<Ref> { set o | o in c && IsWhite(c[o]) }

  // ----- how marking changes colours -----

  /** What marking an object has achieved for it: queued for a visit, or done with all it refers to. */
  ghost predicate Finished(h: Heap, c: Colors, o: Ref)
    requires o in h && o in c
  {
    if h[o].Listable() then c[o] == Gray
    else c[o] == (if h[o].OpenUp? then Gray else Black) && AllMarked(h, c, o)
  }

  /** Only white objects change, to marked ones that are queued or finished. */
  ghost predicate Extends(h: Heap, c: Colors, c': Colors) {
    && c'.Keys == c.Keys
    && (forall o {:trigger c'[o]} {:trigger c[o]} :: o in c ==>
          && (!IsWhite(c[o]) ==> c'[o] == c[o])
          && (IsWhite(c'[o]) ==> c'[o] == c[o])
          && (o in h && IsWhite(c[o]) && !IsWhite(c'[o]) ==> Finished(h, c', o)))
  }

  /** Marks are only added; a white object keeps its white. */
  ghost predicate Grows(c: Colors, c': Colors) {
    && c'.Keys == c.Keys
    && (forall o {:trigger c'[o]} {:trigger c[o]} :: o in c ==>
          (!IsWhite(c[o]) ==> !IsWhite(c'[o])) && (IsWhite(c'[o]) ==> c'[o] == c[o]))
  }

  lemma GrowsTrans(c: Colors, c': Colors, c'': Colors)
    requires Grows(c, c') && Grows(c', c'')
    ensures Grows(c, c'')
  {
    forall o | o in c
      ensures (!IsWhite(c[o]) ==> !IsWhite(c''[o])) && (IsWhite(c''[o]) ==> c''[o] == c[o])
    {
      assert o in c' && (!IsWhite(c[o]) ==> !IsWhite(c'[o]));
    }
  }

  lemma ExtendsTrans(h: Heap, c: Colors, c': Colors, c'': Colors)
    requires c.Keys == h.Keys && Extends(h, c, c') && Extends(h, c', c'')
    ensures Extends(h, c, c'')
  {
    forall o | o in c && IsWhite(c[o]) && !IsWhite(c''[o]) ensures Finished(h, c'', o) {
      if !IsWhite(c'[o]) {
        assert c''[o] == c'[o] && Finished(h, c', o);
        FinishedGrows(h, c', c'', o);
      }
    }
    forall o | o in c ensures !IsWhite(c[o]) ==> c''[o] == c[o] {
      assert !IsWhite(c[o]) ==> c'[o] == c[o];
    }
    forall o | o in c && IsWhite(c''[o]) ensures c''[o] == c[o] {
      assert c''[o] == c'[o];
    }
  }

  /** Marking never lengthens the way to the end: a queued object was white before. */
  ghost predicate Spreads(h: Heap, c: Colors, g: seq<Ref>, c': Colors, g': seq<Ref>) {
    Extends(h, c, c') && |g'| + |Whites(c')| <= |g| + |Whites(c)|
  }

  /** Nothing but strings, and possibly `o`, has been marked. */
  ghost predicate OnlyStrings(h: Heap, c: Colors, c': Colors, o: Ref) {
    forall x {:trigger c'[x]} {:trigger c[x]} ::
      x in c && x in c' && x in h && x != o && IsWhite(c[x]) && !IsWhite(c'[x]) ==> h[x].Str?
  }

  /** Extends, except that `o` itself may become gray again. */
  ghost predicate ExtendsBut(h: Heap, c: Colors, c': Colors, o: Ref) {
    && c'.Keys == c.Keys && Marked(c', o)
    && (forall x {:trigger c'[x]} {:trigger c[x]} :: x in c && x != o ==>
          && (!IsWhite(c[x]) ==> c'[x] == c[x])
          && (IsWhite(c'[x]) ==> c'[x] == c[x])
          && (x in h && IsWhite(c[x]) && !IsWhite(c'[x]) ==> Finished(h, c', x)))
  }

  lemma ExtendsThenGray(h: Heap, c: Colors, c': Colors, o: Ref)
    requires c.Keys == h.Keys && Extends(h, c, c') && o in c && c[o] == Black && h[o].Listable()
    ensures ExtendsBut(h, c, c'[o := Gray], o) && Whites(c'[o := Gray]) == Whites(c')
    ensures OnlyStrings(h, c, c', o) ==> OnlyStrings(h, c, c'[o := Gray], o)
  {
    var c2 := c'[o := Gray];
    forall x | x in c && x != o && IsWhite(c[x]) && !IsWhite(c2[x]) ensures Finished(h, c2, x) {
      assert c2[x] == c'[x] && Finished(h, c', x);
      if !h[x].Listable() {
        forall r | Points(h, x, r) ensures Marked(c2, r) { assert Marked(c', r); }
      }
    }
    forall x | x in c && x != o
      ensures c2[x] == c'[x] && (!IsWhite(c[x]) ==> c2[x] == c[x]) && (IsWhite(c2[x]) ==> c2[x] == c[x])
    {
    }
  }

  lemma SpreadsTrans(h: Heap, c: Colors, g: seq<Ref>, c': Colors, g': seq<Ref>, c'': Colors, g'': seq<Ref>)
    requires c.Keys == h.Keys && Spreads(h, c, g, c', g') && Spreads(h, c', g', c'', g'')
    ensures Spreads(h, c, g, c'', g'')
    ensures forall o {:trigger OnlyStrings(h, c, c'', o)} :: OnlyStrings(h, c, c', o) && OnlyStrings(h, c', c'', o) ==>
      OnlyStrings(h, c, c'', o)
  {
    ExtendsTrans(h, c, c', c'');
    forall o | OnlyStrings(h, c, c', o) && OnlyStrings(h, c', c'', o) ensures OnlyStrings(h, c, c'', o) {
      forall x | x in c && x in c'' && x in h && x != o && IsWhite(c[x]) && !IsWhite(c''[x]) ensures h[x].Str? {
        assert x in c';
      }
    }
  }

  lemma FinishedGrows(h: Heap, c: Colors, c': Colors, o: Ref)
    requires o in h && o in c && Grows(c, c') && Finished(h, c, o) && c'[o] == c[o]
    ensures Finished(h, c', o)
  {
    forall r | !h[o].Listable() && Points(h, o, r) ensures Marked(c', r) {
      assert Marked(c, r);
    }
  }

  lemma TriColourExtends(h: Heap, c: Colors, c': Colors)
    requires c.Keys == h.Keys && TriColour(h, c) && Extends(h, c, c')
    ensures TriColour(h, c')
  {
    forall o | o in h && o in c' && c'[o] == Black ensures AllMarked(h, c', o) {
      if c[o] == Black {
        forall r | Points(h, o, r) ensures Marked(c', r) { assert Marked(c, r); }
      } else {
        assert Finished(h, c', o);
      }
    }
  }

  lemma WhitesShrink(c: Colors, c': Colors)
    requires Grows(c, c')
    ensures Whites(c') <= Whites(c) && |Whites(c')| <= |Whites(c)|
    ensures (exists o :: o in c && IsWhite(c[o]) && !IsWhite(c'[o])) ==> |Whites(c')| < |Whites(c)|
  {
    SubsetSize(Whites(c'), Whites(c));
    if o :| o in c && IsWhite(c[o]) && !IsWhite(c'[o]) {
      SubsetSize(Whites(c'), Whites(c) - {o});
    }
  }

  lemma {:induction false} SubsetSize<T>(a: set<T>, b: set<T>)
    requires a <= b
    ensures |a| <= |b|
  {
    if a != {} {
      var x :| x in a;
      SubsetSize(a - {x}, b - {x});
    }
  }

  /** What a marked object keeps lies in the heap and within the bound. */
  lemma KeptInBound(h: Heap, bound: iset<Ref>, o: Ref, r: Ref)
    requires o in h && Closed(h) && MarkClosed(h, bound) && o in bound
    requires Keeps(h, bound, o, r)
    ensures r in h && r in bound
  {
    KeepsPoints(h, bound, o, r);
  }

  /** Painting a white object whose marking is thereby finished. */
  lemma PaintExtends(h: Heap, c: Colors, o: Ref, k: Color)
    requires c.Keys == h.Keys && o in c && IsWhite(c[o]) && !IsWhite(k)
    requires Finished(h, c[o := k], o)
    ensures Extends(h, c, c[o := k])
    ensures |Whites(c[o := k])| == |Whites(c)| - 1
  {
    assert Whites(c[o := k]) == Whites(c) - {o};
  }

  /** An object painted before what it refers to is marked ends up finished. */
  lemma PaintFirst(h: Heap, c: Colors, o: Ref, k: Color, c': Colors)
    requires c.Keys == h.Keys && o in c && IsWhite(c[o]) && !IsWhite(k) && !h[o].Listable()
    requires k == if h[o].OpenUp? then Gray else Black
    requires Extends(h, c[o := k], c') && AllMarked(h, c', o)
    ensures Extends(h, c, c')
    ensures |Whites(c[o := k])| == |Whites(c)| - 1
  {
    var c1 := c[o := k];
    assert Whites(c1) == Whites(c) - {o};
    assert c'[o] == k;
    forall x | x in c && x != o
      ensures c1[x] == c[x]
      ensures (!IsWhite(c[x]) ==> c'[x] == c[x]) && (IsWhite(c'[x]) ==> c'[x] == c[x])
      ensures x in h && IsWhite(c[x]) && !IsWhite(c'[x]) ==> Finished(h, c', x)
    {
      assert c1[x] == c[x];
    }
  }

  /** An object without user values painted after what it refers to is marked. */
  lemma PaintLast(h: Heap, c: Colors, c': Colors, o: Ref)
    requires c.Keys == h.Keys && o in c && IsWhite(c[o]) && h[o].Udata? && !h[o].Listable()
    requires Extends(h, c, c') && AllMarked(h, c', o) && Kinds(h, c')
    ensures Extends(h, c, c'[o := Black]) && Kinds(h, c'[o := Black])
    ensures |Whites(c'[o := Black])| <= |Whites(c')|
  {
    var c2 := c'[o := Black];
    assert Whites(c2) == Whites(c') - {o};
    assert IsWhite(c'[o]) || c'[o] == Black;
    forall r | Points(h, o, r) ensures Marked(c2, r) { assert Marked(c', r); }
    assert Extends(h, c', c2) by {
      forall x | x in c' && IsWhite(c'[x]) && !IsWhite(c2[x]) ensures Finished(h, c2, x) { assert x == o; }
    }
    ExtendsTrans(h, c, c', c2);
  }

  // ----- linking and unlinking -----

  ghost predicate Pushed(l: Lists, l': Lists, o: Ref) {
    || l' == l.(gray := [o] + l.gray)
    || l' == l.(grayagain := [o] + l.grayagain)
    || l' == l.(weak := [o] + l.weak)
    || l' == l.(ephemeron := [o] + l.ephemeron)
    || l' == l.(allweak := [o] + l.allweak)
  }

  lemma PushedTimes(l: Lists, l': Lists, o: Ref)
    requires Pushed(l, l', o)
    ensures forall x {:trigger Times(l', x)} :: Times(l', x) == Times(l, x) + if x == o then 1 else 0
  {
  }

  /** Linking a listable object that is not gray into a list and painting it gray. */
  lemma Link(h: Heap, c: Colors, l: Lists, l': Lists, o: Ref)
    requires GrayListed(h, c, l) && Pushed(l, l', o)
    requires o in h && o in c && c[o] != Gray && h[o].Listable()
    ensures GrayListed(h, c[o := Gray], l')
  {
    PushedTimes(l, l', o);
    forall x ensures Times(l', x) == if x in h && x in c[o := Gray] && c[o := Gray][x] == Gray && h[x].Listable()
      then 1 else 0 {
      assert Times(l', x) == Times(l, x) + if x == o then 1 else 0;
    }
  }

  /** Taking the first object off the gray list and painting it black. */
  lemma UnlinkGray(h: Heap, c: Colors, l: Lists)
    requires GrayListed(h, c, l) && l.gray != []
    ensures var o := l.gray[0]; o in h && o in c && c[o] == Gray && h[o].Listable()
    ensures GrayListed(h, c[l.gray[0] := Black], l.(gray := l.gray[1..]))
  {
    var o := l.gray[0];
    var l' := l.(gray := l.gray[1..]);
    assert l.gray == [o] + l'.gray;
    PushedTimes(l', l, o);
    assert Times(l, o) == Times(l', o) + 1;
    forall x ensures Times(l', x) == if x in h && x in c[o := Black] && c[o := Black][x] == Gray && h[x].Listable()
      then 1 else 0 {
      assert Times(l, x) == Times(l', x) + if x == o then 1 else 0;
    }
  }

  /** The same for a list that was detached. */
  lemma UnlinkDetached(h: Heap, c: Colors, l: Lists)
    requires GrayListed(h, c, l) && l.detached != []
    ensures var o := l.detached[0]; o in h && o in c && c[o] == Gray && h[o].Listable()
    ensures GrayListed(h, c[l.detached[0] := Black], l.(detached := l.detached[1..]))
  {
    var o := l.detached[0];
    var l' := l.(detached := l.detached[1..]);
    assert l.detached == [o] + l'.detached;
    assert forall x :: Times(l, x) == Times(l', x) + if x == o then 1 else 0;
    assert Times(l, o) == Times(l', o) + 1;
    forall x ensures Times(l', x) == if x in h && x in c[o := Black] && c[o := Black][x] == Gray && h[x].Listable()
      then 1 else 0 {
      assert Times(l, x) == Times(l', x) + if x == o then 1 else 0;
    }
  }

  /** Painting objects that are in no list, and are not meant to be, changes nothing for the lists. */
  lemma PaintUnlisted(h: Heap, c: Colors, l: Lists, o: Ref, k: Color)
    requires GrayListed(h, c, l) && o in h && o in c
    requires !h[o].Listable() || (c[o] != Gray && k != Gray)
    ensures GrayListed(h, c[o := k], l)
  {
    forall x ensures Times(l, x) == if x in h && x in c[o := k] && c[o := k][x] == Gray && h[x].Listable() then 1
      else 0 {
      assert Times(l, x) == if x in h && x in c && c[x] == Gray && h[x].Listable() then 1 else 0;
    }
  }

  lemma ShrinkListed(h: Heap, h': Heap, c: Colors, l: Lists)
    requires GrayListed(h, c, l) && HeapShrinks(h, h')
    ensures GrayListed(h', c, l)
  {
    forall x ensures Times(l, x) == if x in h' && x in c && c[x] == Gray && h'[x].Listable() then 1 else 0 {
      assert x in h ==> BodyShrinks(h[x], h'[x]);
    }
  }

  /** Members of a list are gray, listable objects of the heap. */
  lemma Member(h: Heap, c: Colors, l: Lists, o: Ref)
    requires GrayListed(h, c, l)
    requires o in l.gray || o in l.grayagain || o in l.weak || o in l.ephemeron || o in l.allweak || o in l.detached
    ensures o in h && o in c && c[o] == Gray && h[o].Listable()
  {
    assert Times(l, o) >= 1;
  }

  // ----- lists of the propagation phase -----

  ghost predicate IsWeak(b: Body) { b.Table? && b.mode != Strong }

  /** While the mutator runs, threads and weak tables are never black, and only tables whose keys and values are
      both weak wait outside 'gray' and 'grayagain'. */
  ghost predicate PropagationLists(h: Heap, c: Colors, l: Lists) {
    && l.weak == [] && l.ephemeron == [] && l.detached == []
    && (forall o {:trigger o in l.allweak} :: o in l.allweak && o in h ==>
          h[o].Table? && h[o].mode == AllWeak && ValueMarked(c, h[o].meta))
    && (forall o {:trigger c[o]} :: o in h && o in c && (h[o].Thread? || IsWeak(h[o])) ==> c[o] != Black)
  }

  // ----- lists of the atomic phase -----

  ghost predicate KeysMarked(c: Colors, ns: seq<Node>) {
    forall i {:trigger ns[i]} :: 0 <= i < |ns| && ns[i].val != Nil && ns[i].key.Live? ==> ValueMarked(c, ns[i].key.v)
  }

  ghost predicate NodeValuesMarked(c: Colors, ns: seq<Node>) {
    forall i {:trigger ns[i]} :: 0 <= i < |ns| ==> ValueMarked(c, ns[i].val)
  }

  /** Empty entries hold no collectable key. */
  ghost predicate Clean(ns: seq<Node>) {
    forall i {:trigger ns[i]} :: 0 <= i < |ns| && ns[i].val == Nil && ns[i].key.Live? ==> !ns[i].key.v.Obj?
  }

  ghost predicate KeyMarked(c: Colors, k: Key) { k.Live? ==> ValueMarked(c, k.v) }

  /** The ephemeron condition: a marked key (or one that is not collectable) implies a marked value. */
  ghost predicate EphemeronClosed(h: Heap, c: Colors, ns: seq<Node>) {
    forall i {:trigger ns[i]} :: 0 <= i < |ns| ==> EphemeronNode(h, c, ns[i])
  }

  ghost predicate WeakListed(c: Colors, b: Body) {
    b.Table? && b.mode == WeakValues && ValueMarked(c, b.meta) && KeysMarked(c, b.nodes)
  }

  ghost predicate EphemeronListed(c: Colors, b: Body) {
    b.Table? && b.mode == Ephemeron && ValueMarked(c, b.meta) && ValuesMarked(c, b.arr) && Clean(b.nodes)
  }

  ghost predicate AllWeakListed(c: Colors, b: Body) {
    && b.Table? && ValueMarked(c, b.meta)
    && (b.mode == AllWeak || (EphemeronListed(c, b) && NodeValuesMarked(c, b.nodes)))
  }

  /** In the atomic phase each list tells how far its members have been visited. */
  ghost predicate AtomicLists(h: Heap, c: Colors, l: Lists) {
    && (forall o {:trigger o in l.weak} :: o in l.weak && o in h ==> WeakListed(c, h[o]))
    && (forall o {:trigger o in l.grayagain} :: o in l.grayagain && o in h ==> IsWeak(h[o]) && AllMarked(h, c, o))
    && (forall o {:trigger o in l.ephemeron} :: o in l.ephemeron && o in h ==> EphemeronListed(c, h[o]))
    && (forall o {:trigger o in l.allweak} :: o in l.allweak && o in h ==> AllWeakListed(c, h[o]))
  }

  lemma WeakListedGrows(c: Colors, c': Colors, b: Body, b': Body)
    requires Grows(c, c') && BodyShrinks(b, b')
    ensures WeakListed(c, b) ==> WeakListed(c', b')
  {
    if WeakListed(c, b) && b' != b {
      forall i | 0 <= i < |b'.nodes| && b'.nodes[i].val != Nil && b'.nodes[i].key.Live?
        ensures ValueMarked(c', b'.nodes[i].key.v)
      {
        assert NodeShrinks(b.nodes[i], b'.nodes[i]);
      }
    }
  }

  lemma EphemeronListedGrows(c: Colors, c': Colors, b: Body, b': Body)
    requires Grows(c, c') && BodyShrinks(b, b')
    ensures EphemeronListed(c, b) && (b' != b ==> Clean(b'.nodes)) ==> EphemeronListed(c', b')
  {
  }

  lemma AllWeakListedGrows(c: Colors, c': Colors, b: Body, b': Body)
    requires Grows(c, c') && BodyShrinks(b, b')
    ensures AllWeakListed(c, b) && (b' != b ==> Clean(b'.nodes)) ==> AllWeakListed(c', b')
  {
    EphemeronListedGrows(c, c', b, b');
    if AllWeakListed(c, b) && b.mode != AllWeak && b' != b {
      forall i | 0 <= i < |b'.nodes| ensures ValueMarked(c', b'.nodes[i].val) {
        assert NodeShrinks(b.nodes[i], b'.nodes[i]);
        assert ValueMarked(c, b.nodes[i].val);
      }
    }
  }

  lemma AllMarkedGrows(h: Heap, h': Heap, c: Colors, c': Colors, o: Ref)
    requires Grows(c, c') && HeapShrinks(h, h') && o in h && AllMarked(h, c, o)
    ensures AllMarked(h', c', o)
  {
    forall r | Points(h', o, r) ensures Marked(c', r) {
      ShrinkPoints(h, h', o, r);
      assert Marked(c, r);
    }
  }

  /** Every object whose entries were removed has had its dead keys cleared as well. */
  ghost predicate CleanShrink(h: Heap, h': Heap) {
    && HeapShrinks(h, h')
    && forall o {:trigger h'[o]} {:trigger h[o]} :: o in h && h'[o] != h[o] ==> Clean(h'[o].nodes)
  }

  lemma CleanShrinkTrans(h: Heap, h': Heap, h'': Heap)
    requires CleanShrink(h, h') && CleanShrink(h', h'')
    ensures CleanShrink(h, h'')
  {
    ShrinkTrans(h, h', h'');
    forall o | o in h && h''[o] != h[o] ensures Clean(h''[o].nodes) {
      assert BodyShrinks(h[o], h'[o]);
      if h''[o] == h'[o] { assert h'[o] != h[o]; }
    }
  }

  lemma AtomicListsGrow(h: Heap, h': Heap, c: Colors, c': Colors, l: Lists)
    requires Grows(c, c') && CleanShrink(h, h') && AtomicLists(h, c, l)
    ensures AtomicLists(h', c', l)
  {
    forall o | o in l.weak && o in h' ensures WeakListed(c', h'[o]) {
      WeakListedGrows(c, c', h[o], h'[o]);
    }
    forall o | o in l.grayagain && o in h' ensures IsWeak(h'[o]) && AllMarked(h', c', o) {
      assert BodyShrinks(h[o], h'[o]);
      AllMarkedGrows(h, h', c, c', o);
    }
    forall o | o in l.ephemeron && o in h' ensures EphemeronListed(c', h'[o]) {
      EphemeronListedGrows(c, c', h[o], h'[o]);
    }
    forall o | o in l.allweak && o in h' ensures AllWeakListed(c', h'[o]) {
      AllWeakListedGrows(c, c', h[o], h'[o]);
    }
  }

  /** A marked open upvalue has a marked value, or its thread is still waiting to be visited. */
  ghost predicate UpvalsDone(h: Heap, c: Colors) {
    forall u {:trigger c[u]} :: u in h && u in c && h[u].OpenUp? && c[u] == Gray ==>
      AllMarked(h, c, u) || (h[u].thread in c && c[h[u].thread] == Gray)
  }

  // ----- tables, seen through their parts -----

  lemma TableMarked(h: Heap, c: Colors, o: Ref)
    requires o in h && h[o].Table? && ValueMarked(c, h[o].meta) && ValuesMarked(c, h[o].arr)
    requires NodeValuesMarked(c, h[o].nodes) && KeysMarked(c, h[o].nodes)
    requires h[o].mode == AllWeak ==> Clean(h[o].nodes)
    ensures AllMarked(h, c, o)
  {
    forall r | Points(h, o, r) ensures Marked(c, r) {
      if Obj(r) in h[o].arr {
        var i :| 0 <= i < |h[o].arr| && h[o].arr[i] == Obj(r);
        assert ValueMarked(c, h[o].arr[i]);
      } else if NodesRefer(h[o].mode, h[o].nodes, r) {
        var i :| 0 <= i < |h[o].nodes| && NodeRefers(h[o].mode, h[o].nodes[i], r);
      }
    }
  }

  lemma SlotsMarked(c: Colors, vs: seq<Value>, r: Ref)
    requires ValuesMarked(c, vs) && Obj(r) in vs
    ensures Marked(c, r)
  {
    var i :| 0 <= i < |vs| && vs[i] == Obj(r);
    assert ValueMarked(c, vs[i]);
  }

  // ----- the state marking works on -----

  /** What marking needs and keeps. `bound` is any set that is closed under the marking rules
      and contains what is marked already: marking never leaves it. */
  ghost predicate MarkState(h: Heap, c: Colors, l: Lists, bound: iset<Ref>) {
    && c.Keys == h.Keys && Closed(h) && Typed(h) && Linked(h)
    && GrayListed(h, c, l) && Kinds(h, c) && MarkClosed(h, bound) && Bounded(c, bound)
  }

  /** Objects can be marked within a bound; folded. */
  ghost predicate Markable(h: Heap, c: Colors, l: Lists, bound: iset<Ref>) {
    c.Keys == h.Keys && forall k: nat {:trigger Open(k)} :: Open(k) ==> MarkState(h, c, l, bound)
  }

  /** A value of the array part of an ephemeron table has to be marked. */
  lemma ArraySlotKeeps(h: Heap, c: Colors, l: Lists, bound: iset<Ref>, o: Ref, i: nat)
    requires Markable(h, c, l, bound) && o in h && o in bound && h[o].Table? && h[o].mode == Ephemeron
    requires i < |h[o].arr| && h[o].arr[i].Obj?
    ensures h[o].arr[i].ref in h && h[o].arr[i].ref in bound
  {
    assert Open(0);
    assert Keeps(h, bound, o, h[o].arr[i].ref);
    KeptInBound(h, bound, o, h[o].arr[i].ref);
  }

  lemma MarkStateShrinks(h: Heap, h': Heap, c: Colors, l: Lists, bound: iset<Ref>)
    requires MarkState(h, c, l, bound) && HeapShrinks(h, h')
    ensures MarkState(h', c, l, bound)
  {
    ShrinkMarkClosed(h, h', bound);
    ShrinkTyped(h, h');
    ShrinkListed(h, h', c, l);
    forall o, r | o in h' && Points(h', o, r) ensures r in h' {
      ShrinkPoints(h, h', o, r);
    }
    forall o | o in h' && o in c && !IsWhite(c[o]) && !h'[o].Listable() && !h'[o].Str?
      ensures c[o] == if h'[o].OpenUp? then Gray else Black
    {
      assert BodyShrinks(h[o], h'[o]);
    }
  }

  lemma ExtendsShrinks(h: Heap, h': Heap, c: Colors, c': Colors)
    requires c.Keys == h.Keys && Extends(h, c, c') && HeapShrinks(h, h')
    ensures Extends(h', c, c')
  {
    forall o | o in c && IsWhite(c[o]) && !IsWhite(c'[o]) ensures Finished(h', c', o) {
      assert BodyShrinks(h[o], h'[o]) && Finished(h, c', o);
      if !h[o].Listable() {
        AllMarkedGrows(h, h', c', c', o);
      }
    }
  }

  lemma TriColourShrinks(h: Heap, h': Heap, c: Colors)
    requires c.Keys == h.Keys && TriColour(h, c) && HeapShrinks(h, h')
    ensures TriColour(h', c)
  {
    forall o | o in h' && o in c && c[o] == Black ensures AllMarked(h', c, o) {
      AllMarkedGrows(h, h', c, c, o);
    }
  }

  /** The condition on one node of an ephemeron table; a white key of it cannot be a string. */
  ghost predicate EphemeronNode(h: Heap, c: Colors, n: Node) {
    n.val != Nil ==>
      && (KeyMarked(c, n.key) ==> ValueMarked(c, n.val))
      && (!KeyMarked(c, n.key) ==> n.key.v.ref in h && !h[n.key.v.ref].Str?)
  }

  lemma EphemeronNodeStrings(h: Heap, c: Colors, c': Colors, n: Node, o: Ref)
    requires c.Keys == h.Keys && EphemeronNode(h, c, n) && Grows(c, c') && OnlyStrings(h, c, c', o) && Marked(c, o)
    ensures EphemeronNode(h, c', n)
  {
  }

  // ----- visiting the nodes of a table -----

  /** The key of an empty entry is marked dead: the key object may be collected. */
  function ClearKey(n: Node): (r: Node) {
    if n.key.Live? && n.key.v.Obj? then Node(DeadKey, n.val) else n
  }

  predicate NodeClean(n: Node) { n.val == Nil && n.key.Live? ==> !n.key.v.Obj? }

  /** A fully visited node: an empty entry without a collectable key, or marked key and value. */
  ghost predicate NodeVisited(c: Colors, n: Node) {
    NodeClean(n) && (n.val != Nil ==> KeyMarked(c, n.key) && ValueMarked(c, n.val))
  }

  lemma NodesVisited(c: Colors, ns: seq<Node>)
    requires forall i {:trigger ns[i]} :: 0 <= i < |ns| ==> NodeVisited(c, ns[i])
    ensures NodeValuesMarked(c, ns) && KeysMarked(c, ns) && Clean(ns)
  {
  }

  /** What a table keeps through one of its non-empty nodes. */
  lemma NodeKeeps(h: Heap, bound: iset<Ref>, o: Ref, i: nat)
    requires o in h && h[o].Table? && i < |h[o].nodes|
    ensures var n := h[o].nodes[i]; n.key.Live? && n.key.v.Obj? ==>
      && (n.val != Nil && h[o].mode in {Strong, WeakValues} ==> Keeps(h, bound, o, n.key.v.ref))
      && ((n.val != Nil || h[o].mode == AllWeak) && n.key.v.ref in h && h[n.key.v.ref].Str? ==>
        Keeps(h, bound, o, n.key.v.ref))
      && (n.val != Nil || h[o].mode == AllWeak ==> Points(h, o, n.key.v.ref))
    ensures var n := h[o].nodes[i]; n.val.Obj? ==>
      && (h[o].mode == Strong || (h[o].mode == Ephemeron && KeyIn(n.key, bound)) ==> Keeps(h, bound, o, n.val.ref))
      && (n.val.ref in h && h[n.val.ref].Str? ==> Keeps(h, bound, o, n.val.ref))
      && Points(h, o, n.val.ref)
  {
    var n := h[o].nodes[i];
    if n.key.Live? && n.key.v.Obj? && (n.val != Nil || h[o].mode == AllWeak) {
      assert NodeRefers(h[o].mode, h[o].nodes[i], n.key.v.ref);
    }
    if n.val.Obj? {
      assert NodeRefers(h[o].mode, h[o].nodes[i], n.val.ref);
    }
  }

  /** A node of a table with weak values after its visit. */
  ghost predicate WeakNode(c: Colors, n: Node) {
    NodeClean(n) && (n.val != Nil ==> KeyMarked(c, n.key))
  }

  /** What a value says about the object it denotes when it is not cleared: it is marked. */
  ghost predicate Clearable(h: Heap, c: Colors, v: Value) {
    v.Obj? && v.ref in c && IsWhite(c[v.ref]) && v.ref in h && !h[v.ref].Str?
  }

  /** What the visit of an ephemeron node has established, given what the traversal has found so far. */
  ghost predicate EphemeronVisited(h: Heap, c: Colors, n: Node, marked: bool, hasclears: bool, hasww: bool) {
    && NodeClean(n)
    && (!marked ==> EphemeronNode(h, c, n))
    && (!hasclears && n.val != Nil ==> KeyMarked(c, n.key))
    && (!hasww ==> ValueMarked(c, n.val))
  }

  lemma EphemeronVisitedGrows(h: Heap, c: Colors, c': Colors, ns: seq<Node>, o: Ref,
                              m: bool, m': bool, hc: bool, hc': bool, ww: bool, ww': bool)
    requires c.Keys == h.Keys && Grows(c, c') && Marked(c, o) && (m ==> m') && (hc ==> hc') && (ww ==> ww')
    requires !m' ==> OnlyStrings(h, c, c', o)
    ensures forall k {:trigger ns[k]} :: 0 <= k < |ns| && EphemeronVisited(h, c, ns[k], m, hc, ww) ==>
      EphemeronVisited(h, c', ns[k], m', hc', ww')
  {
    forall k | 0 <= k < |ns| && EphemeronVisited(h, c, ns[k], m, hc, ww)
      ensures EphemeronVisited(h, c', ns[k], m', hc', ww')
    {
      if !m' { EphemeronNodeStrings(h, c, c', ns[k], o); }
    }
  }

  lemma EphemeronNodesVisited(h: Heap, c: Colors, ns: seq<Node>, marked: bool, hasclears: bool, hasww: bool)
    requires forall k {:trigger ns[k]} :: 0 <= k < |ns| ==> EphemeronVisited(h, c, ns[k], marked, hasclears, hasww)
    ensures Clean(ns)
    ensures !marked ==> EphemeronClosed(h, c, ns)
    ensures !hasclears ==> KeysMarked(c, ns)
    ensures !hasww ==> NodeValuesMarked(c, ns)
  {
  }

  /** The nodes a traversal of `n` nodes has seen after `i` rounds, in either direction. */
  predicate Seen(inv: bool, n: nat, i: nat, k: int) { if inv then n - i <= k < n else 0 <= k < i }

  /** A visit of the nodes of ephemeron table `o`, with the colours and the gray list when it began. */
  datatype Visit = Visit(h: Heap, c: Colors, g: seq<Ref>, o: Ref, inv: bool)

  /** The nodes after `i` of them were visited. */
  ghost predicate NodesUpTo(v: Visit, i: nat, c: Colors, ns: seq<Node>, marked: bool, hasclears: bool, hasww: bool)
    requires v.o in v.h && v.h[v.o].Table?
  {
    && EntriesKept(v.h[v.o].nodes, ns)
    && (forall k {:trigger ns[k]} :: 0 <= k < |ns| && !Seen(v.inv, |ns|, i, k) ==> ns[k] == v.h[v.o].nodes[k])
    && (forall k {:trigger ns[k]} :: 0 <= k < |ns| && Seen(v.inv, |ns|, i, k) ==>
          EphemeronVisited(v.h, c, ns[k], marked, hasclears, hasww))
  }

  /** The colours and the gray list since the visit began. */
  ghost predicate VisitSpreads(v: Visit, c: Colors, g: seq<Ref>, marked: bool) {
    && Spreads(v.h, v.c, v.g, c, g)
    && (marked ==> |Whites(c)| < |Whites(v.c)|) && (!marked ==> g == v.g && OnlyStrings(v.h, v.c, c, v.o))
  }

  /** What is known after `i` nodes; folded. */
  ghost predicate VisitedUpTo(v: Visit, i: nat, c: Colors, g: seq<Ref>, ns: seq<Node>, marked: bool, hasclears: bool,
      hasww: bool) {
    && v.c.Keys == c.Keys == v.h.Keys && v.o in v.h && v.h[v.o].Table? && |ns| == |v.h[v.o].nodes| && Marked(c, v.o)
    && forall k: nat {:trigger Open(k)} :: Open(k) ==>
      NodesUpTo(v, i, c, ns, marked, hasclears, hasww) && VisitSpreads(v, c, g, marked)
  }

  lemma NodesGoOn(v: Visit, i: nat, c: Colors, ns: seq<Node>, k: nat, n: Node, marked: bool, hasclears: bool,
      hasww: bool)
    requires v.o in v.h && v.h[v.o].Table? && i < |ns| && k == if v.inv then |ns| - 1 - i else i
    requires NodesUpTo(v, i, c, ns, marked, hasclears, hasww) && NodeKept(v.h[v.o].nodes[k], n)
    requires EphemeronVisited(v.h, c, n, marked, hasclears, hasww)
    ensures NodesUpTo(v, i + 1, c, ns[k := n], marked, hasclears, hasww)
  {
  }

  lemma VisitSpreadsOn(v: Visit, c: Colors, g: seq<Ref>, c': Colors, g': seq<Ref>, marked: bool, m: bool)
    requires v.c.Keys == c.Keys == v.h.Keys && VisitSpreads(v, c, g, marked) && Spreads(v.h, c, g, c', g')
    requires (m ==> |Whites(c')| < |Whites(c)|) && (!m ==> g' == g && OnlyStrings(v.h, c, c', v.o))
    ensures VisitSpreads(v, c', g', marked || m)
  {
    WhitesShrink(v.c, c);
    WhitesShrink(c, c');
    SpreadsTrans(v.h, v.c, v.g, c, g, c', g');
  }

  lemma VisitBegins(v: Visit)
    requires v.c.Keys == v.h.Keys && v.o in v.h && v.h[v.o].Table? && Marked(v.c, v.o)
    ensures VisitedUpTo(v, 0, v.c, v.g, v.h[v.o].nodes, false, false, false)
  {
  }

  lemma VisitGoesOn(v: Visit, i: nat, c: Colors, g: seq<Ref>, c': Colors, g': seq<Ref>, ns: seq<Node>, k: nat, n: Node,
      marked: bool, hasclears: bool, hasww: bool, m: bool, hc: bool, ww: bool)
    requires VisitedUpTo(v, i, c, g, ns, marked, hasclears, hasww) && i < |ns| && k == if v.inv then |ns| - 1 - i else i
    requires Spreads(v.h, c, g, c', g') && NodeKept(v.h[v.o].nodes[k], n) && EphemeronVisited(v.h, c', n, m, hc, ww)
    requires (m ==> |Whites(c')| < |Whites(c)|) && (!m ==> g' == g && OnlyStrings(v.h, c, c', v.o))
    ensures VisitedUpTo(v, i + 1, c', g', ns[k := n], marked || m, hasclears || hc, hasww || ww)
  {
    assert Open(0);
    EphemeronVisitedGrows(v.h, c, c', ns, v.o, marked, marked || m, hasclears, hasclears || hc, hasww, hasww || ww);
    NodesGoOn(v, i, c', ns, k, n, marked || m, hasclears || hc, hasww || ww);
    VisitSpreadsOn(v, c, g, c', g', marked, m);
  }

  lemma VisitEnds(v: Visit, c: Colors, g: seq<Ref>, ns: seq<Node>, marked: bool, hasclears: bool, hasww: bool)
    requires v.o in v.h && v.h[v.o].Table?
    requires VisitedUpTo(v, |v.h[v.o].nodes|, c, g, ns, marked, hasclears, hasww)
    ensures Spreads(v.h, v.c, v.g, c, g) && EntriesKept(v.h[v.o].nodes, ns) && Clean(ns)
    ensures marked ==> |Whites(c)| < |Whites(v.c)|
    ensures !marked ==> g == v.g && OnlyStrings(v.h, v.c, c, v.o) && EphemeronClosed(v.h, c, ns)
    ensures (!hasclears ==> KeysMarked(c, ns)) && (!hasww ==> NodeValuesMarked(c, ns))
  {
    assert Open(0);
    EphemeronNodesVisited(v.h, c, ns, marked, hasclears, hasww);
  }

  /** The same for values of the array part; folded. */
  ghost predicate ArrayVisited(h: Heap, c0: Colors, g0: seq<Ref>, c: Colors, g: seq<Ref>, vs: seq<Value>,
      marked: bool) {
    c0.Keys == h.Keys && forall k: nat {:trigger Open(k)} :: Open(k) ==>
      && Spreads(h, c0, g0, c, g) && ValuesMarked(c, vs)
      && (marked ==> |Whites(c)| < |Whites(c0)|) && (!marked ==> c == c0 && g == g0)
  }

  lemma ArraySlotVisited(h: Heap, c0: Colors, g0: seq<Ref>, c: Colors, g: seq<Ref>, c': Colors, g': seq<Ref>,
      vs: seq<Value>, v: Value, marked: bool, m: bool)
    requires ArrayVisited(h, c0, g0, c, g, vs, marked) && Spreads(h, c, g, c', g') && ValueMarked(c', v)
    requires (m ==> |Whites(c')| < |Whites(c)|) && (!m ==> c' == c && g' == g)
    ensures ArrayVisited(h, c0, g0, c', g', vs + [v], marked || m)
  {
    assert Open(0);
    WhitesShrink(c0, c);
    WhitesShrink(c, c');
    SpreadsTrans(h, c0, g0, c, g, c', g');
  }

  lemma ArrayVisitEnds(h: Heap, c0: Colors, g0: seq<Ref>, c: Colors, g: seq<Ref>, vs: seq<Value>, marked: bool)
    requires ArrayVisited(h, c0, g0, c, g, vs, marked)
    ensures Spreads(h, c0, g0, c, g) && ValuesMarked(c, vs)
    ensures (marked ==> |Whites(c)| < |Whites(c0)|) && (!marked ==> c == c0 && g == g0)
  {
    assert Open(0);
  }

  lemma ListedGrow(c: Colors, c': Colors, b: Body)
    requires Grows(c, c')
    ensures WeakListed(c, b) ==> WeakListed(c', b)
    ensures EphemeronListed(c, b) ==> EphemeronListed(c', b)
    ensures AllWeakListed(c, b) ==> AllWeakListed(c', b)
  {
  }

  lemma StringsShrink(h: Heap, h': Heap, c: Colors, c': Colors, o: Ref)
    requires HeapShrinks(h, h') && c.Keys == h.Keys
    ensures OnlyStrings(h, c, c', o) ==> OnlyStrings(h', c, c', o)
    ensures forall ns {:trigger EphemeronClosed(h', c', ns)} :: EphemeronClosed(h, c', ns) ==>
      EphemeronClosed(h', c', ns)
  {
    assert forall x {:trigger h'[x]} :: x in h ==> BodyShrinks(h[x], h'[x]);
    forall ns | EphemeronClosed(h, c', ns) ensures EphemeronClosed(h', c', ns) {
      forall i | 0 <= i < |ns| ensures EphemeronNode(h', c', ns[i]) {
        assert EphemeronNode(h, c', ns[i]);
      }
    }
  }

  lemma EphemeronClosedSame(h: Heap, c: Colors, c': Colors, ns: seq<Node>)
    requires Grows(c, c') && Grows(c', c)
    ensures EphemeronClosed(h, c, ns) ==> EphemeronClosed(h, c', ns)
  {
  }

  /** Where the visit of `o` has left it: black, or linked into the list that fits what is known about it.
      Only this and the 'gray' list differ between `l` and `l'`. */
  ghost predicate Relisted(h: Heap, c: Colors, o: Ref, l: Lists, l': Lists, atomic: bool)
    requires o in h && o in c
  {
    var r := l'.(gray := l.gray);
    || (r == l && c[o] == Black && AllMarked(h, c, o) && (atomic || !(h[o].Thread? || IsWeak(h[o]))))
    || (c[o] == Gray && (
          || (r == l.(grayagain := [o] + l.grayagain) && (atomic ==> IsWeak(h[o]) && AllMarked(h, c, o)))
          || (r == l.(weak := [o] + l.weak) && atomic && WeakListed(c, h[o]))
          || (r == l.(ephemeron := [o] + l.ephemeron) && atomic && EphemeronListed(c, h[o]))
          || (r == l.(allweak := [o] + l.allweak) && AllWeakListed(c, h[o]) && (atomic || h[o].mode == AllWeak))))
  }

  /** Relinking does not depend on how the gray list has grown before. */
  lemma RelistedFrom(h: Heap, c: Colors, o: Ref, l: Lists, l1: Lists, l': Lists, atomic: bool)
    requires o in h && o in c && l1 == l.(gray := l1.gray) && Relisted(h, c, o, l1, l', atomic)
    ensures Relisted(h, c, o, l, l', atomic)
  {
  }

  lemma ExtendsButGrows(h: Heap, c: Colors, c': Colors, o: Ref)
    requires ExtendsBut(h, c, c', o)
    ensures Grows(c, c')
  {
  }

  /** A visit keeps the invariant of the lists of the atomic phase. */
  lemma RelistedAtomic(h: Heap, h': Heap, c: Colors, c': Colors, o: Ref, l: Lists, l': Lists)
    requires c.Keys == h.Keys && CleanShrink(h, h') && ExtendsBut(h', c, c', o) && o in h
    requires AtomicLists(h, c, l) && Relisted(h', c', o, l, l', true)
    ensures AtomicLists(h', c', l')
  {
    ExtendsButGrows(h', c, c', o);
    AtomicListsGrow(h, h', c, c', l);
    assert forall x :: x in [o] + l.grayagain ==> x == o || x in l.grayagain;
    assert forall x :: x in [o] + l.weak ==> x == o || x in l.weak;
    assert forall x :: x in [o] + l.ephemeron ==> x == o || x in l.ephemeron;
    assert forall x :: x in [o] + l.allweak ==> x == o || x in l.allweak;
  }

  /** A visit keeps the invariant of the lists of the propagation phase; `c` has `o` painted black already. */
  lemma RelistedPropagation(h: Heap, h': Heap, c0: Colors, c: Colors, c': Colors, o: Ref, l: Lists, l': Lists)
    requires c0.Keys == h.Keys && CleanShrink(h, h') && o in h && c == c0[o := Black] && ExtendsBut(h', c, c', o)
    requires Marked(c0, o)
    requires PropagationLists(h, c0, l) && Relisted(h', c', o, l, l', false)
    ensures PropagationLists(h', c', l')
  {
    ExtendsButGrows(h', c, c', o);
    forall x | x in h' && x in c' && (h'[x].Thread? || IsWeak(h'[x])) ensures c'[x] != Black {
      assert BodyShrinks(h[x], h'[x]);
      if x != o {
        assert c[x] == c0[x];
        if IsWhite(c[x]) && !IsWhite(c'[x]) { assert Finished(h', c', x); }
      }
    }
    forall x | x in l'.allweak && x in h'
      ensures h'[x].Table? && h'[x].mode == AllWeak && ValueMarked(c', h'[x].meta)
    {
      assert BodyShrinks(h[x], h'[x]);
      if x != o { assert x in l.allweak; }
    }
  }

  /** A visit keeps the tri-colour invariant. */
  lemma VisitTriColour(h: Heap, h': Heap, c0: Colors, c: Colors, c': Colors, o: Ref)
    requires c0.Keys == h.Keys && HeapShrinks(h, h') && o in h && c == c0[o := Black] && ExtendsBut(h', c, c', o)
    requires TriColour(h, c0) && Marked(c0, o) && (c'[o] == Black ==> AllMarked(h', c', o))
    ensures TriColour(h', c') && Grows(c0, c')
  {
    ExtendsButGrows(h', c, c', o);
    forall x | x in h' && x in c' && c'[x] == Black ensures AllMarked(h', c', x) {
      if x != o {
        assert c[x] == c0[x];
        if IsWhite(c[x]) {
          assert BodyShrinks(h[x], h'[x]) && Finished(h', c', x);
        } else {
          assert Grows(c0, c');
          AllMarkedGrows(h, h', c0, c', x);
        }
      }
    }
  }

  /** A visit keeps what is known about open upvalues. */
  lemma VisitUpvals(h: Heap, h': Heap, c0: Colors, c: Colors, c': Colors, o: Ref)
    requires c0.Keys == h.Keys && HeapShrinks(h, h') && o in h && c == c0[o := Black] && ExtendsBut(h', c, c', o)
    requires Typed(h) && Linked(h) && h[o].Listable()
    requires UpvalsDone(h, c0) && Marked(c0, o)
    requires h[o].Thread? ==> c'[o] == Black && AllMarked(h', c', o)
    ensures UpvalsDone(h', c')
  {
    ExtendsButGrows(h', c, c', o);
    forall u | u in h' && u in c' && h'[u].OpenUp? && c'[u] == Gray
      ensures AllMarked(h', c', u) || (h'[u].thread in c' && c'[h'[u].thread] == Gray)
    {
      assert BodyShrinks(h[u], h'[u]) && SlotOk(h, u);
      var th := h[u].thread;
      assert BodyShrinks(h[th], h'[th]);
      assert c[u] == c0[u];
      if IsWhite(c0[u]) {
        assert Finished(h', c', u);
      } else if AllMarked(h, c0, u) {
        AllMarkedGrows(h, h', c0, c', u);
      } else if th == o {
        forall r | Points(h', u, r) ensures Marked(c', r) {
          assert Points(h', o, r);
        }
      } else {
        assert c0[th] == Gray && c'[th] == c0[th];
      }
    }
  }

  lemma ExtendsButTrans(h: Heap, c: Colors, c': Colors, c'': Colors, o: Ref)
    requires c.Keys == h.Keys && o in c && Extends(h, c, c') && (ExtendsBut(h, c', c'', o) || Extends(h, c', c''))
    requires Marked(c', o)
    ensures ExtendsBut(h, c, c'', o)
  {
    assert Grows(c', c'');
    forall x | x in c && x != o && IsWhite(c[x]) && !IsWhite(c''[x]) ensures Finished(h, c'', x) {
      if !IsWhite(c'[x]) {
        assert c''[x] == c'[x] && Finished(h, c', x);
        FinishedGrows(h, c', c'', x);
      }
    }
    forall x | x in c && x != o
      ensures (!IsWhite(c[x]) ==> c''[x] == c[x]) && (IsWhite(c''[x]) ==> c''[x] == c[x])
    {
      assert !IsWhite(c[x]) ==> c'[x] == c[x];
      assert IsWhite(c''[x]) ==> c''[x] == c'[x];
    }
  }

  lemma GrayThenExtends(h: Heap, c: Colors, c': Colors, o: Ref)
    requires c.Keys == h.Keys && o in c && c[o] == Black && Extends(h, c[o := Gray], c')
    ensures ExtendsBut(h, c, c', o)
    ensures Whites(c[o := Gray]) == Whites(c)
  {
    var c1 := c[o := Gray];
    assert forall x {:trigger c1[x]} :: x in c && x != o ==> c1[x] == c[x];
    forall x | x in c && x != o
      ensures (!IsWhite(c[x]) ==> c'[x] == c[x]) && (IsWhite(c'[x]) ==> c'[x] == c[x])
      ensures x in h && IsWhite(c[x]) && !IsWhite(c'[x]) ==> Finished(h, c', x)
    {
      assert c1[x] == c[x];
    }
  }

  lemma ThreadMarked(h: Heap, c: Colors, o: Ref)
    requires o in h && h[o].Thread? && ValuesMarked(c, h[o].stack)
    requires forall u :: u in h[o].upvals ==> Marked(c, u)
    ensures AllMarked(h, c, o)
  {
    forall r | Points(h, o, r) ensures Marked(c, r) {
      if Obj(r) in h[o].stack { SlotsMarked(c, h[o].stack, r); }
    }
  }

  lemma ObjectMarked(h: Heap, c: Colors, o: Ref)
    requires o in h && (h[o].Fn? || h[o].Rec? || h[o].Udata?)
    requires h[o].Fn? || h[o].Rec? ==> ValuesMarked(c, h[o].slots)
    requires h[o].Udata? ==> ValueMarked(c, h[o].meta) && ValuesMarked(c, h[o].uservals)
    ensures AllMarked(h, c, o)
  {
    forall r | Points(h, o, r) ensures Marked(c, r) {
      if h[o].Udata? {
        if Obj(r) in h[o].uservals { SlotsMarked(c, h[o].uservals, r); }
      } else {
        SlotsMarked(c, h[o].slots, r);
      }
    }
  }

  /** In the atomic phase a marked thread with open upvalues is listed, or still to be visited. */
  ghost predicate TwupsAtomic(h: Heap, c: Colors, twups: seq<Ref>) {
    forall t {:trigger h[t]} :: t in h && t in c && h[t].Thread? && h[t].upvals != {} && Marked(c, t) ==>
      t in twups || c[t] == Gray
  }

  /** 'twups' holds threads that are marked. */
  ghost predicate TwupsMarked(h: Heap, c: Colors, twups: seq<Ref>) {
    forall t {:trigger t in twups} :: t in twups ==> t in h && h[t].Thread? && Marked(c, t)
  }

  lemma VisitTwups(h: Heap, h': Heap, c0: Colors, c: Colors, c': Colors, o: Ref, tw: seq<Ref>, tw': seq<Ref>)
    requires c0.Keys == h.Keys && HeapShrinks(h, h') && o in h && c == c0[o := Black] && ExtendsBut(h', c, c', o)
    requires Marked(c0, o) && (tw' == tw || tw' == [o] + tw)
    requires h[o].Thread? && h[o].upvals != {} ==> o in tw'
    ensures TwupsAtomic(h, c0, tw) ==> TwupsAtomic(h', c', tw')
  {
    if TwupsAtomic(h, c0, tw) {
      forall t | t in h' && t in c' && h'[t].Thread? && h'[t].upvals != {} && Marked(c', t)
        ensures t in tw' || c'[t] == Gray
      {
        assert BodyShrinks(h[t], h'[t]);
        if t != o {
          assert c[t] == c0[t];
          if IsWhite(c[t]) { assert Finished(h', c', t); }
          assert t in tw ==> t in tw';
        }
      }
    }
  }

  /** What holds between two visits: the tri-colour invariant, and the invariant of the lists of the phase. */
  ghost predicate Tracing(h: Heap, c: Colors, l: Lists, atomic: bool) {
    TriColour(h, c) && if atomic then AtomicLists(h, c, l) else PropagationLists(h, c, l)
  }

  /** What the atomic phase relies on for upvalues of threads that may be dead. */
  ghost predicate UpvalsTraced(h: Heap, c: Colors, twups: seq<Ref>) {
    UpvalsDone(h, c) && TwupsAtomic(h, c, twups) && TwupsMarked(h, c, twups)
  }

  lemma VisitKeeps(h: Heap, h': Heap, c0: Colors, c: Colors, c': Colors, o: Ref, l: Lists, l': Lists, atomic: bool)
    requires c0.Keys == h.Keys && CleanShrink(h, h') && o in h && Marked(c0, o)
    requires c == c0[o := Black] && ExtendsBut(h', c, c', o)
    requires Tracing(h, c0, l, atomic) && Relisted(h', c', o, l, l', atomic)
    ensures Tracing(h', c', l', atomic) && Grows(c0, c')
  {
    VisitTriColour(h, h', c0, c, c', o);
    if atomic {
      AtomicListsGrow(h, h, c0, c, l);
      RelistedAtomic(h, h', c, c', o, l, l');
    } else {
      RelistedPropagation(h, h', c0, c, c', o, l, l');
    }
  }

  lemma VisitKeepsUpvals(h: Heap, h': Heap, c0: Colors, c: Colors, c': Colors, o: Ref, tw: seq<Ref>, tw': seq<Ref>)
    requires c0.Keys == h.Keys && HeapShrinks(h, h') && o in h && c == c0[o := Black] && ExtendsBut(h', c, c', o)
    requires Typed(h) && Linked(h) && h[o].Listable() && Marked(c0, o)
    requires h[o].Thread? ==> c'[o] == Black && AllMarked(h', c', o) && (h[o].upvals != {} ==> o in tw')
    requires tw' == tw || (tw' == [o] + tw && h[o].Thread?)
    requires UpvalsTraced(h, c0, tw)
    ensures UpvalsTraced(h', c', tw')
  {
    VisitUpvals(h, h', c0, c, c', o);
    VisitTwups(h, h', c0, c, c', o, tw, tw');
    assert BodyShrinks(h[o], h'[o]);
    forall t | t in tw' ensures t in h' && h'[t].Thread? && Marked(c', t) {
      if t != o {
        assert t in tw && BodyShrinks(h[t], h'[t]);
        assert c[t] == c0[t];
      }
    }
  }

  // ----- convergence of ephemerons -----

  /** In every listed ephemeron table a marked key implies a marked value. */
  ghost predicate Converged(h: Heap, c: Colors, eph: seq<Ref>) {
    forall o {:trigger o in eph} :: o in eph && o in h && h[o].Table? ==> EphemeronClosed(h, c, h[o].nodes)
  }

  /** Visits that mark only strings do not disturb the tables visited before. */
  lemma ConvergedKept(h: Heap, h': Heap, c: Colors, c': Colors, eph: seq<Ref>, o: Ref)
    requires c.Keys == h.Keys && HeapShrinks(h, h') && Grows(c, c') && OnlyStrings(h, c, c', o) && Marked(c, o)
    requires Converged(h, c, eph)
    ensures Converged(h', c', eph)
  {
    forall x | x in eph && x in h' && h'[x].Table? ensures EphemeronClosed(h', c', h'[x].nodes) {
      assert BodyShrinks(h[x], h'[x]);
      forall i | 0 <= i < |h'[x].nodes| ensures EphemeronNode(h', c', h'[x].nodes[i]) {
        assert NodeShrinks(h[x].nodes[i], h'[x].nodes[i]) && EphemeronNode(h, c, h[x].nodes[i]);
        EphemeronNodeStrings(h, c, c', h[x].nodes[i], o);
        var n := h[x].nodes[i];
        assert n.key.Live? && n.key.v.Obj? && n.key.v.ref in h ==> BodyShrinks(h[n.key.v.ref], h'[n.key.v.ref]);
      }
    }
  }

  lemma DetachEphemeron(h: Heap, c: Colors, l: Lists)
    requires GrayListed(h, c, l) && l.detached == []
    ensures GrayListed(h, c, l.(ephemeron := [], detached := l.ephemeron))
    ensures AtomicLists(h, c, l) ==> EphemeronList(h, c, l.ephemeron)
  {
    forall o | o in l.ephemeron ensures o in h { Member(h, c, l, o); }
    var l' := l.(ephemeron := [], detached := l.ephemeron);
    forall x ensures Times(l', x) == if x in h && x in c && c[x] == Gray && h[x].Listable() then 1 else 0 {
      assert Times(l', x) == Times(l, x);
    }
  }

  /** The members of a detached list of ephemeron tables stay what they were when they were linked. */
  ghost predicate EphemeronList(h: Heap, c: Colors, eph: seq<Ref>) {
    forall o {:trigger o in eph} :: o in eph ==> o in h && EphemeronListed(c, h[o])
  }

  lemma EphemeronListGrows(h: Heap, h': Heap, c: Colors, c': Colors, eph: seq<Ref>)
    requires CleanShrink(h, h') && Grows(c, c') && EphemeronList(h, c, eph)
    ensures EphemeronList(h', c', eph)
  {
    forall o | o in eph ensures o in h' && EphemeronListed(c', h'[o]) {
      EphemeronListedGrows(c, c', h[o], h'[o]);
    }
  }

  lemma StringsBefore(h: Heap, h': Heap, c0: Colors, c: Colors, c': Colors, o: Ref)
    requires c0.Keys == h.Keys && HeapShrinks(h, h') && o in h && c == c0[o := Black] && OnlyStrings(h', c, c', o)
    ensures OnlyStrings(h, c0, c', o)
  {
    forall x | x in c0 && x in c' && x in h && x != o && IsWhite(c0[x]) && !IsWhite(c'[x]) ensures h[x].Str? {
      assert c[x] == c0[x] && BodyShrinks(h[x], h'[x]);
    }
  }

  // ----- around the traversals of the atomic phase -----

  /** `s'` is `s` with elements pushed in front. */
  predicate Extension(s: seq<Ref>, s': seq<Ref>) {
    |s| <= |s'| && s'[|s'| - |s|..] == s
  }

  lemma ExtensionTrans(s: seq<Ref>, s': seq<Ref>, s'': seq<Ref>)
    requires Extension(s, s') && Extension(s', s'')
    ensures Extension(s, s'')
  {
    assert s''[|s''| - |s|..] == s''[|s''| - |s'|..][|s'| - |s|..];
  }

  ghost predicate ListsGrow(l: Lists, l': Lists) {
    Extension(l.weak, l'.weak) && Extension(l.allweak, l'.allweak)
  }

  lemma ListsGrowTrans(l: Lists, l': Lists, l'': Lists)
    requires ListsGrow(l, l') && ListsGrow(l', l'')
    ensures ListsGrow(l, l'')
  {
    ExtensionTrans(l.weak, l'.weak, l''.weak);
    ExtensionTrans(l.allweak, l'.allweak, l''.allweak);
  }

  lemma RelistedGrow(h: Heap, c: Colors, o: Ref, l: Lists, l': Lists, atomic: bool)
    requires o in h && o in c && Relisted(h, c, o, l, l', atomic)
    ensures ListsGrow(l, l')
  {
  }

  /** Outside the atomic phase every thread with open upvalues is in 'twups'. */
  ghost predicate TwupsAll(h: Heap, twups: seq<Ref>) {
    && (forall t {:trigger h[t]} :: t in h && h[t].Thread? && h[t].upvals != {} ==> t in twups)
    && (forall t {:trigger t in twups} :: t in twups ==> t in h && h[t].Thread?)
  }

  lemma TwupsAllShrinks(h: Heap, h': Heap, tw: seq<Ref>, tw': seq<Ref>)
    requires HeapShrinks(h, h') && TwupsAll(h, tw)
    requires forall t :: t in tw ==> t in tw'
    requires forall t :: t in tw' ==> t in tw || (t in h' && h'[t].Thread?)
    ensures TwupsAll(h', tw')
  {
    forall t | t in h' ensures BodyShrinks(h[t], h'[t]) {}
  }

  /** Marking from the roots or from upvalues keeps the invariant between visits. */
  lemma TracingExtends(h: Heap, c: Colors, c': Colors, l: Lists, l': Lists, atomic: bool)
    requires c.Keys == h.Keys && Tracing(h, c, l, atomic) && Extends(h, c, c') && l' == l.(gray := l'.gray)
    ensures Tracing(h, c', l', atomic)
  {
    TriColourExtends(h, c, c');
    if atomic {
      AtomicListsGrow(h, h, c, c', l);
    } else {
      forall o | o in h && o in c' && (h[o].Thread? || IsWeak(h[o])) ensures c'[o] != Black {
        if IsWhite(c[o]) && !IsWhite(c'[o]) { assert Finished(h, c', o); }
      }
    }
  }

  lemma UpvalsTracedExtends(h: Heap, c: Colors, c': Colors, tw: seq<Ref>)
    requires c.Keys == h.Keys && UpvalsTraced(h, c, tw) && Extends(h, c, c')
    ensures UpvalsTraced(h, c', tw)
  {
    forall u | u in h && u in c' && h[u].OpenUp? && c'[u] == Gray
      ensures AllMarked(h, c', u) || (h[u].thread in c' && c'[h[u].thread] == Gray)
    {
      if IsWhite(c[u]) {
        assert Finished(h, c', u);
      } else if AllMarked(h, c, u) {
        AllMarkedGrows(h, h, c, c', u);
      }
    }
    forall t | t in h && t in c' && h[t].Thread? && h[t].upvals != {} && Marked(c', t)
      ensures t in tw || c'[t] == Gray {
      if IsWhite(c[t]) { assert Finished(h, c', t); }
    }
  }

  /** A marked open upvalue of a white thread has a marked value. */
  ghost predicate UpvalsRemarked(h: Heap, c: Colors) {
    forall u {:trigger c[u]} :: u in h && u in c && h[u].OpenUp? && c[u] == Gray ==>
      AllMarked(h, c, u) || Marked(c, h[u].thread)
  }

  lemma RemarkedDone(h: Heap, c: Colors)
    requires c.Keys == h.Keys && UpvalsRemarked(h, c) && TriColour(h, c) && Linked(h)
    ensures UpvalsDone(h, c)
  {
    forall u | u in h && u in c && h[u].OpenUp? && c[u] == Gray
      ensures AllMarked(h, c, u) || (h[u].thread in c && c[h[u].thread] == Gray)
    {
      assert SlotOk(h, u);
      var th := h[u].thread;
      if Marked(c, th) && c[th] == Black {
        forall r | Points(h, u, r) ensures Marked(c, r) {
          assert Points(h, th, r);
        }
      }
    }
  }

  // ----- what any number of visits achieves -----

  /** All that the visits of a marking phase read and write. */
  datatype Snap = Snap(h: Heap, c: Colors, l: Lists, tw: seq<Ref>)

  /** Marks are added, weak entries and dead keys at most disappear, the lists for clearing only grow in front,
      and what is known about upvalues stays known. */
  ghost predicate Advances(s: Snap, s': Snap) {
    && CleanShrink(s.h, s'.h) && Grows(s.c, s'.c) && ListsGrow(s.l, s'.l)
    && (TwupsAll(s.h, s.tw) ==> TwupsAll(s'.h, s'.tw))
    && (UpvalsTraced(s.h, s.c, s.tw) ==> UpvalsTraced(s'.h, s'.c, s'.tw))
  }

  lemma AdvancesTrans(s: Snap, s': Snap, s'': Snap)
    requires Advances(s, s') && Advances(s', s'')
    ensures Advances(s, s'')
  {
    CleanShrinkTrans(s.h, s'.h, s''.h);
    GrowsTrans(s.c, s'.c, s''.c);
    ListsGrowTrans(s.l, s'.l, s''.l);
  }

  /** What visiting object `o`, painted black in `s.c` and in no list of `s.l` any more, gives for the state `s'`
      it ends in. */
  ghost predicate Visited(s: Snap, s': Snap, o: Ref, atomic: bool) {
    && o in s.h && o in s.c && s.c[o] == Black && s.c.Keys == s.h.Keys
    && CleanShrink(s.h, s'.h) && ExtendsBut(s'.h, s.c, s'.c, o) && Relisted(s'.h, s'.c, o, s.l, s'.l, atomic)
    && (s'.tw == s.tw || (atomic && s'.tw == [o] + s.tw && s.h[o].Thread?))
    && (atomic && s.h[o].Thread? ==> s'.c[o] == Black && (s.h[o].upvals != {} ==> o in s'.tw))
  }

  lemma VisitAdvances(s0: Snap, s: Snap, s': Snap, o: Ref, atomic: bool)
    requires s0.c.Keys == s0.h.Keys && o in s0.h && Marked(s0.c, o) && s0.h[o].Listable() && Typed(s0.h) && Linked(s0.h)
    requires s.h == s0.h && s.c == s0.c[o := Black] && s.tw == s0.tw
    requires s.l.weak == s0.l.weak && s.l.allweak == s0.l.allweak
    requires Tracing(s0.h, s0.c, s.l, atomic) && Visited(s, s', o, atomic)
    ensures Tracing(s'.h, s'.c, s'.l, atomic) && CleanShrink(s0.h, s'.h) && Grows(s0.c, s'.c) && ListsGrow(s0.l, s'.l)
    ensures TwupsAll(s0.h, s0.tw) ==> TwupsAll(s'.h, s'.tw)
    ensures atomic ==> Advances(s0, s')
    ensures !atomic ==> s'.tw == s0.tw
  {
    VisitKeeps(s.h, s'.h, s0.c, s.c, s'.c, o, s.l, s'.l, atomic);
    RelistedGrow(s'.h, s'.c, o, s.l, s'.l, atomic);
    if TwupsAll(s0.h, s0.tw) {
      assert BodyShrinks(s0.h[o], s'.h[o]);
      TwupsAllShrinks(s.h, s'.h, s.tw, s'.tw);
    }
    if atomic && UpvalsTraced(s.h, s0.c, s.tw) {
      VisitKeepsUpvals(s.h, s'.h, s0.c, s.c, s'.c, o, s.tw, s'.tw);
    }
  }

  /** An object was visited; folded. */
  ghost predicate Advanced(s: Snap, s': Snap, atomic: bool) {
    forall k: nat {:trigger Open(k)} :: Open(k) ==>
      && Tracing(s'.h, s'.c, s'.l, atomic) && CleanShrink(s.h, s'.h) && Grows(s.c, s'.c)
      && (atomic ==> Advances(s, s')) && (!atomic ==> s'.tw == s.tw)
  }

  lemma OpenAdvanced(s: Snap, s': Snap, atomic: bool)
    requires Advanced(s, s', atomic)
    ensures Tracing(s'.h, s'.c, s'.l, atomic) && CleanShrink(s.h, s'.h) && Grows(s.c, s'.c)
    ensures (atomic ==> Advances(s, s')) && (!atomic ==> s'.tw == s.tw)
  {
    assert Open(0);
  }

  lemma VisitAdvanced(s0: Snap, s: Snap, s': Snap, o: Ref, atomic: bool, bound: iset<Ref>)
    requires Markable(s0.h, s0.c, s0.l, bound) && o in s0.h && Marked(s0.c, o) && s0.h[o].Listable()
    requires s.h == s0.h && s.c == s0.c[o := Black] && s.tw == s0.tw
    requires s.l.weak == s0.l.weak && s.l.allweak == s0.l.allweak
    requires TracingOk(s0.h, s0.c, s.l, atomic) && Visited(s, s', o, atomic)
    ensures Advanced(s0, s', atomic)
  {
    assert Open(0);
    VisitAdvances(s0, s, s', o, atomic);
  }

  /** One more visit of an ephemeron table during convergence. */
  lemma RevisitAdvances(s0: Snap, s: Snap, s': Snap, o: Ref)
    requires s0.c.Keys == s0.h.Keys && o in s0.h && Marked(s0.c, o) && s0.h[o].Table? && Typed(s0.h) && Linked(s0.h)
    requires s.h == s0.h && s.c == s0.c[o := Black] && s.tw == s0.tw == s'.tw
    requires s.l == s0.l.(detached := s.l.detached)
    requires CleanShrink(s.h, s'.h) && ExtendsBut(s'.h, s.c, s'.c, o) && Relisted(s'.h, s'.c, o, s.l, s'.l, true)
    requires Tracing(s0.h, s0.c, s0.l, true) && UpvalsTraced(s0.h, s0.c, s0.tw)
    ensures Tracing(s'.h, s'.c, s'.l, true) && Advances(s0, s')
  {
    assert Tracing(s0.h, s0.c, s.l, true);
    VisitAdvances(s0, s, s', o, true);
  }

  /** A visit that marks only strings leaves the tables before it converged, and adds at most the one visited. */
  lemma RevisitConverged(s0: Snap, s: Snap, s': Snap, o: Ref)
    requires s0.c.Keys == s0.h.Keys && o in s0.h && Marked(s0.c, o) && s.c == s0.c[o := Black]
    requires HeapShrinks(s0.h, s'.h) && Grows(s0.c, s'.c) && o in s'.h && s'.h[o].Table? && o in s'.c
    requires Relisted(s'.h, s'.c, o, s0.l.(detached := s.l.detached), s'.l, true)
    requires OnlyStrings(s'.h, s.c, s'.c, o) && EphemeronClosed(s'.h, s'.c, s'.h[o].nodes)
    requires Converged(s0.h, s0.c, s0.l.ephemeron)
    ensures Converged(s'.h, s'.c, s'.l.ephemeron)
  {
    StringsBefore(s0.h, s'.h, s0.c, s.c, s'.c, o);
    ConvergedKept(s0.h, s'.h, s0.c, s'.c, s0.l.ephemeron, o);
    assert s'.l.ephemeron == s0.l.ephemeron || s'.l.ephemeron == [o] + s0.l.ephemeron;
  }

  lemma EphemeronTail(s: Snap, s': Snap, eph: seq<Ref>)
    requires Advances(s, s') && EphemeronList(s.h, s.c, eph) && eph != []
    ensures EphemeronList(s'.h, s'.c, eph[1..])
  {
    EphemeronListGrows(s.h, s'.h, s.c, s'.c, eph);
    assert forall x :: x in eph[1..] ==> x in eph;
  }

  // ----- what weak tables may lose -----

  predicate ValueWeak(m: Mode) { m == WeakValues || m == AllWeak }

  predicate KeyWeak(m: Mode) { m == Ephemeron || m == AllWeak }

  ghost predicate ValuesLost(h: Heap, c: Colors, vs: seq<Value>, vs': seq<Value>) {
    |vs'| == |vs| && forall i {:trigger vs'[i]} :: 0 <= i < |vs| ==> vs'[i] == vs[i] || Clearable(h, c, vs[i])
  }

  ghost predicate NodeValuesLost(h: Heap, c: Colors, ns: seq<Node>, ns': seq<Node>) {
    && |ns'| == |ns|
    && forall i {:trigger ns'[i]} :: 0 <= i < |ns| ==> ns'[i].val == ns[i].val || Clearable(h, c, ns[i].val)
  }

  ghost predicate NodeKeysLost(h: Heap, c: Colors, ns: seq<Node>, ns': seq<Node>) {
    && |ns'| == |ns|
    && forall i {:trigger ns'[i]} :: 0 <= i < |ns| ==>
      ns'[i].val == ns[i].val || (ns[i].key.Live? && Clearable(h, c, ns[i].key.v))
  }

  /** The value of an entry is gone only if values are weak, and it was white in `c`, or keys are weak, and its key was
      white in `ck`. Strings are never a reason. */
  ghost predicate NodeLost(h: Heap, m: Mode, c: Colors, ck: Colors, n: Node, n': Node) {
    n'.val == n.val || (ValueWeak(m) && Clearable(h, c, n.val)) ||
      (KeyWeak(m) && n.key.Live? && Clearable(h, ck, n.key.v))
  }

  ghost predicate NodesLost(h: Heap, m: Mode, c: Colors, ck: Colors, ns: seq<Node>, ns': seq<Node>) {
    |ns'| == |ns| && forall i {:trigger ns'[i]} :: 0 <= i < |ns| ==> NodeLost(h, m, c, ck, ns[i], ns'[i])
  }

  ghost predicate BodyLoses(h: Heap, c: Colors, ck: Colors, b: Body, b': Body) {
    b' == b || (b.Table? && b'.Table? && (b'.arr == b.arr || (ValueWeak(b.mode) && ValuesLost(h, c, b.arr, b'.arr)))
      && NodesLost(h, b.mode, c, ck, b.nodes, b'.nodes))
  }

  /** New entries for a weak table. */
  lemma EntriesShrink(h: Heap, c: Colors, l: Lists, bound: iset<Ref>, o: Ref, arr: seq<Value>, ns: seq<Node>)
    requires Markable(h, c, l, bound) && o in h && IsWeak(h[o])
    requires ValuesShrink(h[o].arr, arr) && NodesShrink(h[o].nodes, ns) && Clean(ns)
    ensures var h' := h[o := h[o].(arr := arr, nodes := ns)]; Markable(h', c, l, bound) && CleanShrink(h, h')
  {
    assert Open(0);
    MarkStateShrinks(h, h[o := h[o].(arr := arr, nodes := ns)], c, l, bound);
  }

  /** Entries are gone only from weak tables: those with a value that was white in `c`, where values are weak, and
      those with a key that was white in `ck`, where keys are. */
  ghost predicate Loses(h: Heap, h': Heap, c: Colors, ck: Colors) {
    forall o {:trigger h'[o]} {:trigger h[o]} :: o in h && o in h' ==> BodyLoses(h, c, ck, h[o], h'[o])
  }

  /** What may be cleared by one colouring may be by the other one. */
  ghost predicate Covers(h: Heap, c: Colors, c': Colors) {
    forall v {:trigger Clearable(h, c, v)} :: Clearable(h, c, v) ==> Clearable(h, c', v)
  }

  lemma GrowsCovers(h: Heap, c: Colors, c': Colors)
    requires Grows(c, c')
    ensures Covers(h, c', c)
  {
  }

  lemma LosesCovers(h: Heap, h': Heap, c: Colors, ck: Colors, ck': Colors)
    requires Loses(h, h', c, ck) && Covers(h, ck, ck')
    ensures Loses(h, h', c, ck')
  {
    forall o | o in h && o in h' ensures BodyLoses(h, c, ck', h[o], h'[o]) { assert BodyLoses(h, c, ck, h[o], h'[o]); }
  }

  /** Entries with white values were removed from a table; if its values are not weak there are none. */
  lemma EntriesLost(h: Heap, c: Colors, c': Colors, o: Ref, arr: seq<Value>, ns: seq<Node>)
    requires o in h && h[o].Table? && Grows(c, c') && ValuesLost(h, c, h[o].arr, arr)
    requires NodeValuesLost(h, c', h[o].nodes, ns)
    requires ValueWeak(h[o].mode) || (ValuesMarked(c, h[o].arr) && NodeValuesMarked(c, h[o].nodes))
    ensures Loses(h, h[o := h[o].(arr := arr, nodes := ns)], c, map[])
  {
    if !ValueWeak(h[o].mode) {
      forall i | 0 <= i < |arr| ensures arr[i] == h[o].arr[i] { assert ValueMarked(c, h[o].arr[i]); }
      forall i | 0 <= i < |ns| ensures ns[i].val == h[o].nodes[i].val {
        assert ValueMarked(c, h[o].nodes[i].val) && !Clearable(h, c', h[o].nodes[i].val);
      }
      assert arr == h[o].arr;
    }
  }

  lemma IntactLoses(h: Heap, h': Heap, c: Colors, ck: Colors)
    requires Intact(h, h')
    ensures Loses(h, h', c, ck)
  {
    forall o | o in h && o in h' ensures BodyLoses(h, c, ck, h[o], h'[o]) { assert BodyIntact(h[o], h'[o]); }
  }

  lemma LosesTrans(h: Heap, h': Heap, h'': Heap, c: Colors, c': Colors, ck: Colors, ck': Colors, ck'': Colors)
    requires HeapShrinks(h, h') && HeapShrinks(h', h'') && Grows(c, c') && Loses(h, h', c, ck)
    requires Loses(h', h'', c', ck')
    requires Covers(h, ck, ck'') && Covers(h, ck', ck'')
    ensures Loses(h, h'', c, ck'')
  {
    forall o | o in h && o in h'' ensures BodyLoses(h, c, ck'', h[o], h''[o]) {
      assert BodyShrinks(h[o], h'[o]) && BodyShrinks(h'[o], h''[o]);
      assert BodyLoses(h, c, ck, h[o], h'[o]) && BodyLoses(h', c', ck', h'[o], h''[o]);
      if h[o].Table? { BodyLosesTrans(h, h', h[o], h'[o], h''[o], c, c', ck, ck', ck''); }
    }
  }

  lemma ClearableBefore(h: Heap, h': Heap, c: Colors, c': Colors, v: Value)
    requires HeapShrinks(h, h') && Clearable(h', c', v) && (c' == c || Grows(c, c'))
    ensures Clearable(h, c, v)
  {
    assert BodyShrinks(h[v.ref], h'[v.ref]);
  }

  lemma BodyLosesTrans(h: Heap, h': Heap, b: Body, b': Body, b'': Body, c: Colors, c': Colors, ck: Colors, ck': Colors,
      ck'': Colors)
    requires HeapShrinks(h, h') && b.Table? && BodyShrinks(b, b') && BodyShrinks(b', b'') && Grows(c, c')
    requires BodyLoses(h, c, ck, b, b') && BodyLoses(h', c', ck', b', b'')
    requires Covers(h, ck, ck'') && Covers(h, ck', ck'')
    ensures BodyLoses(h, c, ck'', b, b'')
  {
    if b''.arr != b.arr {
      forall i | 0 <= i < |b.arr| ensures b''.arr[i] == b.arr[i] || Clearable(h, c, b.arr[i]) {
        assert b'.arr[i] == b.arr[i] || Clearable(h, c, b.arr[i]);
        if Clearable(h', c', b'.arr[i]) { ClearableBefore(h, h', c, c', b'.arr[i]); }
      }
    }
    forall i | 0 <= i < |b.nodes| ensures NodeLost(h, b.mode, c, ck'', b.nodes[i], b''.nodes[i]) {
      NodeLosesTrans(h, h', b.mode, b.nodes[i], b'.nodes[i], b''.nodes[i], c, c', ck, ck', ck'');
    }
  }

  lemma NodeLosesTrans(h: Heap, h': Heap, m: Mode, n: Node, n': Node, n'': Node, c: Colors, c': Colors, ck: Colors,
      ck': Colors, ck'': Colors)
    requires HeapShrinks(h, h') && NodeShrinks(n, n') && NodeShrinks(n', n'') && Grows(c, c')
    requires NodeLost(h, m, c, ck, n, n') && NodeLost(h', m, c', ck', n', n'')
    requires Covers(h, ck, ck'') && Covers(h, ck', ck'')
    ensures NodeLost(h, m, c, ck'', n, n'')
  {
    if n'.val == n.val && n''.val != n.val {
      if ValueWeak(m) && Clearable(h', c', n'.val) { ClearableBefore(h, h', c, c', n'.val); }
      else { ClearableBefore(h, h', ck', ck', n'.key.v); }
    }
  }

  // ----- clearing weak tables -----

  ghost predicate ValuesCleared(c: Colors, b: Body) {
    b.Table? && ValuesMarked(c, b.arr) && NodeValuesMarked(c, b.nodes)
  }

  ghost predicate KeysCleared(c: Colors, b: Body) {
    b.Table? && KeysMarked(c, b.nodes) && Clean(b.nodes)
  }

  ghost predicate ListValuesCleared(h: Heap, c: Colors, ts: seq<Ref>) {
    forall o {:trigger o in ts} :: o in ts ==> o in h && ValuesCleared(c, h[o])
  }

  ghost predicate ListKeysCleared(h: Heap, c: Colors, ts: seq<Ref>) {
    forall o {:trigger o in ts} :: o in ts ==> o in h && KeysCleared(c, h[o])
  }

  lemma ClearedGrows(h: Heap, h': Heap, c: Colors, c': Colors, ts: seq<Ref>)
    requires CleanShrink(h, h') && Grows(c, c')
    ensures ListValuesCleared(h, c, ts) ==> ListValuesCleared(h', c', ts)
    ensures ListKeysCleared(h, c, ts) ==> ListKeysCleared(h', c', ts)
  {
    if ListValuesCleared(h, c, ts) {
      forall o | o in ts ensures o in h' && ValuesCleared(c', h'[o]) {
        assert ValuesCleared(c, h[o]) && BodyShrinks(h[o], h'[o]);
        BodyValuesCleared(c, c', h[o], h'[o]);
      }
    }
    if ListKeysCleared(h, c, ts) {
      forall o | o in ts ensures o in h' && KeysCleared(c', h'[o]) {
        assert KeysCleared(c, h[o]) && BodyShrinks(h[o], h'[o]);
        BodyKeysCleared(c, c', h[o], h'[o]);
      }
    }
  }

  lemma BodyValuesCleared(c: Colors, c': Colors, b: Body, b': Body)
    requires Grows(c, c') && ValuesCleared(c, b) && BodyShrinks(b, b')
    ensures ValuesCleared(c', b')
  {
    forall i | 0 <= i < |b'.arr| ensures ValueMarked(c', b'.arr[i]) {
      assert ValueMarked(c, b.arr[i]);
    }
    forall i | 0 <= i < |b'.nodes| ensures ValueMarked(c', b'.nodes[i].val) {
      assert b' != b ==> NodeShrinks(b.nodes[i], b'.nodes[i]);
      assert ValueMarked(c, b.nodes[i].val);
    }
  }

  lemma BodyKeysCleared(c: Colors, c': Colors, b: Body, b': Body)
    requires Grows(c, c') && KeysCleared(c, b) && BodyShrinks(b, b') && (b' != b ==> Clean(b'.nodes))
    ensures KeysCleared(c', b')
  {
    forall i | 0 <= i < |b'.nodes| && b'.nodes[i].val != Nil && b'.nodes[i].key.Live?
      ensures ValueMarked(c', b'.nodes[i].key.v)
    {
      assert b' != b ==> NodeShrinks(b.nodes[i], b'.nodes[i]);
      assert b'.nodes[i].key == b.nodes[i].key && b.nodes[i].val != Nil;
    }
  }

  /** Clearing a table and marking strings on the way keeps all that is known between visits. */
  lemma ClearAdvances(s: Snap, s': Snap)
    requires s.c.Keys == s.h.Keys && CleanShrink(s.h, s'.h) && Extends(s'.h, s.c, s'.c) && s'.l == s.l && s'.tw == s.tw
    requires Tracing(s.h, s.c, s.l, true)
    ensures Tracing(s'.h, s'.c, s'.l, true) && Advances(s, s')
  {
    TriColourShrinks(s.h, s'.h, s.c);
    TriColourExtends(s'.h, s.c, s'.c);
    AtomicListsGrow(s.h, s'.h, s.c, s'.c, s.l);
    if TwupsAll(s.h, s.tw) { TwupsAllShrinks(s.h, s'.h, s.tw, s'.tw); }
    if UpvalsTraced(s.h, s.c, s.tw) {
      UpvalsTracedShrinks(s.h, s'.h, s.c, s.tw);
      UpvalsTracedExtends(s'.h, s.c, s'.c, s.tw);
    }
  }

  lemma UpvalsTracedShrinks(h: Heap, h': Heap, c: Colors, tw: seq<Ref>)
    requires HeapShrinks(h, h') && UpvalsTraced(h, c, tw)
    ensures UpvalsTraced(h', c, tw)
  {
    forall u | u in h' && u in c && h'[u].OpenUp? && c[u] == Gray
      ensures AllMarked(h', c, u) || (h'[u].thread in c && c[h'[u].thread] == Gray)
    {
      assert BodyShrinks(h[u], h'[u]);
      if AllMarked(h, c, u) { AllMarkedGrows(h, h', c, c, u); }
    }
    forall t | t in h' ensures BodyShrinks(h[t], h'[t]) {}
  }

  function ClearedNode(n: Node, cleared: bool): Node {
    if cleared then ClearKey(n.(val := Nil)) else if n.val == Nil then ClearKey(n) else n
  }

  /** Marks nothing but strings, and nothing is queued. */
  ghost predicate StringMarks(h: Heap, c: Colors, c': Colors) {
    Extends(h, c, c') && forall o {:trigger OnlyStrings(h, c, c', o)} :: OnlyStrings(h, c, c', o)
  }

  lemma StringMarksTrans(h: Heap, c: Colors, c': Colors, c'': Colors)
    requires c.Keys == h.Keys && StringMarks(h, c, c') && StringMarks(h, c', c'')
    ensures StringMarks(h, c, c'')
  {
    ExtendsTrans(h, c, c', c'');
    forall o ensures OnlyStrings(h, c, c'', o) {
      assert OnlyStrings(h, c, c', o) && OnlyStrings(h, c', c'', o);
      forall x | x in c && x in c'' && x in h && x != o && IsWhite(c[x]) && !IsWhite(c''[x]) ensures h[x].Str? {
        assert x in c';
      }
    }
  }

  lemma StringMarksShrink(h: Heap, h': Heap, c: Colors, c': Colors)
    requires c.Keys == h.Keys && HeapShrinks(h, h') && StringMarks(h, c, c')
    ensures StringMarks(h', c, c')
  {
    ExtendsShrinks(h, h', c, c');
    forall o ensures OnlyStrings(h', c, c', o) {
      assert OnlyStrings(h, c, c', o);
      StringsShrink(h, h', c, c', o);
    }
  }

  lemma AdvancesRefl(s: Snap)
    ensures Advances(s, s)
  {
  }

  // ----- folded relations -----

  /** Advances, and no entry is lost; folded. */
  ghost predicate Onward(s: Snap, s': Snap) {
    forall k: nat {:trigger Open(k)} :: Open(k) ==> Advances(s, s') && Intact(s.h, s'.h)
  }

  lemma OnwardTrans(s: Snap, s': Snap, s'': Snap)
    requires Onward(s, s') && Onward(s', s'')
    ensures Onward(s, s'')
  {
    assert Open(0);
    AdvancesTrans(s, s', s'');
    IntactTrans(s.h, s'.h, s''.h);
  }

  lemma AdvancedOnward(s: Snap, s': Snap)
    requires Advanced(s, s', true) && Intact(s.h, s'.h)
    ensures Onward(s, s')
  {
    OpenAdvanced(s, s', true);
  }

  ghost predicate TracingOk(h: Heap, c: Colors, l: Lists, atomic: bool) {
    c.Keys == h.Keys && forall k: nat {:trigger Open(k)} :: Open(k) ==> Tracing(h, c, l, atomic)
  }

  ghost predicate UpvalsOk(h: Heap, c: Colors, tw: seq<Ref>) {
    forall k: nat {:trigger Open(k)} :: Open(k) ==> UpvalsTraced(h, c, tw)
  }

  lemma RevisitOnward(s0: Snap, s: Snap, s': Snap, o: Ref, bound: iset<Ref>)
    requires Markable(s0.h, s0.c, s0.l, bound) && TracingOk(s0.h, s0.c, s0.l, true) && UpvalsOk(s0.h, s0.c, s0.tw)
    requires o in s0.h && Marked(s0.c, o) && s0.h[o].Table?
    requires s == Snap(s0.h, s0.c[o := Black], s0.l.(detached := s.l.detached), s0.tw) && s'.tw == s0.tw
    requires CleanShrink(s.h, s'.h) && Intact(s.h, s'.h) && ExtendsBut(s'.h, s.c, s'.c, o)
    requires Relisted(s'.h, s'.c, o, s.l, s'.l, true)
    ensures TracingOk(s'.h, s'.c, s'.l, true) && UpvalsOk(s'.h, s'.c, s'.tw) && Onward(s0, s')
    ensures OnlyStrings(s'.h, s.c, s'.c, o) && EphemeronClosed(s'.h, s'.c, s'.h[o].nodes) ==>
      Converged(s0.h, s0.c, s0.l.ephemeron) ==> Converged(s'.h, s'.c, s'.l.ephemeron)
  {
    assert Open(0);
    RevisitAdvances(s0, s, s', o);
    if OnlyStrings(s'.h, s.c, s'.c, o) && EphemeronClosed(s'.h, s'.c, s'.h[o].nodes) &&
      Converged(s0.h, s0.c, s0.l.ephemeron) {
      RevisitConverged(s0, s, s', o);
    }
  }

  lemma OnwardProgress(s: Snap, s': Snap)
    requires Onward(s, s')
    ensures Progress(s, s') && Same(s.h, s'.h) && (UpvalsOk(s.h, s.c, s.tw) ==> UpvalsOk(s'.h, s'.c, s'.tw))
    ensures TwupsAll(s.h, s.tw) ==> TwupsAll(s'.h, s'.tw)
  {
    assert Open(0);
  }

  lemma OnwardWhites(s: Snap, s': Snap)
    requires Onward(s, s')
    ensures |Whites(s'.c)| <= |Whites(s.c)|
  {
    assert Open(0);
    WhitesShrink(s.c, s'.c);
  }

  lemma OnwardTail(s: Snap, s': Snap, eph: seq<Ref>)
    requires Onward(s, s') && eph != [] && forall k: nat {:trigger Open(k)} :: Open(k) ==> EphemeronList(s.h, s.c, eph)
    ensures forall k: nat {:trigger Open(k)} :: Open(k) ==> EphemeronList(s'.h, s'.c, eph[1..])
  {
    assert Open(0);
    EphemeronTail(s, s', eph);
  }

  /** Advances, folded: the steps of the atomic phase only compose it. */
  ghost predicate Progress(s: Snap, s': Snap) {
    forall k: nat {:trigger Open(k)} :: Open(k) ==> Advances(s, s') && Loses(s.h, s'.h, s.c, s.c)
  }

  lemma ProgressTrans(s: Snap, s': Snap, s'': Snap)
    requires Progress(s, s') && Progress(s', s'')
    ensures Progress(s, s'')
  {
    assert Open(0);
    AdvancesTrans(s, s', s'');
    GrowsCovers(s.h, s.c, s'.c);
    LosesTrans(s.h, s'.h, s''.h, s.c, s'.c, s.c, s'.c, s.c);
  }

  lemma ProgressRefl(s: Snap)
    ensures Progress(s, s)
  {
    AdvancesRefl(s);
  }

  lemma ProgressCleared(s: Snap, s': Snap, ts: seq<Ref>)
    requires Progress(s, s')
    ensures ListValuesCleared(s.h, s.c, ts) ==> ListValuesCleared(s'.h, s'.c, ts)
    ensures ListKeysCleared(s.h, s.c, ts) ==> ListKeysCleared(s'.h, s'.c, ts)
  {
    assert Open(0);
    ClearedGrows(s.h, s'.h, s.c, s'.c, ts);
  }

  /** Of what was marked all is strings; folded. */
  ghost predicate StringsOnly(s: Snap, s': Snap) {
    forall k: nat {:trigger Open(k)} :: Open(k) ==> s.c.Keys == s'.h.Keys && StringMarks(s'.h, s.c, s'.c)
  }

  lemma StringsOnlyTrans(s: Snap, s': Snap, s'': Snap)
    requires StringsOnly(s, s') && StringsOnly(s', s'') && Progress(s', s'')
    ensures StringsOnly(s, s'')
  {
    assert Open(0);
    StringMarksShrink(s'.h, s''.h, s.c, s'.c);
    StringMarksTrans(s''.h, s.c, s'.c, s''.c);
  }

  lemma StringsOnlyRefl(s: Snap)
    requires s.c.Keys == s.h.Keys
    ensures StringsOnly(s, s)
  {
  }

  lemma ConvergedClear(h: Heap, h': Heap, c: Colors, c': Colors, eph: seq<Ref>, o: Ref)
    requires c.Keys == h.Keys && HeapShrinks(h, h') && Grows(c, c') && OnlyStrings(h', c, c', o) && Marked(c, o)
    ensures Converged(h, c, eph) ==> Converged(h', c', eph)
  {
    if Converged(h, c, eph) {
      assert OnlyStrings(h, c, c', o) by {
        forall x | x in c && x in c' && x in h && x != o && IsWhite(c[x]) && !IsWhite(c'[x]) ensures h[x].Str? {
          assert BodyShrinks(h[x], h'[x]);
        }
      }
      ConvergedKept(h, h', c, c', eph, o);
    }
  }

  // ----- upvalues of threads that may be dead -----

  /** The marked open upvalues of a thread have marked values. */
  ghost predicate ThreadRemarked(h: Heap, c: Colors, t: Ref)
    requires t in h && h[t].Thread?
  {
    forall u {:trigger u in h[t].upvals} :: u in h[t].upvals && u in h && u in c && c[u] == Gray ==> AllMarked(h, c, u)
  }

  /** ThreadRemarked but for the upvalues in `todo`. */
  ghost predicate RemarkedBut(h: Heap, c: Colors, t: Ref, todo: set<Ref>)
    requires t in h && h[t].Thread?
  {
    forall u {:trigger u in h[t].upvals} :: u in h[t].upvals && u !in todo && u in h && u in c && c[u] == Gray ==>
      AllMarked(h, c, u)
  }

  lemma RemarkStep(h: Heap, c: Colors, c': Colors, t: Ref, todo: set<Ref>, u: Ref)
    requires c.Keys == h.Keys && Linked(h) && Extends(h, c, c') && t in h && h[t].Thread? && u in h[t].upvals && u in h
    requires RemarkedBut(h, c, t, todo) && (IsWhite(c[u]) || AllMarked(h, c', u)) && (IsWhite(c[u]) ==> c' == c)
    ensures RemarkedBut(h, c', t, todo - {u})
  {
    forall x | x in h[t].upvals && x !in todo - {u} && x in h && x in c' && c'[x] == Gray ensures AllMarked(h, c', x) {
      if x != u {
        if IsWhite(c[x]) { assert Finished(h, c', x); } else { AllMarkedGrows(h, h, c, c', x); }
      }
    }
  }

  lemma ThreadRemarkedExtends(h: Heap, c: Colors, c': Colors, t: Ref)
    requires c.Keys == h.Keys && Linked(h) && t in h && h[t].Thread? && ThreadRemarked(h, c, t) && Extends(h, c, c')
    ensures ThreadRemarked(h, c', t)
  {
    forall u | u in h[t].upvals && u in h && u in c' && c'[u] == Gray ensures AllMarked(h, c', u) {
      if IsWhite(c[u]) {
        assert Finished(h, c', u) && h[u].OpenUp?;
      } else {
        AllMarkedGrows(h, h, c, c', u);
      }
    }
  }

  /** How far the walk over 'twups' has come: threads still ahead, kept, or removed because they were white. */
  ghost predicate RemarkWalk(h: Heap, c0: Colors, c: Colors, all: seq<Ref>, rest: seq<Ref>, kept: seq<Ref>) {
    && (forall t {:trigger t in all} :: t in all && t in h && h[t].Thread? && h[t].upvals != {} ==>
          t in rest || t in kept || (t in c0 && IsWhite(c0[t]) && ThreadRemarked(h, c, t)))
    && (forall t {:trigger t in kept} :: t in kept ==> t in h && h[t].Thread? && Marked(c, t))
    && (forall t {:trigger t in rest} :: t in rest ==> t in all)
  }

  lemma RemarkWalkExtends(h: Heap, c0: Colors, c: Colors, c': Colors, all: seq<Ref>, rest: seq<Ref>, kept: seq<Ref>)
    requires c.Keys == h.Keys && Linked(h) && RemarkWalk(h, c0, c, all, rest, kept) && Extends(h, c, c')
    ensures RemarkWalk(h, c0, c', all, rest, kept)
  {
    forall t | t in all && t in h && h[t].Thread? && h[t].upvals != {}
      ensures t in rest || t in kept || (t in c0 && IsWhite(c0[t]) && ThreadRemarked(h, c', t))
    {
      if !(t in rest || t in kept) { ThreadRemarkedExtends(h, c, c', t); }
    }
  }

  lemma RemarkWalkDone(h: Heap, c0: Colors, c: Colors, all: seq<Ref>, kept: seq<Ref>)
    requires c.Keys == h.Keys && c0.Keys == h.Keys && Linked(h) && TriColour(h, c) && TwupsAll(h, all)
    requires Extends(h, c0, c)
    requires RemarkWalk(h, c0, c, all, [], kept)
    ensures UpvalsTraced(h, c, kept)
  {
    forall u | u in h && u in c && h[u].OpenUp? && c[u] == Gray ensures AllMarked(h, c, u) || Marked(c, h[u].thread) {
      assert SlotOk(h, u);
      var t := h[u].thread;
      assert t in all;
      if t !in kept { assert ThreadRemarked(h, c, t); }
    }
    RemarkedDone(h, c);
    forall t | t in h && t in c && h[t].Thread? && h[t].upvals != {} && Marked(c, t) ensures t in kept || c[t] == Gray {
      assert t in all;
      if t !in kept { assert Finished(h, c, t); }
    }
  }

  /** Clearing the entries of one table, all that the atomic phase knows being kept. */
  lemma TableCleared(s: Snap, s': Snap, o: Ref)
    requires s.c.Keys == s.h.Keys && CleanShrink(s.h, s'.h) && StringMarks(s'.h, s.c, s'.c) && s'.l == s.l
    requires s'.tw == s.tw
    requires Tracing(s.h, s.c, s.l, true) && Marked(s.c, o)
    ensures Tracing(s'.h, s'.c, s'.l, true) && Advances(s, s')
    ensures Converged(s.h, s.c, s.l.ephemeron) ==> Converged(s'.h, s'.c, s.l.ephemeron)
  {
    ClearAdvances(s, s');
    assert OnlyStrings(s'.h, s.c, s'.c, o);
    ConvergedClear(s.h, s'.h, s.c, s'.c, s.l.ephemeron, o);
  }

  lemma WeakMember(h: Heap, c: Colors, l: Lists, o: Ref)
    requires GrayListed(h, c, l) && AtomicLists(h, c, l) && (o in l.weak || o in l.allweak || o in l.ephemeron)
    ensures o in h && Marked(c, o) && IsWeak(h[o])
  {
    Member(h, c, l, o);
  }

  /** Entries were removed from one table. */
  lemma NodesCleared(h: Heap, h': Heap, c: Colors, o: Ref, ns: seq<Node>)
    requires o in h && h[o].Table? && h[o].mode != Strong && h' == h[o := h[o].(nodes := ns)]
    requires KeyWeak(h[o].mode) && NodeKeysLost(h, c, h[o].nodes, ns) && NodesShrink(h[o].nodes, ns)
    ensures Loses(h, h', c, c)
  {
  }

  lemma ClearProgress(s: Snap, s': Snap, o: Ref)
    requires s.c.Keys == s.h.Keys && CleanShrink(s.h, s'.h) && StringMarks(s'.h, s.c, s'.c) && s'.l == s.l
    requires s'.tw == s.tw
    requires Tracing(s.h, s.c, s.l, true) && Marked(s.c, o) && Loses(s.h, s'.h, s.c, s.c)
    requires UpvalsTraced(s.h, s.c, s.tw)
    ensures Tracing(s'.h, s'.c, s'.l, true) && UpvalsTraced(s'.h, s'.c, s'.tw) && Progress(s, s')
    ensures Converged(s.h, s.c, s.l.ephemeron) ==> Converged(s'.h, s'.c, s.l.ephemeron)
  {
    TableCleared(s, s', o);
  }

  /** Entries of a table were cleared for their values, and only strings marked. */
  lemma EntriesCleared(s: Snap, s': Snap, o: Ref)
    requires s.c.Keys == s.h.Keys && CleanShrink(s.h, s'.h) && StringMarks(s'.h, s.c, s'.c) && s'.l == s.l
    requires s'.tw == s.tw && TracingOk(s.h, s.c, s.l, true) && UpvalsOk(s.h, s.c, s.tw) && Marked(s.c, o)
    requires Loses(s.h, s'.h, s.c, map[])
    ensures TracingOk(s'.h, s'.c, s'.l, true) && UpvalsOk(s'.h, s'.c, s'.tw) && Progress(s, s')
    ensures StringsOnly(s, s') && ValuesWent(s, s')
    ensures Converged(s.h, s.c, s.l.ephemeron) ==> Converged(s'.h, s'.c, s.l.ephemeron)
  {
    assert Open(0);
    LosesCovers(s.h, s'.h, s.c, map[], s.c);
    ClearProgress(s, s', o);
  }

  // ----- coarse progress -----

  /** Marks are added and weak entries at most disappear, over any number of steps; folded. */
  ghost predicate Later(s: Snap, s': Snap) {
    forall k: nat {:trigger Open(k)} :: Open(k) ==>
      CleanShrink(s.h, s'.h) && Grows(s.c, s'.c) && ListsGrow(s.l, s'.l) && Loses(s.h, s'.h, s.c, s.c)
  }

  lemma LaterTrans(s: Snap, s': Snap, s'': Snap)
    requires Later(s, s') && (Later(s', s'') || Progress(s', s''))
    ensures Later(s, s'')
  {
    assert Open(0);
    CleanShrinkTrans(s.h, s'.h, s''.h);
    GrowsTrans(s.c, s'.c, s''.c);
    ListsGrowTrans(s.l, s'.l, s''.l);
    GrowsCovers(s.h, s.c, s'.c);
    LosesTrans(s.h, s'.h, s''.h, s.c, s'.c, s.c, s'.c, s.c);
  }

  ghost predicate ListMarked(c: Colors, rs: seq<Ref>) {
    forall r {:trigger r in rs} :: r in rs ==> Marked(c, r)
  }

  lemma LaterMarked(s: Snap, s': Snap, rs: seq<Ref>)
    requires Later(s, s') || Progress(s, s')
    ensures ListMarked(s.c, rs) ==> ListMarked(s'.c, rs)
  {
    assert Open(0);
    if ListMarked(s.c, rs) {
      forall r | r in rs ensures Marked(s'.c, r) { assert Marked(s.c, r); }
    }
  }

  lemma ProgressTwups(s: Snap, s': Snap)
    requires Progress(s, s')
    ensures TwupsAll(s.h, s.tw) ==> TwupsAll(s'.h, s'.tw)
  {
    assert Open(0);
  }

  lemma ProgressLater(s: Snap, s': Snap)
    requires Progress(s, s')
    ensures Later(s, s')
  {
    assert Open(0);
  }

  lemma ExtendsLater(s: Snap, s': Snap)
    requires s'.h == s.h && Extends(s.h, s.c, s'.c) && s'.l.weak == s.l.weak && s'.l.allweak == s.l.allweak
    ensures Later(s, s')
  {
  }

  /** The objects of a list that are white, or that are not. */
  function Select(c: Colors, l: seq<Ref>, white: bool): (r: seq<Ref>)
    requires forall o :: o in l ==> o in c
    ensures forall o :: o in r <==> o in l && IsWhite(c[o]) == white
  {
    if l == [] then []
    else (if IsWhite(c[l[0]]) == white then [l[0]] else []) + Select(c, l[1..], white)
  }

  lemma {:induction false} SelectAppend(c: Colors, l: seq<Ref>, o: Ref, white: bool)
    requires o in c && forall x :: x in l ==> x in c
    ensures Select(c, l + [o], white) == Select(c, l, white) + if IsWhite(c[o]) == white then [o] else []
  {
    if l == [] {
    } else {
      assert (l + [o])[1..] == l[1..] + [o];
      SelectAppend(c, l[1..], o, white);
    }
  }

  /** Selecting loses and duplicates nothing. */
  lemma {:induction false} SelectSplits(c: Colors, l: seq<Ref>)
    requires forall o :: o in l ==> o in c
    ensures multiset(Select(c, l, true)) + multiset(Select(c, l, false)) == multiset(l)
  {
    if l != [] {
      assert l == [l[0]] + l[1..];
      SelectSplits(c, l[1..]);
    }
  }

  // ----- what is marked when marking is over -----

  /** Intact, folded. */
  ghost predicate Same(h: Heap, h': Heap) {
    forall k: nat {:trigger Open(k)} :: Open(k) ==> Intact(h, h')
  }

  lemma SameTrans(h: Heap, h': Heap, h'': Heap)
    requires Same(h, h') && Same(h', h'')
    ensures Same(h, h'')
  {
    assert Open(0);
    IntactTrans(h, h', h'');
  }

  ghost function MarkedSet(c: Colors): iset<Ref> { iset o: Ref | Marked(c, o) }

  /** Once ephemerons have converged, what is marked is closed under strong references. */
  lemma ConvergedClosed(h: Heap, c: Colors, l: Lists, tw: seq<Ref>)
    requires c.Keys == h.Keys && GrayListed(h, c, l) && Tracing(h, c, l, true) && UpvalsTraced(h, c, tw) && Linked(h)
    requires l.gray == [] && l.detached == [] && Kinds(h, c) && Converged(h, c, l.ephemeron)
    ensures StrongClosed(h, MarkedSet(c))
  {
    forall o, r | o in MarkedSet(c) && o in h && StrongKeeps(h, MarkedSet(c), o, r) ensures r in MarkedSet(c) {
      if AllMarked(h, c, o) {
        StrongPoints(h, MarkedSet(c), o, r);
      } else if h[o].Listable() {
        assert Times(l, o) == 1;
        ListedKeeps(h, c, l, o, r);
      } else {
        forall t | t in h && h[t].Thread? ensures c[t] != Gray { ThreadDone(h, c, l, t); }
        UpvalMarked(h, c, tw, o);
      }
    }
  }

  lemma StrongPoints(h: Heap, s: iset<Ref>, o: Ref, r: Ref)
    requires o in h && StrongKeeps(h, s, o, r)
    ensures Points(h, o, r)
  {
    if h[o].Table? && h[o].mode == WeakValues && KeyRefers(h[o].nodes, r) {
      var i :| 0 <= i < |h[o].nodes| && h[o].nodes[i].val != Nil && h[o].nodes[i].key == Live(Obj(r));
      assert NodeRefers(h[o].mode, h[o].nodes[i], r);
    } else if h[o].Table? && h[o].mode == Ephemeron && HeldKeyValue(h, h[o].nodes, s, r) {
      var i :| 0 <= i < |h[o].nodes| && h[o].nodes[i].val == Obj(r) && KeyHeld(h, h[o].nodes[i].key, s);
      assert NodeRefers(h[o].mode, h[o].nodes[i], r);
    }
  }

  lemma ThreadDone(h: Heap, c: Colors, l: Lists, t: Ref)
    requires c.Keys == h.Keys && GrayListed(h, c, l) && AtomicLists(h, c, l) && l.gray == [] && l.detached == []
    requires t in h && h[t].Thread?
    ensures c[t] != Gray
  {
    assert Times(l, t) == 0 || t in l.weak || t in l.ephemeron || t in l.allweak || t in l.grayagain;
  }

  lemma UpvalMarked(h: Heap, c: Colors, tw: seq<Ref>, o: Ref)
    requires c.Keys == h.Keys && TriColour(h, c) && UpvalsTraced(h, c, tw) && Linked(h) && Kinds(h, c)
    requires o in h && Marked(c, o) && !h[o].Listable()
    requires forall t :: t in h && h[t].Thread? ==> c[t] != Gray
    ensures AllMarked(h, c, o)
  {
    if h[o].OpenUp? { assert SlotOk(h, o); }
  }

  lemma ListedKeeps(h: Heap, c: Colors, l: Lists, o: Ref, r: Ref)
    requires AtomicLists(h, c, l) && Converged(h, c, l.ephemeron) && o in h && StrongKeeps(h, MarkedSet(c), o, r)
    requires !AllMarked(h, c, o) && (o in l.weak || o in l.ephemeron || o in l.allweak || o in l.grayagain)
    ensures Marked(c, r)
  {
    assert h[o].Table? && ValueMarked(c, h[o].meta);
    if h[o].mode == WeakValues && KeyRefers(h[o].nodes, r) {
      var i :| 0 <= i < |h[o].nodes| && h[o].nodes[i].val != Nil && h[o].nodes[i].key == Live(Obj(r));
    } else if h[o].mode == Ephemeron && Obj(r) in h[o].arr {
      SlotsMarked(c, h[o].arr, r);
    } else if h[o].mode == Ephemeron && HeldKeyValue(h, h[o].nodes, MarkedSet(c), r) {
      var i :| 0 <= i < |h[o].nodes| && h[o].nodes[i].val == Obj(r) && KeyHeld(h, h[o].nodes[i].key, MarkedSet(c));
      assert EphemeronNode(h, c, h[o].nodes[i]) || ValueMarked(c, h[o].nodes[i].val);
    }
  }

  lemma StrongIntact(h: Heap, h': Heap, s: iset<Ref>, o: Ref, r: Ref)
    requires Intact(h, h') && o in h && StrongKeeps(h, s, o, r)
    ensures StrongKeeps(h', s, o, r)
  {
    assert BodyIntact(h[o], h'[o]);
    if h[o].Table? {
      StrongNodes(h, h', s, o, r);
    } else if h[o].OpenUp? {
      assert h[o].thread in h ==> BodyIntact(h[h[o].thread], h'[h[o].thread]);
    }
  }

  lemma StrongNodes(h: Heap, h': Heap, s: iset<Ref>, o: Ref, r: Ref)
    requires Intact(h, h') && o in h && h[o].Table? && StrongKeeps(h, s, o, r)
    ensures StrongKeeps(h', s, o, r)
  {
    assert BodyIntact(h[o], h'[o]);
    var ns, ns' := h[o].nodes, h'[o].nodes;
    assert ns' == ns || forall i :: 0 <= i < |ns| ==> NodeKept(ns[i], ns'[i]);
    if h[o].mode == Strong && NodesRefer(Strong, ns, r) {
      var i :| 0 <= i < |ns| && NodeRefers(Strong, ns[i], r);
      assert NodeRefers(Strong, ns'[i], r);
    } else if h[o].mode == WeakValues && KeyRefers(ns, r) {
      var i :| 0 <= i < |ns| && ns[i].val != Nil && ns[i].key == Live(Obj(r));
      assert ns'[i] == ns[i];
    } else if h[o].mode == Ephemeron && HeldKeyValue(h, ns, s, r) {
      var i :| 0 <= i < |ns| && ns[i].val == Obj(r) && KeyHeld(h, ns[i].key, s);
      assert ns'[i] == ns[i];
      var k := ns[i].key;
      assert k.Live? && k.v.Obj? && k.v.ref in h ==> BodyIntact(h[k.v.ref], h'[k.v.ref]);
      assert KeyHeld(h', k, s);
    }
  }

  lemma ClosedIntact(h: Heap, h': Heap, s: iset<Ref>)
    requires Same(h, h') && StrongClosed(h', s)
    ensures StrongClosed(h, s)
  {
    assert Open(0);
    forall o, r | o in s && o in h && StrongKeeps(h, s, o, r) ensures r in s {
      StrongIntact(h, h', s, o, r);
    }
  }

  lemma IntactShrinks(h: Heap, h': Heap)
    requires Same(h, h')
    ensures HeapShrinks(h, h')
  {
    assert Open(0);
    forall o | o in h ensures BodyShrinks(h[o], h'[o]) { assert BodyIntact(h[o], h'[o]); }
  }

  /** What the first part of the atomic phase has marked: the least set that contains what was marked before
      and the roots, and is closed under strong references; and strings only by the marking rules. */
  ghost predicate StronglyMarked(h: Heap, c: Colors, roots: seq<Ref>, strong: Colors) {
    && strong.Keys == c.Keys && StrongClosed(h, MarkedSet(strong)) && ListMarked(strong, roots)
    && (forall o :: Marked(c, o) ==> Marked(strong, o))
    && (forall o {:trigger Marked(strong, o)} :: Marked(strong, o) ==>
          MarkReached(h, (iset x: Ref | Marked(c, x) || x in roots), o))
  }

  lemma LaterGrows(s: Snap, s': Snap)
    requires Later(s, s')
    ensures forall o :: Marked(s.c, o) ==> Marked(s'.c, o)
  {
    assert Open(0);
    forall o | Marked(s.c, o) ensures Marked(s'.c, o) { assert !IsWhite(s.c[o]); }
  }

  /** After the strongly accessible objects were marked: marks are only added, and an entry of a weak table goes
      only if its value was not among them and is weak, or its key is not marked in the end and is weak. */
  ghost predicate Weakened(h: Heap, h': Heap, strong: Colors, c: Colors) {
    && (forall o :: Marked(strong, o) ==> Marked(c, o))
    && forall k: nat {:trigger Open(k)} :: Open(k) ==> HeapShrinks(h, h') && Loses(h, h', strong, c)
  }

  /** The tables with weak values that are strongly accessible hold no value that is not, but for strings; folded. */
  ghost predicate Purged(h: Heap, strong: Colors) {
    forall k: nat {:trigger Open(k)} :: Open(k) ==>
      forall o {:trigger Marked(strong, o)} :: o in h && Marked(strong, o) && h[o].Table? && ValueWeak(h[o].mode) ==>
        NoneClearable(h, strong, h[o])
  }

  ghost predicate NoneClearable(h: Heap, c: Colors, b: Body)
    requires b.Table?
  {
    && (forall i {:trigger b.arr[i]} :: 0 <= i < |b.arr| ==> !Clearable(h, c, b.arr[i]))
    && (forall i {:trigger b.nodes[i]} :: 0 <= i < |b.nodes| ==> !Clearable(h, c, b.nodes[i].val))
  }

  /** Only entries with white values are gone so far; folded. */
  ghost predicate ValuesWent(s: Snap, s': Snap) {
    forall k: nat {:trigger Open(k)} :: Open(k) ==> Loses(s.h, s'.h, s.c, map[])
  }

  lemma ValuesWentTrans(s: Snap, s': Snap, s'': Snap)
    requires Progress(s, s') && Progress(s', s'') && ValuesWent(s, s') && ValuesWent(s', s'')
    ensures ValuesWent(s, s'')
  {
    assert Open(0);
    LosesTrans(s.h, s'.h, s''.h, s.c, s'.c, map[], map[], map[]);
  }

  /** The parts of the atomic phase together: marking, the first clearing of values, resurrection, the last clearing. */
  lemma AllWeakened(s: Snap, s1: Snap, s2: Snap, s3: Snap)
    requires Later(s, s1) && ValuesWent(s, s1) && Later(s1, s2) && Same(s1.h, s2.h)
    requires Progress(s2, s3) && StringsOnly(s2, s3)
    ensures Weakened(s.h, s3.h, s.c, s3.c)
  {
    LaterTrans(s, s1, s2);
    LaterTrans(s, s2, s3);
    LaterGrows(s, s3);
    assert Open(0);
    IntactLoses(s1.h, s2.h, s1.c, map[]);
    LosesTrans(s.h, s1.h, s2.h, s.c, s1.c, map[], map[], map[]);
    StringsCover(s2.h, s3.h, s2.c, s3.c);
    CoversBefore(s.h, s2.h, s2.c, s3.c);
    LosesTrans(s.h, s2.h, s3.h, s.c, s2.c, map[], s2.c, s3.c);
  }

  /** Marking strings does not change what may be cleared. */
  lemma StringsCover(h: Heap, h': Heap, c: Colors, c': Colors)
    requires HeapShrinks(h, h') && c.Keys == h'.Keys && StringMarks(h', c, c')
    ensures Covers(h, c, c')
  {
    forall v | Clearable(h, c, v) ensures Clearable(h, c', v) {
      assert OnlyStrings(h', c, c', v.ref + 1) && BodyShrinks(h[v.ref], h'[v.ref]);
    }
  }

  lemma CoversBefore(h: Heap, h': Heap, c: Colors, c': Colors)
    requires HeapShrinks(h, h') && Covers(h', c, c')
    ensures Covers(h, c, c')
  {
    forall v | Clearable(h, c, v) ensures Clearable(h, c', v) {
      assert BodyShrinks(h[v.ref], h'[v.ref]);
      assert Clearable(h', c, v);
    }
  }

  /** The first clearing of values has reached every table with weak values that is strongly accessible. */
  lemma FirstPurged(s: Snap, s': Snap)
    requires Progress(s, s') && StringsOnly(s, s') && s'.c.Keys == s'.h.Keys && GrayListed(s'.h, s'.c, s'.l)
    requires Tracing(s'.h, s'.c, s'.l, true) && s'.l.gray == [] && s'.l.detached == []
    requires ListValuesCleared(s'.h, s'.c, s'.l.weak) && ListValuesCleared(s'.h, s'.c, s'.l.allweak)
    ensures Purged(s'.h, s.c)
  {
    assert Open(0);
    forall o | o in s'.h && Marked(s.c, o) && s'.h[o].Table? && ValueWeak(s'.h[o].mode)
      ensures NoneClearable(s'.h, s.c, s'.h[o])
    {
      assert s'.c[o] != White0 && Marked(s'.c, o);
      AllValuesMarked(s'.h, s'.c, s'.l, o);
      StringsCover(s'.h, s'.h, s.c, s'.c);
      forall i | 0 <= i < |s'.h[o].arr| ensures !Clearable(s'.h, s.c, s'.h[o].arr[i]) {}
      forall i | 0 <= i < |s'.h[o].nodes| ensures !Clearable(s'.h, s.c, s'.h[o].nodes[i].val) {}
    }
  }

  lemma AllValuesMarked(h: Heap, c: Colors, l: Lists, o: Ref)
    requires c.Keys == h.Keys && GrayListed(h, c, l) && Tracing(h, c, l, true) && l.gray == [] && l.detached == []
    requires ListValuesCleared(h, c, l.weak) && ListValuesCleared(h, c, l.allweak)
    requires o in h && Marked(c, o) && h[o].Table? && ValueWeak(h[o].mode)
    ensures ValuesMarked(c, h[o].arr) && NodeValuesMarked(c, h[o].nodes)
  {
    if c[o] == Gray {
      assert Times(l, o) == 1;
      if o !in l.weak && o !in l.allweak {
        assert o !in l.ephemeron;
        assert o in l.grayagain;
      }
    }
    if !(o in l.weak || o in l.allweak) {
      assert AllMarked(h, c, o);
      forall i | 0 <= i < |h[o].arr| && h[o].arr[i].Obj? ensures Marked(c, h[o].arr[i].ref) {
        assert Obj(h[o].arr[i].ref) in h[o].arr && Points(h, o, h[o].arr[i].ref);
      }
      forall i | 0 <= i < |h[o].nodes| && h[o].nodes[i].val.Obj? ensures Marked(c, h[o].nodes[i].val.ref) {
        assert NodeRefers(h[o].mode, h[o].nodes[i], h[o].nodes[i].val.ref) && Points(h, o, h[o].nodes[i].val.ref);
      }
    }
  }

  lemma PurgedLater(s: Snap, s': Snap, strong: Colors)
    requires Later(s, s') && Purged(s.h, strong)
    ensures Purged(s'.h, strong)
  {
    assert Open(0);
    forall o | o in s'.h && Marked(strong, o) && s'.h[o].Table? && ValueWeak(s'.h[o].mode)
      ensures NoneClearable(s'.h, strong, s'.h[o])
    {
      assert BodyShrinks(s.h[o], s'.h[o]) && NoneClearable(s.h, strong, s.h[o]);
      NoneClearableLater(s.h, s'.h, strong, s.h[o], s'.h[o]);
    }
  }

  lemma NoneClearableLater(h: Heap, h': Heap, c: Colors, b: Body, b': Body)
    requires HeapShrinks(h, h') && b.Table? && BodyShrinks(b, b') && NoneClearable(h, c, b)
    ensures NoneClearable(h', c, b')
  {
    forall i | 0 <= i < |b'.arr| ensures !Clearable(h', c, b'.arr[i]) {
      assert b'.arr[i] == b.arr[i] || b'.arr[i] == Nil;
      if Clearable(h', c, b'.arr[i]) { ClearableBefore(h, h', c, c, b'.arr[i]); }
    }
    forall i | 0 <= i < |b'.nodes| ensures !Clearable(h', c, b'.nodes[i].val) {
      assert b'.nodes[i].val == b.nodes[i].val || b'.nodes[i].val == Nil;
      if Clearable(h', c, b'.nodes[i].val) { ClearableBefore(h, h', c, c, b'.nodes[i].val); }
    }
  }

  lemma SameWeakened(h0: Heap, h: Heap, h': Heap, strong: Colors, c: Colors)
    requires Same(h0, h) && Weakened(h, h', strong, c)
    ensures Weakened(h0, h', strong, c)
  {
    assert Open(0);
    IntactShrinks(h0, h);
    IntactLoses(h0, h, strong, c);
    LosesTrans(h0, h, h', strong, strong, c, c, c);
  }

  /** The members of a list that are in a set, or that are not, in order. */
  ghost function Chosen(l: seq<Ref>, s: iset<Ref>, inside: bool): seq<Ref> {
    if l == [] then [] else (if (l[0] in s) == inside then [l[0]] else []) + Chosen(l[1..], s, inside)
  }

  lemma {:induction false} SelectChosen(c: Colors, l: seq<Ref>, s: iset<Ref>, white: bool)
    requires forall o :: o in l ==> o in c && (IsWhite(c[o]) <==> o !in s)
    ensures Select(c, l, white) == Chosen(l, s, !white)
  {
    if l != [] { SelectChosen(c, l[1..], s, white); }
  }

  lemma {:induction false} ChosenSame(l: seq<Ref>, s: iset<Ref>, s': iset<Ref>, inside: bool)
    requires forall o :: o in l ==> (o in s <==> o in s')
    ensures Chosen(l, s, inside) == Chosen(l, s', inside)
  {
    if l != [] { ChosenSame(l[1..], s, s', inside); }
  }

  /** Objects with finalizers are no strings. */
  predicate NoStrings(h: Heap, l: seq<Ref>) { forall o {:trigger o in l} :: o in l ==> o in h && !h[o].Str? }

  /** Of the objects with finalizers, which are no strings, exactly those that are not strongly accessible go to the end
      of the list of those to be finalized, in order, and the others stay. */
  ghost predicate Separated(h: Heap, strong: Colors, fin: seq<Ref>, tobe: seq<Ref>, fin': seq<Ref>, tobe': seq<Ref>) {
    && tobe <= tobe'
    && (forall o {:trigger o in tobe'} :: o in tobe' && o !in tobe ==> o in fin && !Marked(strong, o))
    && (forall o {:trigger o in fin'} :: o in fin && Marked(strong, o) ==> o in fin')
    && (forall o {:trigger o in tobe'} :: o in fin && o in h && !h[o].Str? && !Marked(strong, o) ==> o in tobe')
    && (NoStrings(h, fin) ==>
      fin' == Chosen(fin, MarkedSet(strong), true) && tobe' == tobe + Chosen(fin, MarkedSet(strong), false))
  }

  lemma SelectedSeparated(s: Snap, s': Snap, fin: seq<Ref>, tobe: seq<Ref>)
    requires Later(s, s') && StringsOnly(s, s') && forall o :: o in fin ==> o in s'.c
    ensures Separated(s'.h, s.c, fin, tobe, Select(s'.c, fin, false), tobe + Select(s'.c, fin, true))
  {
    LaterGrows(s, s');
    forall o | o in fin && o in s'.h && !s'.h[o].Str? && !Marked(s.c, o) ensures o in Select(s'.c, fin, true) {
      assert Open(0);
      assert OnlyStrings(s'.h, s.c, s'.c, o + 1);
    }
    if NoStrings(s'.h, fin) {
      forall o | o in fin ensures IsWhite(s'.c[o]) <==> o !in MarkedSet(s.c) {
        assert Open(0);
        assert OnlyStrings(s'.h, s.c, s'.c, o + 1);
        assert o in Select(s'.c, fin, true) || o in Select(s'.c, fin, false);
      }
      SelectChosen(s'.c, fin, MarkedSet(s.c), true);
      SelectChosen(s'.c, fin, MarkedSet(s.c), false);
    }
  }

  lemma SplitSeparated(s: Snap, s': Snap, fin: seq<Ref>, tobe: seq<Ref>)
    requires Later(s, s') && StringsOnly(s, s') && forall o :: o in fin ==> o in s'.c
    ensures var fin', tobe' := Select(s'.c, fin, false), tobe + Select(s'.c, fin, true);
      Separated(s.h, s.c, fin, tobe, fin', tobe') && multiset(fin') + multiset(tobe') == multiset(fin) + multiset(tobe)
  {
    SelectedSeparated(s, s', fin, tobe);
    SelectSplits(s'.c, fin);
    LaterKinds(s, s');
    SeparatedBefore(s.h, s'.h, s.c, fin, tobe, Select(s'.c, fin, false), tobe + Select(s'.c, fin, true));
  }

  lemma SeparatedBefore(h: Heap, h': Heap, strong: Colors, fin: seq<Ref>, tobe: seq<Ref>, fin': seq<Ref>,
      tobe': seq<Ref>)
    requires Separated(h', strong, fin, tobe, fin', tobe')
    requires forall o :: o in h ==> o in h' && h'[o].Str? == h[o].Str?
    ensures Separated(h, strong, fin, tobe, fin', tobe')
  {
  }

  lemma LaterKinds(s: Snap, s': Snap)
    requires Later(s, s')
    ensures forall o :: o in s.h ==> o in s'.h && s'.h[o].Str? == s.h[o].Str?
  {
    assert Open(0);
    forall o | o in s.h ensures o in s'.h && s'.h[o].Str? == s.h[o].Str? { assert BodyShrinks(s.h[o], s'.h[o]); }
  }

  // ----- marking no more than the rules call for -----

  ghost function FromMarks(c: Colors, l: seq<Ref>): iset<Ref> { iset x: Ref | Marked(c, x) || x in l }

  /** Whatever is marked now was marked before, or is on a list, or is marked by the rules because of these; folded. */
  ghost predicate MarksFrom(h: Heap, c: Colors, l: seq<Ref>, c': Colors) {
    forall k: nat {:trigger Open(k)} :: Open(k) ==>
      forall o {:trigger Marked(c', o)} :: Marked(c', o) ==> MarkReached(h, FromMarks(c, l), o)
  }

  /** The smallest bound for marking the objects of a list. */
  ghost function Least(h: Heap, c: Colors, l: seq<Ref>, bound: iset<Ref>): iset<Ref> {
    iset o | o in MarkBound(h, FromMarks(c, l)) && o in bound
  }

  lemma LeastMarkable(h: Heap, c: Colors, ls: Lists, l: seq<Ref>, bound: iset<Ref>)
    requires Markable(h, c, ls, bound) && forall o :: o in l ==> o in bound
    ensures Markable(h, c, ls, Least(h, c, l, bound)) && forall o :: o in l ==> o in Least(h, c, l, bound)
  {
    assert Open(0);
    MarkBoundClosed(h, FromMarks(c, l));
    forall o | o in FromMarks(c, l) ensures MarkReached(h, FromMarks(c, l), o) {}
    ClosedBoth(h, MarkBound(h, FromMarks(c, l)), bound);
  }

  /** What was marked within the smallest bound. */
  lemma LeastMarked(h0: Heap, c0: Colors, ls0: Lists, l: seq<Ref>, bound: iset<Ref>, h: Heap, c: Colors, ls: Lists)
    requires Markable(h0, c0, ls0, bound) && Markable(h, c, ls, Least(h0, c0, l, bound)) && HeapShrinks(h0, h)
    ensures Markable(h, c, ls, bound) && MarksFrom(h0, c0, l, c)
  {
    assert Open(0);
    ShrinkMarkClosed(h0, h, bound);
    forall o | Marked(c, o) ensures o in Least(h0, c0, l, bound) {}
  }

  lemma FewerMarked(h: Heap, c: Colors, l: seq<Ref>, c': Colors)
    requires forall x :: Marked(c', x) ==> Marked(c, x)
    ensures MarksFrom(h, c, l, c')
  {
    forall x | Marked(c', x) ensures MarkReached(h, FromMarks(c, l), x) {}
  }

  /** What was marked from a set is in any set that holds it and is closed. */
  lemma MarksFromClosed(h: Heap, c: Colors, l: seq<Ref>, c': Colors, s: iset<Ref>, o: Ref)
    requires MarksFrom(h, c, l, c') && MarkClosed(h, s) && Marked(c', o) && forall x :: x in FromMarks(c, l) ==> x in s
    ensures o in s
  {
    assert Open(0);
    assert MarkReached(h, FromMarks(c, l), o);
  }

  // ----- what is resurrected -----

  /** What is marked in the end is what was strongly accessible, what an object to be finalized needs, and strings;
      folded. */
  ghost predicate NeededOnly(h: Heap, strong: Colors, tobe: seq<Ref>, c: Colors) {
    forall k: nat {:trigger Open(k)} :: Open(k) ==>
      forall o {:trigger Marked(c, o)} :: Marked(c, o) ==> o in StrongBound(h, FromMarks(strong, tobe))
  }

  /** Marking from these objects, after strings were marked and weak entries removed. */
  lemma NeededFirst(s: Snap, s1: Snap, tobe: seq<Ref>, c: Colors)
    requires Later(s, s1) && StringsOnly(s, s1)
    requires forall o {:trigger Marked(c, o)} :: Marked(c, o) ==> MarkReached(s1.h, FromMarks(s1.c, tobe), o)
    ensures NeededOnly(s.h, s.c, tobe, c)
  {
    var b := StrongBound(s.h, FromMarks(s.c, tobe));
    StrongBoundClosed(s.h, FromMarks(s.c, tobe));
    LaterMarkClosed(s, s1, b);
    forall o | o in FromMarks(s1.c, tobe) ensures o in b { FromWithin(s, s1, tobe, o); }
    forall o | Marked(c, o) ensures o in b { assert MarkReached(s1.h, FromMarks(s1.c, tobe), o); }
  }

  /** Marked from marks and from white objects of a list, which all came to another list. */
  lemma FromSame(h: Heap, c: Colors, fin: seq<Ref>, tobe: seq<Ref>, tobe': seq<Ref>, o: Ref)
    requires forall x :: x in fin ==> x in c
    requires tobe' == tobe + Select(c, fin, true)
    requires MarkReached(h, (iset x: Ref | Marked(c, x) || x in tobe || x in fin), o)
    ensures MarkReached(h, FromMarks(c, tobe'), o)
  {
    forall s: iset<Ref> | (forall r :: r in FromMarks(c, tobe') ==> r in s) && MarkClosed(h, s) ensures o in s {
      forall x | x in fin ensures x in s { assert IsWhite(c[x]) ==> x in tobe'; }
    }
  }

  lemma LaterMarkClosed(s: Snap, s1: Snap, b: iset<Ref>)
    requires Later(s, s1) && MarkClosed(s.h, b)
    ensures MarkClosed(s1.h, b)
  {
    assert HeapShrinks(s.h, s1.h) by { assert Open(0); }
    ShrinkMarkClosed(s.h, s1.h, b);
  }

  lemma FromWithin(s: Snap, s1: Snap, tobe: seq<Ref>, o: Ref)
    requires Later(s, s1) && StringsOnly(s, s1) && o in FromMarks(s1.c, tobe)
    ensures o in StrongBound(s.h, FromMarks(s.c, tobe))
  {
    if o in FromMarks(s.c, tobe) {
      assert StronglyReached(s.h, FromMarks(s.c, tobe), o);
    } else {
      NewString(s, s1, o);
    }
  }

  lemma NewString(s: Snap, s': Snap, o: Ref)
    requires Later(s, s') && StringsOnly(s, s') && Marked(s'.c, o) && !Marked(s.c, o)
    ensures o in s.h && s.h[o].Str?
  {
    LaterKeys(s, s');
    LaterKinds(s, s');
    assert Open(0);
    assert OnlyStrings(s'.h, s.c, s'.c, o + 1);
  }

  lemma NeededLast(h: Heap, strong: Colors, tobe: seq<Ref>, s: Snap, s': Snap)
    requires NeededOnly(h, strong, tobe, s.c) && Later(s, s') && StringsOnly(s, s')
    requires forall o :: o in s.h && s.h[o].Str? ==> o in h && h[o].Str?
    ensures NeededOnly(h, strong, tobe, s'.c)
  {
    forall o | Marked(s'.c, o) ensures o in StrongBound(h, FromMarks(strong, tobe)) {
      if Marked(s.c, o) { assert Open(0); } else { NewString(s, s', o); }
    }
  }

  /** With fewer entries, fewer objects are strongly referred to. */
  lemma StrongShrinks(h: Heap, h': Heap, s: iset<Ref>, o: Ref, r: Ref)
    requires HeapShrinks(h, h') && o in h && StrongKeeps(h', s, o, r)
    ensures StrongKeeps(h, s, o, r)
  {
    assert BodyShrinks(h[o], h'[o]);
    if !h[o].Table? || h[o].mode == Strong {
      ShrinkPoints(h, h', o, r);
    } else if h[o].mode == WeakValues && KeyRefers(h'[o].nodes, r) {
      var i :| 0 <= i < |h'[o].nodes| && h'[o].nodes[i].val != Nil && h'[o].nodes[i].key == Live(Obj(r));
      assert h[o].nodes[i] == h'[o].nodes[i];
    } else if h[o].mode == Ephemeron && Obj(r) in h'[o].arr {
      var i :| 0 <= i < |h'[o].arr| && h'[o].arr[i] == Obj(r);
      assert h[o].arr[i] == Obj(r);
    } else if h[o].mode == Ephemeron && HeldKeyValue(h', h'[o].nodes, s, r) {
      var i :| 0 <= i < |h'[o].nodes| && h'[o].nodes[i].val == Obj(r) && KeyHeld(h', h'[o].nodes[i].key, s);
      assert h[o].nodes[i] == h'[o].nodes[i];
      var k := h[o].nodes[i].key;
      assert k.Live? && k.v.Obj? && k.v.ref in h ==> BodyShrinks(h[k.v.ref], h'[k.v.ref]);
      assert KeyHeld(h, k, s);
    }
  }

  lemma StrongBoundShrinks(h: Heap, h': Heap, from: iset<Ref>, o: Ref)
    requires HeapShrinks(h, h') && o in StrongBound(h', from)
    ensures o in StrongBound(h, from)
  {
    if o in h' && h'[o].Str? {
      assert BodyShrinks(h[o], h'[o]);
    } else {
      forall s: iset<Ref> | (forall r :: r in from ==> r in s) && StrongClosed(h, s) ensures o in s {
        forall x, r | x in s && x in h' && StrongKeeps(h', s, x, r) ensures r in s { StrongShrinks(h, h', s, x, r); }
        assert StrongClosed(h', s);
      }
    }
  }

  lemma NeededSame(h: Heap, h': Heap, strong: Colors, tobe: seq<Ref>, c: Colors)
    requires Same(h, h') && NeededOnly(h', strong, tobe, c)
    ensures NeededOnly(h, strong, tobe, c)
  {
    IntactShrinks(h, h');
    forall o | Marked(c, o) ensures o in StrongBound(h, FromMarks(strong, tobe)) {
      assert o in StrongBound(h', FromMarks(strong, tobe)) by { assert Open(0); }
      StrongBoundShrinks(h, h', FromMarks(strong, tobe), o);
    }
  }

  /** The second half of the atomic phase, seen from its beginning. */
  lemma AtomicDone(s0: Snap, s: Snap, s': Snap, fin: seq<Ref>, tobe: seq<Ref>, fin': seq<Ref>, tobe': seq<Ref>)
    requires Same(s0.h, s.h) && Later(s0, s) && Later(s, s') && Weakened(s.h, s'.h, s.c, s'.c)
    requires NeededOnly(s.h, s.c, tobe', s'.c) && Separated(s.h, s.c, fin, tobe, fin', tobe')
    ensures Later(s0, s') && Weakened(s0.h, s'.h, s.c, s'.c)
    ensures NeededOnly(s0.h, s.c, tobe', s'.c) && Separated(s0.h, s.c, fin, tobe, fin', tobe')
  {
    LaterKinds(s0, s);
    SameWeakened(s0.h, s.h, s'.h, s.c, s'.c);
    NeededSame(s0.h, s.h, s.c, tobe', s'.c);
    SeparatedBefore(s0.h, s.h, s.c, fin, tobe, fin', tobe');
    LaterTrans(s0, s, s');
  }

  // ----- the end of the atomic phase -----

  /** Everything that is marked refers only to marked objects. */
  ghost predicate Settled(h: Heap, c: Colors) {
    forall o {:trigger Marked(c, o)} :: o in h && Marked(c, o) ==> AllMarked(h, c, o)
  }

  lemma AllSettled(h: Heap, c: Colors, l: Lists, tw: seq<Ref>)
    requires c.Keys == h.Keys && GrayListed(h, c, l) && Tracing(h, c, l, true) && UpvalsTraced(h, c, tw) && Linked(h)
    requires l.gray == [] && l.detached == [] && Kinds(h, c) && Converged(h, c, l.ephemeron)
    requires ListValuesCleared(h, c, l.weak) && ListValuesCleared(h, c, l.allweak)
    requires ListKeysCleared(h, c, l.ephemeron) && ListKeysCleared(h, c, l.allweak)
    ensures Settled(h, c)
    ensures forall t :: t in h && h[t].Thread? && h[t].upvals != {} && Marked(c, t) ==> t in tw
  {
    forall o | o in h && c[o] == Gray && h[o].Listable() ensures h[o].Table? && AllMarked(h, c, o) {
      assert Times(l, o) == 1;
      if o in l.weak {
        TableMarked(h, c, o);
      } else if o in l.ephemeron {
        assert EphemeronClosed(h, c, h[o].nodes) && KeysCleared(c, h[o]);
        forall i | 0 <= i < |h[o].nodes| ensures ValueMarked(c, h[o].nodes[i].val) {
          assert EphemeronNode(h, c, h[o].nodes[i]);
        }
        TableMarked(h, c, o);
      } else if o in l.allweak {
        assert ValuesCleared(c, h[o]) && KeysCleared(c, h[o]);
        TableMarked(h, c, o);
      } else {
        assert o in l.grayagain;
      }
    }
    forall o | o in h && Marked(c, o) ensures AllMarked(h, c, o) {
      if c[o] == Gray && !h[o].Listable() && h[o].OpenUp? {
        assert SlotOk(h, o);
        var t := h[o].thread;
        assert h[t].Thread? && c[t] != Gray;
      }
    }
  }

  function RefsOf(vs: seq<Value>): (r: seq<Ref>)
    ensures forall o :: o in r <==> Obj(o) in vs
  {
    if vs == [] then [] else (if vs[0].Obj? then [vs[0].ref] else []) + RefsOf(vs[1..])
  }

  lemma DetachGrayAgain(h: Heap, c: Colors, l: Lists)
    requires GrayListed(h, c, l) && l.detached == []
    ensures GrayListed(h, c, l.(grayagain := [], detached := l.grayagain))
  {
    var l' := l.(grayagain := [], detached := l.grayagain);
    forall x ensures Times(l', x) == if x in h && x in c && c[x] == Gray && h[x].Listable() then 1 else 0 {
      assert Times(l', x) == Times(l, x);
    }
  }

  lemma AttachGray(h: Heap, c: Colors, l: Lists)
    requires GrayListed(h, c, l) && l.gray == []
    ensures GrayListed(h, c, l.(gray := l.detached, detached := []))
  {
    var l' := l.(gray := l.detached, detached := []);
    forall x ensures Times(l', x) == if x in h && x in c && c[x] == Gray && h[x].Listable() then 1 else 0 {
      assert Times(l', x) == Times(l, x);
    }
  }

  lemma ProgressLists(s: Snap, s': Snap)
    requires s'.h == s.h && s'.c == s.c && s'.tw == s.tw && s'.l.weak == s.l.weak && s'.l.allweak == s.l.allweak
    ensures Progress(s, s')
  {
  }

  lemma LaterCleared(s: Snap, s': Snap, ts: seq<Ref>)
    requires Later(s, s')
    ensures ListValuesCleared(s.h, s.c, ts) ==> ListValuesCleared(s'.h, s'.c, ts)
  {
    assert Open(0);
    ClearedGrows(s.h, s'.h, s.c, s'.c, ts);
  }

  lemma LaterLists(s: Snap, s': Snap)
    requires Later(s, s')
    ensures Extension(s.l.weak, s'.l.weak) && Extension(s.l.allweak, s'.l.allweak)
  {
    assert Open(0);
  }

  /** The first elements of a list and the list they were pushed on. */
  lemma ClearedParts(h: Heap, c: Colors, l: seq<Ref>, orig: seq<Ref>)
    requires Extension(orig, l) && ListValuesCleared(h, c, l[..|l| - |orig|]) && ListValuesCleared(h, c, orig)
    ensures ListValuesCleared(h, c, l)
  {
    forall o | o in l ensures o in h && ValuesCleared(c, h[o]) {
      assert l == l[..|l| - |orig|] + orig;
      assert o in l[..|l| - |orig|] || o in orig;
    }
  }

  lemma KeptMarked(s: Snap, s': Snap, all: seq<Ref>, kept: seq<Ref>, rest: seq<Ref>)
    requires Later(s, s') && (forall o :: o in all ==> o in s.c) && kept == Select(s.c, all, false)
    requires ListMarked(s'.c, rest)
    ensures ListMarked(s'.c, kept + rest)
  {
    LaterMarked(s, s', kept);
  }

  lemma LaterKeys(s: Snap, s': Snap)
    requires Later(s, s')
    ensures s'.h.Keys == s.h.Keys && s'.c.Keys == s.c.Keys
  {
    assert Open(0);
  }
}
