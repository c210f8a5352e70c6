/** The collector's state and its marking steps (lgc.c:148-762, 974-991, 1525-1565): objects go from white over gray
    to black, and the atomic phase finishes the marks. */
module GcState {
  import opened GcObjects
  import opened GcMarking
  import opened GcWorld
  import opened Folding

  function Rank(b: Body): nat {
    if b.IsUpval() then 2 else if b.Udata? then 1 else 0
  }

  class GlobalState {
    var heap: Heap
    var color: Colors
    var gray: seq<Ref>
    var grayagain: seq<Ref>
    var weak: seq<Ref>
    var ephemeron: seq<Ref>
    var allweak: seq<Ref>
    ghost var detached: seq<Ref>
    var phase: Phase
    var twups: seq<Ref>
    var curwhite: Color
    var allgc: seq<Ref>
    var finobj: seq<Ref>
    var tobefnz: seq<Ref>
    var fixedgc: seq<Ref>
    var mainthread: Ref
    var running: Ref
    var registry: Value
    var mt: seq<Value>
    var sweep: Sweep
    var newref: Ref
    ghost var garbage: set<Ref>
    var names: map<Ref, string>

    /** A new state: a main thread, and no collection under way (lstate.c:363-416). */
    constructor ()
      ensures W() == InitialWorld()
    {
      heap, color := map[0 := Thread([], {})], map[0 := White0];
      gray, grayagain, weak, ephemeron, allweak, detached := [], [], [], [], [], [];
      phase, twups, curwhite, sweep := Pause, [], White0, Done;
      allgc, finobj, tobefnz, fixedgc := [0], [], [], [];
      mainthread, running, registry, mt := 0, 0, Nil, [Nil, Nil, Nil, Nil, Nil, Nil, Nil, Nil, Nil];
      newref, garbage, names := 1, {}, map[];
    }

    /** The whole state as a value. */
    ghost function W(): World
      reads this
    {
      World(heap, color, L(), twups, curwhite, phase, sweep, allgc, finobj, tobefnz, fixedgc,
            mainthread, running, registry, mt, newref, garbage, names)
    }

    ghost function L(): Lists
      reads this
    {
      Lists(gray, grayagain, weak, ephemeron, allweak, detached)
    }

    ghost function S(): Snap
      reads this
    {
      Snap(heap, color, L(), twups)
    }

    ghost predicate CanMark(bound: iset<Ref>)
      reads this
    {
      Markable(heap, color, L(), bound)
    }

    /** Marks a white object (lgc.c:297-329). */
    method ReallyMark(o: Ref, ghost bound: iset<Ref>)
      requires CanMark(bound) && o in heap && IsWhite(color[o]) && o in bound
      modifies `color, `gray
      ensures CanMark(bound) && Spreads(heap, old(color), old(gray), color, gray) && Marked(color, o)
      ensures heap[o].Str? ==> color == old(color)[o := Black] && gray == old(gray)
      decreases Rank(heap[o]), 0
    {
      assert Open(0);
      match heap[o] {
        case Str =>
          PaintExtends(heap, color, o, Black);
          PaintUnlisted(heap, color, L(), o, Black);
          color := color[o := Black];
        case OpenUp(th, level) =>
          assert SlotOk(heap, o);
          MarkUpval(o, Gray, heap[th].stack[level], bound);
        case ClosedUp(v) =>
          MarkUpval(o, Black, v, bound);
        case Udata(_, _) =>
          if heap[o].uservals == [] { MarkBareUdata(o, bound); } else { LinkGray(o, bound); }
        case _ =>
          LinkGray(o, bound);
      }
    }

    /** Paints an upvalue, gray while it is open, and marks its value. */
    method MarkUpval(o: Ref, k: Color, v: Value, ghost bound: iset<Ref>)
      requires CanMark(bound) && o in heap && IsWhite(color[o]) && o in bound
      requires heap[o].IsUpval() && k == if heap[o].OpenUp? then Gray else Black
      requires heap[o].OpenUp? ==> SlotOk(heap, o)
      requires v == if heap[o].OpenUp? then heap[heap[o].thread].stack[heap[o].level] else heap[o].v
      modifies `color, `gray
      ensures CanMark(bound) && Spreads(heap, old(color), old(gray), color, gray) && Marked(color, o)
      decreases 1, 2
    {
      assert Open(0);
      PaintUnlisted(heap, color, L(), o, k);
      color := color[o := k];
      assert v.Obj? ==> Points(heap, o, v.ref);
      MarkSlotOf(o, v, bound);
      PaintFirst(heap, old(color), o, k, color);
    }

    /** A userdata without user values is visited at once: its metatable first, then its colour. */
    method MarkBareUdata(o: Ref, ghost bound: iset<Ref>)
      requires CanMark(bound) && o in heap && IsWhite(color[o]) && o in bound
      requires heap[o].Udata? && heap[o].uservals == []
      modifies `color, `gray
      ensures CanMark(bound) && Spreads(heap, old(color), old(gray), color, gray) && Marked(color, o)
      decreases 0, 2
    {
      assert Open(0);
      assert MetaIsTable(heap, o);
      MarkSlotOf(o, heap[o].meta, bound);
      PaintUnlisted(heap, color, L(), o, Black);
      PaintLast(heap, old(color), color, o);
      color := color[o := Black];
    }

    method LinkGray(o: Ref, ghost bound: iset<Ref>)
      requires CanMark(bound) && o in heap && IsWhite(color[o]) && heap[o].Listable() && o in bound
      modifies `color, `gray
      ensures CanMark(bound) && Spreads(heap, old(color), old(gray), color, gray) && color[o] == Gray
    {
      assert Open(0);
      Link(heap, color, L(), L().(gray := [o] + gray), o);
      PaintExtends(heap, color, o, Gray);
      gray := [o] + gray;
      color := color[o := Gray];
    }

    method MarkSlotOf(o: Ref, v: Value, ghost bound: iset<Ref>)
      requires CanMark(bound) && o in heap && o in bound
      requires v.Obj? ==> Keeps(heap, bound, o, v.ref)
      modifies `color, `gray
      ensures CanMark(bound) && Spreads(heap, old(color), old(gray), color, gray) && ValueMarked(color, v)
      decreases if v.Obj? && v.ref in heap then Rank(heap[v.ref]) else 0, 1
    {
      assert Open(0);
      if v.Obj? {
        KeptInBound(heap, bound, o, v.ref);
        if IsWhite(color[v.ref]) {
          ReallyMark(v.ref, bound);
        }
      }
    }

    // ----- traversals -----

    /** Marks a sequence of values of an object. */
    method TraverseValues(o: Ref, vs: seq<Value>, ghost bound: iset<Ref>)
      requires CanMark(bound) && o in heap && o in bound
      requires forall i :: 0 <= i < |vs| && vs[i].Obj? ==> Keeps(heap, bound, o, vs[i].ref)
      modifies `color, `gray
      ensures CanMark(bound) && Spreads(heap, old(color), old(gray), color, gray) && ValuesMarked(color, vs)
    {
      for i := 0 to |vs|
        invariant CanMark(bound) && Spreads(heap, old(color), old(gray), color, gray)
        invariant forall k {:trigger vs[k]} :: 0 <= k < i ==> ValueMarked(color, vs[k])
      {
        ghost var c, g := color, gray;
        MarkSlotOf(o, vs[i], bound);
        SpreadsTrans(heap, old(color), old(gray), c, g, color, gray);
      }
    }

    /** Visits one node of a strong table; the node to store is returned. */
    method VisitStrongNode(o: Ref, i: nat, ghost bound: iset<Ref>) returns (n: Node)
      requires CanMark(bound) && o in heap && o in bound && heap[o].Table? && heap[o].mode == Strong
      requires i < |heap[o].nodes|
      modifies `color, `gray
      ensures CanMark(bound) && Spreads(heap, old(color), old(gray), color, gray)
      ensures NodeKept(heap[o].nodes[i], n) && NodeVisited(color, n)
    {
      n := heap[o].nodes[i];
      NodeKeeps(heap, bound, o, i);
      if n.val == Nil {
        n := ClearKey(n);
      } else {
        MarkSlotOf(o, if n.key.Live? then n.key.v else Nil, bound);
        ghost var c, g := color, gray;
        MarkSlotOf(o, n.val, bound);
        SpreadsTrans(heap, old(color), old(gray), c, g, color, gray);
      }
    }

    method VisitStrongNodes(o: Ref, ghost bound: iset<Ref>) returns (ns: seq<Node>)
      requires CanMark(bound) && o in heap && o in bound && heap[o].Table? && heap[o].mode == Strong
      modifies `color, `gray
      ensures CanMark(bound) && Spreads(heap, old(color), old(gray), color, gray)
      ensures EntriesKept(heap[o].nodes, ns)
      ensures forall k {:trigger ns[k]} :: 0 <= k < |ns| ==> NodeVisited(color, ns[k])
    {
      ns := heap[o].nodes;
      for i := 0 to |ns|
        invariant CanMark(bound) && Spreads(heap, old(color), old(gray), color, gray)
        invariant EntriesKept(heap[o].nodes, ns)
        invariant forall k {:trigger ns[k]} :: i <= k < |ns| ==> ns[k] == heap[o].nodes[k]
        invariant forall k {:trigger ns[k]} :: 0 <= k < i ==> NodeVisited(color, ns[k])
      {
        ghost var c, g := color, gray;
        var n := VisitStrongNode(o, i, bound);
        ns := ns[i := n];
        SpreadsTrans(heap, old(color), old(gray), c, g, color, gray);
      }
    }

    /** Visits a table whose keys and values are both strong. */
    method TraverseStrongTable(o: Ref, ghost bound: iset<Ref>)
      requires CanMark(bound) && o in heap && o in bound && heap[o].Table? && heap[o].mode == Strong
      requires ValueMarked(color, heap[o].meta)
      modifies `heap, `color, `gray
      ensures CanMark(bound) && CleanShrink(old(heap), heap) && Intact(old(heap), heap)
      ensures Spreads(heap, old(color), old(gray), color, gray) && AllMarked(heap, color, o)
    {
      TraverseValues(o, heap[o].arr, bound);
      ghost var c, g := color, gray;
      var ns := VisitStrongNodes(o, bound);
      SpreadsTrans(heap, old(color), old(gray), c, g, color, gray);
      NodesVisited(color, ns);
      SetNodes(o, ns, bound);
      ExtendsShrinks(old(heap), heap, old(color), color);
      TableMarked(heap, color, o);
    }

    /** Stores the nodes of a table after dead keys, or weak entries, were cleared. */
    method SetNodes(o: Ref, ns: seq<Node>, ghost bound: iset<Ref>)
      requires CanMark(bound) && o in heap && heap[o].Table? && NodesShrink(heap[o].nodes, ns) && Clean(ns)
      requires heap[o].mode == Strong ==> EntriesKept(heap[o].nodes, ns)
      modifies `heap
      ensures CanMark(bound) && CleanShrink(old(heap), heap)
      ensures (EntriesKept(old(heap)[o].nodes, ns) ==> Intact(old(heap), heap))
      ensures heap == old(heap)[o := old(heap)[o].(nodes := ns)]
    {
      assert Open(0);
      heap := heap[o := heap[o].(nodes := ns)];
      MarkStateShrinks(old(heap), heap, color, L(), bound);
    }

    /** Tells whether a key or value may be cleared from a weak table; strings are marked instead (lgc.c:185-192). */
    method IsCleared(v: Value, ghost bound: iset<Ref>) returns (cleared: bool)
      requires CanMark(bound) && (v.Obj? ==> v.ref in heap && (heap[v.ref].Str? ==> v.ref in bound))
      modifies `color, `gray
      ensures CanMark(bound) && Spreads(heap, old(color), old(gray), color, gray)
      ensures StringMarks(heap, old(color), color) && gray == old(gray)
      ensures cleared ==> Clearable(heap, color, v)
      ensures !cleared ==> ValueMarked(color, v)
    {
      if !v.Obj? {
        return false;
      }
      if heap[v.ref].Str? {
        if IsWhite(color[v.ref]) {
          ReallyMark(v.ref, bound);
        }
        return false;
      }
      return IsWhite(color[v.ref]);
    }

    /** Puts a black object that was just visited into the list of those to be visited again (lgc.c:148-153). */
    method LinkGrayAgain(o: Ref, ghost bound: iset<Ref>)
      requires CanMark(bound) && o in heap && heap[o].Listable() && color[o] == Black
      modifies `color, `grayagain
      ensures CanMark(bound) && color == old(color)[o := Gray] && grayagain == [o] + old(grayagain)
    {
      assert Open(0);
      Link(heap, color, L(), L().(grayagain := [o] + grayagain), o);
      grayagain := [o] + grayagain;
      color := color[o := Gray];
    }

    method VisitWeakValueNode(o: Ref, i: nat, found: bool, ghost bound: iset<Ref>) returns (n: Node, hasclears: bool)
      requires CanMark(bound) && o in heap && o in bound && heap[o].Table? && heap[o].mode == WeakValues
      requires i < |heap[o].nodes|
      modifies `color, `gray
      ensures CanMark(bound) && Spreads(heap, old(color), old(gray), color, gray)
      ensures NodeKept(heap[o].nodes[i], n) && WeakNode(color, n)
      ensures found ==> hasclears
      ensures !hasclears ==> ValueMarked(color, n.val)
    {
      assert Open(0);
      n, hasclears := heap[o].nodes[i], found;
      NodeKeeps(heap, bound, o, i);
      if n.val == Nil {
        n := ClearKey(n);
      } else {
        MarkSlotOf(o, if n.key.Live? then n.key.v else Nil, bound);
        if !hasclears {
          ghost var c, g := color, gray;
          hasclears := IsCleared(n.val, bound);
          SpreadsTrans(heap, old(color), old(gray), c, g, color, gray);
        }
      }
    }

    method VisitWeakValueNodes(o: Ref, ghost bound: iset<Ref>) returns (ns: seq<Node>, hasclears: bool)
      requires CanMark(bound) && o in heap && o in bound && heap[o].Table? && heap[o].mode == WeakValues
      modifies `color, `gray
      ensures CanMark(bound) && Spreads(heap, old(color), old(gray), color, gray)
      ensures EntriesKept(heap[o].nodes, ns)
      ensures forall k {:trigger ns[k]} :: 0 <= k < |ns| ==> WeakNode(color, ns[k])
      ensures !hasclears ==> heap[o].arr == [] && NodeValuesMarked(color, ns)
    {
      ns, hasclears := heap[o].nodes, |heap[o].arr| > 0;
      for i := 0 to |ns|
        invariant CanMark(bound) && Spreads(heap, old(color), old(gray), color, gray)
        invariant EntriesKept(heap[o].nodes, ns)
        invariant forall k {:trigger ns[k]} :: i <= k < |ns| ==> ns[k] == heap[o].nodes[k]
        invariant forall k {:trigger ns[k]} :: 0 <= k < i ==> WeakNode(color, ns[k])
        invariant !hasclears ==> heap[o].arr == [] && forall k {:trigger ns[k]} :: 0 <= k < i ==>
          ValueMarked(color, ns[k].val)
      {
        ghost var c, g := color, gray;
        var n, found := VisitWeakValueNode(o, i, hasclears, bound);
        ns, hasclears := ns[i := n], found;
        SpreadsTrans(heap, old(color), old(gray), c, g, color, gray);
      }
    }

    /** Visits the entries of a table with weak values; says whether the table may hold white values. */
    method VisitWeakValue(o: Ref, ghost bound: iset<Ref>) returns (hasclears: bool)
      requires CanMark(bound) && o in heap && o in bound && heap[o].Table? && heap[o].mode == WeakValues
      requires ValueMarked(color, heap[o].meta)
      modifies `heap, `color, `gray
      ensures CanMark(bound) && CleanShrink(old(heap), heap) && Intact(old(heap), heap)
      ensures Spreads(heap, old(color), old(gray), color, gray)
      ensures WeakListed(color, heap[o])
      ensures !hasclears ==> AllMarked(heap, color, o)
    {
      var ns, found := VisitWeakValueNodes(o, bound);
      hasclears := found;
      SetNodes(o, ns, bound);
      ExtendsShrinks(old(heap), heap, old(color), color);
      if !hasclears { TableMarked(heap, color, o); }
    }

    /** Visits a table with weak values and links it for the atomic phase, or for clearing (lgc.c:446-465). */
    method TraverseWeakValue(o: Ref, ghost bound: iset<Ref>)
      requires CanMark(bound) && o in heap && o in bound && heap[o].Table? && heap[o].mode == WeakValues
      requires color[o] == Black && ValueMarked(color, heap[o].meta)
      modifies `heap, `color, `gray, `weak, `grayagain
      ensures CanMark(bound) && CleanShrink(old(heap), heap) && Intact(old(heap), heap)
      ensures ExtendsBut(heap, old(color), color, o)
      ensures |gray| + |Whites(color)| <= |old(gray)| + |Whites(old(color))|
      ensures WeakListed(color, heap[o])
      ensures Relisted(heap, color, o, old(L()), L(), phase == Atomic)
    {
      var hasclears := VisitWeakValue(o, bound);
      ExtendsThenGray(heap, old(color), color, o);
      ghost var c, l1 := color, L();
      LinkWeakTable(o, hasclears, bound);
      RelistedFrom(heap, color, o, old(L()), l1, L(), phase == Atomic);
    }

    /** Links a table with weak values to the list that its entries call for (lgc.c:461-464). */
    method LinkWeakTable(o: Ref, hasclears: bool, ghost bound: iset<Ref>)
      requires CanMark(bound) && o in heap && heap[o].Table? && heap[o].mode == WeakValues && color[o] == Black
      requires WeakListed(color, heap[o]) && (!hasclears ==> AllMarked(heap, color, o))
      modifies `color, `weak, `grayagain
      ensures CanMark(bound) && color == old(color)[o := Gray] && WeakListed(color, heap[o])
      ensures Relisted(heap, color, o, old(L()), L(), phase == Atomic)
    {
      ghost var c := color;
      if phase == Atomic && hasclears {
        LinkWeak(o, bound);
      } else {
        LinkGrayAgain(o, bound);
        if !hasclears { AllMarkedGrows(heap, heap, c, color, o); }
      }
      ListedGrow(c, color, heap[o]);
    }

    method LinkWeak(o: Ref, ghost bound: iset<Ref>)
      requires CanMark(bound) && o in heap && heap[o].Listable() && color[o] == Black
      modifies `color, `weak
      ensures CanMark(bound) && color == old(color)[o := Gray] && weak == [o] + old(weak)
    {
      assert Open(0);
      Link(heap, color, L(), L().(weak := [o] + weak), o);
      weak := [o] + weak;
      color := color[o := Gray];
    }

    method LinkEphemeron(o: Ref, ghost bound: iset<Ref>)
      requires CanMark(bound) && o in heap && heap[o].Listable() && color[o] == Black
      modifies `color, `ephemeron
      ensures CanMark(bound) && color == old(color)[o := Gray] && ephemeron == [o] + old(ephemeron)
    {
      assert Open(0);
      Link(heap, color, L(), L().(ephemeron := [o] + ephemeron), o);
      ephemeron := [o] + ephemeron;
      color := color[o := Gray];
    }

    method LinkAllWeak(o: Ref, ghost bound: iset<Ref>)
      requires CanMark(bound) && o in heap && heap[o].Listable() && color[o] == Black
      modifies `color, `allweak
      ensures CanMark(bound) && color == old(color)[o := Gray] && allweak == [o] + old(allweak)
    {
      assert Open(0);
      Link(heap, color, L(), L().(allweak := [o] + allweak), o);
      allweak := [o] + allweak;
      color := color[o := Gray];
    }

    method VisitEphemeronNode(o: Ref, i: nat, ghost bound: iset<Ref>) returns (n: Node, marked: bool,
        hasclears: bool, hasww: bool)
      requires CanMark(bound) && o in heap && o in bound && heap[o].Table? && heap[o].mode == Ephemeron
      requires i < |heap[o].nodes| && Marked(color, o)
      modifies `color, `gray
      ensures CanMark(bound) && Spreads(heap, old(color), old(gray), color, gray)
      ensures NodeKept(heap[o].nodes[i], n) && EphemeronVisited(heap, color, n, marked, hasclears, hasww)
      ensures marked ==> |Whites(color)| < |Whites(old(color))|
      ensures !marked ==> gray == old(gray) && OnlyStrings(heap, old(color), color, o)
    {
      assert Open(0);
      n, marked, hasclears, hasww := heap[o].nodes[i], false, false, false;
      NodeKeeps(heap, bound, o, i);
      if n.val == Nil {
        n := ClearKey(n);
      } else {
        hasclears := IsCleared(if n.key.Live? then n.key.v else Nil, bound);
        assert OnlyStrings(heap, old(color), color, o);
        NodeKeeps(heap, bound, o, i);
        if hasclears {
          hasww := n.val.Obj? && IsWhite(color[n.val.ref]);
        } else if n.val.Obj? && IsWhite(color[n.val.ref]) {
          marked := true;
          ghost var c, g := color, gray;
          assert Marked(color, o) && (n.key.Live? && n.key.v.Obj? ==> n.key.v.ref in bound);
          ReallyMark(n.val.ref, bound);
          WhitesShrink(old(color), c);
          WhitesShrink(c, color);
          SpreadsTrans(heap, old(color), old(gray), c, g, color, gray);
        }
      }
    }

    method VisitEphemeronNodes(o: Ref, inv: bool, ghost bound: iset<Ref>)
      returns (ns: seq<Node>, marked: bool, hasclears: bool, hasww: bool)
      requires CanMark(bound) && o in heap && o in bound && heap[o].Table? && heap[o].mode == Ephemeron
      requires Marked(color, o)
      modifies `color, `gray
      ensures CanMark(bound) && Spreads(heap, old(color), old(gray), color, gray)
      ensures EntriesKept(heap[o].nodes, ns) && Clean(ns)
      ensures marked ==> |Whites(color)| < |Whites(old(color))|
      ensures !marked ==>
        gray == old(gray) && OnlyStrings(heap, old(color), color, o) && EphemeronClosed(heap, color, ns)
      ensures !hasclears ==> KeysMarked(color, ns)
      ensures !hasww ==> NodeValuesMarked(color, ns)
    {
      ns, marked, hasclears, hasww := heap[o].nodes, false, false, false;
      ghost var v := Visit(heap, old(color), old(gray), o, inv);
      VisitBegins(v);
      for i := 0 to |heap[o].nodes|
        invariant CanMark(bound) && VisitedUpTo(v, i, color, gray, ns, marked, hasclears, hasww)
      {
        var k := if inv then |ns| - 1 - i else i;
        ghost var c, g := color, gray;
        var n, m, hc, ww := VisitEphemeronNode(o, k, bound);
        VisitGoesOn(v, i, c, g, color, gray, ns, k, n, marked, hasclears, hasww, m, hc, ww);
        ns := ns[k := n];
        marked, hasclears, hasww := marked || m, hasclears || hc, hasww || ww;
      }
      VisitEnds(v, color, gray, ns, marked, hasclears, hasww);
    }

    /** Visits a value of the array part of an ephemeron table. */
    method VisitArraySlot(o: Ref, i: nat, ghost bound: iset<Ref>) returns (marked: bool)
      requires CanMark(bound) && o in heap && o in bound && heap[o].Table? && heap[o].mode == Ephemeron
      requires i < |heap[o].arr|
      modifies `color, `gray
      ensures CanMark(bound) && Spreads(heap, old(color), old(gray), color, gray) && ValueMarked(color, heap[o].arr[i])
      ensures marked ==> |Whites(color)| < |Whites(old(color))|
      ensures !marked ==> color == old(color) && gray == old(gray)
    {
      marked := false;
      if heap[o].arr[i].Obj? {
        ArraySlotKeeps(heap, color, L(), bound, o, i);
        if IsWhite(color[heap[o].arr[i].ref]) {
          marked := true;
          ReallyMark(heap[o].arr[i].ref, bound);
          WhitesShrink(old(color), color);
        }
      }
    }

    method VisitEphemeronArray(o: Ref, ghost bound: iset<Ref>) returns (marked: bool)
      requires CanMark(bound) && o in heap && o in bound && heap[o].Table? && heap[o].mode == Ephemeron
      modifies `color, `gray
      ensures CanMark(bound) && Spreads(heap, old(color), old(gray), color, gray) && ValuesMarked(color, heap[o].arr)
      ensures marked ==> |Whites(color)| < |Whites(old(color))|
      ensures !marked ==> color == old(color) && gray == old(gray)
    {
      assert Open(0);
      marked := false;
      var arr := heap[o].arr;
      for i := 0 to |arr|
        invariant CanMark(bound) && ArrayVisited(heap, old(color), old(gray), color, gray, arr[..i], marked)
      {
        ghost var c, g := color, gray;
        var m := VisitArraySlot(o, i, bound);
        assert arr[..i + 1] == arr[..i] + [arr[i]];
        ArraySlotVisited(heap, old(color), old(gray), c, g, color, gray, arr[..i], arr[i], marked, m);
        marked := marked || m;
      }
      assert arr[..|arr|] == arr;
      ArrayVisitEnds(heap, old(color), old(gray), color, gray, arr, marked);
    }

    /** Visits the entries of an ephemeron table. */
    method VisitEphemeron(o: Ref, inv: bool, ghost bound: iset<Ref>) returns (marked: bool, hasclears: bool,
        hasww: bool)
      requires CanMark(bound) && o in heap && o in bound && heap[o].Table? && heap[o].mode == Ephemeron
      requires color[o] == Black && ValueMarked(color, heap[o].meta)
      modifies `heap, `color, `gray
      ensures CanMark(bound) && CleanShrink(old(heap), heap) && Intact(old(heap), heap)
      ensures Spreads(heap, old(color), old(gray), color, gray)
      ensures marked ==> |Whites(color)| < |Whites(old(color))|
      ensures !marked ==>
        gray == old(gray) && OnlyStrings(heap, old(color), color, o) && EphemeronClosed(heap, color, heap[o].nodes)
      ensures EphemeronListed(color, heap[o])
      ensures !hasww ==> AllWeakListed(color, heap[o])
      ensures !hasww && !hasclears ==> AllMarked(heap, color, o)
    {
      marked := VisitEphemeronArray(o, bound);
      ghost var c, g := color, gray;
      var ns, m;
      ns, m, hasclears, hasww := VisitEphemeronNodes(o, inv, bound);
      marked := marked || m;
      SpreadsTrans(heap, old(color), old(gray), c, g, color, gray);
      WhitesShrink(old(color), c);
      WhitesShrink(c, color);
      SetNodes(o, ns, bound);
      ExtendsShrinks(old(heap), heap, old(color), color);
      if !marked {
        StringsShrink(old(heap), heap, old(color), color, o);
      }
      if !hasww && !hasclears { TableMarked(heap, color, o); }
    }

    /** Visits an ephemeron table and links it to the proper list; says whether anything but strings
        was marked, so that convergence has to continue (lgc.c:480-520). */
    method TraverseEphemeron(o: Ref, inv: bool, ghost bound: iset<Ref>) returns (marked: bool)
      requires CanMark(bound) && o in heap && o in bound && heap[o].Table? && heap[o].mode == Ephemeron
      requires color[o] == Black && ValueMarked(color, heap[o].meta) && phase in {Propagate, Atomic}
      modifies `heap, `color, `gray, `grayagain, `ephemeron, `allweak
      ensures CanMark(bound) && CleanShrink(old(heap), heap) && Intact(old(heap), heap)
      ensures ExtendsBut(heap, old(color), color, o)
      ensures |gray| + |Whites(color)| <= |old(gray)| + |Whites(old(color))|
      ensures marked ==> |Whites(color)| < |Whites(old(color))|
      ensures !marked ==>
        gray == old(gray) && OnlyStrings(heap, old(color), color, o) && EphemeronClosed(heap, color, heap[o].nodes)
      ensures Relisted(heap, color, o, old(L()), L(), phase == Atomic)
    {
      var hasclears, hasww;
      ghost var l := L();
      marked, hasclears, hasww := VisitEphemeron(o, inv, bound);
      ExtendsThenGray(heap, old(color), color, o);
      ghost var l1 := L();
      LinkEphemeronTable(o, hasclears, hasww, bound);
      RelistedFrom(heap, color, o, l, l1, L(), phase == Atomic);
    }

    /** Links an ephemeron table to the list that its entries call for (lgc.c:510-518). */
    method LinkEphemeronTable(o: Ref, hasclears: bool, hasww: bool, ghost bound: iset<Ref>)
      requires CanMark(bound) && o in heap && heap[o].Table? && heap[o].mode == Ephemeron && color[o] == Black
      requires phase in {Propagate, Atomic}
      requires EphemeronListed(color, heap[o]) && (!hasww ==> AllWeakListed(color, heap[o]))
      requires (!hasww && !hasclears ==> AllMarked(heap, color, o))
      modifies `color, `grayagain, `ephemeron, `allweak
      ensures CanMark(bound) && (color == old(color) || color == old(color)[o := Gray])
      ensures Relisted(heap, color, o, old(L()), L(), phase == Atomic)
      ensures EphemeronClosed(heap, old(color), heap[o].nodes) ==> EphemeronClosed(heap, color, heap[o].nodes)
    {
      ghost var c := color;
      if phase == Propagate {
        LinkGrayAgain(o, bound);
      } else if hasww {
        LinkEphemeron(o, bound);
      } else if hasclears {
        LinkAllWeak(o, bound);
      }
      ListedGrow(c, color, heap[o]);
      EphemeronClosedSame(heap, c, color, heap[o].nodes);
    }

    /** Visits a table according to its weak mode (lgc.c:542-562). */
    method TraverseTable(o: Ref, ghost bound: iset<Ref>)
      requires CanMark(bound) && o in heap && o in bound && heap[o].Table? && color[o] == Black
      requires phase in {Propagate, Atomic}
      modifies `heap, `color, `gray, `grayagain, `weak, `ephemeron, `allweak
      ensures CanMark(bound) && CleanShrink(old(heap), heap) && Intact(old(heap), heap)
      ensures ExtendsBut(heap, old(color), color, o)
      ensures |gray| + |Whites(color)| <= |old(gray)| + |Whites(old(color))|
      ensures Relisted(heap, color, o, old(L()), L(), phase == Atomic)
    {
      MarkSlotOf(o, heap[o].meta, bound);
      ghost var c := color;
      TraverseByMode(o, bound);
      ExtendsShrinks(old(heap), heap, old(color), c);
      ExtendsButTrans(heap, old(color), c, color, o);
    }

    /** Visits a table whose metatable is marked. */
    method TraverseByMode(o: Ref, ghost bound: iset<Ref>)
      requires CanMark(bound) && o in heap && o in bound && heap[o].Table? && color[o] == Black
      requires phase in {Propagate, Atomic} && ValueMarked(color, heap[o].meta)
      modifies `heap, `color, `gray, `grayagain, `weak, `ephemeron, `allweak
      ensures CanMark(bound) && CleanShrink(old(heap), heap) && Intact(old(heap), heap)
      ensures ExtendsBut(heap, old(color), color, o)
      ensures |gray| + |Whites(color)| <= |old(gray)| + |Whites(old(color))|
      ensures Relisted(heap, color, o, old(L()), L(), phase == Atomic)
    {
      match heap[o].mode {
        case WeakValues => TraverseWeakValue(o, bound);
        case Ephemeron => var _ := TraverseEphemeron(o, false, bound);
        case AllWeak => LinkUnvisited(o, bound);
        case Strong => TraverseStrong(o, bound);
      }
    }

    /** A table whose keys and values are both weak is not visited now. */
    method LinkUnvisited(o: Ref, ghost bound: iset<Ref>)
      requires CanMark(bound) && o in heap && heap[o].Table? && heap[o].mode == AllWeak && color[o] == Black
      requires ValueMarked(color, heap[o].meta)
      modifies `color, `allweak
      ensures CanMark(bound) && ExtendsBut(heap, old(color), color, o) && |Whites(color)| <= |Whites(old(color))|
      ensures Relisted(heap, color, o, old(L()), L(), phase == Atomic)
    {
      ExtendsThenGray(heap, color, color, o);
      LinkAllWeak(o, bound);
    }

    /** A table that is not weak has only marked referents then. */
    method TraverseStrong(o: Ref, ghost bound: iset<Ref>)
      requires CanMark(bound) && o in heap && o in bound && heap[o].Table? && heap[o].mode == Strong
      requires color[o] == Black
      requires ValueMarked(color, heap[o].meta)
      modifies `heap, `color, `gray
      ensures CanMark(bound) && CleanShrink(old(heap), heap) && Intact(old(heap), heap)
      ensures ExtendsBut(heap, old(color), color, o)
      ensures |gray| + |Whites(color)| <= |old(gray)| + |Whites(old(color))|
      ensures Relisted(heap, color, o, old(L()), L(), phase == Atomic)
    {
      TraverseStrongTable(o, bound);
    }

    /** Marks the open upvalues of a thread: they cannot be collected before it. */
    method MarkUpvals(o: Ref, ghost bound: iset<Ref>)
      requires CanMark(bound) && o in heap && o in bound && heap[o].Thread?
      modifies `color, `gray
      ensures CanMark(bound) && Spreads(heap, old(color), old(gray), color, gray)
      ensures forall u :: u in heap[o].upvals ==> Marked(color, u)
    {
      var todo := heap[o].upvals;
      while todo != {}
        invariant todo <= heap[o].upvals
        invariant CanMark(bound) && Spreads(heap, old(color), old(gray), color, gray)
        invariant forall u :: u in heap[o].upvals && u !in todo ==> Marked(color, u)
        decreases todo
      {
        var u :| u in todo;
        ghost var c, g := color, gray;
        assert Keeps(heap, bound, o, u);
        MarkSlotOf(o, Obj(u), bound);
        SpreadsTrans(heap, old(color), old(gray), c, g, color, gray);
        todo := todo - {u};
      }
    }

    /** Marks what a thread refers to. */
    method MarkThread(o: Ref, ghost bound: iset<Ref>)
      requires CanMark(bound) && o in heap && o in bound && heap[o].Thread?
      modifies `color, `gray
      ensures CanMark(bound) && Spreads(heap, old(color), old(gray), color, gray) && AllMarked(heap, color, o)
    {
      TraverseValues(o, heap[o].stack, bound);
      ghost var c, g := color, gray;
      MarkUpvals(o, bound);
      SpreadsTrans(heap, old(color), old(gray), c, g, color, gray);
      ThreadMarked(heap, color, o);
    }

    /** Visits a thread: it goes back to a gray list while the mutator can still change it (lgc.c:629-654). */
    method TraverseThread(o: Ref, ghost bound: iset<Ref>)
      requires CanMark(bound) && o in heap && o in bound && heap[o].Thread? && color[o] == Black
      requires phase in {Propagate, Atomic}
      modifies `color, `gray, `grayagain, `twups
      ensures CanMark(bound) && ExtendsBut(heap, old(color), color, o)
      ensures |gray| + |Whites(color)| <= |old(gray)| + |Whites(old(color))|
      ensures Relisted(heap, color, o, old(L()), L(), phase == Atomic)
      ensures phase == Atomic ==> color[o] == Black
      ensures twups == old(twups) || (phase == Atomic && twups == [o] + old(twups))
      ensures phase == Atomic && heap[o].upvals != {} ==> o in twups
    {
      if phase == Propagate {
        LinkGrayAgain(o, bound);
      }
      MarkThread(o, bound);
      if phase == Propagate {
        GrayThenExtends(heap, old(color), color, o);
      } else if o !in twups && heap[o].upvals != {} {
        twups := [o] + twups;
      }
    }

    /** Traverses one gray object, painted black already, by its kind. */
    method TraverseObject(o: Ref, ghost bound: iset<Ref>)
      requires CanMark(bound) && o in heap && o in bound && heap[o].Listable() && color[o] == Black
      requires phase in {Propagate, Atomic}
      modifies `heap, `color, `gray, `grayagain, `weak, `ephemeron, `allweak, `twups
      ensures CanMark(bound) && Visited(old(S()), S(), o, phase == Atomic) && Intact(old(heap), heap)
      ensures |gray| + |Whites(color)| <= |old(gray)| + |Whites(old(color))|
    {
      match heap[o]
      case Table(_, _, _, _) =>
        TraverseTable(o, bound);
      case Thread(_, _) =>
        TraverseThread(o, bound);
      case Udata(_, _) =>
        TraverseUdata(o, bound);
      case Fn(slots) =>
        TraverseSlots(o, slots, bound);
      case Rec(slots) =>
        TraverseSlots(o, slots, bound);
    }

    /** Visits a userdata (lgc.c:565-572). */
    method TraverseUdata(o: Ref, ghost bound: iset<Ref>)
      requires CanMark(bound) && o in heap && o in bound && heap[o].Udata? && heap[o].Listable() && color[o] == Black
      modifies `color, `gray
      ensures CanMark(bound) && Visited(old(S()), S(), o, phase == Atomic)
      ensures |gray| + |Whites(color)| <= |old(gray)| + |Whites(old(color))|
    {
      MarkSlotOf(o, heap[o].meta, bound);
      ghost var c, g := color, gray;
      TraverseValues(o, heap[o].uservals, bound);
      SpreadsTrans(heap, old(color), old(gray), c, g, color, gray);
      ObjectMarked(heap, color, o);
    }

    /** Visits a closure or a prototype (lgc.c:580-614). */
    method TraverseSlots(o: Ref, slots: seq<Value>, ghost bound: iset<Ref>)
      requires CanMark(bound) && o in heap && o in bound && (heap[o].Fn? || heap[o].Rec?) && heap[o].slots == slots
      requires color[o] == Black
      modifies `color, `gray
      ensures CanMark(bound) && Visited(old(S()), S(), o, phase == Atomic)
      ensures |gray| + |Whites(color)| <= |old(gray)| + |Whites(old(color))|
    {
      TraverseValues(o, slots, bound);
      ObjectMarked(heap, color, o);
    }

    /** The invariant between two visits of the running phase. */
    ghost predicate Tracing()
      reads this
    {
      TracingOk(heap, color, L(), phase == Atomic)
    }

    /** Takes one object off the gray list, paints it black and visits it (lgc.c:660-673). */
    method PropagateMark(ghost bound: iset<Ref>)
      requires CanMark(bound) && Tracing() && gray != [] && phase in {Propagate, Atomic}
      modifies `heap, `color, `gray, `grayagain, `weak, `ephemeron, `allweak, `twups
      ensures CanMark(bound) && Advanced(old(S()), S(), phase == Atomic) && Intact(old(heap), heap)
      ensures |gray| + |Whites(color)| < |old(gray)| + |Whites(old(color))|
    {
      ghost var s0 := S();
      var o := PopGray(bound);
      ghost var s := S();
      TraverseObject(o, bound);
      VisitAdvanced(s0, s, S(), o, phase == Atomic, bound);
    }

    method PopGray(ghost bound: iset<Ref>) returns (o: Ref)
      requires CanMark(bound) && Tracing() && gray != []
      modifies `color, `gray
      ensures CanMark(bound) && o in heap && heap[o].Listable() && color == old(color)[o := Black] && o in bound
      ensures gray == old(gray)[1..] && Marked(old(color), o) && Whites(color) == Whites(old(color))
      ensures TracingOk(heap, old(color), L(), phase == Atomic)
    {
      assert Open(0);
      o := gray[0];
      UnlinkGray(heap, color, L());
      gray := gray[1..];
      color := color[o := Black];
    }

    /** Empties the gray list (lgc.c:676-681). */
    method PropagateAll(ghost bound: iset<Ref>)
      requires CanMark(bound) && Tracing() && phase == Atomic
      modifies `heap, `color, `gray, `grayagain, `weak, `ephemeron, `allweak, `twups
      ensures CanMark(bound) && Tracing() && gray == []
      ensures Onward(old(S()), S())
    {
      while gray != []
        invariant CanMark(bound) && Tracing()
        invariant Onward(old(S()), S())
        decreases |gray| + |Whites(color)|
      {
        ghost var s := S();
        PropagateMark(bound);
        AdvancedOnward(s, S());
        OnwardTrans(old(S()), s, S());
      }
    }

    /** What holds at every step of the convergence. */
    ghost predicate Converging(bound: iset<Ref>)
      reads this
    {
      && CanMark(bound) && Tracing() && UpvalsOk(heap, color, twups) && phase == Atomic && gray == []
      && forall k: nat {:trigger Open(k)} :: Open(k) ==> EphemeronList(heap, color, detached)
    }

    /** Takes one table off the detached ephemeron list and visits it again. */
    method RevisitEphemeron(w: Ref, inv: bool, ghost bound: iset<Ref>) returns (marked: bool)
      requires Converging(bound) && detached != [] && w == detached[0]
      modifies `heap, `color, `gray, `grayagain, `ephemeron, `allweak, `detached
      ensures CanMark(bound) && Tracing() && UpvalsOk(heap, color, twups) && detached == old(detached)[1..]
      ensures Onward(old(S()), S())
      ensures marked ==> |Whites(color)| < |Whites(old(color))|
      ensures !marked ==> gray == old(gray)
      ensures !marked && Converged(old(heap), old(color), old(ephemeron)) ==> Converged(heap, color, ephemeron)
    {
      PopDetached(w, bound);
      ghost var s := S();
      marked := TraverseEphemeron(w, inv, bound);
      RevisitOnward(old(S()), s, S(), w, bound);
    }

    method PopDetached(w: Ref, ghost bound: iset<Ref>)
      requires Converging(bound) && detached != [] && w == detached[0]
      modifies `color, `detached
      ensures CanMark(bound) && color == old(color)[w := Black] && detached == old(detached)[1..]
      ensures w in heap && Marked(old(color), w) && EphemeronListed(color, heap[w]) && w in bound
      ensures Grows(old(color), color) && Whites(color) == Whites(old(color))
    {
      assert Open(0);
      UnlinkDetached(heap, color, L());
      assert w in detached;
      detached := detached[1..];
      color := color[w := Black];
      ListedGrow(old(color), color, heap[w]);
    }

    /** Revisits one ephemeron table and propagates what that marked. */
    method ConvergeTable(w: Ref, inv: bool, ghost bound: iset<Ref>) returns (marked: bool)
      requires Converging(bound) && detached != [] && w == detached[0]
      modifies `heap, `color, `gray, `grayagain, `weak, `ephemeron, `allweak, `twups, `detached
      ensures Converging(bound) && detached == old(detached)[1..]
      ensures Onward(old(S()), S())
      ensures marked ==> |Whites(color)| < |Whites(old(color))|
      ensures !marked && Converged(old(heap), old(color), old(ephemeron)) ==> Converged(heap, color, ephemeron)
    {
      marked := RevisitEphemeron(w, inv, bound);
      if marked {
        ghost var s := S();
        PropagateAll(bound);
        OnwardTrans(old(S()), s, S());
        OnwardWhites(s, S());
      }
      OnwardTail(old(S()), S(), old(detached));
    }

    /** Visits every table of the ephemeron list once; says whether anything but strings was marked. */
    method ConvergeRound(inv: bool, ghost bound: iset<Ref>) returns (changed: bool)
      requires Converging(bound) && detached == []
      modifies `heap, `color, `gray, `grayagain, `weak, `ephemeron, `allweak, `twups, `detached
      ensures Converging(bound) && detached == []
      ensures Onward(old(S()), S())
      ensures changed ==> |Whites(color)| < |Whites(old(color))|
      ensures !changed ==> Converged(heap, color, ephemeron)
    {
      assert Open(0);
      var next := ephemeron;
      DetachEphemeron(heap, color, L());
      ephemeron, detached := [], next;
      changed := false;
      while next != []
        invariant Converging(bound) && detached == next
        invariant Onward(old(S()), S())
        invariant changed ==> |Whites(color)| < |Whites(old(color))|
        invariant !changed ==> Converged(heap, color, ephemeron)
        decreases next
      {
        ghost var s := S();
        var marked := ConvergeTable(next[0], inv, bound);
        next := next[1..];
        OnwardTrans(old(S()), s, S());
        OnwardWhites(old(S()), s);
        OnwardWhites(s, S());
        changed := changed || marked;
      }
    }

    /** Repeats rounds, alternating direction, until one marks nothing (lgc.c:691-710). The white objects
        strictly decrease in every round that is followed by another. */
    method ConvergeEphemerons(ghost bound: iset<Ref>)
      requires Converging(bound) && detached == []
      modifies `heap, `color, `gray, `grayagain, `weak, `ephemeron, `allweak, `twups, `detached
      ensures Converging(bound) && detached == []
      ensures Onward(old(S()), S())
      ensures Converged(heap, color, ephemeron)
    {
      var changed, inv := true, false;
      while changed
        invariant Converging(bound) && detached == []
        invariant Onward(old(S()), S())
        invariant !changed ==> Converged(heap, color, ephemeron)
        decreases |Whites(color)|, changed
      {
        ghost var s := S();
        changed := ConvergeRound(inv, bound);
        OnwardTrans(old(S()), s, S());
        OnwardWhites(s, S());
        inv := !inv;
      }
    }

    // ----- clearing -----

    method ClearValue(o: Ref, v: Value, ghost bound: iset<Ref>) returns (cleared: bool)
      requires CanMark(bound) && o in heap && o in bound && heap[o].Table?
      requires v.Obj? ==> Points(heap, o, v.ref)
      requires v.Obj? && v.ref in heap && heap[v.ref].Str? ==> Keeps(heap, bound, o, v.ref)
      modifies `color, `gray
      ensures CanMark(bound) && StringMarks(heap, old(color), color) && gray == old(gray)
      ensures !cleared ==> ValueMarked(color, v)
      ensures cleared ==> Clearable(heap, old(color), v)
    {
      assert Open(0);
      cleared := IsCleared(v, bound);
    }

    method ClearArray(o: Ref, ghost bound: iset<Ref>) returns (arr: seq<Value>)
      requires CanMark(bound) && o in heap && o in bound && heap[o].Table?
      modifies `color, `gray
      ensures CanMark(bound) && StringMarks(heap, old(color), color) && gray == old(gray)
      ensures ValuesShrink(heap[o].arr, arr) && ValuesMarked(color, arr)
      ensures ValuesLost(heap, old(color), heap[o].arr, arr)
    {
      arr := heap[o].arr;
      for i := 0 to |arr|
        invariant CanMark(bound) && StringMarks(heap, old(color), color) && gray == old(gray)
        invariant ValuesLost(heap, old(color), heap[o].arr, arr)
        invariant ValuesShrink(heap[o].arr, arr)
        invariant forall k {:trigger arr[k]} :: i <= k < |arr| ==> arr[k] == heap[o].arr[k]
        invariant forall k {:trigger arr[k]} :: 0 <= k < i ==> ValueMarked(color, arr[k])
      {
        ghost var c := color;
        assert arr[i].Obj? ==> Obj(arr[i].ref) in heap[o].arr;
        var cleared := ClearValue(o, arr[i], bound);
        StringMarksTrans(heap, old(color), c, color);
        if cleared {
          arr := arr[i := Nil];
        }
      }
    }

    method ClearNodeValues(o: Ref, ghost bound: iset<Ref>) returns (ns: seq<Node>)
      requires CanMark(bound) && o in heap && o in bound && heap[o].Table?
      modifies `color, `gray
      ensures CanMark(bound) && StringMarks(heap, old(color), color) && gray == old(gray)
      ensures NodeValuesLost(heap, old(color), heap[o].nodes, ns)
      ensures NodesShrink(heap[o].nodes, ns) && NodeValuesMarked(color, ns) && Clean(ns)
    {
      ns := heap[o].nodes;
      for i := 0 to |ns|
        invariant CanMark(bound) && StringMarks(heap, old(color), color) && gray == old(gray)
        invariant NodeValuesLost(heap, old(color), heap[o].nodes, ns)
        invariant NodesShrink(heap[o].nodes, ns)
        invariant forall k {:trigger ns[k]} :: i <= k < |ns| ==> ns[k] == heap[o].nodes[k]
        invariant forall k {:trigger ns[k]} :: 0 <= k < i ==> NodeClean(ns[k]) && ValueMarked(color, ns[k].val)
      {
        ghost var c := color;
        NodeKeeps(heap, bound, o, i);
        var cleared := ClearValue(o, ns[i].val, bound);
        StringMarksTrans(heap, old(color), c, color);
        ns := ns[i := ClearedNode(ns[i], cleared)];
      }
    }

    method ClearNodeKeys(o: Ref, ghost bound: iset<Ref>) returns (ns: seq<Node>)
      requires CanMark(bound) && o in heap && o in bound && heap[o].Table?
      requires (heap[o].mode == AllWeak || Clean(heap[o].nodes))
      modifies `color, `gray
      ensures CanMark(bound) && StringMarks(heap, old(color), color) && gray == old(gray)
      ensures NodeKeysLost(heap, old(color), heap[o].nodes, ns)
      ensures NodesShrink(heap[o].nodes, ns) && KeysMarked(color, ns) && Clean(ns)
    {
      ns := heap[o].nodes;
      for i := 0 to |ns|
        invariant CanMark(bound) && StringMarks(heap, old(color), color) && gray == old(gray)
        invariant NodeKeysLost(heap, old(color), heap[o].nodes, ns)
        invariant NodesShrink(heap[o].nodes, ns)
        invariant forall k {:trigger ns[k]} :: i <= k < |ns| ==> ns[k] == heap[o].nodes[k]
        invariant forall k {:trigger ns[k]} :: 0 <= k < i ==> WeakNode(color, ns[k])
      {
        ghost var c := color;
        NodeKeeps(heap, bound, o, i);
        var cleared := ClearValue(o, if ns[i].key.Live? then ns[i].key.v else Nil, bound);
        StringMarksTrans(heap, old(color), c, color);
        ns := ns[i := ClearedNode(ns[i], cleared)];
      }
    }

    /** Between the visits of the atomic phase, with no object waiting to be visited. */
    ghost predicate Quiet(bound: iset<Ref>)
      reads this
    {
      && CanMark(bound) && Tracing() && UpvalsOk(heap, color, twups) && phase == Atomic && gray == [] && detached == []
    }

    lemma QuietWeak(o: Ref, bound: iset<Ref>)
      requires Quiet(bound) && (o in weak || o in allweak || o in ephemeron)
      ensures Converging(bound) && detached == [] && o in heap && Marked(color, o) && IsWeak(heap[o]) && o in bound
      ensures o in ephemeron ==> Clean(heap[o].nodes)
      ensures o in allweak ==> heap[o].mode == AllWeak || Clean(heap[o].nodes)
      ensures o in weak || o in allweak ==>
        ValueWeak(heap[o].mode) || (ValuesMarked(color, heap[o].arr) && NodeValuesMarked(color, heap[o].nodes))
      ensures o in ephemeron || o in allweak ==> KeyWeak(heap[o].mode)
    {
      assert Open(0);
      WeakMember(heap, color, L(), o);
    }

    lemma QuietStrings(bound: iset<Ref>)
      requires Quiet(bound)
      ensures StringsOnly(S(), S())
    {
      assert Open(0);
      StringsOnlyRefl(S());
    }

    lemma StaysQuiet(bound: iset<Ref>)
      requires Converging(bound) && detached == []
      ensures Quiet(bound)
    {
    }

    /** Removes the entries of a table whose values are not marked. */
    method ClearTableValues(o: Ref, ghost bound: iset<Ref>)
      requires Quiet(bound) && (o in weak || o in allweak)
      modifies `heap, `color, `gray
      ensures Quiet(bound) && Progress(old(S()), S()) && L() == old(L()) && StringsOnly(old(S()), S())
      ensures ValuesWent(old(S()), S())
      ensures o in heap && ValuesCleared(color, heap[o])
      ensures Converged(old(heap), old(color), ephemeron) ==> Converged(heap, color, ephemeron)
    {
      QuietWeak(o, bound);
      ClearEntries(o, bound);
      EntriesCleared(old(S()), S(), o);
      StaysQuiet(bound);
    }

    method ClearEntries(o: Ref, ghost bound: iset<Ref>)
      requires CanMark(bound) && o in heap && o in bound && IsWeak(heap[o])
      requires ValueWeak(heap[o].mode) || (ValuesMarked(color, heap[o].arr) && NodeValuesMarked(color, heap[o].nodes))
      modifies `heap, `color, `gray
      ensures CanMark(bound) && CleanShrink(old(heap), heap) && StringMarks(heap, old(color), color)
      ensures gray == old(gray)
      ensures Loses(old(heap), heap, old(color), map[])
      ensures ValuesCleared(color, heap[o])
    {
      var arr := ClearArray(o, bound);
      ghost var c := color;
      var ns := ClearNodeValues(o, bound);
      StringMarksTrans(heap, old(color), c, color);
      heap := heap[o := heap[o].(arr := arr, nodes := ns)];
      EntriesLost(old(heap), old(color), c, o, arr, ns);
      EntriesShrink(old(heap), color, L(), bound, o, arr, ns);
      StringMarksShrink(old(heap), heap, old(color), color);
    }

    method ClearTableKeys(o: Ref, ghost bound: iset<Ref>)
      requires Quiet(bound) && (o in ephemeron || o in allweak)
      modifies `heap, `color, `gray
      ensures Quiet(bound) && Progress(old(S()), S()) && L() == old(L()) && StringsOnly(old(S()), S())
      ensures o in heap && KeysCleared(color, heap[o])
      ensures Converged(old(heap), old(color), ephemeron) ==> Converged(heap, color, ephemeron)
    {
      assert Open(0);
      QuietWeak(o, bound);
      ClearKeyEntries(o, bound);
      ClearProgress(old(S()), S(), o);
      StaysQuiet(bound);
    }

    method ClearKeyEntries(o: Ref, ghost bound: iset<Ref>)
      requires CanMark(bound) && o in heap && o in bound && IsWeak(heap[o])
      requires KeyWeak(heap[o].mode) && (heap[o].mode == AllWeak || Clean(heap[o].nodes))
      modifies `heap, `color, `gray
      ensures CanMark(bound) && CleanShrink(old(heap), heap) && StringMarks(heap, old(color), color)
      ensures gray == old(gray)
      ensures Loses(old(heap), heap, old(color), old(color))
      ensures KeysCleared(color, heap[o])
    {
      ghost var s := S();
      var ns := ClearNodeKeys(o, bound);
      SetNodes(o, ns, bound);
      StringMarksShrink(s.h, heap, s.c, color);
      NodesCleared(s.h, heap, s.c, o, ns);
    }

    /** Removes the entries with unmarked values from the first `n` tables of a list (lgc.c:744-762). */
    method ClearByValues(l: seq<Ref>, n: nat, ghost bound: iset<Ref>)
      requires Quiet(bound) && n <= |l| && (l == weak || l == allweak)
      modifies `heap, `color, `gray
      ensures Quiet(bound) && Progress(old(S()), S()) && old(L()) == L() && ListValuesCleared(heap, color, l[..n])
      ensures StringsOnly(old(S()), S()) && ValuesWent(old(S()), S())
      ensures Converged(old(heap), old(color), ephemeron) ==> Converged(heap, color, ephemeron)
    {
      ProgressRefl(S());
      QuietStrings(bound);
      for i := 0 to n
        invariant Quiet(bound) && Progress(old(S()), S()) && old(L()) == L() && StringsOnly(old(S()), S())
        invariant ValuesWent(old(S()), S())
        invariant ListValuesCleared(heap, color, l[..i])
        invariant Converged(old(heap), old(color), ephemeron) ==> Converged(heap, color, ephemeron)
      {
        ghost var s := S();
        assert l[i] in l;
        ClearTableValues(l[i], bound);
        StringsOnlyTrans(old(S()), s, S());
        ValuesWentTrans(old(S()), s, S());
        ProgressTrans(old(S()), s, S());
        ProgressCleared(s, S(), l[..i]);
        assert l[..i + 1] == l[..i] + [l[i]];
      }
    }

    /** Removes the entries with unmarked keys from the tables of a list (lgc.c:725-737). */
    method ClearByKeys(l: seq<Ref>, ghost bound: iset<Ref>)
      requires Quiet(bound) && (l == ephemeron || l == allweak)
      modifies `heap, `color, `gray
      ensures Quiet(bound) && Progress(old(S()), S()) && old(L()) == L() && StringsOnly(old(S()), S())
      ensures ListKeysCleared(heap, color, l)
      ensures Converged(old(heap), old(color), ephemeron) ==> Converged(heap, color, ephemeron)
    {
      ProgressRefl(S());
      QuietStrings(bound);
      for i := 0 to |l|
        invariant Quiet(bound) && Progress(old(S()), S()) && old(L()) == L() && StringsOnly(old(S()), S())
        invariant ListKeysCleared(heap, color, l[..i])
        invariant Converged(old(heap), old(color), ephemeron) ==> Converged(heap, color, ephemeron)
      {
        ghost var s := S();
        assert l[i] in l;
        ClearTableKeys(l[i], bound);
        StringsOnlyTrans(old(S()), s, S());
        ProgressTrans(old(S()), s, S());
        ProgressCleared(s, S(), l[..i]);
        assert l[..i + 1] == l[..i] + [l[i]];
      }
      assert l[..|l|] == l;
    }

    // ----- the atomic phase -----

    /** For one thread, marks the values of its marked open upvalues. */
    method RemarkThread(t: Ref, ghost bound: iset<Ref>)
      requires CanMark(bound) && t in heap && heap[t].Thread?
      modifies `color, `gray
      ensures CanMark(bound) && Spreads(heap, old(color), old(gray), color, gray) && ThreadRemarked(heap, color, t)
    {
      assert Open(0);
      var todo := heap[t].upvals;
      while todo != {}
        invariant todo <= heap[t].upvals
        invariant CanMark(bound) && Spreads(heap, old(color), old(gray), color, gray)
        invariant RemarkedBut(heap, color, t, todo)
        decreases todo
      {
        var u :| u in todo;
        assert u in heap[t].upvals && SlotOk(heap, u);
        ghost var c, g := color, gray;
        if !IsWhite(color[u]) {
          MarkSlotOf(u, heap[t].stack[heap[u].level], bound);
          SpreadsTrans(heap, old(color), old(gray), c, g, color, gray);
        }
        RemarkStep(heap, c, color, t, todo, u);
        todo := todo - {u};
      }
    }

    /** In the atomic phase, between visits. */
    ghost predicate Ready(bound: iset<Ref>)
      reads this
    {
      CanMark(bound) && Tracing() && phase == Atomic
    }

    /** Walks 'twups'; gives what is kept of it. */
    method WalkTwups(ghost bound: iset<Ref>) returns (kept: seq<Ref>)
      requires CanMark(bound) && TwupsAll(heap, twups)
      modifies `color, `gray
      ensures CanMark(bound) && Spreads(heap, old(color), old(gray), color, gray)
      ensures RemarkWalk(heap, old(color), color, twups, [], kept)
    {
      assert Open(0);
      var rest: seq<Ref>;
      rest, kept := twups, [];
      while rest != []
        invariant CanMark(bound) && Spreads(heap, old(color), old(gray), color, gray)
        invariant RemarkWalk(heap, old(color), color, twups, rest, kept)
        decreases rest
      {
        var t := rest[0];
        assert t in rest;
        ghost var c, g := color, gray;
        if !IsWhite(color[t]) && heap[t].upvals != {} {
          kept := kept + [t];
        } else {
          RemarkThread(t, bound);
          SpreadsTrans(heap, old(color), old(gray), c, g, color, gray);
          RemarkWalkExtends(heap, old(color), c, color, twups, rest, kept);
        }
        assert forall x :: x in rest <==> x == t || x in rest[1..];
        rest := rest[1..];
      }
    }

    /** For each thread that is not marked, marks the values of its marked upvalues, and drops it from
        'twups' (lgc.c:367-391). */
    method RemarkUpvals(ghost bound: iset<Ref>)
      requires Ready(bound) && TwupsAll(heap, twups)
      modifies `color, `gray, `twups
      ensures Traced(bound) && Later(old(S()), S())
    {
      assert Open(0);
      var kept := WalkTwups(bound);
      TracingExtends(heap, old(color), color, old(L()), L(), true);
      RemarkWalkDone(heap, old(color), color, twups, kept);
      twups := kept;
      ExtendsLater(old(S()), S());
    }

    /** Ready, and what is known about upvalues holds. */
    ghost predicate Traced(bound: iset<Ref>)
      reads this
    {
      Ready(bound) && UpvalsOk(heap, color, twups)
    }

    /** Marks a sequence of objects that are roots, or to be finalized. */
    method MarkObjects(os: seq<Ref>, ghost bound: iset<Ref>)
      requires CanMark(bound) && forall o :: o in os ==> o in heap && o in bound
      modifies `color, `gray
      ensures CanMark(bound) && Extends(heap, old(color), color)
      ensures ListMarked(color, os)
    {
      for i := 0 to |os|
        invariant CanMark(bound) && Extends(heap, old(color), color)
        invariant forall k {:trigger os[k]} :: 0 <= k < i ==> Marked(color, os[k])
      {
        ghost var c := color;
        assert os[i] in os;
        if IsWhite(color[os[i]]) {
          ReallyMark(os[i], bound);
          ExtendsTrans(heap, old(color), c, color);
        }
      }
    }

    /** Marks root objects during the atomic phase. */
    method MarkInAtomic(os: seq<Ref>, ghost bound: iset<Ref>)
      requires Ready(bound) && forall o :: o in os ==> o in heap && o in bound
      modifies `color, `gray
      ensures Ready(bound) && Later(old(S()), S()) && ListMarked(color, os)
      ensures old(Traced(bound)) ==> Traced(bound)
    {
      assert Open(0);
      MarkObjects(os, bound);
      TracingExtends(heap, old(color), color, old(L()), L(), true);
      ExtendsLater(old(S()), S());
      if old(Traced(bound)) {
        UpvalsTracedExtends(heap, old(color), color, twups);
      }
    }

    method PropagateReady(ghost bound: iset<Ref>)
      requires Ready(bound)
      modifies `heap, `color, `gray, `grayagain, `weak, `ephemeron, `allweak, `twups
      ensures Ready(bound) && gray == [] && Progress(old(S()), S())
      ensures old(Traced(bound)) ==> Traced(bound)
      ensures Same(old(heap), heap)
    {
      PropagateAll(bound);
      OnwardProgress(old(S()), S());
    }

    /** Moves the white objects that need finalization from 'finobj' to the end of 'tobefnz' (lgc.c:974-991). */
    method SeparateToBeFnz()
      requires forall o :: o in finobj ==> o in color
      modifies `finobj, `tobefnz
      ensures finobj == Select(color, old(finobj), false)
      ensures tobefnz == old(tobefnz) + Select(color, old(finobj), true)
    {
      var l, kept, moved := finobj, [], [];
      for i := 0 to |l|
        invariant tobefnz == old(tobefnz) && forall o :: o in l[..i] ==> o in color
        invariant kept == Select(color, l[..i], false) && moved == Select(color, l[..i], true)
      {
        assert l[i] in l && l[..i + 1] == l[..i] + [l[i]];
        SelectAppend(color, l[..i], l[i], IsWhite(color[l[i]]));
        SelectAppend(color, l[..i], l[i], !IsWhite(color[l[i]]));
        if !IsWhite(color[l[i]]) {
          kept := kept + [l[i]];
        } else {
          moved := moved + [l[i]];
        }
      }
      assert l[..|l|] == l;
      finobj, tobefnz := kept, tobefnz + moved;
    }

    /** The roots that may have changed without a barrier: the running thread, the registry and the
        metatables of basic types. */
    function GlobalRoots(): (r: seq<Ref>)
      reads this
    {
      [running] + RefsOf([registry]) + RefsOf(mt)
    }

    /** Propagation is over and the atomic phase about to start. */
    ghost predicate Entering(bound: iset<Ref>)
      reads this
    {
      CanMark(bound) && Tracing() && phase == EnterAtomic
    }

    /** Unhooks 'grayagain' and starts the atomic phase. */
    method EnterAtomicLists(saved: seq<Ref>, ghost bound: iset<Ref>)
      requires Entering(bound) && saved == grayagain
      modifies `grayagain, `detached, `phase
      ensures Ready(bound) && Later(old(S()), S()) && detached == saved
    {
      assert Open(0);
      DetachGrayAgain(heap, color, L());
      ProgressLists(S(), S().(l := L().(grayagain := [], detached := saved)));
      ProgressLater(S(), S().(l := L().(grayagain := [], detached := saved)));
      grayagain, detached, phase := [], saved, Atomic;
    }

    method PropagateTraced(ghost bound: iset<Ref>)
      requires Traced(bound)
      modifies `heap, `color, `gray, `grayagain, `weak, `ephemeron, `allweak, `twups
      ensures Traced(bound) && gray == [] && Progress(old(S()), S())
      ensures Same(old(heap), heap)
    {
      PropagateAll(bound);
      OnwardProgress(old(S()), S());
    }

    /** Visits what waited for the atomic phase. */
    method PropagateSaved(saved: seq<Ref>, ghost bound: iset<Ref>)
      requires Traced(bound) && gray == [] && detached == saved
      modifies `heap, `color, `gray, `grayagain, `weak, `ephemeron, `allweak, `twups, `detached
      ensures Quiet(bound) && Progress(old(S()), S())
      ensures Same(old(heap), heap)
    {
      ghost var s := S();
      AttachSaved(saved, bound);
      ProgressLists(s, S());
      s := S();
      PropagateTraced(bound);
      ProgressTrans(old(S()), s, S());
      assert Open(0);
    }

    method AttachSaved(saved: seq<Ref>, ghost bound: iset<Ref>)
      requires Traced(bound) && gray == [] && detached == saved
      modifies `gray, `detached
      ensures Traced(bound) && gray == saved && detached == []
    {
      assert Open(0);
      AttachGray(heap, color, L());
      gray, detached := saved, [];
    }

    method ConvergeQuiet(ghost bound: iset<Ref>)
      requires Quiet(bound)
      modifies `heap, `color, `gray, `grayagain, `weak, `ephemeron, `allweak, `twups, `detached
      ensures Quiet(bound) && Progress(old(S()), S()) && Converged(heap, color, ephemeron)
      ensures Same(old(heap), heap)
    {
      ConvergeEphemerons(bound);
      OnwardProgress(old(S()), S());
    }

    method RemarkAndPropagate(ghost bound: iset<Ref>)
      requires Ready(bound) && TwupsAll(heap, twups)
      modifies `heap, `color, `gray, `grayagain, `weak, `ephemeron, `allweak, `twups
      ensures Traced(bound) && gray == [] && Later(old(S()), S())
      ensures Same(old(heap), heap)
    {
      RemarkUpvals(bound);
      ghost var s := S();
      PropagateTraced(bound);
      LaterTrans(old(S()), s, S());
    }

    method VisitAndConverge(saved: seq<Ref>, ghost bound: iset<Ref>)
      requires Traced(bound) && gray == [] && detached == saved
      modifies `heap, `color, `gray, `grayagain, `weak, `ephemeron, `allweak, `twups, `detached
      ensures Quiet(bound) && Later(old(S()), S()) && Converged(heap, color, ephemeron)
      ensures Same(old(heap), heap)
    {
      PropagateSaved(saved, bound);
      ghost var s := S();
      ConvergeQuiet(bound);
      ProgressTrans(old(S()), s, S());
      ProgressLater(old(S()), S());
      SameTrans(old(heap), s.h, heap);
    }

    method MarkGlobals(ghost bound: iset<Ref>)
      requires Ready(bound) && TwupsAll(heap, twups)
      requires forall o :: o in GlobalRoots() ==> o in heap && o in bound
      modifies `heap, `color, `gray, `grayagain, `weak, `ephemeron, `allweak, `twups
      ensures Ready(bound) && TwupsAll(heap, twups) && Later(old(S()), S())
      ensures ListMarked(color, GlobalRoots())
      ensures Same(old(heap), heap)
    {
      MarkInAtomic(GlobalRoots(), bound);
      ghost var s := S();
      PropagateReady(bound);
      LaterTrans(old(S()), s, S());
      LaterMarked(s, S(), GlobalRoots());
      ProgressTwups(s, S());
    }

    /** First part of the atomic phase, up to the point where all strongly accessible objects are marked. */
    method AtomicMark(ghost bound: iset<Ref>)
      requires Entering(bound) && TwupsAll(heap, twups)
      requires forall o :: o in GlobalRoots() ==> o in heap && o in bound
      modifies `heap, `color, `gray, `grayagain, `weak, `ephemeron, `allweak, `twups, `detached, `phase
      ensures Quiet(bound) && Later(old(S()), S()) && Converged(heap, color, ephemeron)
      ensures ListMarked(color, GlobalRoots())
      ensures Same(old(heap), heap)
    {
      var saved := grayagain;
      EnterAtomicLists(saved, bound);
      ghost var s := S();
      MarkGlobals(bound);
      LaterTrans(old(S()), s, S());
      s := S();
      RemarkAndPropagate(bound);
      ghost var s1 := S();
      VisitAndConverge(saved, bound);
      SameTrans(s.h, s1.h, heap);
      SameTrans(old(heap), s.h, heap);
      LaterTrans(s, s1, S());
      LaterTrans(old(S()), s, S());
      LaterMarked(s, S(), GlobalRoots());
    }

    /** Clears the values that are not strongly accessible, before finalizers are looked at. */
    method FirstClear(ghost bound: iset<Ref>)
      requires Quiet(bound)
      modifies `heap, `color, `gray
      ensures Quiet(bound) && Progress(old(S()), S()) && L() == old(L()) && StringsOnly(old(S()), S())
      ensures ListValuesCleared(heap, color, weak) && ListValuesCleared(heap, color, allweak)
      ensures ValuesWent(old(S()), S()) && Purged(heap, old(color))
    {
      ClearByValues(weak, |weak|, bound);
      ghost var s := S();
      ClearByValues(allweak, |allweak|, bound);
      StringsOnlyTrans(old(S()), s, S());
      ValuesWentTrans(old(S()), s, S());
      ProgressTrans(old(S()), s, S());
      ProgressCleared(s, S(), weak[..|weak|]);
      assert weak[..|weak|] == weak && allweak[..|allweak|] == allweak;
      QuietPurged(old(S()), bound);
    }

    lemma QuietPurged(s: Snap, bound: iset<Ref>)
      requires Quiet(bound) && Progress(s, S()) && StringsOnly(s, S())
      requires ListValuesCleared(heap, color, weak) && ListValuesCleared(heap, color, allweak)
      ensures Purged(heap, s.c)
    {
      assert Open(0);
      FirstPurged(s, S());
    }

    method PropagateQuiet(ghost bound: iset<Ref>)
      requires Traced(bound) && detached == []
      modifies `heap, `color, `gray, `grayagain, `weak, `ephemeron, `allweak, `twups, `detached
      ensures Quiet(bound) && Later(old(S()), S()) && Converged(heap, color, ephemeron) && Same(old(heap), heap)
    {
      PropagateTraced(bound);
      ghost var s := S();
      assert Quiet(bound) by { assert Open(0); }
      ConvergeQuiet(bound);
      SameTrans(old(heap), s.h, heap);
      ProgressTrans(old(S()), s, S());
      ProgressLater(old(S()), S());
    }

    /** Separates the objects to be finalized and marks them. */
    method SeparateAndMark(ghost bound: iset<Ref>)
      requires Quiet(bound) && forall o :: o in finobj || o in tobefnz ==> o in heap && o in color && o in bound
      modifies `color, `gray, `finobj, `tobefnz
      ensures Traced(bound) && Later(old(S()), S())
      ensures finobj == Select(old(color), old(finobj), false)
      ensures tobefnz == old(tobefnz) + Select(old(color), old(finobj), true)
      ensures ListMarked(color, finobj + tobefnz)
    {
      SeparateToBeFnz();
      ghost var s := S();
      QuietTraced(bound);
      MarkInAtomic(tobefnz, bound);
      KeptMarked(s, S(), old(finobj), finobj, tobefnz);
    }

    lemma QuietTraced(bound: iset<Ref>)
      requires Quiet(bound)
      ensures Traced(bound) && Ready(bound)
    {
      assert Open(0);
    }

    /** Resurrects the objects to be finalized, and all they keep. */
    method Resurrect(ghost bound: iset<Ref>)
      requires Quiet(bound) && forall o :: o in finobj || o in tobefnz ==> o in heap && o in color && o in bound
      modifies `heap, `color, `gray, `grayagain, `weak, `ephemeron, `allweak, `twups, `detached, `finobj, `tobefnz
      ensures Quiet(bound) && Later(old(S()), S()) && Converged(heap, color, ephemeron) && Same(old(heap), heap)
      ensures finobj == Select(old(color), old(finobj), false)
      ensures tobefnz == old(tobefnz) + Select(old(color), old(finobj), true)
      ensures ListMarked(color, finobj + tobefnz)
    {
      assert detached == [] by { assert Open(0); }
      SeparateAndMark(bound);
      ghost var s := S();
      PropagateQuiet(bound);
      LaterTrans(old(S()), s, S());
      LaterMarked(s, S(), finobj + tobefnz);
    }

    /** The smallest bound for that. */
    ghost function Rescued(bound: iset<Ref>): iset<Ref>
      reads this
    {
      iset o | o in MarkBound(heap, iset x: Ref | Marked(color, x) || x in tobefnz || x in finobj) && o in bound
    }

    lemma RescuedOk(bound: iset<Ref>)
      requires Quiet(bound) && forall o :: o in finobj || o in tobefnz ==> o in heap && o in color && o in bound
      ensures Quiet(Rescued(bound)) && MarkClosed(heap, bound)
      ensures forall o :: o in finobj || o in tobefnz ==> o in Rescued(bound)
    {
      assert Open(0);
      var from := iset x: Ref | Marked(color, x) || x in tobefnz || x in finobj;
      MarkBoundClosed(heap, from);
      forall o | o in from ensures MarkReached(heap, from, o) {}
      ClosedBoth(heap, MarkBound(heap, from), bound);
    }

    lemma QuietBounded(bound: iset<Ref>)
      requires Quiet(bound)
      ensures Bounded(color, bound)
    {
      assert Open(0);
    }

    /** Resurrects nothing else. */
    method ResurrectLeast(ghost bound: iset<Ref>)
      requires Quiet(bound) && forall o :: o in finobj || o in tobefnz ==> o in heap && o in color && o in bound
      modifies `heap, `color, `gray, `grayagain, `weak, `ephemeron, `allweak, `twups, `detached, `finobj, `tobefnz
      ensures Quiet(bound) && Later(old(S()), S()) && Converged(heap, color, ephemeron) && Same(old(heap), heap)
      ensures finobj == Select(old(color), old(finobj), false)
      ensures tobefnz == old(tobefnz) + Select(old(color), old(finobj), true)
      ensures ListMarked(color, finobj + tobefnz)
      ensures forall o {:trigger Marked(color, o)} :: Marked(color, o) ==>
        MarkReached(old(heap), FromMarks(old(color), tobefnz), o)
    {
      ghost var h0, c0, fin, tobe, least := heap, color, finobj, tobefnz, Rescued(bound);
      RescuedOk(bound);
      Resurrect(least);
      QuietBounded(least);
      QuietWiden(h0, least, bound);
      forall o | Marked(color, o) ensures MarkReached(h0, FromMarks(c0, tobefnz), o) {
        assert o in least;
        FromSame(h0, c0, fin, tobe, tobefnz, o);
      }
    }

    /** Clears dead keys everywhere. */
    method LastClearKeys(ghost bound: iset<Ref>)
      requires Quiet(bound) && Converged(heap, color, ephemeron)
      modifies `heap, `color, `gray
      ensures Quiet(bound) && Progress(old(S()), S()) && L() == old(L()) && Converged(heap, color, ephemeron)
      ensures ListKeysCleared(heap, color, ephemeron) && ListKeysCleared(heap, color, allweak)
      ensures StringsOnly(old(S()), S())
    {
      ClearByKeys(ephemeron, bound);
      ghost var s := S();
      ClearByKeys(allweak, bound);
      StringsOnlyTrans(old(S()), s, S());
      ProgressTrans(old(S()), s, S());
      ProgressCleared(s, S(), ephemeron);
    }

    /** Clears dead values from the tables that were listed after `orig`. */
    method LastClearValues(l: seq<Ref>, orig: seq<Ref>, ghost bound: iset<Ref>)
      requires Quiet(bound) && Converged(heap, color, ephemeron) && (l == weak || l == allweak)
      requires Extension(orig, l) && ListValuesCleared(heap, color, orig)
      modifies `heap, `color, `gray
      ensures Quiet(bound) && Progress(old(S()), S()) && L() == old(L()) && Converged(heap, color, ephemeron)
      ensures ListValuesCleared(heap, color, l) && StringsOnly(old(S()), S())
    {
      ClearByValues(l, |l| - |orig|, bound);
      ProgressCleared(old(S()), S(), orig);
      ClearedParts(heap, color, l, orig);
    }

    /** The end of the atomic phase: dead keys everywhere, and dead values of the tables that were resurrected. */
    method LastClear(origweak: seq<Ref>, origall: seq<Ref>, ghost bound: iset<Ref>)
      requires Quiet(bound) && Converged(heap, color, ephemeron)
      requires Extension(origweak, weak) && ListValuesCleared(heap, color, origweak)
      requires Extension(origall, allweak) && ListValuesCleared(heap, color, origall)
      modifies `heap, `color, `gray
      ensures CanMark(bound) && gray == [] && Settled(heap, color)
      ensures Progress(old(S()), S()) && StringsOnly(old(S()), S())
      ensures TwupsMarked(heap, color, twups)
      ensures forall t :: t in heap && heap[t].Thread? && heap[t].upvals != {} && Marked(color, t) ==> t in twups
    {
      LastClearKeys(bound);
      ghost var s := S();
      ProgressCleared(old(S()), s, origweak);
      ProgressCleared(old(S()), s, origall);
      LastClearValues(weak, origweak, bound);
      ghost var s1 := S();
      ProgressTrans(old(S()), s, s1);
      StringsOnlyTrans(old(S()), s, s1);
      ProgressCleared(s, s1, origall);
      ProgressCleared(s, s1, ephemeron);
      ProgressCleared(s, s1, allweak);
      LastClearValues(allweak, origall, bound);
      ProgressTrans(old(S()), s1, S());
      StringsOnlyTrans(old(S()), s1, S());
      ProgressCleared(s1, S(), ephemeron);
      ProgressCleared(s1, S(), allweak);
      ProgressCleared(s1, S(), weak);
      Finish(bound);
    }

    lemma Finish(bound: iset<Ref>)
      requires Quiet(bound) && Converged(heap, color, ephemeron)
      requires ListValuesCleared(heap, color, weak) && ListValuesCleared(heap, color, allweak)
      requires ListKeysCleared(heap, color, ephemeron) && ListKeysCleared(heap, color, allweak)
      ensures CanMark(bound) && gray == [] && Settled(heap, color) && TwupsMarked(heap, color, twups)
      ensures forall t :: t in heap && heap[t].Thread? && heap[t].upvals != {} && Marked(color, t) ==> t in twups
    {
      assert Open(0);
      AllSettled(heap, color, L(), twups);
    }

    lemma QuietClosed(bound: iset<Ref>)
      requires Quiet(bound) && Converged(heap, color, ephemeron)
      ensures StrongClosed(heap, MarkedSet(color)) && Bounded(color, bound)
    {
      assert Open(0);
      ConvergedClosed(heap, color, L(), twups);
    }

    /** A larger bound, for what is resurrected. */
    lemma QuietWiden(h0: Heap, bound: iset<Ref>, wider: iset<Ref>)
      requires Quiet(bound) && Same(h0, heap) && MarkClosed(h0, wider) && forall o :: o in bound ==> o in wider
      ensures Quiet(wider)
    {
      assert Open(0);
      IntactShrinks(h0, heap);
      ShrinkMarkClosed(h0, heap, wider);
    }

    /** The smallest bound for the first part of the atomic phase. */
    ghost function LeastBound(bound: iset<Ref>): iset<Ref>
      reads this
    {
      iset o | o in MarkBound(heap, iset x: Ref | Marked(color, x) || x in GlobalRoots()) && o in bound
    }

    lemma LeastBoundOk(bound: iset<Ref>)
      requires Entering(bound) && forall o :: o in GlobalRoots() ==> o in heap && o in bound
      ensures Entering(LeastBound(bound)) && MarkClosed(heap, bound)
      ensures forall o :: o in GlobalRoots() ==> o in LeastBound(bound)
    {
      assert Open(0);
      var from := iset x: Ref | Marked(color, x) || x in GlobalRoots();
      MarkBoundClosed(heap, from);
      forall o | o in from ensures MarkReached(heap, from, o) {}
      ClosedBoth(heap, MarkBound(heap, from), bound);
    }

    /** The first part of the atomic phase marks exactly what it must. */
    method AtomicMarkLeast(ghost bound: iset<Ref>)
      requires Entering(bound) && TwupsAll(heap, twups)
      requires forall o :: o in GlobalRoots() ==> o in heap && o in bound
      modifies `heap, `color, `gray, `grayagain, `weak, `ephemeron, `allweak, `twups, `detached, `phase
      ensures Quiet(bound) && Later(old(S()), S()) && Same(old(heap), heap)
      ensures StronglyMarked(old(heap), old(color), GlobalRoots(), color)
    {
      LeastBoundOk(bound);
      ghost var least := LeastBound(bound);
      ghost var h0 := heap;
      AtomicMark(least);
      QuietClosed(least);
      ClosedIntact(h0, heap, MarkedSet(color));
      QuietWiden(h0, least, bound);
      LaterGrows(old(S()), S());
      LaterKeys(old(S()), S());
    }

    lemma StillNeeded(s0: Snap, s: Snap, s': Snap, tobe: seq<Ref>)
      requires NeededOnly(s0.h, s0.c, tobe, s.c) && Later(s0, s) && Progress(s, s') && StringsOnly(s, s')
      ensures NeededOnly(s0.h, s0.c, tobe, s'.c)
    {
      LaterKeys(s0, s);
      LaterKinds(s0, s);
      ProgressLater(s, s');
      NeededLast(s0.h, s0.c, tobe, s, s');
    }

    /** All objects reachable through what the atomic phase clears and resurrects; after it, 'weak' tables
        hold only marked values. */
    method ClearAndResurrect(ghost bound: iset<Ref>)
      requires Quiet(bound) && forall o :: o in finobj || o in tobefnz ==> o in heap && o in color && o in bound
      modifies `heap, `color, `gray, `grayagain, `weak, `ephemeron, `allweak, `twups, `detached, `finobj, `tobefnz
      ensures CanMark(bound) && gray == [] && Settled(heap, color) && Later(old(S()), S())
      ensures TwupsMarked(heap, color, twups)
      ensures forall t :: t in heap && heap[t].Thread? && heap[t].upvals != {} && Marked(color, t) ==> t in twups
      ensures ListMarked(color, finobj + tobefnz)
      ensures multiset(finobj) + multiset(tobefnz) == multiset(old(finobj)) + multiset(old(tobefnz))
      ensures Separated(old(heap), old(color), old(finobj), old(tobefnz), finobj, tobefnz)
      ensures Weakened(old(heap), heap, old(color), color) && Purged(heap, old(color))
      ensures NeededOnly(old(heap), old(color), tobefnz, color)
    {
      ghost var s1;
      var origweak, origall;
      origweak, origall, s1 := ClearThenResurrect(bound);
      ghost var s := S();
      LastClear(origweak, origall, bound);
      LaterTrans(old(S()), s, S());
      LaterTrans(s1, s, S());
      AllWeakened(old(S()), s1, s, S());
      PurgedLater(s1, S(), old(color));
      StillNeeded(old(S()), s, S(), tobefnz);
      LaterMarked(s, S(), finobj + tobefnz);
    }

    /** All but the last clearing; the results are the lists as they were before the resurrection. */
    method ClearThenResurrect(ghost bound: iset<Ref>) returns (origweak: seq<Ref>, origall: seq<Ref>,
        ghost s1: Snap)
      requires Quiet(bound) && forall o :: o in finobj || o in tobefnz ==> o in heap && o in color && o in bound
      modifies `heap, `color, `gray, `grayagain, `weak, `ephemeron, `allweak, `twups, `detached, `finobj, `tobefnz
      ensures Quiet(bound) && Later(old(S()), S()) && Converged(heap, color, ephemeron)
      ensures ListMarked(color, finobj + tobefnz)
      ensures Extension(origweak, weak) && ListValuesCleared(heap, color, origweak)
      ensures Extension(origall, allweak) && ListValuesCleared(heap, color, origall)
      ensures multiset(finobj) + multiset(tobefnz) == multiset(old(finobj)) + multiset(old(tobefnz))
      ensures Separated(old(heap), old(color), old(finobj), old(tobefnz), finobj, tobefnz)
      ensures Later(old(S()), s1) && ValuesWent(old(S()), s1) && Purged(s1.h, old(color))
      ensures Later(s1, S()) && Same(s1.h, heap) && NeededOnly(old(heap), old(color), tobefnz, color)
    {
      FirstClear(bound);
      ghost var s := S();
      s1 := s;
      ProgressLater(old(S()), s);
      LaterKeys(old(S()), s);
      origweak, origall := weak, allweak;
      ResurrectLeast(bound);
      NeededFirst(old(S()), s, tobefnz, color);
      LaterTrans(old(S()), s, S());
      LaterCleared(s, S(), origweak);
      LaterCleared(s, S(), origall);
      LaterLists(s, S());
      SplitSeparated(old(S()), s, old(finobj), old(tobefnz));
    }

    /** The atomic phase (lgc.c:1525-1565). When it ends, what is marked refers only to what is marked, and the
        colour of all else becomes the mark of the dead. */
    method RunAtomic(ghost bound: iset<Ref>) returns (ghost strong: Colors)
      requires Entering(bound) && TwupsAll(heap, twups)
      requires forall o :: o in GlobalRoots() || o in finobj || o in tobefnz ==> o in heap && o in color && o in bound
      modifies `heap, `color, `gray, `grayagain, `weak, `ephemeron, `allweak, `twups, `detached, `finobj, `tobefnz,
        `phase, `curwhite
      ensures CanMark(bound) && gray == [] && Settled(heap, color) && Later(old(S()), S())
      ensures TwupsMarked(heap, color, twups)
      ensures forall t :: t in heap && heap[t].Thread? && heap[t].upvals != {} && Marked(color, t) ==> t in twups
      ensures ListMarked(color, finobj + tobefnz)
      ensures multiset(finobj) + multiset(tobefnz) == multiset(old(finobj)) + multiset(old(tobefnz))
      ensures StronglyMarked(old(heap), old(color), GlobalRoots(), strong) && Weakened(old(heap), heap, strong, color)
      ensures Purged(heap, strong) && NeededOnly(old(heap), strong, tobefnz, color)
      ensures Separated(old(heap), strong, old(finobj), old(tobefnz), finobj, tobefnz)
      ensures curwhite == OtherWhite(old(curwhite))
    {
      AtomicMarkLeast(bound);
      ghost var s := S();
      strong := color;
      LaterKeys(old(S()), s);
      ClearAndResurrect(bound);
      AtomicDone(old(S()), s, S(), old(finobj), old(tobefnz), finobj, tobefnz);
      curwhite := OtherWhite(curwhite);
    }
  }
}
