/** What a program does to the heap and to its roots, action by action, without the collector: the meaning of the
    actions that `GcProgram` interleaves with steps of the collector (lapi.c, lfunc.c, lstring.c). */
module GcEffects {
  import opened GcObjects
  import opened GcMarking
  import opened GcWorld
  import opened GcAlloc
  import opened GcTables
  import opened GcMutator
  import opened GcSweep
  import opened GcPhases
  import opened GcSteps
  import opened GcStrings
  import opened GcDriver
  import opened GcExact
  import opened Folding

  // ----- the actions -----

  /** Where a value is read from; `i` is a position of the stack. */
  datatype Source =
    | Constant(n: int) | NilValue | Copy(i: nat) | Metatable(i: nat) | UserValue(i: nat, k: nat) | Item(i: nat, k: nat)
    | EntryKey(i: nat, k: nat) | EntryValue(i: nat, k: nat) | Field(i: nat, k: nat) | Upvalue(i: nat, k: nat)
    | OtherStack(i: nat, k: nat) | Registry | TypeMetatable(k: nat) | MainThread
  {
    /** Reads a field of the object that position `i` refers to. */
    predicate OfObject() {
      Metatable? || UserValue? || Item? || EntryKey? || EntryValue? || Field? || Upvalue? || OtherStack?
    }
  }

  /** What the program, or the collector, does next. Numbers `i`, `j`, `k` are positions of the stack or of fields. */
  datatype Action =
    | Collect(emergency: bool) | CollectAll
    | Load(from: Source) | Pop(n: nat) | Create(kind: Kind)
    | StoreUserValue(i: nat, k: nat, j: nat) | StoreItem(i: nat, k: nat, j: nat)
    | StoreEntry(i: nat, k: nat, j: nat) | AddKey(i: nat, k: nat, j: nat, m: nat) | StoreField(i: nat, k: nat, j: nat)
    | ResizeTable(i: nat, asize: nat)
    | StoreMetatable(i: nat, j: nat, hasgc: bool) | StoreUpvalue(i: nat, k: nat, j: nat)
    | StorePrototype(i: nat, k: nat, j: nat) | JoinUpvalues(i: nat, k: nat, j: nat, m: nat)
    | StoreRegistry(j: nat) | StoreTypeMetatable(k: nat, j: nat)
    | MoveTo(i: nat, j: nat) | SwitchTo(i: nat) | Capture(i: nat, k: nat, level: nat) | FreshUpvalue(i: nat, k: nat)
    | CloseLevel(level: nat) | Intern(s: string) | FixString(s: string)
  {
    /** Changes one field of one object that is there; the heap after it is `Stored`. */
    predicate IsStore() {
      StoreUserValue? || StoreItem? || StoreEntry? || AddKey? || StoreField? || StoreUpvalue? || StorePrototype? ||
      JoinUpvalues? || MoveTo?
    }
  }

  datatype Kind = ALongString | AUserdata(n: nat) | AClosure(n: nat) | ARecord(n: nat) | ATable(mode: Mode, i: nat)
    | AThread

  // ----- reading -----

  function Stack(w: World): seq<Value> {
    if w.running in w.h && w.h[w.running].Thread? then w.h[w.running].stack else []
  }

  /** The value at a position of the stack, nil beyond its end. */
  function Arg(w: World, i: nat): Value { if i < |Stack(w)| then Stack(w)[i] else Nil }

  /** What an upvalue of a closure reads as: the stack slot it stands for while it is open. The prototype of a closure
      is kept like an upvalue. */
  function SlotValue(h: Heap, u: Ref): Value
    requires u in h
  {
    var b := h[u];
    if b.OpenUp? then
      if b.thread in h && h[b.thread].Thread? && b.level < |h[b.thread].stack| then h[b.thread].stack[b.level] else Nil
    else if b.ClosedUp? then b.v
    else if b.Rec? then Obj(u)
    else Nil
  }

  /** What is read from an object, nil where there is no such field. */
  function FieldOf(h: Heap, b: Body, s: Source): Value {
    if s.Metatable? && (b.Table? || b.Udata?) then b.meta
    else if s.UserValue? && b.Udata? && s.k < |b.uservals| then b.uservals[s.k]
    else if s.Item? && b.Table? && s.k < |b.arr| then b.arr[s.k]
    else if s.EntryValue? && b.Table? && s.k < |b.nodes| then b.nodes[s.k].val
    else if s.EntryKey? && b.Table? && s.k < |b.nodes| && b.nodes[s.k].val != Nil && b.nodes[s.k].key.Live? then
      b.nodes[s.k].key.v
    else if s.Field? && b.Rec? && s.k < |b.slots| then b.slots[s.k]
    else if s.Upvalue? && b.Fn? && s.k < |b.slots| && b.slots[s.k].Obj? && b.slots[s.k].ref in h then
      SlotValue(h, b.slots[s.k].ref)
    else if s.OtherStack? && b.Thread? && s.k < |b.stack| then b.stack[s.k]
    else Nil
  }

  function Loaded(w: World, s: Source): Value {
    if s.Constant? then GcObjects.Plain(s.n)
    else if s.NilValue? then Nil
    else if s.Registry? then w.registry
    else if s.TypeMetatable? then if s.k < |w.mt| then w.mt[s.k] else Nil
    else if s.MainThread? then Obj(w.main)
    else if s.Copy? then Arg(w, s.i)
    else if Arg(w, s.i).Obj? && Arg(w, s.i).ref in w.h then FieldOf(w.h, w.h[Arg(w, s.i).ref], s)
    else Nil
  }

  // ----- the heap after an action -----

  function Pushed(h: Heap, th: Ref, v: Value): Heap {
    if th in h && h[th].Thread? then h[th := h[th].(stack := h[th].stack + [v])] else h
  }

  function Nils(n: nat): (s: seq<Value>)
    ensures |s| == n && forall k :: 0 <= k < n ==> s[k] == Nil
  {
    seq(n, i => Nil)
  }

  /** A new object; a weak table gets its metatable at once. */
  function Fresh(w: World, kind: Kind): Body {
    match kind
    case ALongString => Str
    case AUserdata(n) => Udata(Nil, Nils(n))
    case AClosure(n) => Fn(Nils(n))
    case ARecord(n) => Rec(Nils(n))
    case AThread => Thread([], {})
    case ATable(mode, i) => Table(mode, if mode != Strong && Arg(w, i).Obj? then Arg(w, i) else Nil, [], [])
  }

  /** Number `k` of the slots of a closure is an upvalue. */
  predicate UpvalAt(h: Heap, f: Ref, k: nat) {
    && f in h && h[f].Fn? && k < |h[f].slots| && h[f].slots[k].Obj? && h[f].slots[k].ref in h
    && h[h[f].slots[k].ref].IsUpval()
  }

  /** An assignment to an upvalue: to its stack slot while it is open. */
  function UpvalStored(h: Heap, u: Ref, v: Value): Heap
    requires u in h
  {
    var b := h[u];
    if b.ClosedUp? then h[u := ClosedUp(v)]
    else if b.OpenUp? && b.thread in h && h[b.thread].Thread? && b.level < |h[b.thread].stack| then
      h[b.thread := h[b.thread].(stack := h[b.thread].stack[b.level := v])]
    else h
  }

  /** A store into object `o`; where there is no such field, or the value does not fit, nothing changes. */
  function Stored(w: World, o: Ref, a: Action): Heap
    requires o in w.h && a.IsStore()
  {
    var h, b, v := w.h, w.h[o], Arg(w, a.j);
    if a.StoreUserValue? && b.Udata? && a.k < |b.uservals| then h[o := b.(uservals := b.uservals[a.k := v])]
    else if a.StoreItem? && b.Table? && a.k <= |b.arr| then h[o := b.(arr := Put(b.arr, a.k, v))]
    else if a.StoreEntry? && b.Table? && a.k < |b.nodes| && b.nodes[a.k].val != Nil then
      h[o := b.(nodes := b.nodes[a.k := b.nodes[a.k].(val := v)])]
    else if a.AddKey? && b.Table? && a.k <= |b.nodes| && (a.k < |b.nodes| ==> b.nodes[a.k].val == Nil) then
      h[o := b.(nodes := Put(b.nodes, a.k, Node(Live(Arg(w, a.m)), v)))]
    else if a.StoreField? && b.Rec? && a.k < |b.slots| then h[o := Rec(b.slots[a.k := v])]
    else if a.StorePrototype? && b.Fn? && a.k < |b.slots| && v.Obj? && v.ref in h && h[v.ref].Rec? then
      h[o := Fn(b.slots[a.k := v])]
    else if a.StoreUpvalue? && b.Fn? && a.k < |b.slots| && b.slots[a.k].Obj? && b.slots[a.k].ref in h then
      UpvalStored(h, b.slots[a.k].ref, v)
    else if a.JoinUpvalues? && v.Obj? && UpvalAt(h, o, a.k) && UpvalAt(h, v.ref, a.m) then
      h[o := Fn(b.slots[a.k := h[v.ref].slots[a.m]])]
    else if a.MoveTo? && b.Thread? then h[o := b.(stack := b.stack + [v])]
    else h
  }

  /** No open upvalue stands for one of the `n` slots on top. */
  predicate CanPop(w: World, n: nat)
    requires w.running in w.h && w.h[w.running].Thread?
  {
    && n <= |Stack(w)|
    && forall u :: u in w.h[w.running].upvals ==> u in w.h && w.h[u].OpenUp? && w.h[u].level < |Stack(w)| - n
  }

  /** The heap after upvalues of a thread were closed. */
  function ClosedAll(h: Heap, th: Ref, us: set<Ref>): Heap
    requires th in h && h[th].Thread?
  {
    map x | x in h :: if x == th then h[x].(upvals := h[x].upvals - us)
      else if x in us && h[x].OpenUp? && h[x].level < |h[th].stack| then ClosedUp(h[th].stack[h[x].level])
      else h[x]
  }

  /** The open upvalues of a thread at a level or above. */
  function OpenFrom(h: Heap, th: Ref, level: nat): set<Ref>
    requires th in h && h[th].Thread?
  {
    set u | u in h[th].upvals && u in h && h[u].OpenUp? && h[u].level >= level
  }

  // ----- the actions, one by one -----

  predicate SameRoots(w: World, w': World) {
    w'.main == w.main && w'.running == w.running && w'.registry == w.registry && w'.mt == w.mt
  }

  /** Capturing a local variable: the closure gets the open upvalue of the slot, a new one if there is none; folded. */
  ghost predicate Captures(w: World, w': World, f: Ref, k: nat, level: nat)
    requires f in w.h && w.h[f].Fn? && k < |w.h[f].slots| && w.running in w.h && w.h[w.running].Thread?
  {
    forall i: nat {:trigger Open(i)} :: Open(i) ==> Captured(w, w', f, k, level)
  }

  ghost predicate Captured(w: World, w': World, f: Ref, k: nat, level: nat)
    requires f in w.h && w.h[f].Fn? && k < |w.h[f].slots| && w.running in w.h && w.h[w.running].Thread?
  {
    || (exists u :: u in w.h[w.running].upvals && u in w.h && w.h[u] == OpenUp(w.running, level) &&
          w'.h == w.h[f := Fn(w.h[f].slots[k := Obj(u)])])
    || ((forall u :: u in w.h[w.running].upvals && u in w.h ==> w.h[u] != OpenUp(w.running, level)) &&
          w'.h == Opened(w, w.running, level).h[f := Fn(w.h[f].slots[k := Obj(w.newref)])])
  }

  predicate TakesMetatable(w: World, o: Ref, v: Value)
    requires o in w.h
  {
    && (w.h[o].Udata? || (w.h[o].Table? && w.h[o].mode == Strong))
    && (v == Nil || (v.Obj? && v.ref in w.h && w.h[v.ref].Table?))
  }

  /** Setting a metatable; with a finalizer the object goes to 'finobj', and the sweep pointer may pass dead objects.
      Folded. */
  ghost predicate SetsMetatable(w: World, w': World, o: Ref, v: Value, hasgc: bool)
    requires o in w.h && TakesMetatable(w, o, v)
  {
    forall k: nat {:trigger Open(k)} :: Open(k) ==> MetatableSet(w, w', o, v, hasgc)
  }

  ghost predicate MetatableSet(w: World, w': World, o: Ref, v: Value, hasgc: bool)
    requires o in w.h && TakesMetatable(w, o, v)
  {
    var h := w.h[o := w.h[o].(meta := v)];
    && w'.h.Keys <= h.Keys && (forall x {:trigger Alive(w, x)} :: Alive(w, x) ==> x in h && KeptAlive(h, w'.h, x))
    && w'.finobj == if hasgc && v != Nil && o !in w.finobj && o !in w.tobefnz then [o] + w.finobj else w.finobj
  }

  /** The string with a content is pushed: the one the heap has, or a new one. */
  ghost predicate PushesString(w: World, w': World, s: string)
    requires w.running in w.h && w.h[w.running].Thread?
  {
    exists o :: IsString(w', o, s) && (forall x :: IsString(w, x, s) ==> x == o) &&
      if o in w.h then IsString(w, o, s) && w'.h == Pushed(w.h, w.running, Obj(o))
      else o == w.newref && w'.h == Pushed(w.h[o := Str], w.running, Obj(o))
  }

  /** An action on an object that position `i` refers to. */
  ghost predicate ObjectEffect(w: World, a: Action, w': World, o: Ref)
    requires o in w.h && w.running in w.h && w.h[w.running].Thread?
  {
    if a.IsStore() then w'.h == Stored(w, o, a)
    else if a.ResizeTable? && w.h[o].Table?
      then o in w'.h && w'.h == w.h[o := w'.h[o]] && ResizedTo(w.h[o], w'.h[o], a.asize)
    else if a.StoreMetatable? && TakesMetatable(w, o, Arg(w, a.j)) then SetsMetatable(w, w', o, Arg(w, a.j), a.hasgc)
    else if a.Capture? && w.h[o].Fn? && a.k < |w.h[o].slots| && a.level < |Stack(w)|
      then Captures(w, w', o, a.k, a.level)
    else if a.FreshUpvalue? && w.h[o].Fn? && a.k < |w.h[o].slots| then
      w'.h == w.h[w.newref := ClosedUp(Nil)][o := Fn(w.h[o].slots[a.k := Obj(w.newref)])]
    else w'.h == w.h
  }

  /** The whole table but for its entries is the same; the entries are as `GcTables.Resized` leaves them. */
  ghost predicate ResizedTo(b: Body, b': Body, asize: nat)
    requires b.Table?
  {
    b'.Table? && b' == b.(arr := b'.arr, nodes := b'.nodes) && |b'.arr| == asize &&
      SameEntries(b.arr, b.nodes, b'.arr, b'.nodes)
  }

  predicate OnObject(a: Action) {
    a.IsStore() || a.ResizeTable? || a.StoreMetatable? || a.Capture? || a.FreshUpvalue?
  }

  /** What an action does to the heap and to the roots; folded. */
  ghost predicate Effect(w: World, a: Action, w': World) {
    && w.running in w.h && w.h[w.running].Thread?
    && forall k: nat {:trigger Open(k)} :: Open(k) ==> Acts(w, a, w')
  }

  /** A full collection ends at a pause, keeps, clears and separates exactly what it must, and frees all that is
      unreachable; folded. */
  ghost predicate Collected(w: World, w': World) {
    forall k: nat {:trigger Open(k)} :: Open(k) ==>
      && StepSafe(w, w') && w'.h.Keys <= w.h.Keys && w'.phase == Pause && Exactly(w, w')
      && forall o {:trigger o in w'.h} :: o in w'.h ==> o !in Unreachable(w)
  }

  /** An action whose operands do not fit changes neither. */
  ghost predicate Acts(w: World, a: Action, w': World)
    requires w.running in w.h && w.h[w.running].Thread?
  {
    if a.Collect? then SameRoots(w, w') && Steps(w, w', a.emergency)
    else if a.CollectAll? then SameRoots(w, w') && Collected(w, w')
    else if a.SwitchTo? || a.StoreRegistry? || a.StoreTypeMetatable? then w'.h == w.h && RootsEffect(w, a, w')
    else SameRoots(w, w') && HeapEffect(w, a, w')
  }

  predicate RootsEffect(w: World, a: Action, w': World)
    requires a.SwitchTo? || a.StoreRegistry? || a.StoreTypeMetatable?
  {
    if a.SwitchTo? then
      var v := Arg(w, a.i);
      SameRoots(if v.Obj? && v.ref in w.h && w.h[v.ref].Thread? then w.(running := v.ref) else w, w')
    else if a.StoreRegistry? then SameRoots(w.(registry := Arg(w, a.j)), w')
    else SameRoots(if a.k < |w.mt| then w.(mt := w.mt[a.k := Arg(w, a.j)]) else w, w')
  }

  ghost predicate HeapEffect(w: World, a: Action, w': World)
    requires w.running in w.h && w.h[w.running].Thread? && !a.Collect? && !a.CollectAll?
    requires !a.SwitchTo? && !a.StoreRegistry? && !a.StoreTypeMetatable?
  {
    if OnObject(a) then
      if Arg(w, a.i).Obj? && Arg(w, a.i).ref in w.h then ObjectEffect(w, a, w', Arg(w, a.i).ref) else w'.h == w.h
    else if a.Load? then w'.h == Pushed(w.h, w.running, Loaded(w, a.from))
    else if a.Pop? then
      w'.h == if CanPop(w, a.n) then w.h[w.running := w.h[w.running].(stack := Stack(w)[..|Stack(w)| - a.n])] else w.h
    else if a.Create? then w'.h == Pushed(w.h[w.newref := Fresh(w, a.kind)], w.running, Obj(w.newref))
    else if a.CloseLevel? then w'.h == ClosedAll(w.h, w.running, OpenFrom(w.h, w.running, a.level))
    else if a.Intern? then PushesString(w, w', a.s)
    else exists o :: KeptString(w, w', o, a.s)
  }

  // ----- what is stored is read -----

  /** Where to read what an action stores. */
  function Back(w: World, a: Action): Source
    requires a.IsStore() && !a.JoinUpvalues?
  {
    if a.StoreUserValue? then UserValue(a.i, a.k)
    else if a.StoreItem? then Item(a.i, a.k)
    else if a.StoreEntry? || a.AddKey? then EntryValue(a.i, a.k)
    else if a.StoreField? then Field(a.i, a.k)
    else if a.MoveTo? then OtherStack(a.i, if Arg(w, a.i).Obj? && Arg(w, a.i).ref in w.h && w.h[Arg(w, a.i).ref].Thread?
      then |w.h[Arg(w, a.i).ref].stack| else 0)
    else Upvalue(a.i, a.k)
  }

  /** The object has the field, and can hold the value. */
  predicate Takes(w: World, o: Ref, a: Action)
    requires o in w.h && a.IsStore()
  {
    var b, v := w.h[o], Arg(w, a.j);
    if a.StoreUserValue? then b.Udata? && a.k < |b.uservals|
    else if a.StoreItem? then b.Table? && a.k <= |b.arr|
    else if a.StoreEntry? then b.Table? && a.k < |b.nodes| && b.nodes[a.k].val != Nil
    else if a.AddKey? then b.Table? && (a.k == |b.nodes| || (a.k < |b.nodes| && b.nodes[a.k].val == Nil))
    else if a.StoreField? then b.Rec? && a.k < |b.slots|
    else if a.StoreUpvalue? then UpvalAt(w.h, o, a.k)
    else if a.StorePrototype? then b.Fn? && a.k < |b.slots| && v.Obj? && v.ref in w.h && w.h[v.ref].Rec?
    else if a.JoinUpvalues? then UpvalAt(w.h, o, a.k) && v.Obj? && UpvalAt(w.h, v.ref, a.m)
    else b.Thread?
  }

  /** The value stored is read from that place afterwards; an upvalue that is joined reads like the other one. Nothing
      is stored if it does not fit. (An assignment to an upvalue may overwrite the reference to the closure itself.) */
  lemma ReadBack(w: World, a: Action, w': World, o: Ref)
    requires Sound(w) && Effect(w, a, w') && a.IsStore() && o in w.h && Arg(w, a.i) == Obj(o)
    ensures !Takes(w, o, a) ==> w'.h == w.h
    ensures Takes(w, o, a) && Arg(w', a.i) == Obj(o) ==>
      if a.JoinUpvalues? then Loaded(w', Upvalue(a.i, a.k)) == Loaded(w, Upvalue(a.j, a.m))
      else Loaded(w', Back(w, a)) == Arg(w, a.j)
  {
    StoreActs(w, a, w', o);
    if a.StoreUpvalue? {
      UpvalueReads(w, o, a);
    } else if a.JoinUpvalues? {
      JoinedReads(w, o, a);
    } else {
      FieldReads(w, o, a);
    }
    if Takes(w, o, a) && Arg(w', a.i) == Obj(o) {
      ReadsField(w', o, if a.JoinUpvalues? then Upvalue(a.i, a.k) else Back(w, a));
    }
  }

  lemma StoreActs(w: World, a: Action, w': World, o: Ref)
    requires Effect(w, a, w') && a.IsStore() && o in w.h && Arg(w, a.i) == Obj(o)
    ensures w'.h == Stored(w, o, a) && o in w'.h
  {
    assert Open(0);
  }

  lemma ReadsField(w: World, o: Ref, s: Source)
    requires o in w.h && s.OfObject() && Arg(w, s.i) == Obj(o)
    ensures Loaded(w, s) == FieldOf(w.h, w.h[o], s)
  {
  }

  lemma FieldReads(w: World, o: Ref, a: Action)
    requires a.IsStore() && !a.StoreUpvalue? && !a.JoinUpvalues? && o in w.h && Arg(w, a.i) == Obj(o)
    ensures !Takes(w, o, a) ==> Stored(w, o, a) == w.h
    ensures Takes(w, o, a) ==> FieldOf(Stored(w, o, a), Stored(w, o, a)[o], Back(w, a)) == Arg(w, a.j)
  {
  }

  lemma UpvalueReads(w: World, o: Ref, a: Action)
    requires Sound(w) && a.StoreUpvalue? && o in w.h && Arg(w, a.i) == Obj(o)
    ensures !Takes(w, o, a) ==> Stored(w, o, a) == w.h
    ensures Takes(w, o, a) ==> FieldOf(Stored(w, o, a), Stored(w, o, a)[o], Back(w, a)) == Arg(w, a.j)
  {
    if UpvalAt(w.h, o, a.k) { UpvalPlace(w, w.h[o].slots[a.k].ref); }
  }

  lemma JoinedReads(w: World, o: Ref, a: Action)
    requires Sound(w) && a.JoinUpvalues? && o in w.h && Arg(w, a.i) == Obj(o)
    ensures !Takes(w, o, a) ==> Stored(w, o, a) == w.h
    ensures Takes(w, o, a) ==>
      FieldOf(Stored(w, o, a), Stored(w, o, a)[o], Upvalue(a.i, a.k)) == Loaded(w, Upvalue(a.j, a.m))
  {
    if Takes(w, o, a) { UpvalPlace(w, w.h[Arg(w, a.j).ref].slots[a.m].ref); }
  }

  // ----- the collector is invisible -----

  /** The position that the source names is there. */
  predicate InRange(w: World, s: Source) {
    && (s.OfObject() || s.Copy? ==> s.i < |Stack(w)|)
    && (s.OtherStack? && Arg(w, s.i) == Obj(w.running) ==> s.k < |Stack(w)|)
  }

  /** The source reads an entry of a weak table, and there is a reason for its loss. */
  ghost predicate LostRead(w: World, s: Source) {
    && (s.Item? || s.EntryKey? || s.EntryValue?) && Arg(w, s.i).Obj? && Arg(w, s.i).ref in w.h
    && w.h[Arg(w, s.i).ref].Table? && LostFrom(w, w.h[Arg(w, s.i).ref], s)
  }

  ghost predicate LostFrom(w: World, t: Body, s: Source)
    requires t.Table?
  {
    && (s.Item? ==> s.k < |t.arr| && ValueWeak(t.mode) && Lost(w, t.arr[s.k]))
    && (s.EntryKey? || s.EntryValue? ==>
          s.k < |t.nodes| && ((ValueWeak(t.mode) && Lost(w, t.nodes[s.k].val)) ||
            (KeyWeak(t.mode) && t.nodes[s.k].key.Live? && Lost(w, t.nodes[s.k].key.v))))
  }

  /** Whatever the program can read reads the same after any step of the collector, or after a full collection, but for
      an entry of a weak table whose weak value, or weak key, is not strongly accessible and no string: it may be gone.
      */
  lemma Invisible(w: World, a: Action, w': World, s: Source)
    requires Sound(w) && (a.Collect? || a.CollectAll?) && Effect(w, a, w') && InRange(w, s)
    ensures Loaded(w', s) == Loaded(w, s) || (LostRead(w, s) && Loaded(w', s) == Nil)
  {
    CollectedSafe(w, a, w');
    StackSurvives(w, w');
    if s.OfObject() && Arg(w, s.i).Obj? {
      StackStrong(w, s.i);
      ObjectInvisible(w, w', Arg(w, s.i).ref, s);
    }
  }

  lemma CollectedSafe(w: World, a: Action, w': World)
    requires (a.Collect? || a.CollectAll?) && Effect(w, a, w')
    ensures SameRoots(w, w') && StepSafe(w, w')
  {
    assert Open(0);
  }

  lemma StackSurvives(w: World, w': World)
    requires Sound(w) && SameRoots(w, w') && StepSafe(w, w')
    ensures Stack(w) <= Stack(w')
  {
    RootStrong(w, w.running);
    StepSurvives(w, w');
  }

  lemma RootStrong(w: World, o: Ref)
    requires o in Roots(w)
    ensures StronglyAccessible(w, o)
  {
  }

  lemma StrongOn(w: World, o: Ref, r: Ref)
    requires StronglyAccessible(w, o) && o in w.h && (!w.h[o].Table? || w.h[o].mode == Strong) && Points(w.h, o, r)
    ensures StronglyAccessible(w, r)
  {
    var from := iset x: Ref | x in Roots(w);
    forall s: iset<Ref> | (forall x :: x in from ==> x in s) && StrongClosed(w.h, s) ensures r in s {
      assert o in s && StrongKeeps(w.h, s, o, r);
    }
  }

  lemma StackStrong(w: World, i: nat)
    requires Sound(w) && i < |Stack(w)| && Stack(w)[i].Obj?
    ensures StronglyAccessible(w, Stack(w)[i].ref) && Stack(w)[i].ref in w.h && !w.h[Stack(w)[i].ref].IsUpval()
  {
    RootStrong(w, w.running);
    assert Points(w.h, w.running, Stack(w)[i].ref);
    StrongOn(w, w.running, Stack(w)[i].ref);
    StrongAlive(w, Stack(w)[i].ref);
    assert Open(0);
  }

  lemma ObjectInvisible(w: World, w': World, o: Ref, s: Source)
    requires Sound(w) && StepSafe(w, w') && StronglyAccessible(w, o) && o in w.h && !w.h[o].IsUpval() && s.OfObject()
    requires o == w.running && s.OtherStack? && w.h[o].Thread? ==> s.k < |w.h[o].stack|
    ensures o in w'.h
    ensures FieldOf(w'.h, w'.h[o], s) == FieldOf(w.h, w.h[o], s) ||
      (w.h[o].Table? && (s.Item? || s.EntryKey? || s.EntryValue?) && LostFrom(w, w.h[o], s) &&
        FieldOf(w'.h, w'.h[o], s) == Nil)
  {
    StepSurvives(w, w');
    var b := w.h[o];
    if b.Fn? {
      UpvalueSurvives(w, w', o, s);
    } else if b.Table? && w'.h[o] != b {
      EntrySurvives(w, w', b, w'.h[o], s);
    } else {
      PlainSurvives(w, w', b, w'.h[o], s);
    }
  }

  lemma PlainSurvives(w: World, w': World, b: Body, b': Body, s: Source)
    requires !b.Fn? && s.OfObject()
    requires b' == b || (b.Thread? && b'.Thread? && b.stack <= b'.stack && (s.OtherStack? ==> s.k < |b.stack|))
    ensures FieldOf(w'.h, b', s) == FieldOf(w.h, b, s)
  {
  }

  lemma UpvalueSurvives(w: World, w': World, o: Ref, s: Source)
    requires Sound(w) && StepSafe(w, w') && StronglyAccessible(w, o) && o in w.h && w.h[o].Fn? && s.OfObject()
    ensures FieldOf(w'.h, w.h[o], s) == FieldOf(w.h, w.h[o], s)
  {
    var b := w.h[o];
    if s.Upvalue? && s.k < |b.slots| && b.slots[s.k].Obj? {
      assert Points(w.h, o, b.slots[s.k].ref);
      StrongOn(w, o, b.slots[s.k].ref);
      SlotSurvives(w, w', b.slots[s.k].ref);
    }
  }

  lemma EntrySurvives(w: World, w': World, b: Body, b': Body, s: Source)
    requires TableKept(w, b, b') && s.OfObject()
    ensures FieldOf(w'.h, b', s) == FieldOf(w.h, b, s) ||
      ((s.Item? || s.EntryKey? || s.EntryValue?) && LostFrom(w, b, s) && FieldOf(w'.h, b', s) == Nil)
  {
    if s.Item? && s.k < |b.arr| { assert b'.arr[s.k] == b.arr[s.k] || b'.arr[s.k] == Nil; }
    if (s.EntryKey? || s.EntryValue?) && s.k < |b.nodes| { assert NodeShrinks(b.nodes[s.k], b'.nodes[s.k]); }
  }

  lemma SlotSurvives(w: World, w': World, u: Ref)
    requires Sound(w) && StronglyAccessible(w, u) && StepSafe(w, w')
    ensures u in w.h && u in w'.h && SlotValue(w'.h, u) == SlotValue(w.h, u)
  {
    StepSurvives(w, w');
    UpvalPlace(w, u);
  }
}
