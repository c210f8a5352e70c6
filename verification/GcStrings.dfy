/** Interned strings as objects of the collector (lstring.c:189-223): the table of short strings holds exactly the named
    strings of the heap, so that looking for a content, dead strings included, finds the one object that has it. */
module GcStrings {
  import opened GcObjects
  import opened GcMarking
  import opened GcWorld
  import opened GcWrites
  import opened GcAlloc
  import opened GcState
  import opened GcMutator
  import opened GcDriver
  import opened Folding

  function Named(g: World, o: Ref, s: string): World { g.(names := g.names[o := s]) }

  ghost predicate NoString(g: World, s: string) { forall x {:trigger g.names[x]} :: !IsString(g, x, s) }

  /** A string gets its content when no other one has it. */
  lemma NamedBelow(g: World, o: Ref, s: string)
    requires Below(g) && o in g.h && g.h[o].Str? && o !in g.names && NoString(g, s)
    ensures Below(Named(g, o, s))
  {
    assert Open(0);
    forall x | x in g.names && x in g.h ensures g.names[x] != s { assert !IsString(g, x, s); }
  }

  lemma NamedSound(g: World, o: Ref, s: string)
    requires Sound(g) && o in g.h && g.h[o].Str? && o !in g.names && NoString(g, s)
    ensures Sound(Named(g, o, s)) && IsString(Named(g, o, s), o, s)
  {
    var g' := Named(g, o, s);
    assert forall x {:trigger Alive(g', x)} :: Alive(g', x) == Alive(g, x);
    OwnedSame(g, g');
    ListsSame(g, g');
    LifeSame(g, g');
    TwupsSame(g, g');
    SweepSame(g, g');
    NamedBelow(g, o, s);
    NamedMark(g, g');
  }

  lemma NamedMark(g: World, g': World)
    requires TypedOk(g) && KindsOk(g) && MarkStateOk(g) && PropagationOk(g) && NoDead(g) && Coloured(g)
    requires g' == g.(names := g'.names)
    ensures TypedOk(g') && KindsOk(g') && MarkStateOk(g') && PropagationOk(g') && NoDead(g') && Coloured(g')
  {
    assert Open(0);
  }

  /** An object that was just created has no name. */
  lemma NewUnnamed(w: World, w': World, s: string)
    requires Below(w) && NoString(w, s) && w'.names == w.names
    requires forall x :: x in w'.h && x != w.newref ==> x in w.h && (w'.h[x].Str? ==> w.h[x].Str?)
    ensures w.newref !in w'.names && NoString(w', s)
  {
    assert Open(0);
    forall x ensures !IsString(w', x, s) {
      if x in w'.names { assert !IsString(w, x, s); }
    }
  }

  /** Looks for a content among the strings of the heap. */
  method FindString(g: GlobalState, s: string) returns (found: bool, o: Ref)
    ensures if found then IsString(g.W(), o, s) else NoString(g.W(), s)
  {
    found, o := false, 0;
    if x :| x in g.heap && g.heap[x].Str? && x in g.names && g.names[x] == s {
      found, o := true, x;
    } else {
      forall x ensures !IsString(g.W(), x, s) {
        assert !(x in g.heap && g.heap[x].Str? && x in g.names && g.names[x] == s);
      }
    }
  }

  /** The names of objects there are stay. */
  ghost predicate NamesKept(w: World, w': World) {
    forall o {:trigger o in w'.names} {:trigger o in w.names} :: o < w.newref ==>
      (o in w'.names <==> o in w.names) && (o in w.names ==> w'.names[o] == w.names[o])
  }

  /** Creates a string with a content that no other string has, and pushes it (lstring.c:204-215). */
  method NewString(g: GlobalState, s: string) returns (o: Ref)
    requires Sound(g.W()) && NoString(g.W(), s)
    modifies g`heap, g`color, g`allgc, g`newref, g`names
    ensures Sound(g.W()) && IsString(g.W(), o, s) && NamesKept(old(g.W()), g.W())
    ensures o == old(g.newref) && o !in old(g.heap) && old(g.running in g.heap && g.heap[g.running].Thread?)
    ensures var th := old(g.heap)[g.running];
      g.heap == old(g.heap)[o := Str][g.running := th.(stack := th.stack + [Obj(o)])]
  {
    ghost var w := g.W();
    RunningThread(w);
    o := New(g, Str);
    NewUnnamed(w, g.W(), s);
    NamedSound(g.W(), o, s);
    g.names := g.names[o := s];
  }

  /** Gives the string with a content, pushed on the stack: the one there is, even if it is dead, or a new one. */
  method InternString(g: GlobalState, s: string) returns (o: Ref)
    requires Sound(g.W())
    modifies g`heap, g`color, g`garbage, g`allgc, g`newref, g`names
    ensures Sound(g.W()) && IsString(g.W(), o, s) && NamesKept(old(g.W()), g.W())
    ensures forall x :: IsString(old(g.W()), x, s) ==> x == o
    ensures if o in old(g.heap) then IsString(old(g.W()), o, s) else o == old(g.newref)
    ensures g.garbage == old(g.garbage) - {o} && (o in old(g.garbage) ==> IsString(old(g.W()), o, s))
    ensures old(g.running in g.heap && g.heap[g.running].Thread?)
    ensures var th, h := old(g.heap)[g.running], if o in old(g.heap) then old(g.heap) else old(g.heap)[o := Str];
      g.heap == h[g.running := th.(stack := th.stack + [Obj(o)])]
  {
    ghost var w := g.W();
    RunningThread(w);
    var found;
    found, o := FindString(g, s);
    if found {
      OnlyString(w, o, s);
      InternHit(g, o);
    } else {
      o := NewString(g, s);
      NotGarbage(w, o);
      NoneSuch(w, s);
    }
  }

  lemma OnlyString(w: World, o: Ref, s: string)
    requires Sound(w) && IsString(w, o, s)
    ensures forall x :: IsString(w, x, s) ==> x == o
  {
    forall x | IsString(w, x, s) ensures x == o { OneString(w, x, o, s, s); }
  }

  lemma NoneSuch(w: World, s: string)
    requires NoString(w, s)
    ensures forall x :: !IsString(w, x, s)
  {
    forall x ensures !IsString(w, x, s) {
      if x in w.names { assert !IsString(w, x, s); }
    }
  }

  lemma NotGarbage(w: World, o: Ref)
    requires Below(w) && o == w.newref
    ensures o !in w.garbage
  {
    assert Open(0);
  }

  /** Object `o` has the content: it is the string that had it, or a new one that is never collected. */
  ghost predicate KeptString(w: World, w': World, o: Ref, s: string) {
    && IsString(w', o, s)
    && if o in w.h then IsString(w, o, s) && w'.h == w.h
      else o == w.newref && w'.h == w.h[o := Str] && o in w'.fixedgc
  }

  /** A new string that is never collected, as the reserved words are; a string there is stays what it was. */
  method KeepString(g: GlobalState, s: string)
    requires Sound(g.W())
    modifies g`heap, g`color, g`allgc, g`newref, g`fixedgc, g`names
    ensures Sound(g.W()) && NamesKept(old(g.W()), g.W())
    ensures exists o :: KeptString(old(g.W()), g.W(), o, s)
  {
    ghost var w := g.W();
    var found, o := FindString(g, s);
    if !found {
      o := NewFixed(g);
      NewUnnamed(w, g.W(), s);
      NamedSound(g.W(), o, s);
      g.names := g.names[o := s];
      FreshRef(w);
    }
    assert KeptString(w, g.W(), o, s);
  }
}
