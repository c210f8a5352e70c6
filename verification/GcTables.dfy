/** Resizing a table (ltable.c:508-586): its entries move between the array part and the hash part, and stay the same
    ones. The key that is the integer `n` is `Plain(n)`. */
module GcTables {
  import opened GcObjects

  predicate InArray(arr: seq<Value>, k: Value, v: Value) {
    k.Plain? && 1 <= k.n <= |arr| && arr[k.n - 1] == v
  }

  /** The table has the value `v` under key `k`. */
  predicate HasEntry(arr: seq<Value>, nodes: seq<Node>, k: Value, v: Value) {
    v != Nil && (InArray(arr, k, v) || Node(Live(k), v) in nodes)
  }

  /** No key is in the table twice. */
  ghost predicate KeysOnce(arr: seq<Value>, nodes: seq<Node>) {
    && (forall i, j {:trigger nodes[i], nodes[j]} ::
          0 <= i < j < |nodes| && nodes[i].val != Nil && nodes[j].val != Nil ==> nodes[i].key != nodes[j].key)
    && (forall n {:trigger n in nodes} :: n in nodes && n.val != Nil && n.key.Live? && InRange(n.key.v, |arr|) ==>
          arr[n.key.v.n - 1] == Nil)
  }

  /** The key belongs to an array part of that size. */
  predicate InRange(k: Value, asize: nat) { k.Plain? && 1 <= k.n <= asize }

  /** New parts of a table: every entry was one of the table; if no key was there twice every entry still is, and no key
      is there twice. Empty nodes and dead keys are gone. */
  ghost predicate SameEntries(arr: seq<Value>, nodes: seq<Node>, arr': seq<Value>, nodes': seq<Node>) {
    && (forall n {:trigger n in nodes'} :: n in nodes' ==> n.val != Nil && n.key.Live?)
    && (forall k, v {:trigger HasEntry(arr', nodes', k, v)} :: HasEntry(arr', nodes', k, v) ==>
      HasEntry(arr, nodes, k, v))
    && (KeysOnce(arr, nodes) ==> KeysOnce(arr', nodes'))
    && (KeysOnce(arr, nodes) ==>
          forall k, v {:trigger HasEntry(arr, nodes, k, v)} :: HasEntry(arr, nodes, k, v) ==>
            HasEntry(arr', nodes', k, v))
  }

  /** The parts of the new table after the values of the old array and the first `j` nodes were put in. */
  ghost predicate Moved(arr: seq<Value>, nodes: seq<Node>, asize: nat, j: nat, arr': seq<Value>, nodes': seq<Node>)
    requires j <= |nodes|
  {
    && |arr'| == asize
    && (forall p {:trigger arr'[p]} :: 0 <= p < asize && arr'[p] != Nil ==>
          InArray(arr, Plain(p + 1), arr'[p]) || Node(Live(Plain(p + 1)), arr'[p]) in nodes[..j])
    && (forall n {:trigger n in nodes'} :: n in nodes' ==>
          n.val != Nil && n.key.Live? && !InRange(n.key.v, asize) && (InArray(arr, n.key.v, n.val) || n in nodes[..j]))
  }

  /** Nothing of them is lost. */
  ghost predicate Complete(arr: seq<Value>, nodes: seq<Node>, asize: nat, j: nat, arr': seq<Value>, nodes': seq<Node>)
    requires j <= |nodes| && |arr'| == asize
  {
    && (forall p {:trigger arr[p]} :: 0 <= p < |arr| && arr[p] != Nil ==>
          if p < asize then arr'[p] == arr[p] else Node(Live(Plain(p + 1)), arr[p]) in nodes')
    && (forall i {:trigger nodes[i]} :: 0 <= i < j && nodes[i].val != Nil && nodes[i].key.Live? ==>
          if InRange(nodes[i].key.v, asize) then arr'[nodes[i].key.v.n - 1] == nodes[i].val else nodes[i] in nodes')
    && (forall i, m {:trigger nodes'[i], nodes'[m]} :: 0 <= i < m < |nodes'| ==> nodes'[i].key != nodes'[m].key)
  }

  /** The array part that stays, with empty values behind it. */
  function Sized(arr: seq<Value>, n: nat): (r: seq<Value>)
    ensures |r| == n && forall i {:trigger r[i]} :: 0 <= i < n ==> r[i] == if i < |arr| then arr[i] else Nil
  {
    seq(n, i requires 0 <= i < n => if i < |arr| then arr[i] else Nil)
  }

  /** Nodes for the values of the array from `from` on. */
  method Vanishing(arr: seq<Value>, from: nat) returns (ns: seq<Node>)
    ensures Moved(arr, [], from, 0, Sized(arr, from), ns) && Complete(arr, [], from, 0, Sized(arr, from), ns)
  {
    ns := [];
    if from < |arr| {
      for i := from to |arr|
        invariant forall n {:trigger n in ns} :: n in ns ==>
          n.val != Nil && n.key.Live? && n.key.v.Plain? && from < n.key.v.n <= i && arr[n.key.v.n - 1] == n.val
        invariant forall p {:trigger arr[p]} :: from <= p < i && arr[p] != Nil ==>
          Node(Live(Plain(p + 1)), arr[p]) in ns
        invariant forall k, m {:trigger ns[k], ns[m]} :: 0 <= k < m < |ns| ==> ns[k].key != ns[m].key
      {
        if arr[i] != Nil {
          assert forall k :: 0 <= k < |ns| ==> ns[k] in ns;
          ns := ns + [Node(Live(Plain(i + 1)), arr[i])];
        }
      }
    }
  }

  /** Puts the entry of one more node into the new table. */
  method Reinsert(arr: seq<Value>, nodes: seq<Node>, asize: nat, j: nat, arr0: seq<Value>, nodes0: seq<Node>)
      returns (arr': seq<Value>, nodes': seq<Node>)
    requires j < |nodes| && Moved(arr, nodes, asize, j, arr0, nodes0)
    requires KeysOnce(arr, nodes) ==> Complete(arr, nodes, asize, j, arr0, nodes0)
    ensures Moved(arr, nodes, asize, j + 1, arr', nodes')
    ensures KeysOnce(arr, nodes) ==> Complete(arr, nodes, asize, j + 1, arr', nodes')
  {
    var n := nodes[j];
    arr', nodes' := arr0, nodes0;
    assert nodes[..j + 1] == nodes[..j] + [n];
    if n.val != Nil && n.key.Live? {
      if InRange(n.key.v, asize) {
        arr' := arr'[n.key.v.n - 1 := n.val];
      } else {
        nodes' := nodes' + [n];
      }
      if KeysOnce(arr, nodes) { StillComplete(arr, nodes, asize, j, arr0, nodes0, arr', nodes'); }
    }
  }

  lemma StillComplete(arr: seq<Value>, nodes: seq<Node>, asize: nat, j: nat, arr0: seq<Value>, nodes0: seq<Node>,
      arr': seq<Value>, nodes': seq<Node>)
    requires j < |nodes| && Moved(arr, nodes, asize, j, arr0, nodes0) && Complete(arr, nodes, asize, j, arr0, nodes0)
    requires KeysOnce(arr, nodes) && nodes[j].val != Nil && nodes[j].key.Live?
    requires if InRange(nodes[j].key.v, asize)
      then arr' == arr0[nodes[j].key.v.n - 1 := nodes[j].val] && nodes' == nodes0
      else arr' == arr0 && nodes' == nodes0 + [nodes[j]]
    ensures Complete(arr, nodes, asize, j + 1, arr', nodes')
  {
    assert nodes[j] in nodes;
    forall m | 0 <= m < |nodes0| ensures !InRange(nodes[j].key.v, asize) ==> nodes0[m].key != nodes[j].key {
      var n := nodes0[m];
      assert n in nodes0;
      if !InArray(arr, n.key.v, n.val) { var i :| 0 <= i < j && nodes[i] == n; }
    }
  }

  /** The new parts of a table whose array part gets another size. Every entry was one of the table; if no key is
      there twice, every entry still is, and no key is there twice. Empty nodes and dead keys are gone. */
  method Resized(arr: seq<Value>, nodes: seq<Node>, asize: nat) returns (arr': seq<Value>, nodes': seq<Node>)
    ensures |arr'| == asize && SameEntries(arr, nodes, arr', nodes')
  {
    nodes' := Vanishing(arr, asize);
    arr' := Sized(arr, asize);
    for j := 0 to |nodes|
      invariant Moved(arr, nodes, asize, j, arr', nodes')
      invariant KeysOnce(arr, nodes) ==> Complete(arr, nodes, asize, j, arr', nodes')
    {
      arr', nodes' := Reinsert(arr, nodes, asize, j, arr', nodes');
    }
    assert nodes[..|nodes|] == nodes;
    AllMoved(arr, nodes, asize, arr', nodes');
  }

  lemma AllMoved(arr: seq<Value>, nodes: seq<Node>, asize: nat, arr': seq<Value>, nodes': seq<Node>)
    requires Moved(arr, nodes, asize, |nodes|, arr', nodes')
    requires KeysOnce(arr, nodes) ==> Complete(arr, nodes, asize, |nodes|, arr', nodes')
    ensures forall k, v {:trigger HasEntry(arr', nodes', k, v)} :: HasEntry(arr', nodes', k, v) ==>
      HasEntry(arr, nodes, k, v)
    ensures KeysOnce(arr, nodes) ==>
      forall k, v {:trigger HasEntry(arr, nodes, k, v)} :: HasEntry(arr, nodes, k, v) ==> HasEntry(arr', nodes', k, v)
    ensures KeysOnce(arr, nodes) ==> KeysOnce(arr', nodes')
  {
    assert nodes[..|nodes|] == nodes;
    if KeysOnce(arr, nodes) {
      forall k, v | HasEntry(arr, nodes, k, v) ensures HasEntry(arr', nodes', k, v) {
        if InArray(arr, k, v) { assert arr[k.n - 1] == v; } else {
          var i :| 0 <= i < |nodes| && nodes[i] == Node(Live(k), v);
        }
      }
    }
  }
}
