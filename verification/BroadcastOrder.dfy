// Which broadcast setting a task gets, said of the store (broadcast_mgr.py: get_broadcast).

module BroadcastOrder {
  import opened Settings
  import opened Broadcasts
  import opened Wrappers

  // The setting of the last of some layers that has one at the path.
  ghost function LastSet(layers: seq<Tree>, p: Path): Option<Option<string>> {
    if layers == [] then None
    else if LeafAt(layers[|layers| - 1], p).Some? then LeafAt(layers[|layers| - 1], p)
    else LastSet(layers[..|layers| - 1], p)
  }

  lemma {:induction false} MergedIsLast(layers: seq<Tree>, p: Path)
    requires AllAgree(layers)
    ensures LeafAt(Merged(layers), p) == LastSet(layers, p)
    decreases |layers|
  {
    if layers == [] {
      NothingUnder(p);
    } else {
      var before, last := layers[..|layers| - 1], layers[|layers| - 1];
      assert layers == before + [last];
      MergedIsLast(before, p);
      MergedAgrees(before, last);
      AddedAt(Merged(before), last, p);
    }
  }

  lemma {:induction false} LastSetJoin(a: seq<Tree>, b: seq<Tree>, p: Path)
    ensures LastSet(a + b, p) == if LastSet(b, p).Some? then LastSet(b, p) else LastSet(a, p)
    decreases |b|
  {
    if b == [] {
      assert a + b == a;
    } else {
      assert (a + b)[..|a + b| - 1] == a + b[..|b| - 1];
      LastSetJoin(a, b[..|b| - 1], p);
    }
  }

  lemma {:induction false} TreesJoin(a: seq<Dict>, b: seq<Dict>)
    ensures Trees(a + b) == Trees(a) + Trees(b)
    decreases |b|
  {
    if b == [] {
      assert a + b == a;
    } else {
      assert (a + b)[..|a + b| - 1] == a + b[..|b| - 1];
      TreesJoin(a, b[..|b| - 1]);
    }
  }

  // What the store has at a path for one namespace of one cycle.
  ghost function Has(store: Store, cycle: string, name: string, p: Path): Option<Option<string>>
    reads if cycle in store && name in store[cycle] then {store[cycle][name]} else {}
  {
    if cycle in store && name in store[cycle] then LeafAt(store[cycle][name].tree, p) else None
  }

  lemma OneLayer(d: Dict, p: Path)
    ensures LastSet(Trees([d]), p) == LeafAt(d.tree, p) && LastSet(Trees([]), p) == None
  {
    assert Trees([d]) == [d.tree] by { TreesJoin([], [d]); assert [] + [d] == [d]; }
  }

  lemma FirstName(store: Store, cycle: string, ancestors: seq<string>, p: Path)
    requires cycle in store && ancestors != []
    ensures LastSet(Trees(NamespaceLayers(store[cycle], Reversed(ancestors))), p) ==
            if Has(store, cycle, ancestors[0], p).Some? then Has(store, cycle, ancestors[0], p)
            else LastSet(Trees(NamespaceLayers(store[cycle], Reversed(ancestors[1..]))), p)
  {
    hide LastSet;
    ReversedTail(ancestors);
    var name, names := ancestors[0], Reversed(ancestors[1..]);
    assert (names + [name])[..|names|] == names;
    var top: seq<Dict> := if name in store[cycle] then [store[cycle][name]] else [];
    assert NamespaceLayers(store[cycle], names + [name]) == NamespaceLayers(store[cycle], names) + top;
    TreesJoin(NamespaceLayers(store[cycle], names), top);
    LastSetJoin(Trees(NamespaceLayers(store[cycle], names)), Trees(top), p);
    NoLayers(p);
    if name in store[cycle] { OneLayer(store[cycle][name], p); }
  }

  // The layers of one cycle: the first of the ancestors that has a setting wins.
  lemma {:induction false} NamespaceSet(store: Store, cycle: string, ancestors: seq<string>, p: Path)
    requires cycle in store
    ensures var s := LastSet(Trees(NamespaceLayers(store[cycle], Reversed(ancestors))), p);
            && (s.None? <==> forall a :: 0 <= a < |ancestors| ==> Has(store, cycle, ancestors[a], p).None?)
            && forall a :: 0 <= a < |ancestors| && Has(store, cycle, ancestors[a], p).Some?
                           && (forall b :: 0 <= b < a ==> Has(store, cycle, ancestors[b], p).None?) ==>
                 s == Has(store, cycle, ancestors[a], p)
    decreases |ancestors|
  {
    if ancestors == [] {
      NoLayers(p);
    } else {
      FirstName(store, cycle, ancestors, p);
      NamespaceSet(store, cycle, ancestors[1..], p);
      hide *;
      assert forall a :: 0 < a < |ancestors| ==> ancestors[a] == ancestors[1..][a - 1];
    }
  }

  lemma NoLayers(p: Path)
    ensures LastSet(Trees([]), p) == None && NamespaceLayers(map[], []) == [] && Reversed([]) == []
  {
  }

  lemma {:induction false} ReversedTail(names: seq<string>)
    requires names != []
    ensures Reversed(names) == Reversed(names[1..]) + [names[0]]
    decreases |names|
  {
    if |names| > 1 {
      var before := names[..|names| - 1];
      ReversedTail(before);
      assert before[1..] == names[1..][..|names| - 2];
    }
  }

  ghost predicate NoneSet(store: Store, cycles: seq<string>, ancestors: seq<string>, p: Path)
    reads set c, n | c in store && n in store[c] :: store[c][n]
  {
    forall i, a :: 0 <= i < |cycles| && 0 <= a < |ancestors| ==> Has(store, cycles[i], ancestors[a], p).None?
  }

  // Cycle i has a setting for ancestor a, no later cycle has one, and cycle i
  // has none for an earlier ancestor.
  ghost predicate MostSpecific(store: Store, cycles: seq<string>, ancestors: seq<string>, p: Path, i: nat, a: nat)
    reads set c, n | c in store && n in store[c] :: store[c][n]
  {
    && i < |cycles| && a < |ancestors|
    && Has(store, cycles[i], ancestors[a], p).Some?
    && NoneSet(store, cycles[i + 1..], ancestors, p)
    && forall b :: 0 <= b < a ==> Has(store, cycles[i], ancestors[b], p).None?
  }

  lemma {:induction false} CyclesSet(store: Store, cycles: seq<string>, ancestors: seq<string>, p: Path)
    ensures var s := LastSet(Trees(CycleLayers(store, cycles, Reversed(ancestors))), p);
            && (s.None? <==> NoneSet(store, cycles, ancestors, p))
            && forall i: nat, a: nat :: MostSpecific(store, cycles, ancestors, p, i, a) ==> s == Has(store, cycles[i], ancestors[a], p)
    decreases |cycles|
  {
    hide LastSet, NamespaceLayers, Reversed, LeafAt;
    NoLayers(p);
    if cycles != [] {
      var before, last, names := cycles[..|cycles| - 1], cycles[|cycles| - 1], Reversed(ancestors);
      CyclesSet(store, before, ancestors, p);
      var top: seq<Dict> := if last in store then NamespaceLayers(store[last], names) else [];
      TreesJoin(CycleLayers(store, before, names), top);
      LastSetJoin(Trees(CycleLayers(store, before, names)), Trees(top), p);
      if last in store { NamespaceSet(store, last, ancestors, p); }
      LastNoneSet(store, cycles, ancestors, p);
      var s := LastSet(Trees(CycleLayers(store, cycles, names)), p);
      forall i: nat, a: nat | MostSpecific(store, cycles, ancestors, p, i, a)
        ensures s == Has(store, cycles[i], ancestors[a], p)
      {
        if i < |before| {
          EarlierCycle(store, cycles, ancestors, p, i, a);
        }
      }
    }
  }

  ghost predicate NoneAt(store: Store, cycle: string, ancestors: seq<string>, p: Path)
    reads set c, n | c in store && n in store[c] :: store[c][n]
  {
    forall a :: 0 <= a < |ancestors| ==> Has(store, cycle, ancestors[a], p).None?
  }

  // What it means with a last cycle added.
  lemma LastNoneSet(store: Store, cycles: seq<string>, ancestors: seq<string>, p: Path)
    requires cycles != []
    ensures NoneSet(store, cycles, ancestors, p) <==>
            NoneAt(store, cycles[|cycles| - 1], ancestors, p) && NoneSet(store, cycles[..|cycles| - 1], ancestors, p)
  {
    hide Has;
    var before, last := cycles[..|cycles| - 1], cycles[|cycles| - 1];
    assert cycles == before + [last];
    if NoneSet(store, cycles, ancestors, p) {
      forall i, a | 0 <= i < |before| && 0 <= a < |ancestors| ensures Has(store, before[i], ancestors[a], p).None? {
        assert cycles[i] == before[i];
      }
    }
  }

  lemma EarlierCycle(store: Store, cycles: seq<string>, ancestors: seq<string>, p: Path, i: nat, a: nat)
    requires cycles != [] && i < |cycles| - 1 && MostSpecific(store, cycles, ancestors, p, i, a)
    ensures NoneAt(store, cycles[|cycles| - 1], ancestors, p)
    ensures MostSpecific(store, cycles[..|cycles| - 1], ancestors, p, i, a)
  {
    var before, after := cycles[..|cycles| - 1], cycles[i + 1..];
    LastNoneSet(store, after, ancestors, p);
    assert after[..|after| - 1] == before[i + 1..];
    hide Has, NoneSet, NoneAt;
  }

  // The setting a task gets: one for its own cycle before any for all cycles,
  // and within a cycle one for a name that comes earlier among its ancestors,
  // the task itself the first; none if no layer that targets it has one.
  lemma MostSpecificWins(store: Store, ancestors: seq<string>, point: string, p: Path)
    requires AllAgree(Trees(Layers(store, ancestors, point)))
    ensures var cycles := ["*", "all-cycle-points", "all-cycles", point];
            var s := LeafAt(Merged(Trees(Layers(store, ancestors, point))), p);
            && (s.None? <==> NoneSet(store, cycles, ancestors, p))
            && forall i: nat, a: nat :: MostSpecific(store, cycles, ancestors, p, i, a) ==> s == Has(store, cycles[i], ancestors[a], p)
  {
    MergedIsLast(Trees(Layers(store, ancestors, point)), p);
    CyclesSet(store, CycleOrder(point), ancestors, p);
    hide AllAgree, Merged, LastSet, LeafAt, MostSpecific, NoneSet, CycleLayers, Trees;
  }
}
