// The part of the data store that keeps the n-edge windows of active tasks
// (data_store_mgr.py: increment_graph_window, window_depth_finder).

module DataStoreWindow {
  import opened GraphDistance
  import opened GraphWindow
  import opened GraphWindowBegun

  // The walks of the store while one is worked on.

  lemma StoredBegun(g: Graph, n: nat, walks: map<Id, Walk>, completed: set<Id>, o: Id)
    requires StoreOk(g, n, walks, completed, {})
    ensures StoreOk(g, n, walks, completed, {o})
    ensures o in walks && o !in completed ==> n > 0 && g.defined(o) && walks[o] == Begun(g, n, o)
  {
    hide Full;
  }

  lemma PutStored(g: Graph, n: nat, walks: map<Id, Walk>, completed: set<Id>, o: Id, w: Walk)
    requires StoreOk(g, n, walks, completed, {})
    ensures StoreOk(g, n, walks[o := w], completed - {o}, {o})
  {
    hide Full;
  }

  lemma EndStored(g: Graph, n: nat, walks: map<Id, Walk>, completed: set<Id>, o: Id, w: Walk)
    requires StoreOk(g, n, walks, completed, {o}) && Full(g, n, o, w)
    ensures StoreOk(g, n, walks[o := w], completed + {o}, {})
  {
    hide Full;
  }

  // Registering a neighbour begins its walk, or leaves one just begun as it is.
  lemma RegisterStored(g: Graph, n: nat, walks: map<Id, Walk>, completed: set<Id>, but: set<Id>, x: Id,
                       nc: set<Id>, np: set<Id>)
    requires StoreOk(g, n, walks, completed, but) && n > 0 && g.defined(x) && x !in but
    requires (nc == {} || nc == g.children(x)) && (np == {} || np == g.parents(x))
    requires x !in walks ==> nc == g.children(x) && np == g.parents(x)
    requires 1 in (if x in walks then walks[x] else NewWalk(x, nc + np, n)).depths
    ensures var w := if x in walks then walks[x] else NewWalk(x, nc + np, n);
            StoreOk(g, n, walks[x := Register(w, nc, np)], completed, but)
  {
    var w := if x in walks then walks[x] else NewWalk(x, nc + np, n);
    var v := Register(w, nc, np);
    RegisterFull(g, n, x, w, nc, np);
    if x in walks && x !in completed {
      BegunAgain(g, n, x, nc, np);
    }
    assert x !in walks ==> v == Begun(g, n, x) && Full(g, n, x, v);
    hide Begun, Register, Full, NewWalk;
  }

  lemma RegisterFull(g: Graph, n: nat, x: Id, w: Walk, nc: set<Id>, np: set<Id>)
    requires 1 in w.depths
    ensures Full(g, n, x, w) ==> Full(g, n, x, Register(w, nc, np))
    ensures nc == g.children(x) && np == g.parents(x) ==> Full(g, n, x, Register(w, nc, np))
  {
  }

  lemma BegunAgain(g: Graph, n: nat, x: Id, nc: set<Id>, np: set<Id>)
    requires n > 0 && g.defined(x)
    requires (nc == {} || nc == g.children(x)) && (np == {} || np == g.parents(x))
    ensures 1 in Begun(g, n, x).depths && Register(Begun(g, n, x), nc, np) == Begun(g, n, x)
  {
    var w := Begun(g, n, x);
    BegunIs(g, n, x);
    hide Begun, EmptyDepths;
    var v := Register(w, nc, np);
    assert w.depths[1] + nc + np == w.depths[1];
    assert v.depths == w.depths && v.locations == w.locations;
  }

  // The rounds of filling.

  lemma LevelHeld(working: seq<Loc>, k: nat, n: nat)
    requires Level(working, k, n) && working != []
    ensures 2 <= k <= n && forall l :: l in working ==> |l| == k
  {
    assert working[0] in working;
  }

  lemma FillStarts(walks: map<Id, Walk>, allNodes: set<Id>, n: nat, w: Walk)
    ensures Populated(walks, allNodes, n, w) == FillFrom(walks, allNodes, n, w, FirstLocs(w, n), 2)
  {
  }

  lemma FillGoesOn(walks: map<Id, Walk>, allNodes: set<Id>, n: nat, w: Walk, working: seq<Loc>, depth: nat)
    requires working != [] && depth <= n
    ensures var v := FillLevel(walks, allNodes, w, working);
            FillFrom(walks, allNodes, n, w, working, depth) ==
            FillFrom(walks, allNodes, n, v, LongerLocs(working, v, n), depth + 1)
  {
  }

  lemma FillEnds(walks: map<Id, Walk>, allNodes: set<Id>, n: nat, w: Walk, depth: nat)
    ensures FillFrom(walks, allNodes, n, w, [], depth) == w
  {
  }

  // The rounds of the walk.

  lemma NoRoundYet(g: Graph, n: nat, o: Id, w: Walk)
    ensures Rounds(g, n, o, w, w, 0)
  {
  }

  lemma FreshSelects(g: Graph, n: nat, o: Id)
    ensures Full(g, n, o, FreshWalk(g, n, o)) || Selected(n, o, FreshWalk(g, n, o)) == {""}
  {
  }

  lemma FreshIs(g: Graph, n: nat, o: Id)
    ensures g.defined(o) ==> NewWalk(o, {}, n) == FreshWalk(g, n, o)
    ensures !g.defined(o) ==> NewWalk(o, {}, n).(orphans := NewWalk(o, {}, n).orphans + {o}) == FreshWalk(g, n, o)
    ensures FreshWalk(g, n, o).locations == map[]
  {
  }

  lemma NoneExploredYet(g: Graph, o: Id, w: Walk, all: set<Loc>)
    ensures ExploresAll(g, o, w, all - all, w)
  {
    assert all - all == {};
  }

  lemma ExploredFull(g: Graph, n: nat, o: Id, w: Walk, left: set<Loc>, loc: Loc)
    requires WalkOk(g, n, o, w) && CanExplore(g, n, o, w, left) && loc in left
    ensures 1 in w.depths && |loc| + 1 in w.depths
    ensures Full(g, n, o, w) || loc == "" ==> Full(g, n, o, Explored(g, o, w, loc))
  {
    assert |loc| < n;
    assert 1 in w.depths && |loc| + 1 in w.depths;
    hide WalkOk, ChildrenOf, ParentsOf;
    ExploredKeeps(g, o, w, loc);
  }

  lemma OneMoreExplored(g: Graph, o: Id, start: Walk, all: set<Loc>, left: set<Loc>, loc: Loc, w: Walk, v: Walk)
    requires ExploresAll(g, o, start, all - left, w) && left <= all && loc in left
    requires 1 in w.depths && |loc| + 1 in w.depths && v == Explored(g, o, w, loc)
    ensures ExploresAll(g, o, start, all - (left - {loc}), v)
  {
    hide Explored;
    var done := all - (left - {loc});
    assert done - {loc} == all - left;
    assert loc in done && ExploresAll(g, o, start, done - {loc}, w);
  }

  lemma RoundOver(g: Graph, n: nat, o: Id, w: Walk, start: Walk, k: nat, v: Walk)
    requires Rounds(g, n, o, w, start, k) && ExploresAll(g, o, start, Selected(n, o, start) - {}, v)
    ensures if v.walkIds != start.walkIds then Rounds(g, n, o, w, v, k + 1) else Walked(g, n, o, w, v)
  {
    assert Selected(n, o, start) - {} == Selected(n, o, start);
    hide ExploresAll, Selected;
  }

  lemma PopulatedBegun(g: Graph, n: nat, o: Id, walks: map<Id, Walk>, completed: set<Id>, allNodes: set<Id>)
    requires WalksOk(g, n, walks) && StoreOk(g, n, walks, completed, {o}) && n > 0 && g.defined(o)
    requires o in walks && walks[o] == Begun(g, n, o)
    ensures var w := Populated(walks, allNodes, n, walks[o]);
            BegunInv(g, n, o, w) && WalkOk(g, n, o, w) && Full(g, n, o, w)
  {
    BegunStarts(g, n, o);
    hide WalksOk, Begun, Populated, WalkOk, Placed, Closed;
    assert AllFull(g, n, walks) by {
      forall x | x in walks ensures Full(g, n, x, walks[x]) {
        if x == o { assert walks[x] == Begun(g, n, o); }
      }
    }
    PopulatedInv(g, n, o, walks, allNodes, walks[o]);
  }

  lemma WindowFound(g: Graph, n: nat, o: Id, w: Walk, v: Walk, isNew: bool)
    requires if isNew then Exact(g, o, n, v) else BegunInv(g, n, o, w) && Walked(g, n, o, w, v)
    ensures Ball(g, o, if n < 2 then n else 2) <= v.walkIds
    ensures n <= 2 || isNew ==> Exact(g, o, n, v)
  {
    if isNew {
      BallGrows(g, o, if n < 2 then n else 2, n);
      hide Ball;
    } else {
      hide Ball, BegunInv, Walked, Exact;
      WalkedInv(g, n, o, w, v);
      WalkedReaches(g, n, o, v);
    }
  }

  class WindowStore {
    const graph: Graph
    var edgeDistance: nat               // n_edge_distance
    var walks: map<Id, Walk>            // n_window_node_walks
    var completed: set<Id>              // n_window_completed_walks
    var windowNodes: map<Id, set<Id>>   // n_window_nodes
    var allNodes: set<Id>               // all_n_window_nodes
    var stored: set<Id>                 // the task proxies in the store

    constructor (graph: Graph, edgeDistance: nat)
      ensures Valid() && this.graph == graph && this.edgeDistance == edgeDistance
    {
      this.graph, this.edgeDistance := graph, edgeDistance;
      walks, completed, windowNodes, allNodes, stored := map[], {}, map[], {}, {};
    }

    ghost predicate Valid()
      reads this
    {
      WalksOk(graph, edgeDistance, walks) && StoreOk(graph, edgeDistance, walks, completed, {})
    }

    // All but the walk of o, which is being worked on.
    ghost predicate Working(o: Id)
      reads this
    {
      WalksOk(graph, edgeDistance, walks) && StoreOk(graph, edgeDistance, walks, completed, {o})
    }

    method GenerateGhostTasks(ids: set<Id>)
      modifies this`allNodes, this`stored
      ensures stored == old(stored) + ids && allNodes == old(allNodes) + (ids - old(stored))
    {
      allNodes := allNodes + (ids - stored);
      stored := stored + ids;
    }

    // The children and parents of a node, from its stored walk unless they have
    // been pruned, or else generated and registered.
    method Near(node: Id, ghost o: Id) returns (cs: set<Id>, ps: set<Id>)
      requires Working(o) && node != o && graph.defined(node) && edgeDistance > 0
      modifies this`walks, this`allNodes, this`stored
      ensures Working(o) && cs == graph.children(node) && ps == graph.parents(node)
      ensures forall x :: x != node ==> (x in walks <==> x in old(walks)) && (x in walks ==> walks[x] == old(walks[x]))
    {
      hide WalksOk, StoreOk, Register;
      cs, ps := {}, {};
      var cDone, pDone := false, false;
      if node in walks {
        CachedExact(graph, edgeDistance, walks, node);
        var locs := walks[node].locations;
        if "c" in locs && locs["c"] <= allNodes {
          cs, cDone := locs["c"], true;
        }
        if "p" in locs && locs["p"] <= allNodes {
          ps, pDone := locs["p"], true;
        }
        if cDone && pDone { return; }
      }
      var nc, np: set<Id> := {}, {};
      if !cDone {
        nc := graph.children(node);
        GenerateGhostTasks(nc);
      }
      if !pDone {
        np := graph.parents(node);
        GenerateGhostTasks(np);
      }
      RegisterNear(graph, edgeDistance, walks, node, nc, np);
      RegisterStored(graph, edgeDistance, walks, completed, {o}, node, nc, np);
      var w := if node in walks then walks[node] else NewWalk(node, nc + np, edgeDistance);
      walks := walks[node := Register(w, nc, np)];
      cs, ps := cs + nc, ps + np;
    }

    // The part of an exploration over the nodes of the location.
    ghost predicate Expanded(o: Id, w0: Walk, w: Walk, nodes: set<Id>)
      requires 1 in w0.depths
    {
      w == RegisteredFor(graph, o, w0, nodes).(
             doneIds := w0.doneIds + nodes,
             orphans := w0.orphans + set n | n in nodes && !graph.defined(n))
    }

    lemma ExpandedOne(o: Id, w0: Walk, w: Walk, nodes: set<Id>, x: Id)
      requires 1 in w0.depths && Expanded(o, w0, w, nodes) && x !in nodes
      ensures 1 in w.depths
      ensures !graph.defined(x) ==>
                Expanded(o, w0, w.(doneIds := w.doneIds + {x}, orphans := w.orphans + {x}), nodes + {x})
      ensures graph.defined(x) && x != o ==> Expanded(o, w0, w.(doneIds := w.doneIds + {x}), nodes + {x})
      ensures graph.defined(x) && x == o ==>
                Expanded(o, w0, Register(w, graph.children(o), graph.parents(o)).(doneIds := w.doneIds + {x}), nodes + {x})
      ensures ChildrenOf(graph, nodes + {x}) == ChildrenOf(graph, nodes) + if graph.defined(x) then graph.children(x) else {}
      ensures ParentsOf(graph, nodes + {x}) == ParentsOf(graph, nodes) + if graph.defined(x) then graph.parents(x) else {}
    {
      var orphans := set n | n in nodes + {x} && !graph.defined(n);
      assert orphans == (set n | n in nodes && !graph.defined(n)) + if graph.defined(x) then {} else {x};
    }

    method ExploreLocation(o: Id, w0: Walk, loc: Loc) returns (w: Walk, grew: bool)
      requires Working(o) && |loc| < edgeDistance && (loc == "" || loc in w0.locations)
      requires 1 in w0.depths && |loc| + 1 in w0.depths
      modifies this`walks, this`allNodes, this`stored
      ensures Working(o)
      ensures w == Explored(graph, o, w0, loc)
      ensures grew <==> w.walkIds != w0.walkIds
    {
      hide WalksOk, StoreOk, RegisteredFor, ChildrenOf, ParentsOf, Expanded;
      var nodes := (if loc == "" then {o} else w0.locations[loc]) - w0.doneIds;
      w := w0;
      var cs, ps: set<Id> := {}, {};
      ghost var seen: set<Id> := {};
      NoneExpanded(o, w0);
      var left := nodes;
      while left != {}
        invariant left <= nodes && seen == nodes - left
        invariant Working(o) && 1 in w0.depths && Expanded(o, w0, w, seen)
        invariant cs == ChildrenOf(graph, seen) && ps == ParentsOf(graph, seen)
        decreases left
      {
        var x :| x in left;
        left := left - {x};
        ExpandedOne(o, w0, w, seen, x);
        w := w.(doneIds := w.doneIds + {x});
        if !graph.defined(x) {
          w := w.(orphans := w.orphans + {x});
        } else if x == o {
          GenerateGhostTasks(graph.children(o) + graph.parents(o));
          w := Register(w, graph.children(o), graph.parents(o));
          cs, ps := cs + graph.children(o), ps + graph.parents(o);
        } else {
          var c, p := Near(x, o);
          cs, ps := cs + c, ps + p;
        }
        seen := seen + {x};
      }
      assert seen == nodes;
      AllExpanded(o, w0, w, loc, nodes);
      cs, ps := cs - w.walkIds, ps - w.walkIds;
      grew := cs != {} || ps != {};
      w := w.(locations := Put(Put(w.locations, loc + "c", cs), loc + "p", ps),
              doneLocs := w.doneLocs + (if loc == "" then {} else {loc}),
              walkIds := w.walkIds + cs + ps,
              depths := w.depths[|loc| + 1 := w.depths[|loc| + 1] + cs + ps]);
    }

    lemma NoneExpanded(o: Id, w0: Walk)
      requires 1 in w0.depths
      ensures Expanded(o, w0, w0, {}) && ChildrenOf(graph, {}) == {} && ParentsOf(graph, {}) == {}
    {
      assert w0.doneIds + {} == w0.doneIds;
      var none: set<Id> := {};
      assert (set n | n in none && !graph.defined(n)) == {};
      assert w0.orphans + {} == w0.orphans;
    }

    lemma AllExpanded(o: Id, w0: Walk, w: Walk, loc: Loc, nodes: set<Id>)
      requires 1 in w0.depths && |loc| + 1 in w0.depths && nodes == Frontier(o, w0, loc) && Expanded(o, w0, w, nodes)
      ensures |loc| + 1 in w.depths && w.walkIds == w0.walkIds
      ensures var cs, ps := ChildrenOf(graph, nodes) - w.walkIds, ParentsOf(graph, nodes) - w.walkIds;
              Explored(graph, o, w0, loc) ==
                w.(locations := Put(Put(w.locations, loc + "c", cs), loc + "p", ps),
                   doneLocs := w.doneLocs + (if loc == "" then {} else {loc}),
                   walkIds := w.walkIds + cs + ps,
                   depths := w.depths[|loc| + 1 := w.depths[|loc| + 1] + cs + ps])
    {
      hide ChildrenOf, ParentsOf, Put;
    }

    // The phase that fills a walk, begun by the registration of its origin, from
    // the stored walks of its nodes.
    method PrePopulate(w0: Walk) returns (w: Walk)
      requires forall d :: d in w0.depths <==> 1 <= d <= edgeDistance
      ensures w == Populated(walks, allNodes, edgeDistance, w0)
    {
      hide *;
      w := w0;
      var depth := 2;
      var working := FirstLocations(w);
      FirstLevel(w, edgeDistance);
      FillStarts(walks, allNodes, edgeDistance, w);
      while working != []
        invariant Level(working, depth, edgeDistance) && 2 <= depth
        invariant forall d :: d in w.depths <==> 1 <= d <= edgeDistance
        invariant Populated(walks, allNodes, edgeDistance, w0) == FillFrom(walks, allNodes, edgeDistance, w, working, depth)
        decreases edgeDistance + 1 - depth
      {
        LevelHeld(working, depth, edgeDistance);
        FillGoesOn(walks, allNodes, edgeDistance, w, working, depth);
        w := PrePopulateLevel(w, working, depth);
        NextLevel(working, w, depth, edgeDistance);
        working := Lengthen(working, w);
        depth := depth + 1;
      }
      FillEnds(walks, allNodes, edgeDistance, w, depth);
    }

    method FirstLocations(w: Walk) returns (working: seq<Loc>)
      ensures working == FirstLocs(w, edgeDistance)
    {
      working := [];
      if edgeDistance > 1 {
        if "c" in w.locations {
          working := working + ["cc", "cp"];
        }
        if "p" in w.locations {
          working := working + ["pp", "pc"];
        }
      }
    }

    // The locations one longer than those of a level that are there.
    method Lengthen(working: seq<Loc>, w: Walk) returns (longer: seq<Loc>)
      ensures longer == LongerLocs(working, w, edgeDistance)
    {
      longer := [];
      for i := 0 to |working|
        invariant longer == LongerLocs(working[..i], w, edgeDistance)
      {
        assert working[..i + 1][..i] == working[..i];
        if working[i] in w.locations && |working[i]| < edgeDistance {
          longer := longer + [working[i] + "c", working[i] + "p"];
        }
      }
      assert working[..|working|] == working;
    }

    // The locations of one length.
    method PrePopulateLevel(w0: Walk, working: seq<Loc>, depth: nat) returns (w: Walk)
      requires depth in w0.depths && depth > 0 && forall l :: l in working ==> |l| == depth
      ensures w == FillLevel(walks, allNodes, w0, working) && w.depths.Keys == w0.depths.Keys
    {
      hide FillOne;
      w := w0;
      for i := 0 to |working|
        invariant w == FillLevel(walks, allNodes, w0, working[..i]) && w.depths.Keys == w0.depths.Keys
      {
        assert working[..i + 1][..i] == working[..i];
        w := PrePopulateLoc(w, working[i], depth);
      }
      assert working[..|working|] == working;
    }

    method PrePopulateLoc(w0: Walk, l: Loc, depth: nat) returns (w: Walk)
      requires depth in w0.depths && depth > 0 && |l| == depth
      ensures w == FillOne(walks, allNodes, w0, l) && w.depths.Keys == w0.depths.Keys
    {
      hide CachedNext;
      w := w0;
      var prev, tag := l[..depth - 1], l[depth - 1..];
      if prev !in w.locations { return; }
      var ids := w.locations[prev];
      var locDone := forall x :: x in ids ==> x in walks;
      var found := CachedNext(walks, ids, tag) - w.walkIds;
      if found != {} {
        w := w.(locations := w.locations[l := found], walkIds := w.walkIds + found,
                depths := w.depths[depth := w.depths[depth] + found]);
        if locDone && found <= allNodes {
          w := w.(doneLocs := w.doneLocs + {prev}, doneIds := w.doneIds + ids);
        }
      }
    }

    method WalkGraph(o: Id, w0: Walk, ghost isNew: bool) returns (w: Walk)
      requires Working(o) && WalkOk(graph, edgeDistance, o, w0) && (!graph.defined(o) ==> o in w0.orphans)
      requires if isNew then w0 == FreshWalk(graph, edgeDistance, o) else Full(graph, edgeDistance, o, w0)
      modifies this`walks, this`allNodes, this`stored
      ensures Working(o) && WalkOk(graph, edgeDistance, o, w)
      ensures isNew ==> Exact(graph, o, edgeDistance, w)
      ensures Full(graph, edgeDistance, o, w) && Walked(graph, edgeDistance, o, w0, w)
    {
      hide *;
      w := w0;
      var incomplete := true;
      ghost var k: nat := 0;
      if isNew { FreshStart(graph, edgeDistance, o); }
      NoRoundYet(graph, edgeDistance, o, w0);
      while incomplete
        invariant Working(o) && WalkOk(graph, edgeDistance, o, w) && (!graph.defined(o) ==> o in w.orphans)
        invariant isNew ==> if incomplete then RoundStart(graph, o, edgeDistance, k, w) else Exact(graph, o, edgeDistance, w)
        invariant Full(graph, edgeDistance, o, w) || (incomplete && w == FreshWalk(graph, edgeDistance, o))
        invariant if incomplete then Rounds(graph, edgeDistance, o, w0, w, k) else Walked(graph, edgeDistance, o, w0, w)
        decreases Ball(graph, o, edgeDistance) - w.walkIds, incomplete
      {
        ghost var start := w;
        var left := Selected(edgeDistance, o, w);
        ghost var all := left;
        incomplete := false;
        SelectedCanExplore(graph, edgeDistance, o, w);
        FreshSelects(graph, edgeDistance, o);
        if isNew { RoundSelects(graph, o, edgeDistance, k, w); }
        NoneExploredYet(graph, o, w, all);
        while left != {}
          invariant left <= all == Selected(edgeDistance, o, start)
          invariant Working(o) && WalkOk(graph, edgeDistance, o, w) && (!graph.defined(o) ==> o in w.orphans)
          invariant CanExplore(graph, edgeDistance, o, w, left)
          invariant start.walkIds <= w.walkIds && (incomplete <==> w.walkIds != start.walkIds)
          invariant isNew ==> InRound(graph, o, edgeDistance, k, start, w, left)
          invariant Full(graph, edgeDistance, o, w) || (w == FreshWalk(graph, edgeDistance, o) && left == {""})
          invariant ExploresAll(graph, o, start, all - left, w)
          decreases left
        {
          var loc :| loc in left;
          ghost var before := w;
          Explores(graph, edgeDistance, o, w, left, loc);
          ExploredFull(graph, edgeDistance, o, w, left, loc);
          if isNew { InRoundStep(graph, o, edgeDistance, k, start, w, left, loc); }
          var grew;
          w, grew := ExploreLocation(o, w, loc);
          OneMoreExplored(graph, o, start, all, left, loc, before, w);
          left := left - {loc};
          incomplete := incomplete || grew;
        }
        if isNew { RoundEnd(graph, o, edgeDistance, k, start, w); }
        OkInBall(graph, edgeDistance, o, w);
        RoundOver(graph, edgeDistance, o, w0, start, k, w);
        k := k + 1;
      }
    }

    // The window about one task.  All nodes up to two steps away are found, and
    // up to an edge distance of two the depths are exact, as are those of a new
    // walk; those of one that another walk has begun are never too small.
    method IncrementGraphWindow(o: Id)
      requires Valid()
      modifies this`walks, this`completed, this`windowNodes, this`allNodes, this`stored
      ensures Valid() && o in walks && o in completed
      ensures edgeDistance <= 2 || o !in old(walks) || o in old(completed) ==> Exact(graph, o, edgeDistance, walks[o])
      ensures o in old(walks) && o !in old(completed) ==>
                Walked(graph, edgeDistance, o,
                       Populated(old(walks), old(allNodes) + ({o} - old(stored)), edgeDistance, old(walks)[o]), walks[o])
      ensures o in windowNodes && windowNodes[o] == walks[o].walkIds <= Ball(graph, o, edgeDistance)
      ensures Ball(graph, o, if edgeDistance < 2 then edgeDistance else 2) <= windowNodes[o]
      ensures forall d :: d in walks[o].depths <==> 1 <= d <= edgeDistance
      ensures forall d :: d in walks[o].depths ==> walks[o].depths[d] <= Ball(graph, o, d)
    {
      hide WalkOk, WalksOk, StoreOk, Exact, EmptyDepths, Ball, Begun, BegunInv, Populated, Walked, NewWalk, FreshWalk, Full;
      ghost var isNew := o !in walks || o in completed;
      StoredBegun(graph, edgeDistance, walks, completed, o);
      if o !in walks || o in completed {
        NewWalkOk(graph, edgeDistance, o, {});
        PutWalk(graph, edgeDistance, walks, o, NewWalk(o, {}, edgeDistance));
        PutStored(graph, edgeDistance, walks, completed, o, NewWalk(o, {}, edgeDistance));
        walks := walks[o := NewWalk(o, {}, edgeDistance)];
        completed := completed - {o};
      }
      GetWalk(graph, edgeDistance, walks, o);
      var w := walks[o];
      if !graph.defined(o) {
        w := w.(orphans := w.orphans + {o});
        SameOk(graph, edgeDistance, o, walks[o], w);
      }
      FreshIs(graph, edgeDistance, o);
      windowNodes := windowNodes[o := {}];
      GenerateGhostTasks({o});
      OkFacts(graph, edgeDistance, o, w);
      if isNew {
        FreshStays(walks, allNodes, edgeDistance, w);
      } else {
        BegunStarts(graph, edgeDistance, o);
        PopulatedBegun(graph, edgeDistance, o, walks, completed, allNodes);
      }
      w := PrePopulate(w);
      ghost var filled := w;
      w := WalkGraph(o, w, isNew);
      WindowFound(graph, edgeDistance, o, filled, w, isNew);
      PutWalk(graph, edgeDistance, walks, o, w);
      EndStored(graph, edgeDistance, walks, completed, o, w);
      walks := walks[o := w];
      completed := completed + {o};
      windowNodes := windowNodes[o := windowNodes[o] + w.walkIds];
      OkFacts(graph, edgeDistance, o, w);
    }

    // The depth of each node in the window of all the active tasks, and the
    // deltas of those whose depth is not the recorded one.
    method WindowDepthFinder(pool: set<Id>, recorded: map<nat, set<Id>>)
      returns (depths: map<nat, set<Id>>, deltas: map<Id, nat>)
      ensures AreWindowDepths(depths, pool, walks, edgeDistance)
      ensures AllExact(graph, pool, walks, edgeDistance) ==>
                forall d :: d in depths ==> depths[d] == PoolSphere(graph, pool, d)
      ensures forall x, d :: d in depths && x in depths[d] ==>
                (x in deltas <==> x !in At(recorded, d)) && (x in deltas ==> deltas[x] == d)
      ensures forall x :: x in deltas ==> exists d :: d in depths && x in depths[d]
    {
      hide AllExact, AreWindowDepths, Within, AtDepth;
      DepthZero(pool, walks);
      depths := map[0 := pool];
      var found := pool;
      var depth := 1;
      while depth <= edgeDistance
        invariant 1 <= depth <= edgeDistance + 1
        invariant AreWindowDepths(depths, pool, walks, depth - 1)
        invariant forall x :: x in found <==> Within(pool, walks, depth - 1, x)
      {
        var nodes := AtDepth(pool, walks, depth) - found;
        DepthNext(depths, pool, walks, depth - 1, depth, found, nodes);
        depths := depths[depth := nodes];
        found := found + nodes;
        depth := depth + 1;
      }
      deltas := DepthDeltas(pool, depths, recorded);
      if AllExact(graph, pool, walks, edgeDistance) {
        DepthsAreDistances(graph, depths, pool, walks, edgeDistance);
      }
    }

    method DepthDeltas(pool: set<Id>, depths: map<nat, set<Id>>, recorded: map<nat, set<Id>>) returns (deltas: map<Id, nat>)
      requires AreWindowDepths(depths, pool, walks, edgeDistance)
      ensures forall x, d :: d in depths && x in depths[d] ==>
                (x in deltas <==> x !in At(recorded, d)) && (x in deltas ==> deltas[x] == d)
      ensures forall x :: x in deltas ==> exists d :: d in depths && x in depths[d]
    {
      deltas := map[];
      assert forall d :: d in depths <==> 0 <= d <= edgeDistance;
      for depth := 0 to edgeDistance + 1
        invariant AreDeltas(depths, recorded, deltas, depth)
      {
        hide *;
        var changed := depths[depth] - At(recorded, depth);
        NextDeltas(depths, pool, walks, edgeDistance, recorded, deltas, depth);
        deltas := deltas + AllAt(changed, depth);
      }
    }
  }

  function AllAt(ids: set<Id>, depth: nat): map<Id, nat> {
    map x | x in ids :: depth
  }

  // The deltas for the depths below a given one.
  ghost predicate AreDeltas(depths: map<nat, set<Id>>, recorded: map<nat, set<Id>>, deltas: map<Id, nat>, depth: nat) {
    && (forall x, d :: d in depths && x in depths[d] ==>
          (x in deltas <==> d < depth && x !in At(recorded, d)) && (x in deltas ==> deltas[x] == d))
    && (forall x :: x in deltas ==> exists d :: d in depths && x in depths[d])
  }

  lemma NextDeltas(depths: map<nat, set<Id>>, pool: set<Id>, walks: map<Id, Walk>, n: nat,
                   recorded: map<nat, set<Id>>, deltas: map<Id, nat>, depth: nat)
    requires AreWindowDepths(depths, pool, walks, n) && depth in depths
    requires AreDeltas(depths, recorded, deltas, depth)
    ensures AreDeltas(depths, recorded,
                      deltas + AllAt(depths[depth] - At(recorded, depth), depth), depth + 1)
  {
    hide AreWindowDepths;
    forall x, d | d in depths && x in depths[d] && x in depths[depth] ensures d == depth {
      OneDepth(depths, pool, walks, n, d, depth, x);
    }
  }
}
