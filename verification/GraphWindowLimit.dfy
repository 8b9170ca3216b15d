// How far the depths of a begun walk can be relied on (data_store_mgr.py:
// increment_graph_window).

module GraphWindowLimit {
  import opened GraphDistance
  import opened GraphWindow
  import opened GraphWindowBegun

  // A begun walk does end.

  lemma {:induction false} ExploreExists(g: Graph, n: nat, o: Id, w: Walk, locs: set<Loc>) returns (v: Walk)
    requires BegunInv(g, n, o, w) && Explorable(n, o, w, locs)
    ensures ExploresAll(g, o, w, locs, v)
    decreases locs
  {
    hide BegunInv, Explored, Onward;
    if locs == {} {
      v := w;
    } else {
      var l :| l in locs;
      var m := ExploreExists(g, n, o, w, locs - {l});
      ExploresAllInv(g, n, o, w, locs - {l}, m);
      if l == "" { assert locs - {l} == {}; }
      ExploredInv(g, n, o, m, l);
      v := Explored(g, o, m, l);
      assert l in locs && ExploresAll(g, o, w, locs - {l}, m);
    }
  }

  lemma {:induction false} WalkExists(g: Graph, n: nat, o: Id, w: Walk, m: Walk, k: nat) returns (v: Walk)
    requires BegunInv(g, n, o, w) && Rounds(g, n, o, w, m, k)
    ensures Walked(g, n, o, w, v)
    decreases Ball(g, o, n) - m.walkIds
  {
    RoundsInv(g, n, o, w, m, k);
    SelectedExplorable(g, n, o, m);
    v := ExploreExists(g, n, o, m, Selected(n, o, m));
    ExploresAllInv(g, n, o, m, Selected(n, o, m), v);
    if v.walkIds != m.walkIds {
      hide Ball, ExploresAll, Explorable, Placed, NearKnown, Closed;
      NextRoundIs(g, n, o, w, m, k, v);
      MoreFound(g, n, o, m, v);
      hide Rounds, Walked;
      v := WalkExists(g, n, o, w, v, k + 1);
    }
  }

  lemma NextRoundIs(g: Graph, n: nat, o: Id, w: Walk, m: Walk, k: nat, v: Walk)
    requires Rounds(g, n, o, w, m, k) && ExploresAll(g, o, m, Selected(n, o, m), v) && v.walkIds != m.walkIds
    ensures Rounds(g, n, o, w, v, k + 1)
  {
    hide ExploresAll, Selected;
  }

  lemma MoreFound(g: Graph, n: nat, o: Id, m: Walk, v: Walk)
    requires Onward(m, v) && v.walkIds != m.walkIds && v.walkIds <= Ball(g, o, n)
    ensures Ball(g, o, n) - v.walkIds < Ball(g, o, n) - m.walkIds
  {
    hide Ball;
    var x :| x in v.walkIds && x !in m.walkIds;
    assert x in Ball(g, o, n) - m.walkIds && x !in Ball(g, o, n) - v.walkIds;
  }

  // Beyond an edge distance of two it need not be exact.  Here o leads to a and
  // b, a to z, and b and z to y, and b has no stored walk: y is found by way of
  // a and z, three steps away, before b has been looked at.

  const O := "o"
  const A := "a"
  const B := "b"
  const Y := "y"
  const Z := "z"

  const C: Loc := "c"
  const P: Loc := "p"
  const CC: Loc := "cc"
  const CP: Loc := "cp"
  const CCC: Loc := "ccc"
  const CCP: Loc := "ccp"

  lemma LocsAre()
    ensures |C| == |P| == 1 && |CC| == |CP| == 2 && |CCC| == |CCP| == 3
    ensures C + C == CC && C + P == CP && CC + C == CCC && CC + P == CCP
    ensures C == "c" && P == "p" && C != P && CC != CP && CCC != CCP
  {
  }

  lemma FiveDiffer()
    ensures O != A && O != B && O != Y && O != Z && A != B && A != Y && A != Z && B != Y && B != Z && Y != Z
  {
  }

  function FiveChildren(x: Id): set<Id> {
    if x == O then {A, B} else if x == A then {Z} else if x == B || x == Z then {Y} else {}
  }

  function FiveParents(x: Id): set<Id> {
    if x == A || x == B then {O} else if x == Z then {A} else if x == Y then {B, Z} else {}
  }

  function Five(): Graph {
    Graph(FiveChildren, FiveParents, x => true)
  }

  ghost function FiveWalks(n: nat): map<Id, Walk>
    requires n > 0
  {
    map x | x in {O, A, Z} :: Begun(Five(), n, x)
  }

  lemma FiveStored(n: nat)
    requires n > 0
    ensures WalksOk(Five(), n, FiveWalks(n)) && StoreOk(Five(), n, FiveWalks(n), {}, {})
  {
    forall x | x in FiveWalks(n)
      ensures WalkOk(Five(), n, x, FiveWalks(n)[x]) && Full(Five(), n, x, FiveWalks(n)[x])
    {
      BegunStarts(Five(), n, x);
    }
  }

  lemma FiveBegun(n: nat, x: Id)
    requires n > 0
    ensures var w := Begun(Five(), n, x);
            && (FiveChildren(x) != {} ==> C in w.locations && w.locations[C] == FiveChildren(x))
            && (FiveChildren(x) == {} ==> C !in w.locations)
            && (FiveParents(x) != {} ==> P in w.locations && w.locations[P] == FiveParents(x))
            && (FiveParents(x) == {} ==> P !in w.locations)
            && w.locations.Keys <= {C, P}
            && w.walkIds == {x} + FiveChildren(x) + FiveParents(x) && w.doneIds == {} && w.doneLocs == {}
            && forall d :: d in w.depths <==> 1 <= d <= n
  {
    BegunIs(Five(), n, x);
    hide FiveChildren, FiveParents;
  }

  lemma CachedOne(walks: map<Id, Walk>, ids: set<Id>, x: Id, tag: Loc)
    requires x in ids && x in walks && tag in walks[x].locations && forall y :: y in ids && y in walks ==> y == x
    ensures CachedNext(walks, ids, tag) == walks[x].locations[tag]
  {
  }

  // Y is found, but not at depth 2.
  ghost predicate Far(w: Walk) {
    Y in w.walkIds && 2 in w.depths && Y !in w.depths[2]
  }

  lemma FarStays(w: Walk, v: Walk)
    requires Far(w) && Onward(w, v)
    ensures Far(v)
  {
  }

  lemma FillsWith(walks: map<Id, Walk>, allNodes: set<Id>, w: Walk, prev: Loc, t: Loc, found: set<Id>)
    requires (t == C || t == P) && prev in w.locations && |prev| + 1 in w.depths && found != {}
    requires CachedNext(walks, w.locations[prev], t) - w.walkIds == found
    ensures var v := FillOne(walks, allNodes, w, prev + t);
            && v.locations == w.locations[prev + t := found] && v.walkIds == w.walkIds + found
            && v.depths == w.depths[|prev| + 1 := w.depths[|prev| + 1] + found]
  {
    LocParts(prev, t);
    hide CachedNext, Prev, Tag;
  }

  lemma FillsNothing(walks: map<Id, Walk>, allNodes: set<Id>, w: Walk, prev: Loc, t: Loc)
    requires (t == C || t == P) && prev in w.locations && CachedNext(walks, w.locations[prev], t) <= w.walkIds
    ensures FillOne(walks, allNodes, w, prev + t) == w
  {
    LocParts(prev, t);
    hide CachedNext, Prev, Tag;
    assert CachedNext(walks, w.locations[prev], t) - w.walkIds == {};
  }

  lemma FiveCached(n: nat)
    requires n > 0
    ensures var walks := FiveWalks(n);
            && CachedNext(walks, {A, B}, C) == {Z} && CachedNext(walks, {A, B}, P) == {O}
            && CachedNext(walks, {Z}, C) == {Y}
  {
    FiveBegun(n, A);
    FiveBegun(n, Z);
    hide Begun;
    var walks := FiveWalks(n);
    CachedOne(walks, {A, B}, A, C);
    CachedOne(walks, {A, B}, A, P);
    CachedOne(walks, {Z}, Z, C);
  }

  lemma FiveStart(n: nat)
    requires n > 2
    ensures var w := Begun(Five(), n, O);
            && w.locations == map[C := {A, B}] && w.walkIds == {O, A, B} && (forall d :: d in w.depths <==> 1 <= d <= n)
            && w.depths[2] == {}
    ensures BegunInv(Five(), n, O, Begun(Five(), n, O))
  {
    FiveBegun(n, O);
    BegunIs(Five(), n, O);
    BegunStarts(Five(), n, O);
    hide Begun, BegunInv;
    var w := Begun(Five(), n, O);
    assert w.locations.Keys == {C};
  }

  // How the walk of O stands when its locations are l.
  ghost predicate Stands(n: nat, w: Walk, l: map<Loc, set<Id>>) {
    && w.locations == l && w.walkIds == {O, A, B, Z}
    && (forall d :: d in w.depths <==> 1 <= d <= n) && 2 in w.depths && w.depths[2] == {Z}
  }

  // The first level gives Z, by way of A, and no more.
  lemma FiveCc(n: nat, allNodes: set<Id>)
    requires n > 2
    ensures Stands(n, FillOne(FiveWalks(n), allNodes, Begun(Five(), n, O), CC), map[C := {A, B}, CC := {Z}])
  {
    FiveStart(n);
    hide *;
    FiveCcFrom(n, allNodes, Begun(Five(), n, O));
  }

  lemma FiveCcFrom(n: nat, allNodes: set<Id>, w0: Walk)
    requires n > 2 && w0.locations == map[C := {A, B}] && w0.walkIds == {O, A, B}
    requires (forall d :: d in w0.depths <==> 1 <= d <= n) && w0.depths[2] == {}
    ensures Stands(n, FillOne(FiveWalks(n), allNodes, w0, CC), map[C := {A, B}, CC := {Z}])
  {
    hide *;
    FiveCached(n);
    FiveNew();
    LocsAre();
    assert CachedNext(FiveWalks(n), w0.locations[C], "c") - w0.walkIds == {Z};
    FillsWith(FiveWalks(n), allNodes, w0, C, "c", {Z});
    ThenStands(n, w0, FillOne(FiveWalks(n), allNodes, w0, CC));
  }

  lemma ThenStands(n: nat, w0: Walk, w: Walk)
    requires n > 2 && w0.locations == map[C := {A, B}] && w0.walkIds == {O, A, B}
    requires (forall d :: d in w0.depths <==> 1 <= d <= n) && w0.depths[2] == {}
    requires w.locations == w0.locations[CC := {Z}] && w.walkIds == w0.walkIds + {Z}
    requires w.depths == w0.depths[2 := w0.depths[2] + {Z}]
    ensures Stands(n, w, map[C := {A, B}, CC := {Z}])
  {
    LocsAre();
    hide O, A, B, Y, Z, C, CC;
  }

  lemma FiveCp(n: nat, allNodes: set<Id>, w: Walk)
    requires n > 2 && Stands(n, w, map[C := {A, B}, CC := {Z}])
    ensures FillOne(FiveWalks(n), allNodes, w, CP) == w
  {
    FiveCached(n);
    FiveDiffer();
    LocsAre();
    hide CachedNext, FiveWalks, FillOne, O, A, B, Y, Z, C, P, CC, CP, CCC, CCP;
    FillsNothing(FiveWalks(n), allNodes, w, C, P);
  }

  lemma FiveFirst(n: nat, allNodes: set<Id>)
    requires n > 2
    ensures Stands(n, FillLevel(FiveWalks(n), allNodes, Begun(Five(), n, O), [CC, CP]),
                   map[C := {A, B}, CC := {Z}])
  {
    FiveCc(n, allNodes);
    TwoLocs(FiveWalks(n), allNodes, Begun(Five(), n, O), CC, CP);
    hide *;
    FiveCp(n, allNodes, FillOne(FiveWalks(n), allNodes, Begun(Five(), n, O), CC));
  }

  // The next one gives Y, by way of Z: it is placed at depth 3.
  lemma FiveSecond(n: nat, allNodes: set<Id>, w: Walk)
    requires n > 2 && Stands(n, w, map[C := {A, B}, CC := {Z}])
    ensures Far(FillOne(FiveWalks(n), allNodes, w, CCC))
  {
    hide *;
    FiveCached(n);
    FiveNew();
    LocsAre();
    StandsWith(n, w);
    FillsWith(FiveWalks(n), allNodes, w, CC, "c", {Y});
    ThenFar(n, w, FillOne(FiveWalks(n), allNodes, w, CCC));
  }

  lemma FiveNew()
    ensures {Z} - {O, A, B} == {Z} && {Y} - {O, A, B, Z} == {Y}
  {
    FiveDiffer();
    hide O, A, B, Y, Z;
  }

  lemma StandsWith(n: nat, w: Walk)
    requires n > 2 && Stands(n, w, map[C := {A, B}, CC := {Z}])
    ensures CC in w.locations && w.locations[CC] == {Z} && w.walkIds == {O, A, B, Z} && 3 in w.depths
  {
    LocsAre();
    hide O, A, B, Y, Z, C, CC;
  }

  lemma ThenFar(n: nat, w: Walk, v: Walk)
    requires n > 2 && Stands(n, w, map[C := {A, B}, CC := {Z}])
    ensures v.walkIds == w.walkIds + {Y} && v.depths == w.depths[3 := w.depths[3] + {Y}] ==> Far(v)
  {
    FiveDiffer();
    hide O, A, B, Y, Z;
  }

  lemma FiveLonger(n: nat, w: Walk)
    requires n > 2 && Stands(n, w, map[C := {A, B}, CC := {Z}])
    ensures LongerLocs([CC, CP], w, n) == [CCC, CCP]
  {
    var two: seq<Loc> := [CC, CP];
    assert two[..1] == [CC] && two[..1][..0] == [];
    LocsAre();
    assert LongerLocs(two[..1], w, n) == [] + [CCC, CCP];
    assert CP !in w.locations;
    assert LongerLocs(two, w, n) == LongerLocs(two[..1], w, n) + [];
  }

  lemma FiveFirstLocs(n: nat)
    requires n > 2
    ensures FirstLocs(Begun(Five(), n, O), n) == [CC, CP]
  {
    FiveStart(n);
    hide Begun, BegunInv;
    assert P !in Begun(Five(), n, O).locations;
  }

  // However the filling goes on, Y stays there.
  lemma FivePopulated(n: nat, allNodes: set<Id>)
    requires n > 2
    ensures BegunInv(Five(), n, O, Populated(FiveWalks(n), allNodes, n, Begun(Five(), n, O)))
    ensures Far(Populated(FiveWalks(n), allNodes, n, Begun(Five(), n, O)))
  {
    var walks, w0 := FiveWalks(n), Begun(Five(), n, O);
    FiveStart(n);
    FiveStored(n);
    assert AllFull(Five(), n, walks);
    PopulatedInv(Five(), n, O, walks, allNodes, w0);
    FiveFirstLocs(n);
    FirstLevel(w0, n);
    FiveFirst(n, allNodes);
    hide BegunInv, Begun, FiveWalks, WalksOk, AllFull, Level, Far, Onward;
    var w1 := FillLevel(walks, allNodes, w0, [CC, CP]);
    FillLevelInv(Five(), n, O, walks, allNodes, 2, w0, [CC, CP]);
    NextLevel([CC, CP], w1, 2, n);
    FiveLonger(n, w1);
    FiveThird(n, walks, allNodes, w1);
    assert Populated(walks, allNodes, n, w0) == FillFrom(walks, allNodes, n, w1, [CCC, CCP], 3);
  }

  lemma FiveThird(n: nat, walks: map<Id, Walk>, allNodes: set<Id>, w: Walk)
    requires n > 2 && walks == FiveWalks(n) && Stands(n, w, map[C := {A, B}, CC := {Z}])
    requires BegunInv(Five(), n, O, w) && WalksOk(Five(), n, walks) && AllFull(Five(), n, walks)
    requires Level([CCC, CCP], 3, n)
    ensures Far(FillFrom(walks, allNodes, n, w, [CCC, CCP], 3))
  {
    FiveSecond(n, allNodes, w);
    FillLevelInv(Five(), n, O, walks, allNodes, 3, w, [CCC, CCP]);
    TwoLocs(walks, allNodes, w, CCC, CCP);
    FillOneOnward(walks, allNodes, FillOne(walks, allNodes, w, CCC), CCP);
    var v := FillLevel(walks, allNodes, w, [CCC, CCP]);
    NextLevel([CCC, CCP], v, 3, n);
    assert FillFrom(walks, allNodes, n, w, [CCC, CCP], 3) ==
           FillFrom(walks, allNodes, n, v, LongerLocs([CCC, CCP], v, n), 4);
    hide *;
    FarStays(FillOne(walks, allNodes, w, CCC), v);
    FarOn(n, walks, allNodes, v, LongerLocs([CCC, CCP], v, n), 4);
  }

  lemma FarOn(n: nat, walks: map<Id, Walk>, allNodes: set<Id>, v: Walk, working: seq<Loc>, depth: nat)
    requires Far(v) && BegunInv(Five(), n, O, v) && WalksOk(Five(), n, walks) && AllFull(Five(), n, walks)
    requires Level(working, depth, n) && 2 <= depth
    ensures Far(FillFrom(walks, allNodes, n, v, working, depth))
  {
    FillFromInv(Five(), n, O, walks, allNodes, v, working, depth);
    hide BegunInv, WalksOk, AllFull, Level, Far, Onward, FillFrom;
    FarStays(v, FillFrom(walks, allNodes, n, v, working, depth));
  }

  // But Y is two steps away.
  lemma FiveDistance()
    ensures Y in Sphere(Five(), O, 2)
  {
    var g := Five();
    BallOne(g, O);
    BallUnfold(g, O, 1);
    hide Ball, Sphere;
    assert Next(g, O) == {A, B};
    assert Y in Next(g, B) && B in Ball(g, O, 1);
  }

  lemma FarNotExact(n: nat, w: Walk)
    requires n > 2 && Far(w)
    ensures !Exact(Five(), O, n, w)
  {
    FiveDistance();
    hide Ball, Sphere;
  }

  lemma TwoLocs(walks: map<Id, Walk>, allNodes: set<Id>, w: Walk, a: Loc, b: Loc)
    ensures FillLevel(walks, allNodes, w, [a, b]) == FillOne(walks, allNodes, FillOne(walks, allNodes, w, a), b)
  {
    hide FillOne;
    assert [a, b][..1] == [a] && [a][..0] == [];
    assert FillLevel(walks, allNodes, w, [a]) == FillOne(walks, allNodes, w, a);
  }

  // The walks that a task's begun walk can end as, in any store.
  ghost predicate Possible(g: Graph, n: nat, walks: map<Id, Walk>, completed: set<Id>, allNodes: set<Id>, o: Id, v: Walk) {
    && WalksOk(g, n, walks) && StoreOk(g, n, walks, completed, {})
    && o in walks && o !in completed
    && Walked(g, n, o, Populated(walks, allNodes, n, walks[o]), v)
  }

  lemma PossibleReaches(g: Graph, n: nat, walks: map<Id, Walk>, completed: set<Id>, allNodes: set<Id>, o: Id, v: Walk)
    requires Possible(g, n, walks, completed, allNodes, o, v)
    ensures BegunInv(g, n, o, v) && Ball(g, o, if n < 2 then n else 2) <= v.walkIds
    ensures n <= 2 ==> Exact(g, o, n, v)
  {
    assert n > 0 && g.defined(o) && walks[o] == Begun(g, n, o);
    BegunStarts(g, n, o);
    assert AllFull(g, n, walks);
    hide WalksOk, StoreOk, Begun, BegunInv, Ball, Exact, Walked, Populated, AllFull;
    PopulatedInv(g, n, o, walks, allNodes, walks[o]);
    WalkedInv(g, n, o, Populated(walks, allNodes, n, walks[o]), v);
    WalkedReaches(g, n, o, v);
  }

  lemma FiveFails(n: nat) returns (v: Walk)
    requires n > 2
    ensures Possible(Five(), n, FiveWalks(n), {}, {}, O, v) && !Exact(Five(), O, n, v)
  {
    FiveStored(n);
    FivePopulated(n, {});
    assert FiveWalks(n)[O] == Begun(Five(), n, O);
    hide Begun, BegunInv, FiveWalks, Walked, Exact, WalksOk, StoreOk, Populated, Far, Onward;
    var w := Populated(FiveWalks(n), {}, n, Begun(Five(), n, O));
    v := WalkExists(Five(), n, O, w, w, 0);
    WalkedInv(Five(), n, O, w, v);
    FarStays(w, v);
    FarNotExact(n, v);
  }

  // The depths of begun walks are exact, whatever has been walked before, just
  // when the edge distance is no more than two.
  lemma BegunExactIff(n: nat)
    ensures (forall g, walks, completed, allNodes, o, v ::
               Possible(g, n, walks, completed, allNodes, o, v) ==> Exact(g, o, n, v)) <==> n <= 2
  {
    hide Possible, Exact;
    if n <= 2 {
      forall g, walks, completed, allNodes, o, v | Possible(g, n, walks, completed, allNodes, o, v)
        ensures Exact(g, o, n, v)
      {
        PossibleReaches(g, n, walks, completed, allNodes, o, v);
      }
    } else {
      var v := FiveFails(n);
    }
  }
}
