// Walks that another walk has begun: the registration of a node as a neighbour
// gives it a walk with its children and parents, which is filled from the stored
// walks of others before it goes on (data_store_mgr.py: increment_graph_window).

module GraphWindowBegun {
  import opened GraphDistance
  import opened GraphWindow

  // The walk that the registration of a node begins.
  ghost function Begun(g: Graph, n: nat, o: Id): Walk
    requires n > 0
  {
    Register(NewWalk(o, g.children(o) + g.parents(o), n), g.children(o), g.parents(o))
  }

  // The locations "c" and "p" are there where they are not empty.
  ghost predicate Full(g: Graph, n: nat, o: Id, w: Walk) {
    n > 0 && g.defined(o) ==>
      && (g.children(o) != {} ==> "c" in w.locations)
      && (g.parents(o) != {} ==> "p" in w.locations)
  }

  // Every stored walk is full, and just begun unless it has been completed; but
  // for one that is being worked on.
  ghost predicate StoreOk(g: Graph, n: nat, walks: map<Id, Walk>, completed: set<Id>, but: set<Id>) {
    forall x :: x in walks && x !in but ==>
      && Full(g, n, x, walks[x])
      && (x !in completed ==> n > 0 && g.defined(x) && walks[x] == Begun(g, n, x))
  }

  /* ---- filling from the stored walks: the specification ---- */

  function Tag(l: Loc): Loc
    requires l != ""
  {
    l[|l| - 1..]
  }

  function Prev(l: Loc): Loc
    requires l != ""
  {
    l[..|l| - 1]
  }

  function FillOne(walks: map<Id, Walk>, allNodes: set<Id>, w: Walk, l: Loc): Walk {
    if l == "" || Prev(l) !in w.locations || |l| !in w.depths then w
    else
      var ids := w.locations[Prev(l)];
      var found := CachedNext(walks, ids, Tag(l)) - w.walkIds;
      if found == {} then w
      else
        var v := Filled(w, l, found);
        if (forall x :: x in ids ==> x in walks) && found <= allNodes then
          v.(doneLocs := v.doneLocs + {Prev(l)}, doneIds := v.doneIds + ids)
        else v
  }

  function FillLevel(walks: map<Id, Walk>, allNodes: set<Id>, w: Walk, working: seq<Loc>): Walk {
    if working == [] then w
    else FillOne(walks, allNodes, FillLevel(walks, allNodes, w, working[..|working| - 1]), working[|working| - 1])
  }

  // The locations to go through first, and those one longer than the ones found.
  function FirstLocs(w: Walk, n: nat): seq<Loc> {
    if n <= 1 then []
    else (if "c" in w.locations then ["cc", "cp"] else []) + (if "p" in w.locations then ["pp", "pc"] else [])
  }

  function LongerLocs(working: seq<Loc>, w: Walk, n: nat): seq<Loc> {
    if working == [] then []
    else
      var l := working[|working| - 1];
      LongerLocs(working[..|working| - 1], w, n)
      + if l in w.locations && |l| < n then [l + "c", l + "p"] else []
  }

  function FillFrom(walks: map<Id, Walk>, allNodes: set<Id>, n: nat, w: Walk, working: seq<Loc>, depth: nat): Walk
    decreases n + 1 - depth
  {
    if working == [] || depth > n then w
    else
      var v := FillLevel(walks, allNodes, w, working);
      FillFrom(walks, allNodes, n, v, LongerLocs(working, v, n), depth + 1)
  }

  function Populated(walks: map<Id, Walk>, allNodes: set<Id>, n: nat, w: Walk): Walk {
    FillFrom(walks, allNodes, n, w, FirstLocs(w, n), 2)
  }

  // The locations of one level: of one length, each with its sibling.
  ghost predicate Level(working: seq<Loc>, k: nat, n: nat) {
    forall l :: l in working ==>
      && |l| == k && 2 <= k <= n && (Tag(l) == "c" || Tag(l) == "p")
      && Prev(l) + "c" in working && Prev(l) + "p" in working
  }

  lemma LocParts(l: Loc, t: Loc)
    requires t == "c" || t == "p"
    ensures Prev(l + t) == l && Tag(l + t) == t && |l + t| == |l| + 1
  {
  }

  lemma Siblings(prev: Loc, a: Loc, b: Loc, n: nat)
    requires |prev| == 1 && n > 1
    requires (a == prev + "c" && b == prev + "p") || (a == prev + "p" && b == prev + "c")
    ensures Level([a, b], 2, n)
  {
    LocParts(prev, "c");
    LocParts(prev, "p");
    hide Prev, Tag;
  }

  lemma LevelJoin(a: seq<Loc>, b: seq<Loc>, k: nat, n: nat)
    requires Level(a, k, n) && Level(b, k, n)
    ensures Level(a + b, k, n)
  {
    hide Prev, Tag;
  }

  lemma FirstLevel(w: Walk, n: nat)
    ensures Level(FirstLocs(w, n), 2, n)
  {
    if n > 1 {
      Siblings("c", "cc", "cp", n);
      Siblings("p", "pp", "pc", n);
      var a := if "c" in w.locations then ["cc", "cp"] else [];
      var b := if "p" in w.locations then ["pp", "pc"] else [];
      assert FirstLocs(w, n) == a + b;
      LevelEmpty(n);
      hide *;
      LevelJoin(a, b, 2, n);
    }
  }

  lemma LevelEmpty(n: nat)
    ensures Level([], 2, n)
  {
  }

  lemma {:induction false} LongerHas(working: seq<Loc>, w: Walk, n: nat, l: Loc)
    ensures l in LongerLocs(working, w, n) <==>
            l != "" && (Tag(l) == "c" || Tag(l) == "p") && Prev(l) in working && Prev(l) in w.locations && |Prev(l)| < n
    decreases |working|
  {
    if working != [] {
      var before, last := working[..|working| - 1], working[|working| - 1];
      LongerHas(before, w, n, l);
      LocParts(last, "c");
      LocParts(last, "p");
      assert working == before + [last];
      if l != "" { assert l == Prev(l) + Tag(l); }
    }
  }

  lemma NextLevel(working: seq<Loc>, w: Walk, k: nat, n: nat)
    requires Level(working, k, n)
    ensures Level(LongerLocs(working, w, n), k + 1, n)
  {
    forall l | l in LongerLocs(working, w, n)
      ensures |l| == k + 1 && 2 <= k + 1 <= n && (Tag(l) == "c" || Tag(l) == "p")
      ensures Prev(l) + "c" in LongerLocs(working, w, n) && Prev(l) + "p" in LongerLocs(working, w, n)
    {
      LongerHas(working, w, n, l);
      LongerHas(working, w, n, Prev(l) + "c");
      LongerHas(working, w, n, Prev(l) + "p");
      LocParts(Prev(l), "c");
      LocParts(Prev(l), "p");
    }
  }

  /* ---- what a begun walk keeps ---- */

  // The origin and its neighbours are found, at depth 1; what else is found is
  // at another depth.
  ghost predicate Placed(g: Graph, n: nat, o: Id, w: Walk) {
    && n > 0 && g.defined(o) && 1 in w.depths
    && {o} + Next(g, o) <= w.walkIds
    && w.depths[1] == Next(g, o)
    && (forall d :: d in w.depths && d > 1 ==> w.depths[d] !! {o} + Next(g, o))
    && (forall x :: x in w.walkIds && x !in {o} + Next(g, o) ==> exists d :: d in w.depths && d > 1 && x in w.depths[d])
  }

  ghost predicate NearKnown(g: Graph, o: Id, w: Walk) {
    && ("c" in w.locations <==> g.children(o) != {})
    && ("p" in w.locations <==> g.parents(o) != {})
    && ("c" in w.locations ==> w.locations["c"] == g.children(o))
    && ("p" in w.locations ==> w.locations["p"] == g.parents(o))
  }

  // What is done has been gone on from.
  ghost predicate Closed(g: Graph, w: Walk) {
    && (forall x :: x in w.doneIds ==> Next(g, x) <= w.walkIds)
    && ("c" in w.doneLocs && "c" in w.locations ==> w.locations["c"] <= w.doneIds)
    && ("p" in w.doneLocs && "p" in w.locations ==> w.locations["p"] <= w.doneIds)
  }

  ghost predicate BegunInv(g: Graph, n: nat, o: Id, w: Walk) {
    WalkOk(g, n, o, w) && Placed(g, n, o, w) && NearKnown(g, o, w) && Closed(g, w)
  }

  lemma BegunIs(g: Graph, n: nat, o: Id)
    requires n > 0 && g.defined(o)
    ensures var w := Begun(g, n, o);
            && w.doneIds == {} && w.doneLocs == {} && w.orphans == {}
            && w.walkIds == {o} + Next(g, o)
            && w.locations.Keys <= {"c", "p"}
            && w.depths == EmptyDepths(n)[1 := Next(g, o)]
    ensures NearKnown(g, o, Begun(g, n, o))
  {
    assert EmptyDepths(n)[1] == {};
    assert {} + g.children(o) + g.parents(o) == Next(g, o);
  }

  lemma BegunStarts(g: Graph, n: nat, o: Id)
    requires n > 0 && g.defined(o)
    ensures BegunInv(g, n, o, Begun(g, n, o)) && Full(g, n, o, Begun(g, n, o))
  {
    NewWalkOk(g, n, o, g.children(o) + g.parents(o));
    RegisterOk(g, n, o, NewWalk(o, g.children(o) + g.parents(o), n), g.children(o), g.parents(o));
    BegunIs(g, n, o);
    hide WalkOk, Begun, EmptyDepths;
  }

  /* ---- what filling does ---- */

  // Nothing is taken back; what is newly placed is newly found, beyond depth 1.
  ghost predicate Onward(w: Walk, v: Walk) {
    && w.walkIds <= v.walkIds && w.doneIds <= v.doneIds && w.orphans <= v.orphans
    && w.depths.Keys == v.depths.Keys
    && (forall d :: d in w.depths ==> w.depths[d] <= v.depths[d])
    && (forall d :: d in w.depths && d <= 1 ==> v.depths[d] == w.depths[d])
    && (forall d, x :: d in w.depths && x in v.depths[d] && x !in w.depths[d] ==> x !in w.walkIds && x in v.walkIds)
    && (forall x :: x in v.walkIds && x !in w.walkIds ==> exists d :: d in w.depths && d > 1 && x in v.depths[d])
  }

  lemma OnwardJoin(w: Walk, v: Walk, u: Walk)
    requires Onward(w, v) && Onward(v, u)
    ensures Onward(w, u)
  {
    forall x | x in u.walkIds && x !in w.walkIds ensures exists d :: d in w.depths && d > 1 && x in u.depths[d] {
      if x in v.walkIds {
        var d :| d in w.depths && d > 1 && x in v.depths[d];
      } else {
        var d :| d in v.depths && d > 1 && x in u.depths[d];
      }
    }
  }

  lemma OnwardPlaced(g: Graph, n: nat, o: Id, w: Walk, v: Walk)
    requires Placed(g, n, o, w) && Onward(w, v)
    ensures Placed(g, n, o, v)
  {
    forall x | x in v.walkIds && x !in {o} + Next(g, o) ensures exists d :: d in v.depths && d > 1 && x in v.depths[d] {
      if x in w.walkIds {
        var d :| d in w.depths && d > 1 && x in w.depths[d];
      }
    }
    forall d | d in v.depths && d > 1 ensures v.depths[d] !! {o} + Next(g, o) {
      forall x | x in v.depths[d] ensures x !in {o} + Next(g, o) {
        if x !in w.depths[d] { assert x !in w.walkIds; }
      }
    }
  }

  lemma FilledOnward(w: Walk, v: Walk, d: nat, found: set<Id>)
    requires d in w.depths && d > 1 && found !! w.walkIds
    requires v.depths == w.depths[d := w.depths[d] + found] && v.walkIds == w.walkIds + found
    requires w.doneIds <= v.doneIds && v.orphans == w.orphans
    ensures Onward(w, v)
  {
    assert v.depths.Keys == w.depths.Keys;
  }

  lemma FillOneOnward(walks: map<Id, Walk>, allNodes: set<Id>, w: Walk, l: Loc)
    requires |l| > 1
    ensures Onward(w, FillOne(walks, allNodes, w, l))
  {
    hide CachedNext;
    var v := FillOne(walks, allNodes, w, l);
    if v != w {
      FilledOnward(w, v, |l|, CachedNext(walks, w.locations[Prev(l)], Tag(l)) - w.walkIds);
    }
  }

  // How things stand within a level: w0 at its start, w when the locations of
  // done have been gone through.
  ghost predicate Filling(walks: map<Id, Walk>, k: nat, w0: Walk, w: Walk, done: seq<Loc>) {
    && Onward(w0, w)
    && (forall l :: |l| != k ==> (l in w.locations <==> l in w0.locations))
    && (forall l :: |l| != k && l in w.locations ==> w.locations[l] == w0.locations[l])
    && (forall l :: l in done && l != "" && Prev(l) in w0.locations ==>
          CachedNext(walks, w0.locations[Prev(l)], Tag(l)) <= w.walkIds)
    && (forall x :: x in w.doneIds && x !in w0.doneIds ==> DoneBy(walks, w0, done, x))
    && (forall l :: l in w.doneLocs && l !in w0.doneLocs ==> l in w0.locations && w0.locations[l] <= w.doneIds)
    && w0.doneLocs <= w.doneLocs
  }

  // x was in the location before one of done, and has a stored walk.
  ghost predicate DoneBy(walks: map<Id, Walk>, w0: Walk, done: seq<Loc>, x: Id) {
    x in walks && exists l :: l in done && l != "" && Prev(l) in w0.locations && x in w0.locations[Prev(l)]
  }

  lemma FillingStarts(walks: map<Id, Walk>, k: nat, w0: Walk)
    ensures Filling(walks, k, w0, w0, [])
  {
  }

  lemma FillingStep(walks: map<Id, Walk>, allNodes: set<Id>, n: nat, k: nat, w0: Walk, w: Walk, done: seq<Loc>, l: Loc)
    requires Filling(walks, k, w0, w, done) && |l| == k && 2 <= k && k in w0.depths
    ensures Filling(walks, k, w0, FillOne(walks, allNodes, w, l), done + [l])
  {
    var v := FillOne(walks, allNodes, w, l);
    FillOneOnward(walks, allNodes, w, l);
    OnwardJoin(w0, w, v);
    hide Onward, CachedNext;
    assert w.walkIds <= v.walkIds && w.doneIds <= v.doneIds && k in w.depths by {
      OnwardKeeps(w, v);
      OnwardKeeps(w0, w);
    }
    assert l in done + [l] && |Prev(l)| != k;
    forall m | m in done + [l] && m != "" && Prev(m) in w0.locations
      ensures CachedNext(walks, w0.locations[Prev(m)], Tag(m)) <= v.walkIds
    {
      if m == l {
        FillOneFinds(walks, allNodes, w, l);
      }
    }
    forall x | x in v.doneIds && x !in w0.doneIds ensures DoneBy(walks, w0, done + [l], x) {
      if x in w.doneIds {
        var m :| m in done && m != "" && Prev(m) in w0.locations && x in w0.locations[Prev(m)];
        assert m in done + [l];
      }
    }
  }

  lemma OnwardKeeps(w: Walk, v: Walk)
    requires Onward(w, v)
    ensures w.walkIds <= v.walkIds && w.doneIds <= v.doneIds && w.depths.Keys == v.depths.Keys
  {
  }

  lemma FillOneFinds(walks: map<Id, Walk>, allNodes: set<Id>, w: Walk, l: Loc)
    requires l != "" && Prev(l) in w.locations && |l| in w.depths
    ensures CachedNext(walks, w.locations[Prev(l)], Tag(l)) <= FillOne(walks, allNodes, w, l).walkIds
  {
    hide CachedNext;
    var all := CachedNext(walks, w.locations[Prev(l)], Tag(l));
    assert all - w.walkIds == {} ==> all <= w.walkIds by {
      if x :| x in all && x !in w.walkIds { assert x in all - w.walkIds; }
    }
  }

  lemma {:induction false} LevelFilling(walks: map<Id, Walk>, allNodes: set<Id>, n: nat, k: nat, w0: Walk,
                                        working: seq<Loc>)
    requires (forall l :: l in working ==> |l| == k) && 2 <= k && k in w0.depths
    ensures Filling(walks, k, w0, FillLevel(walks, allNodes, w0, working), working)
    decreases |working|
  {
    hide Filling, FillOne;
    if working == [] {
      FillingStarts(walks, k, w0);
    } else {
      var before, l := working[..|working| - 1], working[|working| - 1];
      LevelFilling(walks, allNodes, n, k, w0, before);
      FillingStep(walks, allNodes, n, k, w0, FillLevel(walks, allNodes, w0, before), before, l);
      assert working == before + [l];
    }
  }

  // A level keeps the invariant: what it makes done has been gone on from both ways.
  lemma LevelClosed(g: Graph, n: nat, walks: map<Id, Walk>, k: nat, w0: Walk, w: Walk, working: seq<Loc>)
    requires WalksOk(g, n, walks) && Closed(g, w0) && 2 <= k
    requires forall x :: x in walks ==> Full(g, n, x, walks[x])
    requires n > 0 && Level(working, k, n) && Filling(walks, k, w0, w, working)
    ensures Closed(g, w)
  {
    hide WalkOk, Onward;
    OnwardKeepsWhen(walks, k, w0, w, working);
    forall x | x in w.doneIds ensures Next(g, x) <= w.walkIds {
      if x !in w0.doneIds {
        assert DoneBy(walks, w0, working, x);
        var l :| l in working && l != "" && Prev(l) in w0.locations && x in w0.locations[Prev(l)];
        LocParts(Prev(l), "c");
        LocParts(Prev(l), "p");
        WalkNext(g, n, walks, x, w0.locations[Prev(l)]);
      }
    }
  }

  lemma OnwardKeepsWhen(walks: map<Id, Walk>, k: nat, w0: Walk, w: Walk, working: seq<Loc>)
    requires Filling(walks, k, w0, w, working)
    ensures w0.walkIds <= w.walkIds && w0.doneIds <= w.doneIds
  {
    OnwardKeeps(w0, w);
  }

  lemma WalkNext(g: Graph, n: nat, walks: map<Id, Walk>, x: Id, ids: set<Id>)
    requires WalksOk(g, n, walks) && n > 0 && x in walks && x in ids && Full(g, n, x, walks[x])
    ensures Next(g, x) <= CachedNext(walks, ids, "c") + CachedNext(walks, ids, "p")
  {
    CachedExact(g, n, walks, x);
    hide WalksOk;
  }

  lemma FillOneOk(g: Graph, n: nat, o: Id, walks: map<Id, Walk>, allNodes: set<Id>, w: Walk, l: Loc)
    requires WalkOk(g, n, o, w) && WalksOk(g, n, walks) && 2 <= |l| <= n && (Tag(l) == "c" || Tag(l) == "p")
    ensures WalkOk(g, n, o, FillOne(walks, allNodes, w, l))
  {
    hide WalkOk, WalksOk, CachedNext;
    if Prev(l) in w.locations {
      FilledOk(g, n, o, w, l, w.locations[Prev(l)], walks);
      var v := Filled(w, l, CachedNext(walks, w.locations[Prev(l)], Tag(l)) - w.walkIds);
      SameOk(g, n, o, v, v.(doneLocs := v.doneLocs + {Prev(l)}, doneIds := v.doneIds + w.locations[Prev(l)]));
    }
  }

  lemma {:induction false} FillLevelOk(g: Graph, n: nat, o: Id, walks: map<Id, Walk>, allNodes: set<Id>, k: nat, w: Walk,
                                       working: seq<Loc>)
    requires WalkOk(g, n, o, w) && WalksOk(g, n, walks)
    requires forall l :: l in working ==> |l| == k && 2 <= k <= n && (Tag(l) == "c" || Tag(l) == "p")
    ensures WalkOk(g, n, o, FillLevel(walks, allNodes, w, working))
    decreases |working|
  {
    hide WalkOk, WalksOk, FillOne;
    if working != [] {
      var before, l := working[..|working| - 1], working[|working| - 1];
      FillLevelOk(g, n, o, walks, allNodes, k, w, before);
      FillOneOk(g, n, o, walks, allNodes, FillLevel(walks, allNodes, w, before), l);
    }
  }

  ghost predicate AllFull(g: Graph, n: nat, walks: map<Id, Walk>) {
    forall x :: x in walks ==> Full(g, n, x, walks[x])
  }

  // From w0 the walk has only gone on, and done what has a stored walk.
  ghost predicate FilledOn(walks: map<Id, Walk>, w0: Walk, w: Walk) {
    Onward(w0, w) && forall x :: x in w.doneIds && x !in w0.doneIds ==> x in walks
  }

  lemma FillLevelInv(g: Graph, n: nat, o: Id, walks: map<Id, Walk>, allNodes: set<Id>, k: nat, w: Walk, working: seq<Loc>)
    requires BegunInv(g, n, o, w) && WalksOk(g, n, walks) && AllFull(g, n, walks)
    requires Level(working, k, n) && 2 <= k <= n
    ensures BegunInv(g, n, o, FillLevel(walks, allNodes, w, working))
    ensures FilledOn(walks, w, FillLevel(walks, allNodes, w, working))
  {
    var v := FillLevel(walks, allNodes, w, working);
    assert k in w.depths && n > 0;
    FillLevelOk(g, n, o, walks, allNodes, k, w, working);
    LevelFilling(walks, allNodes, n, k, w, working);
    hide WalkOk, WalksOk, FillLevel, Level, Full;
    LevelClosed(g, n, walks, k, w, v, working);
    OnwardPlaced(g, n, o, w, v);
    assert NearKnown(g, o, v);
    hide Onward, Placed, NearKnown, Closed;
  }

  lemma FilledOnJoin(walks: map<Id, Walk>, w: Walk, v: Walk, u: Walk)
    requires FilledOn(walks, w, v) && FilledOn(walks, v, u)
    ensures FilledOn(walks, w, u)
  {
    OnwardJoin(w, v, u);
  }

  lemma {:induction false} FillFromInv(g: Graph, n: nat, o: Id, walks: map<Id, Walk>, allNodes: set<Id>, w: Walk,
                                       working: seq<Loc>, depth: nat)
    requires BegunInv(g, n, o, w) && WalksOk(g, n, walks) && AllFull(g, n, walks)
    requires Level(working, depth, n) && 2 <= depth
    ensures BegunInv(g, n, o, FillFrom(walks, allNodes, n, w, working, depth))
    ensures FilledOn(walks, w, FillFrom(walks, allNodes, n, w, working, depth))
    decreases n + 1 - depth
  {
    hide BegunInv, WalksOk, AllFull, FillLevel, LongerLocs;
    if working == [] || depth > n {
      NothingFilled(g, n, o, walks, w);
    } else {
      var v := FillLevel(walks, allNodes, w, working);
      FillLevelInv(g, n, o, walks, allNodes, depth, w, working);
      NextLevel(working, v, depth, n);
      hide Level, FilledOn;
      FillFromInv(g, n, o, walks, allNodes, v, LongerLocs(working, v, n), depth + 1);
      FilledOnJoin(walks, w, v, FillFrom(walks, allNodes, n, v, LongerLocs(working, v, n), depth + 1));
    }
  }

  lemma NothingFilled(g: Graph, n: nat, o: Id, walks: map<Id, Walk>, w: Walk)
    ensures FilledOn(walks, w, w)
  {
  }

  // Filling a begun walk keeps it so; what it takes as done has a stored walk,
  // and has been gone on from.
  lemma PopulatedInv(g: Graph, n: nat, o: Id, walks: map<Id, Walk>, allNodes: set<Id>, w: Walk)
    requires BegunInv(g, n, o, w) && WalksOk(g, n, walks) && AllFull(g, n, walks)
    ensures BegunInv(g, n, o, Populated(walks, allNodes, n, w))
    ensures Onward(w, Populated(walks, allNodes, n, w))
    ensures forall x :: x in Populated(walks, allNodes, n, w).doneIds && x !in w.doneIds ==>
              x in walks && Next(g, x) <= Populated(walks, allNodes, n, w).walkIds
  {
    FirstLevel(w, n);
    FillFromInv(g, n, o, walks, allNodes, w, FirstLocs(w, n), 2);
    hide WalkOk, Placed, NearKnown, Onward;
  }

  lemma FreshStays(walks: map<Id, Walk>, allNodes: set<Id>, n: nat, w: Walk)
    requires w.locations == map[]
    ensures Populated(walks, allNodes, n, w) == w
  {
  }

  /* ---- the rounds of the walk ---- */

  // The locations of locs have been explored, in some order.
  ghost predicate ExploresAll(g: Graph, o: Id, w: Walk, locs: set<Loc>, v: Walk)
    decreases locs
  {
    if locs == {} then v == w
    else exists l, m :: l in locs && ExploresAll(g, o, w, locs - {l}, m) &&
                        1 in m.depths && |l| + 1 in m.depths && v == Explored(g, o, m, l)
  }

  // k rounds, each of which found something.
  ghost predicate Rounds(g: Graph, n: nat, o: Id, w: Walk, v: Walk, k: nat)
    decreases k
  {
    if k == 0 then v == w
    else exists m :: Rounds(g, n, o, w, m, k - 1) && ExploresAll(g, o, m, Selected(n, o, m), v) && v.walkIds != m.walkIds
  }

  // The walk from w has ended with v: after some rounds, one that found nothing.
  ghost predicate Walked(g: Graph, n: nat, o: Id, w: Walk, v: Walk) {
    exists m, k :: Rounds(g, n, o, w, m, k) && ExploresAll(g, o, m, Selected(n, o, m), v) && v.walkIds == m.walkIds
  }

  lemma ExploredKnown(g: Graph, n: nat, o: Id, w: Walk, loc: Loc)
    requires NearKnown(g, o, w) && g.defined(o) && 1 in w.depths && |loc| + 1 in w.depths
    requires loc == "" ==> Next(g, o) <= w.walkIds
    ensures NearKnown(g, o, Explored(g, o, w, loc))
  {
    var nodes := Frontier(o, w, loc);
    var v := RegisteredFor(g, o, w, nodes);
    assert NearKnown(g, o, v);
    assert v.walkIds == w.walkIds;
    var cs, ps := ChildrenOf(g, nodes) - v.walkIds, ParentsOf(g, nodes) - v.walkIds;
    if loc == "" {
      OriginNear(g, o);
      assert nodes <= {o};
      assert cs == {} && ps == {};
    } else {
      assert loc + "c" != "c" && loc + "p" != "p" && loc + "c" != "p" && loc + "p" != "c";
    }
    hide ChildrenOf, ParentsOf;
  }

  lemma ExploredOnward(g: Graph, n: nat, o: Id, w: Walk, loc: Loc)
    requires Placed(g, n, o, w) && 1 in w.depths && |loc| + 1 in w.depths
    ensures Onward(w, Explored(g, o, w, loc))
    ensures w.doneLocs <= Explored(g, o, w, loc).doneLocs && (loc != "" ==> loc in Explored(g, o, w, loc).doneLocs)
  {
    var nodes := Frontier(o, w, loc);
    var v, u := RegisteredFor(g, o, w, nodes), Explored(g, o, w, loc);
    SameDepths(g, n, o, w, nodes);
    var cs, ps := ChildrenOf(g, nodes) - v.walkIds, ParentsOf(g, nodes) - v.walkIds;
    var found := cs + ps;
    assert w.depths[|loc| + 1] + cs + ps == w.depths[|loc| + 1] + found && w.walkIds + cs + ps == w.walkIds + found;
    if loc == "" {
      OriginNear(g, o);
      assert found == {} by {
        assert nodes <= {o};
        if nodes == {} { NoneNear(g); }
      }
    }
    assert u.depths == w.depths[|loc| + 1 := w.depths[|loc| + 1] + found] && u.walkIds == w.walkIds + found;
    hide ChildrenOf, ParentsOf, Put, Put0, RegisteredFor, Explored;
    if loc != "" {
      FoundOnward(w, u, |loc| + 1, found);
    } else {
      assert u.depths == w.depths && u.walkIds == w.walkIds;
    }
  }

  lemma NoneNear(g: Graph)
    ensures ChildrenOf(g, {}) == {} && ParentsOf(g, {}) == {}
  {
  }

  // Registering the origin again does not change its depths.
  lemma SameDepths(g: Graph, n: nat, o: Id, w: Walk, nodes: set<Id>)
    requires Placed(g, n, o, w)
    ensures var v := RegisteredFor(g, o, w, nodes); v.depths == w.depths && v.walkIds == w.walkIds && v.doneIds == w.doneIds
  {
    assert w.depths[1] + g.children(o) + g.parents(o) == w.depths[1];
  }

  lemma FoundOnward(w: Walk, v: Walk, d: nat, found: set<Id>)
    requires d in w.depths && d > 1 && found !! w.walkIds
    requires v.depths == w.depths[d := w.depths[d] + found] && v.walkIds == w.walkIds + found
    requires w.doneIds <= v.doneIds && w.orphans <= v.orphans
    ensures Onward(w, v)
  {
    assert v.depths.Keys == w.depths.Keys;
  }

  lemma ExploredClosed(g: Graph, n: nat, o: Id, w: Walk, loc: Loc)
    requires Closed(g, w) && NearKnown(g, o, w) && 1 in w.depths && |loc| + 1 in w.depths
    requires NearKnown(g, o, Explored(g, o, w, loc))
    ensures Closed(g, Explored(g, o, w, loc))
  {
    var nodes, v := Frontier(o, w, loc), Explored(g, o, w, loc);
    ExploredSets(g, o, w, loc);
    hide Explored;
    forall x | x in v.doneIds ensures Next(g, x) <= v.walkIds {
      if x !in w.doneIds {
        assert x in nodes;
        assert Next(g, x) <= ChildrenOf(g, nodes) + ParentsOf(g, nodes);
      }
    }
    assert loc == "c" && "c" in v.locations ==> v.locations["c"] <= v.doneIds;
    assert loc == "p" && "p" in v.locations ==> v.locations["p"] <= v.doneIds;
  }

  lemma ExploredInv(g: Graph, n: nat, o: Id, w: Walk, loc: Loc)
    requires BegunInv(g, n, o, w) && |loc| < n && (loc == "" || loc in w.locations)
    requires loc == "" ==> o !in w.doneIds
    ensures 1 in w.depths && |loc| + 1 in w.depths && BegunInv(g, n, o, Explored(g, o, w, loc))
    ensures Onward(w, Explored(g, o, w, loc)) && w.locations.Keys <= Explored(g, o, w, loc).locations.Keys
    ensures w.doneLocs <= Explored(g, o, w, loc).doneLocs && (loc != "" ==> loc in Explored(g, o, w, loc).doneLocs)
  {
    ExploredOk(g, n, o, w, loc);
    hide WalkOk, Explored;
    ExploredKnown(g, n, o, w, loc);
    ExploredClosed(g, n, o, w, loc);
    ExploredOnward(g, n, o, w, loc);
    ExploredKeeps(g, o, w, loc);
    OnwardPlaced(g, n, o, w, Explored(g, o, w, loc));
    hide Placed, NearKnown, Closed, Onward;
  }

  // Each location of locs can be explored in its turn.
  ghost predicate Explorable(n: nat, o: Id, w: Walk, locs: set<Loc>) {
    && (forall l :: l in locs ==> |l| < n && (l == "" || l in w.locations))
    && ("" in locs ==> locs == {""} && o !in w.doneIds)
  }

  ghost predicate Later(w: Walk, v: Walk) {
    Onward(w, v) && w.locations.Keys <= v.locations.Keys && w.doneLocs <= v.doneLocs
  }

  lemma LaterJoin(w: Walk, v: Walk, u: Walk)
    requires Later(w, v) && Later(v, u)
    ensures Later(w, u)
  {
    OnwardJoin(w, v, u);
    hide Onward;
  }

  lemma {:induction false} ExploresAllInv(g: Graph, n: nat, o: Id, w: Walk, locs: set<Loc>, v: Walk)
    requires BegunInv(g, n, o, w) && Explorable(n, o, w, locs) && ExploresAll(g, o, w, locs, v)
    ensures BegunInv(g, n, o, v) && Later(w, v)
    ensures forall l :: l in locs && l != "" ==> l in v.doneLocs
    decreases locs
  {
    hide BegunInv, Explored, Onward;
    if locs == {} {
      NoneExplored(w);
    } else {
      var l, m :| l in locs && ExploresAll(g, o, w, locs - {l}, m) &&
                  1 in m.depths && |l| + 1 in m.depths && v == Explored(g, o, m, l);
      ExploresAllInv(g, n, o, w, locs - {l}, m);
      if l == "" { assert locs - {l} == {}; }
      ExploredInv(g, n, o, m, l);
      LaterJoin(w, m, v);
      forall k | k in locs && k != "" ensures k in v.doneLocs {
        if k != l { assert k in locs - {l}; }
      }
    }
  }

  lemma NoneExplored(w: Walk)
    ensures Later(w, w)
  {
  }

  lemma SelectedExplorable(g: Graph, n: nat, o: Id, w: Walk)
    requires BegunInv(g, n, o, w)
    ensures Explorable(n, o, w, Selected(n, o, w))
  {
  }

  lemma {:induction false} RoundsInv(g: Graph, n: nat, o: Id, w: Walk, v: Walk, k: nat)
    requires BegunInv(g, n, o, w) && Rounds(g, n, o, w, v, k)
    ensures BegunInv(g, n, o, v) && Later(w, v)
    decreases k
  {
    hide BegunInv, Onward, ExploresAll, Explorable;
    if k == 0 {
      NoneExplored(w);
    } else {
      var m :| Rounds(g, n, o, w, m, k - 1) && ExploresAll(g, o, m, Selected(n, o, m), v) && v.walkIds != m.walkIds;
      RoundsInv(g, n, o, w, m, k - 1);
      SelectedExplorable(g, n, o, m);
      ExploresAllInv(g, n, o, m, Selected(n, o, m), v);
      LaterJoin(w, m, v);
    }
  }

  // At the end everything at depth 1 has been gone on from.
  lemma WalkedInv(g: Graph, n: nat, o: Id, w: Walk, v: Walk)
    requires BegunInv(g, n, o, w) && Walked(g, n, o, w, v)
    ensures BegunInv(g, n, o, v) && Later(w, v)
    ensures n > 1 ==> forall x :: x in Next(g, o) ==> x in v.doneIds
  {
    var m, k :| Rounds(g, n, o, w, m, k) && ExploresAll(g, o, m, Selected(n, o, m), v) && v.walkIds == m.walkIds;
    RoundsInv(g, n, o, w, m, k);
    hide Placed, NearKnown, Closed, Onward, Rounds, ExploresAll, Explorable, Selected;
    SelectedExplorable(g, n, o, m);
    ExploresAllInv(g, n, o, m, Selected(n, o, m), v);
    LaterJoin(w, m, v);
    if n > 1 { NearDone(g, n, o, m, v); }
  }

  lemma NearDone(g: Graph, n: nat, o: Id, m: Walk, v: Walk)
    requires n > 1 && g.defined(o) && NearKnown(g, o, m) && NearKnown(g, o, v) && Closed(g, v)
    requires m.doneLocs <= v.doneLocs && forall l :: l in Selected(n, o, m) && l != "" ==> l in v.doneLocs
    ensures forall x :: x in Next(g, o) ==> x in v.doneIds
  {
    SelectedOr(n, o, m, "c");
    SelectedOr(n, o, m, "p");
    hide Selected;
    forall x | x in Next(g, o) ensures x in v.doneIds {
      assert x in g.children(o) || x in g.parents(o);
    }
  }

  lemma SelectedOr(n: nat, o: Id, m: Walk, l: Loc)
    requires |l| < n
    ensures l in m.locations ==> l in Selected(n, o, m) || l in m.doneLocs
  {
    if l in m.locations && l !in m.doneLocs {
      var locs := set k | k in m.locations && |k| < n && k !in m.doneLocs;
      assert l in locs;
    }
  }

  // Whatever the walks before, all nodes up to two steps away are found, and up
  // to an edge distance of two the depths are exact.
  lemma WalkedReaches(g: Graph, n: nat, o: Id, v: Walk)
    requires BegunInv(g, n, o, v)
    requires n > 1 ==> forall x :: x in Next(g, o) ==> x in v.doneIds
    ensures Ball(g, o, if n < 2 then n else 2) <= v.walkIds
    ensures n <= 2 ==> Exact(g, o, n, v)
  {
    if n == 1 {
      OneStep(g, o, v);
    } else {
      TwoSteps(g, n, o, v);
      if n == 2 { TwoExact(g, o, v); }
    }
  }

  lemma OneStep(g: Graph, o: Id, v: Walk)
    requires BegunInv(g, 1, o, v)
    ensures Ball(g, o, 1) <= v.walkIds && Exact(g, o, 1, v)
  {
    BallOne(g, o);
    hide Ball, NearKnown, Closed, Next;
    assert Sphere(g, o, 1) == Ball(g, o, 1) - Ball(g, o, 0);
    assert v.depths[1] == Sphere(g, o, 1) + SelfDepth(g, o, 1);
  }

  lemma TwoSteps(g: Graph, n: nat, o: Id, v: Walk)
    requires n > 1 && BegunInv(g, n, o, v) && forall x :: x in Next(g, o) ==> x in v.doneIds
    ensures Ball(g, o, 2) <= v.walkIds
  {
    BallOne(g, o);
    BallUnfold(g, o, 1);
    hide Ball, WalkOk, NearKnown;
    forall x | x in Ball(g, o, 2) ensures x in v.walkIds {
      if x !in Ball(g, o, 1) {
        var y :| y in Ball(g, o, 1) && x in Next(g, y);
      }
    }
  }

  lemma TwoExact(g: Graph, o: Id, v: Walk)
    requires BegunInv(g, 2, o, v) && Ball(g, o, 2) <= v.walkIds
    ensures Exact(g, o, 2, v)
  {
    BallOne(g, o);
    BallUnfold(g, o, 1);
    BallUnfold(g, o, 0);
    hide Ball, NearKnown, Closed, NextOf, Next;
    assert v.depths[1] == Sphere(g, o, 1) + SelfDepth(g, o, 1);
    assert v.depths[2] == Sphere(g, o, 2) by {
      forall x ensures x in v.depths[2] <==> x in Sphere(g, o, 2) {
        if x in Sphere(g, o, 2) {
          var d :| d in v.depths && d > 1 && x in v.depths[d];
        }
      }
    }
  }
}
