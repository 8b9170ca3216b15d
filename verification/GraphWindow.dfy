// The n-edge window about an active task (data_store_mgr.py:
// increment_graph_window, window_depth_finder).

module GraphDistance {

  type Id = string

  // The task graph: the children and parents of a node within the final point,
  // and the nodes whose task is defined.  Nothing leads on from an orphan.
  datatype Graph = Graph(children: Id -> set<Id>, parents: Id -> set<Id>, defined: Id -> bool)

  ghost function Next(g: Graph, n: Id): set<Id> {
    if g.defined(n) then g.children(n) + g.parents(n) else {}
  }

  ghost function NextOf(g: Graph, ns: set<Id>): set<Id> {
    set n, m | n in ns && m in Next(g, n) :: m
  }

  // The nodes at most k steps from o.
  ghost function Ball(g: Graph, o: Id, k: nat): set<Id> {
    if k == 0 then {o} else Ball(g, o, k - 1) + NextOf(g, Ball(g, o, k - 1))
  }

  // The nodes at distance k from o.
  ghost function Sphere(g: Graph, o: Id, k: nat): set<Id> {
    if k == 0 then {o} else Ball(g, o, k) - Ball(g, o, k - 1)
  }

  ghost predicate Path(g: Graph, p: seq<Id>, o: Id, x: Id) {
    && |p| > 0 && p[0] == o && p[|p| - 1] == x
    && forall i :: 0 <= i < |p| - 1 ==> p[i + 1] in Next(g, p[i])
  }

  lemma {:induction false} PathIsInBall(g: Graph, p: seq<Id>, o: Id, x: Id)
    requires Path(g, p, o, x)
    ensures x in Ball(g, o, |p| - 1)
    decreases |p|
  {
    if |p| > 1 {
      var q := p[..|p| - 1];
      PathIsInBall(g, q, o, q[|q| - 1]);
      assert x in Next(g, q[|q| - 1]);
    }
  }

  lemma {:induction false} BallGrows(g: Graph, o: Id, j: nat, k: nat)
    requires j <= k
    ensures Ball(g, o, j) <= Ball(g, o, k)
    decreases k
  {
    if j < k { BallGrows(g, o, j, k - 1); }
  }

  lemma {:induction false} BallHasPath(g: Graph, o: Id, k: nat, x: Id) returns (p: seq<Id>)
    requires x in Ball(g, o, k)
    ensures Path(g, p, o, x) && |p| <= k + 1
    decreases k
  {
    if k == 0 {
      p := [o];
    } else if x in Ball(g, o, k - 1) {
      p := BallHasPath(g, o, k - 1, x);
    } else {
      var n :| n in Ball(g, o, k - 1) && x in Next(g, n);
      p := BallHasPath(g, o, k - 1, n);
      p := p + [x];
    }
  }

  // Distance is the length of a shortest child-or-parent path.
  lemma SphereIsShortest(g: Graph, o: Id, k: nat, x: Id)
    ensures x in Sphere(g, o, k) <==>
            (exists p :: Path(g, p, o, x) && |p| == k + 1) && (forall p :: Path(g, p, o, x) ==> |p| >= k + 1)
  {
    if x in Sphere(g, o, k) {
      forall p | Path(g, p, o, x) ensures |p| >= k + 1 {
        PathIsInBall(g, p, o, x);
        if |p| < k + 1 { BallGrows(g, o, |p| - 1, k - 1); }
      }
      var p := BallHasPath(g, o, k, x);
    }
    if p :| Path(g, p, o, x) && |p| == k + 1 {
      PathIsInBall(g, p, o, x);
      if k > 0 && x in Ball(g, o, k - 1) {
        var q := BallHasPath(g, o, k - 1, x);
      }
    }
  }

  lemma NextOfBall(g: Graph, o: Id, ns: set<Id>, k: nat)
    requires ns <= Ball(g, o, k)
    ensures NextOf(g, ns) <= Ball(g, o, k + 1)
  {
  }

  // Once a step adds nothing, nothing is added any more.
  lemma {:induction false} BallStops(g: Graph, o: Id, k: nat, j: nat)
    requires Ball(g, o, k + 1) == Ball(g, o, k) && k <= j
    ensures Ball(g, o, j) == Ball(g, o, k)
    decreases j
  {
    if k < j { BallStops(g, o, k, j - 1); }
  }
}

module GraphWindow {
  import opened GraphDistance

  // A location tags the way from the origin: "cpc" is children, parents, children.
  type Loc = string

  datatype Walk = Walk(locations: map<Loc, set<Id>>, orphans: set<Id>, doneLocs: set<Loc>, doneIds: set<Id>,
                       walkIds: set<Id>, depths: map<nat, set<Id>>)

  // {depth: set() for depth in range(1, n + 1)}
  function EmptyDepths(n: nat): (m: map<nat, set<Id>>)
    ensures forall d :: d in m <==> 1 <= d <= n
    ensures forall d :: d in m ==> m[d] == {}
  {
    if n == 0 then map[] else EmptyDepths(n - 1)[n := {}]
  }

  function NewWalk(o: Id, near: set<Id>, n: nat): Walk {
    Walk(map[], {}, {}, {}, {o} + near, EmptyDepths(n))
  }

  function At<K, V>(m: map<K, set<V>>, k: K): set<V> {
    if k in m then m[k] else {}
  }

  // setdefault(k, set()).update(vs), where vs is not empty
  function Put<K, V>(m: map<K, set<V>>, k: K, vs: set<V>): map<K, set<V>> {
    if vs == {} then m else m[k := At(m, k) + vs]
  }

  /* ---- the exploration of one location: the specification ---- */

  ghost function ChildrenOf(g: Graph, ns: set<Id>): set<Id> {
    set n, m | n in ns && g.defined(n) && m in g.children(n) :: m
  }

  ghost function ParentsOf(g: Graph, ns: set<Id>): set<Id> {
    set n, m | n in ns && g.defined(n) && m in g.parents(n) :: m
  }

  function Put0<K, V>(m: map<K, set<V>>, k: K, vs: set<V>): map<K, set<V>> {
    if vs == {} then m else m[k := vs]
  }

  // The stores of a registration: the children and parents just generated.
  function Register(w: Walk, nc: set<Id>, np: set<Id>): Walk
    requires 1 in w.depths
  {
    w.(locations := Put0(Put0(w.locations, "c", nc), "p", np),
       depths := w.depths[1 := w.depths[1] + nc + np])
  }

  // The origin's own registration goes into its walk.
  ghost function RegisteredFor(g: Graph, o: Id, w: Walk, nodes: set<Id>): Walk
    requires 1 in w.depths
  {
    if o in nodes && g.defined(o) then Register(w, g.children(o), g.parents(o)) else w
  }

  ghost function LocNodes(o: Id, w: Walk, loc: Loc): set<Id> {
    if loc == "" then {o} else At(w.locations, loc)
  }

  // The nodes of a location that have not been walked yet.
  ghost function Frontier(o: Id, w: Walk, loc: Loc): set<Id> {
    LocNodes(o, w, loc) - w.doneIds
  }

  ghost function Explored(g: Graph, o: Id, w0: Walk, loc: Loc): Walk
    requires 1 in w0.depths && |loc| + 1 in w0.depths
  {
    var nodes := Frontier(o, w0, loc);
    var w := RegisteredFor(g, o, w0, nodes);
    var cs, ps := ChildrenOf(g, nodes) - w.walkIds, ParentsOf(g, nodes) - w.walkIds;
    Walk(Put(Put(w.locations, loc + "c", cs), loc + "p", ps),
         w.orphans + (set n | n in nodes && !g.defined(n)),
         w.doneLocs + (if loc == "" then {} else {loc}),
         w.doneIds + nodes,
         w.walkIds + cs + ps,
         w.depths[|loc| + 1 := w.depths[|loc| + 1] + cs + ps])
  }

  /* ---- a fresh walk, round by round ---- */

  // The origin counts among its own neighbours once it has been expanded.
  ghost function SelfAt(g: Graph, o: Id, doneIds: set<Id>, d: nat): set<Id> {
    if d == 1 && o in doneIds && o in Next(g, o) then {o} else {}
  }

  ghost predicate Pending(o: Id, w: Walk, todo: set<Loc>, x: Id) {
    exists l :: l in todo && x in LocNodes(o, w, l)
  }

  ghost predicate Located(w: Walk, k: nat, x: Id) {
    exists l :: l in w.locations && |l| == k && x in w.locations[l]
  }

  // Round k expands the nodes at distance k; todo holds the locations still to do.
  ghost predicate MidIds(g: Graph, o: Id, k: nat, w: Walk, todo: set<Loc>) {
    && (k > 0 ==> Ball(g, o, k - 1) <= w.doneIds)
    && w.doneIds <= Ball(g, o, k)
    && (forall x {:trigger Pending(o, w, todo, x)} :: x in Ball(g, o, k) && x !in w.doneIds ==> Pending(o, w, todo, x))
    && w.walkIds == Ball(g, o, k) + NextOf(g, w.doneIds)
  }

  ghost predicate MidLocs(g: Graph, o: Id, k: nat, w: Walk, todo: set<Loc>) {
    && (forall l :: l in todo ==> |l| == k && (k > 0 ==> l in w.locations))
    && (forall l :: l in w.locations ==> 1 <= |l| <= k + 1 && w.locations[l] <= Ball(g, o, |l|))
    && (forall l :: l in w.locations && |l| <= k ==> l in w.doneLocs || l in todo)
    && (forall l :: l in w.doneLocs ==> |l| <= k && l !in todo)
    && (forall x {:trigger Located(w, k + 1, x)} :: x in NextOf(g, w.doneIds) && x !in Ball(g, o, k) ==> Located(w, k + 1, x))
  }

  ghost predicate MidDepths(g: Graph, o: Id, n: nat, k: nat, w: Walk) {
    && (forall d :: d in w.depths <==> 1 <= d <= n)
    && (forall d :: d in w.depths ==>
          w.depths[d] == SelfAt(g, o, w.doneIds, d) +
                         if d <= k then Sphere(g, o, d)
                         else if d == k + 1 then NextOf(g, w.doneIds) - Ball(g, o, k)
                         else {})
  }

  ghost predicate MidRound(g: Graph, o: Id, n: nat, k: nat, w: Walk, todo: set<Loc>) {
    k < n && MidIds(g, o, k, w, todo) && MidLocs(g, o, k, w, todo) && MidDepths(g, o, n, k, w)
  }

  lemma NextOfNodes(g: Graph, done: set<Id>, nodes: set<Id>)
    ensures NextOf(g, done + nodes) == NextOf(g, done) + ChildrenOf(g, nodes) + ParentsOf(g, nodes)
  {
    var a, b := NextOf(g, done + nodes), NextOf(g, done) + ChildrenOf(g, nodes) + ParentsOf(g, nodes);
    forall m | m in a ensures m in b {
      var x :| x in done + nodes && m in Next(g, x);
      if x in nodes { assert m in g.children(x) || m in g.parents(x); }
    }
    forall m | m in b ensures m in a {
      if m in ChildrenOf(g, nodes) {
        var x :| x in nodes && g.defined(x) && m in g.children(x);
        assert m in Next(g, x);
      } else if m in ParentsOf(g, nodes) {
        var x :| x in nodes && g.defined(x) && m in g.parents(x);
        assert m in Next(g, x);
      }
    }
  }

  // The ids: everything but the locations and depths.
  lemma ExploredSets(g: Graph, o: Id, w: Walk, loc: Loc)
    requires 1 in w.depths && |loc| + 1 in w.depths
    ensures var w', nodes := Explored(g, o, w, loc), Frontier(o, w, loc);
            && w'.doneIds == w.doneIds + nodes
            && w'.walkIds == w.walkIds + ChildrenOf(g, nodes) + ParentsOf(g, nodes)
            && w'.doneLocs == w.doneLocs + (if loc == "" then {} else {loc})
            && NextOf(g, w'.doneIds) == NextOf(g, w.doneIds) + ChildrenOf(g, nodes) + ParentsOf(g, nodes)
  {
    hide ChildrenOf, ParentsOf, NextOf;
    var w', nodes := Explored(g, o, w, loc), Frontier(o, w, loc);
    NextOfNodes(g, w.doneIds, nodes);
    assert w'.walkIds == w.walkIds + ChildrenOf(g, nodes) + ParentsOf(g, nodes);
  }

  // Locations of other lengths stay; those one longer grow by what is new.
  // (The origin's own children and parents are stored at length 1.)
  lemma ExploredLocs(g: Graph, o: Id, w: Walk, loc: Loc, l: Loc)
    requires 1 in w.depths && |loc| + 1 in w.depths
    ensures var w', nodes := Explored(g, o, w, loc), Frontier(o, w, loc);
            && (|l| != |loc| + 1 && (o in nodes ==> |l| != 1) ==>
                  (l in w'.locations <==> l in w.locations) && LocNodes(o, w', l) == LocNodes(o, w, l))
            && (l in w'.locations && l !in w.locations ==> |l| == |loc| + 1 || |l| == 1)
            && (o !in nodes ==> At(w'.locations, l) <= At(w.locations, l) + ChildrenOf(g, nodes) + ParentsOf(g, nodes))
            && (o !in nodes ==> At(w.locations, l) <= At(w'.locations, l))
  {
    hide ChildrenOf, ParentsOf;
  }

  lemma ExploredNew(g: Graph, o: Id, w: Walk, loc: Loc, x: Id)
    requires 1 in w.depths && |loc| + 1 in w.depths
    requires x in ChildrenOf(g, Frontier(o, w, loc)) + ParentsOf(g, Frontier(o, w, loc)) && x !in w.walkIds
    ensures Located(Explored(g, o, w, loc), |loc| + 1, x)
  {
    hide ChildrenOf, ParentsOf;
    var w', nodes := Explored(g, o, w, loc), Frontier(o, w, loc);
    var l := loc + if x in ChildrenOf(g, nodes) then "c" else "p";
    assert |l| == |loc| + 1 && l in w'.locations && x in w'.locations[l];
  }

  lemma ExploredStillLocated(g: Graph, o: Id, w: Walk, loc: Loc, k: nat, x: Id)
    requires 1 in w.depths && |loc| + 1 in w.depths && o !in Frontier(o, w, loc)
    requires Located(w, k, x)
    ensures Located(Explored(g, o, w, loc), k, x)
  {
    var l :| l in w.locations && |l| == k && x in w.locations[l];
    ExploredLocs(g, o, w, loc, l);
    hide Explored;
    assert x in At(Explored(g, o, w, loc).locations, l);
  }

  // Round k > 0: the origin is behind, one location is explored.
  ghost predicate Step(g: Graph, o: Id, n: nat, k: nat, w: Walk, todo: set<Loc>, loc: Loc) {
    0 < k && MidRound(g, o, n, k, w, todo) && loc in todo
  }

  lemma BallZero(g: Graph, o: Id)
    ensures Ball(g, o, 0) == {o} && Sphere(g, o, 0) == {o}
  {
  }

  lemma StepFacts(g: Graph, o: Id, n: nat, k: nat, w: Walk, todo: set<Loc>, loc: Loc)
    requires Step(g, o, n, k, w, todo, loc)
    ensures |loc| == k && 1 in w.depths && k + 1 in w.depths
    ensures loc in w.locations && w.locations[loc] <= Ball(g, o, k)
    ensures o in w.doneIds && o !in Frontier(o, w, loc)
    ensures Frontier(o, w, loc) <= Ball(g, o, k)
  {
    hide Ball, NextOf, Sphere, SelfAt, Pending, Located;
    BallZero(g, o);
    BallGrows(g, o, 0, k - 1);
  }

  lemma StepIds(g: Graph, o: Id, n: nat, k: nat, w: Walk, todo: set<Loc>, loc: Loc)
    requires Step(g, o, n, k, w, todo, loc) && 1 in w.depths && |loc| + 1 in w.depths
    ensures MidIds(g, o, k, Explored(g, o, w, loc), todo - {loc})
  {
    hide Explored, Ball, ChildrenOf, ParentsOf, NextOf, MidDepths;
    StepFacts(g, o, n, k, w, todo, loc);
    ExploredSets(g, o, w, loc);
    var w', nodes := Explored(g, o, w, loc), Frontier(o, w, loc);
    forall x | x in Ball(g, o, k) && x !in w'.doneIds
      ensures Pending(o, w', todo - {loc}, x)
    {
      assert Pending(o, w, todo, x);
      var l :| l in todo && x in LocNodes(o, w, l);
      assert |l| == k && l != loc;
      ExploredLocs(g, o, w, loc, l);
    }
  }

  lemma StepLocs(g: Graph, o: Id, n: nat, k: nat, w: Walk, todo: set<Loc>, loc: Loc)
    requires Step(g, o, n, k, w, todo, loc) && 1 in w.depths && |loc| + 1 in w.depths
    ensures MidLocs(g, o, k, Explored(g, o, w, loc), todo - {loc})
  {
    hide Explored, Ball, ChildrenOf, ParentsOf, NextOf, MidDepths;
    StepFacts(g, o, n, k, w, todo, loc);
    ExploredSets(g, o, w, loc);
    hide MidIds;
    var w', nodes := Explored(g, o, w, loc), Frontier(o, w, loc);
    forall l | l in w'.locations
      ensures 1 <= |l| <= k + 1 && w'.locations[l] <= Ball(g, o, |l|)
      ensures |l| <= k ==> l in w'.doneLocs || l in todo - {loc}
    {
      ExploredLocs(g, o, w, loc, l);
      if |l| == k + 1 {
        NextOfNodes(g, {}, nodes);
        NextOfBall(g, o, {} + nodes, k);
        assert w'.locations[l] == At(w'.locations, l);
      } else {
        assert w'.locations[l] == LocNodes(o, w', l) || l == "";
      }
    }
    forall l | l in todo - {loc} ensures l in w'.locations {
      ExploredLocs(g, o, w, loc, l);
    }
    forall x | x in NextOf(g, w'.doneIds) && x !in Ball(g, o, k)
      ensures Located(w', k + 1, x)
    {
      if x in NextOf(g, w.doneIds) {
        assert Located(w, k + 1, x);
        ExploredStillLocated(g, o, w, loc, k + 1, x);
      } else {
        ExploredNew(g, o, w, loc, x);
      }
    }
  }

  lemma ExploredDepths(g: Graph, o: Id, w: Walk, loc: Loc)
    requires 1 in w.depths && |loc| + 1 in w.depths && o !in Frontier(o, w, loc)
    ensures var nodes := Frontier(o, w, loc);
            Explored(g, o, w, loc).depths ==
              w.depths[|loc| + 1 := w.depths[|loc| + 1] +
                         ((ChildrenOf(g, nodes) + ParentsOf(g, nodes)) - w.walkIds)]
  {
    hide ChildrenOf, ParentsOf;
    var nodes := Frontier(o, w, loc);
    var cs, ps := ChildrenOf(g, nodes) - w.walkIds, ParentsOf(g, nodes) - w.walkIds;
    assert w.depths[|loc| + 1] + cs + ps == w.depths[|loc| + 1] + ((ChildrenOf(g, nodes) + ParentsOf(g, nodes)) - w.walkIds);
  }

  lemma StepDepths(g: Graph, o: Id, n: nat, k: nat, w: Walk, todo: set<Loc>, loc: Loc)
    requires Step(g, o, n, k, w, todo, loc) && 1 in w.depths && |loc| + 1 in w.depths
    ensures MidDepths(g, o, n, k, Explored(g, o, w, loc))
  {
    hide Explored, Ball, Sphere, ChildrenOf, ParentsOf, NextOf, MidLocs, Pending, Next;
    StepFacts(g, o, n, k, w, todo, loc);
    ExploredSets(g, o, w, loc);
    ExploredDepths(g, o, w, loc);
  }

  lemma StepKeepsRound(g: Graph, o: Id, n: nat, k: nat, w: Walk, todo: set<Loc>, loc: Loc)
    requires Step(g, o, n, k, w, todo, loc)
    ensures 1 in w.depths && |loc| + 1 in w.depths
    ensures MidRound(g, o, n, k, Explored(g, o, w, loc), todo - {loc})
  {
    hide MidIds, MidLocs, MidDepths, Explored;
    StepFacts(g, o, n, k, w, todo, loc);
    StepIds(g, o, n, k, w, todo, loc);
    StepLocs(g, o, n, k, w, todo, loc);
    StepDepths(g, o, n, k, w, todo, loc);
  }

  // The walk after the origin of an empty walk has been expanded.
  ghost predicate AfterOrigin(g: Graph, o: Id, n: nat, w: Walk) {
    && w.doneIds == {o} && w.doneLocs == {}
    && w.walkIds == {o} + Next(g, o)
    && w.locations.Keys <= {"c", "p"}
    && At(w.locations, "c") == g.children(o) && At(w.locations, "p") == g.parents(o)
    && w.depths == EmptyDepths(n)[1 := Next(g, o)]
  }

  // What is new is stored already, so a second store changes nothing.
  lemma StoredTwice(cs: set<Id>, ps: set<Id>, c: set<Id>, p: set<Id>)
    requires c <= cs && p <= ps
    ensures var m0: map<Loc, set<Id>> := map[];
            var m := Put(Put(Put0(Put0(m0, "c", cs), "p", ps), "c", c), "p", p);
            m.Keys <= {"c", "p"} && At(m, "c") == cs && At(m, "p") == ps
  {
    var m0: map<Loc, set<Id>> := map[];
    var m1 := Put0(Put0(m0, "c", cs), "p", ps);
    assert m1.Keys <= {"c", "p"} && At(m1, "c") == cs && At(m1, "p") == ps;
    assert At(m1, "c") + c == cs && At(m1, "p") + p == ps;
  }

  lemma OriginExplored(g: Graph, o: Id, n: nat, w: Walk)
    requires w == NewWalk(o, {}, n) && n > 0 && g.defined(o)
    ensures AfterOrigin(g, o, n, Explored(g, o, w, ""))
  {
    hide ChildrenOf, ParentsOf, Put, Put0, EmptyDepths;
    OriginNear(g, o);
    assert Frontier(o, w, "") == {o};
    var c, p := g.children(o) - {o}, g.parents(o) - {o};
    StoredTwice(g.children(o), g.parents(o), c, p);
    assert "" + "c" == "c" && "" + "p" == "p";
    var w' := Explored(g, o, w, "");
    assert w.walkIds == {o};
    assert w'.walkIds == {o} + Next(g, o);
    assert w'.doneIds == {o} && w'.doneLocs == {};
    assert c == ChildrenOf(g, {o}) - w.walkIds && p == ParentsOf(g, {o}) - w.walkIds;
    assert w'.depths[1] == Next(g, o);
    assert w'.depths == EmptyDepths(n)[1 := Next(g, o)];
    assert {} + g.children(o) + g.parents(o) + c + p == Next(g, o);
  }

  lemma OriginNear(g: Graph, o: Id)
    requires g.defined(o)
    ensures ChildrenOf(g, {o}) == g.children(o) && ParentsOf(g, {o}) == g.parents(o)
  {
  }

  // Round 0 expands the origin of an empty walk.
  lemma RoundZero(g: Graph, o: Id, n: nat, w: Walk)
    requires AfterOrigin(g, o, n, w) && n > 0 && g.defined(o)
    ensures MidRound(g, o, n, 0, w, {})
  {
    assert NextOf(g, {o}) == Next(g, o);
    BallOne(g, o);
    BallZero(g, o);
    hide Ball, NextOf, Sphere;
    forall x | x in Next(g, o) && x !in Ball(g, o, 0) ensures Located(w, 1, x) {
      var l := if x in g.children(o) then "c" else "p";
      assert |l| == 1 && l in w.locations && x in w.locations[l];
    }
    forall l | l in w.locations ensures |l| == 1 && w.locations[l] <= Ball(g, o, 1) {
      assert w.locations[l] == At(w.locations, l);
    }
  }

  lemma BallOne(g: Graph, o: Id)
    ensures Ball(g, o, 0) == {o} && Ball(g, o, 1) == {o} + Next(g, o)
  {
    assert NextOf(g, {o}) == Next(g, o);
  }

  ghost function SelfDepth(g: Graph, o: Id, d: nat): set<Id> {
    if d == 1 && o in Next(g, o) then {o} else {}
  }

  // Depth d holds the nodes at distance d; depth 1 also holds the origin when
  // that is a child or parent of itself.
  ghost predicate Exact(g: Graph, o: Id, n: nat, w: Walk) {
    && w.walkIds == Ball(g, o, n)
    && (forall d :: d in w.depths <==> 1 <= d <= n)
    && (forall d :: d in w.depths ==> w.depths[d] == Sphere(g, o, d) + SelfDepth(g, o, d))
  }

  // So depth 1 is the distance-1 nodes unless the origin triggers itself.
  lemma DepthOneExactIff(g: Graph, o: Id, n: nat, w: Walk)
    requires Exact(g, o, n, w) && n > 0
    ensures w.depths[1] == Sphere(g, o, 1) <==> o !in Next(g, o)
  {
    BallZero(g, o);
    assert o !in Sphere(g, o, 1);
    if o in Next(g, o) { assert o in w.depths[1]; }
  }

  ghost predicate NoneSelectable(n: nat, w: Walk) {
    w.doneIds != {} && forall l :: l in w.locations && |l| < n ==> l in w.doneLocs
  }

  function OfLength(w: Walk, k: nat): set<Loc> {
    set l | l in w.locations && |l| == k
  }

  lemma RoundDone(g: Graph, o: Id, n: nat, k: nat, w: Walk)
    requires MidRound(g, o, n, k, w, {})
    ensures w.doneIds == Ball(g, o, k) && o in w.doneIds && w.walkIds == Ball(g, o, k + 1)
    ensures forall d :: d in w.depths && d <= k + 1 ==> w.depths[d] == Sphere(g, o, d) + SelfDepth(g, o, d)
    ensures forall d :: d in w.depths && d > k + 1 ==> w.depths[d] == SelfDepth(g, o, d)
  {
    hide MidLocs, NextOf, Next, Ball, Sphere;
    BallZero(g, o);
    BallGrows(g, o, 0, k);
    BallUnfold(g, o, k);
    forall x | x in Ball(g, o, k) ensures x in w.doneIds {
      var pending := Pending(o, w, {}, x);
    }
    assert w.doneIds == Ball(g, o, k);
    assert Sphere(g, o, k + 1) == NextOf(g, w.doneIds) - Ball(g, o, k);
    assert forall d :: SelfAt(g, o, w.doneIds, d) == SelfDepth(g, o, d);
  }

  lemma DepthsKnown(g: Graph, o: Id, n: nat, k: nat, w: Walk)
    requires MidRound(g, o, n, k, w, {})
    ensures forall d :: d in w.depths <==> 1 <= d <= n
  {
  }

  lemma NextRound(g: Graph, o: Id, n: nat, k: nat, w: Walk)
    requires MidRound(g, o, n, k, w, {}) && k + 1 < n
    ensures MidRound(g, o, n, k + 1, w, OfLength(w, k + 1))
  {
    RoundDone(g, o, n, k, w);
    BallGrows(g, o, k, k + 1);
    BallUnfold(g, o, k);
    hide Ball, Sphere, Next;
    var todo := OfLength(w, k + 1);
    forall x | x in Ball(g, o, k + 1) && x !in w.doneIds ensures Pending(o, w, todo, x) {
      assert Located(w, k + 1, x);
      var l :| l in w.locations && |l| == k + 1 && x in w.locations[l];
      assert l in todo && x in LocNodes(o, w, l);
    }
    forall x ensures x in NextOf(g, w.doneIds) ==> x in Ball(g, o, k + 1) {
    }
    assert MidIds(g, o, k + 1, w, todo);
    assert MidLocs(g, o, k + 1, w, todo);
    assert MidDepths(g, o, n, k + 1, w) by {
      assert forall d :: SelfAt(g, o, w.doneIds, d) == SelfDepth(g, o, d);
    }
  }

  lemma BallUnfold(g: Graph, o: Id, k: nat)
    ensures Ball(g, o, k + 1) == Ball(g, o, k) + NextOf(g, Ball(g, o, k))
    ensures Sphere(g, o, k + 1) == Ball(g, o, k + 1) - Ball(g, o, k)
  {
  }

  lemma LastRound(g: Graph, o: Id, n: nat, k: nat, w: Walk)
    requires MidRound(g, o, n, k, w, {}) && k + 1 == n
    ensures Exact(g, o, n, w) && NoneSelectable(n, w)
  {
    RoundDone(g, o, n, k, w);
    hide Ball, Sphere, NextOf, Next;
  }

  lemma StopRound(g: Graph, o: Id, n: nat, k: nat, w: Walk)
    requires MidRound(g, o, n, k, w, {}) && w.walkIds == Ball(g, o, k)
    ensures Exact(g, o, n, w)
  {
    hide Ball, Sphere, NextOf, Next, MidIds, MidLocs, MidDepths;
    RoundDone(g, o, n, k, w);
    DepthsKnown(g, o, n, k, w);
    forall j: nat | k <= j ensures Ball(g, o, j) == Ball(g, o, k) && (j > k ==> Sphere(g, o, j) == {}) {
      BallStops(g, o, k, j);
      if j > k { BallStops(g, o, k, j - 1); BallUnfold(g, o, j - 1); }
    }
  }

  lemma NoRounds(g: Graph, o: Id, n: nat, w: Walk)
    requires w.walkIds == {o} && w.depths == EmptyDepths(n) && (n == 0 || !g.defined(o))
    ensures Exact(g, o, n, w)
  {
    BallZero(g, o);
    if !g.defined(o) {
      BallOne(g, o);
      hide Ball, Sphere;
      forall j: nat ensures Ball(g, o, j) == {o} && (j > 0 ==> Sphere(g, o, j) == {}) {
        BallStops(g, o, 0, j);
        if j > 0 { BallStops(g, o, 0, j - 1); BallUnfold(g, o, j - 1); }
      }
    }
  }

  /* ---- any walk, fresh or not ---- */

  // A walk never puts a node nearer than it is, and the locations "c" and "p",
  // where present, hold all the children and parents.
  ghost predicate WalkOk(g: Graph, n: nat, o: Id, w: Walk) {
    && (forall d :: d in w.depths <==> 1 <= d <= n)
    && (forall d :: d in w.depths ==> w.depths[d] <= Ball(g, o, d))
    && (forall l :: l in w.locations ==> 1 <= |l| <= n && w.locations[l] <= Ball(g, o, |l|))
    && ("c" in w.locations ==> g.defined(o) && w.locations["c"] == g.children(o))
    && ("p" in w.locations ==> g.defined(o) && w.locations["p"] == g.parents(o))
    && w.walkIds <= Ball(g, o, n)
  }

  lemma NewWalkOk(g: Graph, n: nat, o: Id, near: set<Id>)
    requires near <= Next(g, o) && (n == 0 ==> near == {})
    ensures WalkOk(g, n, o, NewWalk(o, near, n))
  {
    hide EmptyDepths;
    BallOne(g, o);
    BallZero(g, o);
    BallGrows(g, o, 0, n);
    if n > 0 { BallGrows(g, o, 1, n); }
    hide Ball;
  }

  lemma RegisterOk(g: Graph, n: nat, o: Id, w: Walk, nc: set<Id>, np: set<Id>)
    requires WalkOk(g, n, o, w) && n > 0 && g.defined(o)
    requires (nc == {} || nc == g.children(o)) && (np == {} || np == g.parents(o))
    ensures WalkOk(g, n, o, Register(w, nc, np))
  {
    BallOne(g, o);
    hide Ball;
    var w' := Register(w, nc, np);
    forall l | l in w'.locations ensures 1 <= |l| <= n && w'.locations[l] <= Ball(g, o, |l|) {
      if l != "c" && l != "p" { assert w'.locations[l] == w.locations[l]; }
    }
  }

  // The nodes found one step on from a location.
  lemma FrontierNear(g: Graph, n: nat, o: Id, w: Walk, loc: Loc)
    requires WalkOk(g, n, o, w) && |loc| < n && (loc == "" || loc in w.locations)
    ensures var nodes := Frontier(o, w, loc);
            ChildrenOf(g, nodes) + ParentsOf(g, nodes) <= Ball(g, o, |loc| + 1)
    ensures Ball(g, o, |loc| + 1) <= Ball(g, o, n)
  {
    hide Ball, ChildrenOf, ParentsOf, NextOf;
    var nodes := Frontier(o, w, loc);
    BallZero(g, o);
    assert nodes <= Ball(g, o, |loc|);
    NextOfNodes(g, {}, nodes);
    NextOfBall(g, o, {} + nodes, |loc|);
    BallGrows(g, o, |loc| + 1, n);
  }

  // The walk with new nodes at one location.
  ghost function Grown(w: Walk, l: Loc, vs: set<Id>): Walk
    requires |l| in w.depths
  {
    w.(locations := Put(w.locations, l, vs), walkIds := w.walkIds + vs, depths := w.depths[|l| := w.depths[|l|] + vs])
  }

  lemma GrownOk(g: Graph, n: nat, o: Id, w: Walk, l: Loc, vs: set<Id>)
    requires WalkOk(g, n, o, w) && 1 <= |l| <= n
    requires vs <= Ball(g, o, |l|) && Ball(g, o, |l|) <= Ball(g, o, n)
    requires l == "c" || l == "p" ==> vs == {} || (l in w.locations && vs <= w.locations[l])
    ensures WalkOk(g, n, o, Grown(w, l, vs))
  {
    hide Ball;
  }

  lemma ExploredGrows(g: Graph, o: Id, w: Walk, loc: Loc)
    requires 1 in w.depths && |loc| + 1 in w.depths
    ensures var nodes := Frontier(o, w, loc);
            var w1 := RegisteredFor(g, o, w, nodes);
            var cs, ps := ChildrenOf(g, nodes) - w1.walkIds, ParentsOf(g, nodes) - w1.walkIds;
            var w3 := Grown(Grown(w1, loc + "c", cs), loc + "p", ps);
            var w' := Explored(g, o, w, loc);
            w'.locations == w3.locations && w'.depths == w3.depths && w'.walkIds == w3.walkIds
  {
    hide ChildrenOf, ParentsOf, Put, Put0;
  }

  lemma BothGrownOk(g: Graph, n: nat, o: Id, w: Walk, loc: Loc, cs: set<Id>, ps: set<Id>)
    requires WalkOk(g, n, o, w) && |loc| < n
    requires cs + ps <= Ball(g, o, |loc| + 1) <= Ball(g, o, n)
    requires loc == "" ==> cs == {} || ("c" in w.locations && cs <= w.locations["c"])
    requires loc == "" ==> ps == {} || ("p" in w.locations && ps <= w.locations["p"])
    ensures |loc| + 1 in w.depths && WalkOk(g, n, o, Grown(Grown(w, loc + "c", cs), loc + "p", ps))
  {
    hide Ball;
    assert |loc| + 1 in w.depths;
    assert loc == "" ==> loc + "c" == "c" && loc + "p" == "p";
    assert loc != "" ==> |loc + "c"| > 1 && |loc + "p"| > 1;
    hide WalkOk;
    GrownOk(g, n, o, w, loc + "c", cs);
    GrownOk(g, n, o, Grown(w, loc + "c", cs), loc + "p", ps);
  }

  lemma RegisteredForOk(g: Graph, n: nat, o: Id, w: Walk, nodes: set<Id>)
    requires WalkOk(g, n, o, w) && n > 0
    ensures 1 in w.depths && WalkOk(g, n, o, RegisteredFor(g, o, w, nodes))
    ensures nodes == {o} && g.defined(o) ==>
              var w1 := RegisteredFor(g, o, w, nodes);
              && (g.children(o) == {} || ("c" in w1.locations && w1.locations["c"] == g.children(o)))
              && (g.parents(o) == {} || ("p" in w1.locations && w1.locations["p"] == g.parents(o)))
  {
    assert 1 in w.depths;
    if o in nodes && g.defined(o) {
      RegisterOk(g, n, o, w, g.children(o), g.parents(o));
    }
    hide WalkOk;
  }

  lemma ExploredOk(g: Graph, n: nat, o: Id, w: Walk, loc: Loc)
    requires WalkOk(g, n, o, w) && |loc| < n && (loc == "" || loc in w.locations)
    requires loc == "" ==> o !in w.doneIds && g.defined(o)
    ensures 1 in w.depths && |loc| + 1 in w.depths
    ensures WalkOk(g, n, o, Explored(g, o, w, loc))
  {
    assert 1 in w.depths && |loc| + 1 in w.depths;
    hide Ball, Explored, ChildrenOf, ParentsOf, WalkOk, RegisteredFor, Grown;
    FrontierNear(g, n, o, w, loc);
    var nodes := Frontier(o, w, loc);
    RegisteredForOk(g, n, o, w, nodes);
    var w1 := RegisteredFor(g, o, w, nodes);
    var cs, ps := ChildrenOf(g, nodes) - w1.walkIds, ParentsOf(g, nodes) - w1.walkIds;
    if loc == "" {
      assert nodes == {o};
      OriginNear(g, o);
    }
    BothGrownOk(g, n, o, w1, loc, cs, ps);
    ExploredGrows(g, o, w, loc);
    SameOk(g, n, o, Grown(Grown(w1, loc + "c", cs), loc + "p", ps), Explored(g, o, w, loc));
  }

  lemma SameOk(g: Graph, n: nat, o: Id, w: Walk, v: Walk)
    requires WalkOk(g, n, o, w) && v.locations == w.locations && v.depths == w.depths && v.walkIds == w.walkIds
    ensures WalkOk(g, n, o, v)
  {
  }

  /* ---- the store ---- */

  ghost predicate WalksOk(g: Graph, n: nat, walks: map<Id, Walk>) {
    forall x :: x in walks ==> WalkOk(g, n, x, walks[x])
  }

  // The nodes that the stored walks of ids know one step on, by one tag.
  function CachedNext(walks: map<Id, Walk>, ids: set<Id>, tag: Loc): set<Id> {
    set x, y | x in ids && x in walks && tag in walks[x].locations && y in walks[x].locations[tag] :: y
  }

  lemma CachedNextNear(g: Graph, n: nat, walks: map<Id, Walk>, ids: set<Id>, tag: Loc, o: Id, k: nat)
    requires WalksOk(g, n, walks) && ids <= Ball(g, o, k) && (tag == "c" || tag == "p")
    ensures CachedNext(walks, ids, tag) <= Ball(g, o, k + 1)
  {
    NextOfBall(g, o, ids, k);
    hide Ball;
    forall y | y in CachedNext(walks, ids, tag) ensures y in NextOf(g, ids) {
      var x :| x in ids && x in walks && tag in walks[x].locations && y in walks[x].locations[tag];
      assert y in Next(g, x);
    }
  }

  // A registered node: the rest of the walks stay, and near ones are exact.
  lemma RegisterNear(g: Graph, n: nat, walks: map<Id, Walk>, x: Id, nc: set<Id>, np: set<Id>)
    requires WalksOk(g, n, walks) && n > 0 && g.defined(x)
    requires (nc == {} || nc == g.children(x)) && (np == {} || np == g.parents(x))
    ensures var w := if x in walks then walks[x] else NewWalk(x, nc + np, n);
            1 in w.depths && WalksOk(g, n, walks[x := Register(w, nc, np)])
  {
    var w := if x in walks then walks[x] else NewWalk(x, nc + np, n);
    NewWalkOk(g, n, x, nc + np);
    assert WalkOk(g, n, x, w);
    assert 1 in w.depths;
    RegisterOk(g, n, x, w, nc, np);
    hide WalkOk;
  }

  lemma CachedExact(g: Graph, n: nat, walks: map<Id, Walk>, x: Id)
    requires WalksOk(g, n, walks) && x in walks
    ensures "c" in walks[x].locations ==> walks[x].locations["c"] == g.children(x)
    ensures "p" in walks[x].locations ==> walks[x].locations["p"] == g.parents(x)
  {
  }

  // The walk with the nodes that the stored walks give for one location.
  function Filled(w: Walk, l: Loc, found: set<Id>): Walk
    requires |l| in w.depths
  {
    w.(locations := w.locations[l := found], walkIds := w.walkIds + found, depths := w.depths[|l| := w.depths[|l|] + found])
  }

  lemma FilledOk(g: Graph, n: nat, o: Id, w: Walk, l: Loc, ids: set<Id>, walks: map<Id, Walk>)
    requires WalkOk(g, n, o, w) && WalksOk(g, n, walks) && 2 <= |l| <= n
    requires l[|l| - 1..] == "c" || l[|l| - 1..] == "p"
    requires l[..|l| - 1] in w.locations && ids == w.locations[l[..|l| - 1]]
    ensures |l| in w.depths && WalkOk(g, n, o, Filled(w, l, CachedNext(walks, ids, l[|l| - 1..]) - w.walkIds))
  {
    hide Ball, WalksOk, CachedNext;
    var before := l[..|l| - 1];
    assert |before| == |l| - 1 && ids <= Ball(g, o, |l| - 1);
    CachedNextNear(g, n, walks, ids, l[|l| - 1..], o, |l| - 1);
    BallGrows(g, o, |l|, n);
    FilledWith(g, n, o, w, l, CachedNext(walks, ids, l[|l| - 1..]) - w.walkIds);
  }

  lemma FilledWith(g: Graph, n: nat, o: Id, w: Walk, l: Loc, found: set<Id>)
    requires WalkOk(g, n, o, w) && 2 <= |l| <= n
    requires found <= Ball(g, o, |l|) && Ball(g, o, |l|) <= Ball(g, o, n)
    ensures |l| in w.depths && WalkOk(g, n, o, Filled(w, l, found))
  {
    hide Ball;
    assert l != "c" && l != "p";
  }

  /* ---- the rounds of the walk ---- */

  ghost function FreshWalk(g: Graph, n: nat, o: Id): Walk {
    NewWalk(o, {}, n).(orphans := if g.defined(o) then {} else {o})
  }

  // The locations that the walk explores next: those not done, or the origin.
  function Selected(n: nat, o: Id, w: Walk): set<Loc> {
    var locs := set l | l in w.locations && |l| < n && l !in w.doneLocs;
    if w.doneIds == {} && locs == {} && o !in w.orphans && n != 0 then {""} else locs
  }

  // Each location of left can be explored.
  ghost predicate CanExplore(g: Graph, n: nat, o: Id, w: Walk, left: set<Loc>) {
    && (forall l :: l in left ==> |l| < n && (l == "" || l in w.locations))
    && ("" in left ==> left == {""} && o !in w.doneIds && g.defined(o))
  }

  ghost predicate AtMost(w: Walk, k: nat) {
    forall l :: l in w.locations ==> |l| <= k
  }

  ghost predicate RoundStart(g: Graph, o: Id, n: nat, k: nat, w: Walk) {
    || (k == 0 && n > 0 && g.defined(o) && w == NewWalk(o, {}, n))
    || (k > 0 && MidRound(g, o, n, k, w, OfLength(w, k)) && w.walkIds == Ball(g, o, k) && AtMost(w, k))
    || (Exact(g, o, n, w) && Selected(n, o, w) == {})
  }

  ghost predicate InRound(g: Graph, o: Id, n: nat, k: nat, start: Walk, w: Walk, left: set<Loc>) {
    || (k == 0 && n > 0 && g.defined(o) && w == start == NewWalk(o, {}, n) && left == {""})
    || (k == 0 && start.walkIds == Ball(g, o, 0) && MidRound(g, o, n, 0, w, {}) && left == {})
    || (k > 0 && start.walkIds == Ball(g, o, k) && MidRound(g, o, n, k, w, left))
    || (Exact(g, o, n, w) && left == {} && w == start)
  }

  lemma FreshStart(g: Graph, n: nat, o: Id)
    ensures RoundStart(g, o, n, 0, FreshWalk(g, n, o))
  {
    hide Exact;
    var w := FreshWalk(g, n, o);
    if n == 0 || !g.defined(o) {
      assert {o} + {} == {o};
      NoRounds(g, o, n, w);
      assert Selected(n, o, w) == {};
    }
  }

  lemma RoundSelects(g: Graph, o: Id, n: nat, k: nat, w: Walk)
    requires RoundStart(g, o, n, k, w)
    ensures InRound(g, o, n, k, w, w, Selected(n, o, w))
  {
    if k > 0 && MidRound(g, o, n, k, w, OfLength(w, k)) && w.walkIds == Ball(g, o, k) && AtMost(w, k) {
      hide Ball, NextOf, Exact, MidDepths, Pending, Located;
      BallGrows(g, o, 0, k - 1);
      BallZero(g, o);
      assert o in w.doneIds;
      var locs := set l | l in w.locations && |l| < n && l !in w.doneLocs;
      assert locs == OfLength(w, k);
    }
  }

  lemma InRoundStep(g: Graph, o: Id, n: nat, k: nat, start: Walk, w: Walk, left: set<Loc>, loc: Loc)
    requires InRound(g, o, n, k, start, w, left) && loc in left
    requires 1 in w.depths && |loc| + 1 in w.depths
    ensures InRound(g, o, n, k, start, Explored(g, o, w, loc), left - {loc})
  {
    hide Exact, MidRound, Explored;
    if k == 0 {
      OriginExplored(g, o, n, w);
      RoundZero(g, o, n, Explored(g, o, w, ""));
      BallZero(g, o);
      assert {o} + {} == {o};
    } else {
      StepKeepsRound(g, o, n, k, w, left, loc);
    }
  }

  lemma RoundEnd(g: Graph, o: Id, n: nat, k: nat, start: Walk, w: Walk)
    requires InRound(g, o, n, k, start, w, {})
    ensures if w.walkIds != start.walkIds then RoundStart(g, o, n, k + 1, w) else Exact(g, o, n, w)
  {
    hide Exact, MidRound;
    if MidRound(g, o, n, k, w, {}) && start.walkIds == Ball(g, o, k) {
      RoundBelow(g, o, n, k, w);
      if w.walkIds == start.walkIds {
        StopRound(g, o, n, k, w);
      } else if k + 1 == n {
        LastRound(g, o, n, k, w);
        NoneIsSelected(n, o, w);
      } else {
        NextRound(g, o, n, k, w);
        RoundDone(g, o, n, k, w);
        RoundAtMost(g, o, n, k, w);
      }
    }
  }

  lemma RoundAtMost(g: Graph, o: Id, n: nat, k: nat, w: Walk)
    requires MidRound(g, o, n, k, w, {})
    ensures AtMost(w, k + 1)
  {
  }

  lemma RoundBelow(g: Graph, o: Id, n: nat, k: nat, w: Walk)
    requires MidRound(g, o, n, k, w, {})
    ensures k < n
  {
  }

  lemma NoneIsSelected(n: nat, o: Id, w: Walk)
    requires NoneSelectable(n, w)
    ensures Selected(n, o, w) == {}
  {
  }

  lemma SelectedCanExplore(g: Graph, n: nat, o: Id, w: Walk)
    requires WalkOk(g, n, o, w) && (!g.defined(o) ==> o in w.orphans)
    ensures CanExplore(g, n, o, w, Selected(n, o, w))
  {
  }

  // The next exploration is allowed, and those after it stay so.
  lemma Explores(g: Graph, n: nat, o: Id, w: Walk, left: set<Loc>, loc: Loc)
    requires WalkOk(g, n, o, w) && CanExplore(g, n, o, w, left) && loc in left
    ensures |loc| < n && (loc == "" || loc in w.locations)
    ensures 1 in w.depths && |loc| + 1 in w.depths
    ensures WalkOk(g, n, o, Explored(g, o, w, loc))
    ensures CanExplore(g, n, o, Explored(g, o, w, loc), left - {loc})
    ensures w.orphans <= Explored(g, o, w, loc).orphans && w.walkIds <= Explored(g, o, w, loc).walkIds
  {
    assert |loc| < n && (loc == "" || loc in w.locations);
    hide WalkOk, Explored;
    ExploredOk(g, n, o, w, loc);
    ExploredKeeps(g, o, w, loc);
  }

  lemma ExploredKeeps(g: Graph, o: Id, w: Walk, loc: Loc)
    requires 1 in w.depths && |loc| + 1 in w.depths
    ensures var w' := Explored(g, o, w, loc);
            w.orphans <= w'.orphans && w.walkIds <= w'.walkIds && w.locations.Keys <= w'.locations.Keys
  {
    hide ChildrenOf, ParentsOf;
  }

  lemma OkInBall(g: Graph, n: nat, o: Id, w: Walk)
    requires WalkOk(g, n, o, w)
    ensures w.walkIds <= Ball(g, o, n)
  {
  }

  lemma PutWalk(g: Graph, n: nat, walks: map<Id, Walk>, o: Id, w: Walk)
    requires WalksOk(g, n, walks) && WalkOk(g, n, o, w)
    ensures WalksOk(g, n, walks[o := w])
  {
    hide WalkOk;
  }

  lemma GetWalk(g: Graph, n: nat, walks: map<Id, Walk>, o: Id)
    requires WalksOk(g, n, walks) && o in walks
    ensures WalkOk(g, n, o, walks[o])
  {
  }

  lemma OkFacts(g: Graph, n: nat, o: Id, w: Walk)
    requires WalkOk(g, n, o, w)
    ensures w.walkIds <= Ball(g, o, n)
    ensures forall d :: d in w.depths <==> 1 <= d <= n
    ensures forall d :: d in w.depths ==> w.depths[d] <= Ball(g, o, d)
  {
  }

  /* ---- the depths in the window of the whole pool ---- */

  ghost predicate HasDepth(pool: set<Id>, walks: map<Id, Walk>, d: nat, x: Id) {
    if d == 0 then x in pool
    else exists o :: o in pool && o in walks && d in walks[o].depths && x in walks[o].depths[d]
  }

  function AtDepth(pool: set<Id>, walks: map<Id, Walk>, d: nat): set<Id> {
    set o, x | o in pool && o in walks && d in walks[o].depths && x in walks[o].depths[d] :: x
  }

  // Some active task's walk gives x a depth of at most d.
  ghost predicate Within(pool: set<Id>, walks: map<Id, Walk>, d: nat, x: Id) {
    HasDepth(pool, walks, d, x) || (d > 0 && Within(pool, walks, d - 1, x))
  }

  // Each node is at the least depth that some active task's walk gives it.
  ghost predicate AreWindowDepths(depths: map<nat, set<Id>>, pool: set<Id>, walks: map<Id, Walk>, n: nat) {
    && (forall d :: d in depths <==> 0 <= d <= n)
    && (forall d, x :: d in depths ==>
          (x in depths[d] <==> HasDepth(pool, walks, d, x) && (d > 0 ==> !Within(pool, walks, d - 1, x))))
  }

  lemma {:induction false} WithinGrows(pool: set<Id>, walks: map<Id, Walk>, d: nat, e: nat, x: Id)
    requires Within(pool, walks, d, x) && d <= e
    ensures Within(pool, walks, e, x)
    decreases e
  {
    if d < e { WithinGrows(pool, walks, d, e - 1, x); }
  }

  lemma OneDepth(depths: map<nat, set<Id>>, pool: set<Id>, walks: map<Id, Walk>, n: nat, d: nat, e: nat, x: Id)
    requires AreWindowDepths(depths, pool, walks, n)
    requires d in depths && e in depths && x in depths[d] && x in depths[e]
    ensures d == e
  {
    hide HasDepth;
    if d < e { WithinGrows(pool, walks, d, e - 1, x); }
    if e < d { WithinGrows(pool, walks, e, d - 1, x); }
  }

  lemma DepthZero(pool: set<Id>, walks: map<Id, Walk>)
    ensures AreWindowDepths(map[0 := pool], pool, walks, 0)
    ensures forall x :: x in pool <==> Within(pool, walks, 0, x)
  {
    var depths: map<nat, set<Id>> := map[0 := pool];
    assert forall d :: d in depths <==> d == 0;
  }

  lemma DepthNext(depths: map<nat, set<Id>>, pool: set<Id>, walks: map<Id, Walk>, d: nat, e: nat,
                  found: set<Id>, nodes: set<Id>)
    requires AreWindowDepths(depths, pool, walks, d) && e == d + 1
    requires forall x :: x in found <==> Within(pool, walks, d, x)
    requires nodes == AtDepth(pool, walks, e) - found
    ensures AreWindowDepths(depths[e := nodes], pool, walks, e)
    ensures forall x :: x in found + nodes <==> Within(pool, walks, e, x)
  {
    hide HasDepth, AtDepth, Within;
    var after := depths[e := nodes];
    forall x ensures x in found + nodes <==> Within(pool, walks, e, x) {
      AtDepthHas(pool, walks, e, x);
    }
    forall x ensures x in after[e] <==> HasDepth(pool, walks, e, x) && !Within(pool, walks, d, x) {
      AtDepthHas(pool, walks, e, x);
    }
  }

  lemma AtDepthHas(pool: set<Id>, walks: map<Id, Walk>, d: nat, x: Id)
    requires d > 0
    ensures x in AtDepth(pool, walks, d) <==> HasDepth(pool, walks, d, x)
    ensures Within(pool, walks, d, x) <==> HasDepth(pool, walks, d, x) || Within(pool, walks, d - 1, x)
  {
  }

  ghost predicate PoolBall(g: Graph, pool: set<Id>, d: nat, x: Id) {
    exists o :: o in pool && x in Ball(g, o, d)
  }

  // The nodes whose distance from the nearest active task is d.
  ghost function PoolSphere(g: Graph, pool: set<Id>, d: nat): set<Id> {
    set o, x | o in pool && x in Ball(g, o, d) && (d > 0 ==> !PoolBall(g, pool, d - 1, x)) :: x
  }

  ghost predicate AllExact(g: Graph, pool: set<Id>, walks: map<Id, Walk>, n: nat) {
    forall o :: o in pool ==> o in walks && Exact(g, o, n, walks[o])
  }

  lemma DepthInBall(g: Graph, pool: set<Id>, walks: map<Id, Walk>, n: nat, d: nat, x: Id)
    requires AllExact(g, pool, walks, n) && HasDepth(pool, walks, d, x)
    ensures PoolBall(g, pool, d, x)
  {
    if d == 0 {
      BallZero(g, x);
      assert x in Ball(g, x, 0);
    } else {
      hide Ball, Exact;
      var o :| o in pool && o in walks && d in walks[o].depths && x in walks[o].depths[d];
      assert Exact(g, o, n, walks[o]);
      ExactDepth(g, o, n, walks[o], d, x);
    }
  }

  lemma ExactDepth(g: Graph, o: Id, n: nat, w: Walk, d: nat, x: Id)
    requires Exact(g, o, n, w) && d in w.depths && x in w.depths[d]
    ensures x in Ball(g, o, d)
  {
    BallZero(g, o);
    BallGrows(g, o, 0, d);
    hide Ball;
  }

  lemma BallHasDepth(g: Graph, pool: set<Id>, walks: map<Id, Walk>, n: nat, d: nat, x: Id)
    requires AllExact(g, pool, walks, n) && d <= n
    requires PoolBall(g, pool, d, x) && (d > 0 ==> !PoolBall(g, pool, d - 1, x))
    ensures HasDepth(pool, walks, d, x)
  {
    hide Ball;
    var o :| o in pool && x in Ball(g, o, d);
    BallZero(g, o);
    if d > 0 {
      assert Exact(g, o, n, walks[o]);
      assert d in walks[o].depths;
      assert x in Sphere(g, o, d);
    }
  }

  // A node of the window has a depth up to d exactly when it is within distance d.
  lemma {:induction false} DepthWithinBall(g: Graph, pool: set<Id>, walks: map<Id, Walk>, n: nat, d: nat, x: Id)
    requires AllExact(g, pool, walks, n) && d <= n
    ensures PoolBall(g, pool, d, x) <==> Within(pool, walks, d, x)
    decreases d
  {
    hide AllExact, PoolBall, HasDepth;
    if d > 0 {
      DepthWithinBall(g, pool, walks, n, d - 1, x);
      if PoolBall(g, pool, d - 1, x) { PoolBallGrows(g, pool, d - 1, x); }
    }
    if HasDepth(pool, walks, d, x) { DepthInBall(g, pool, walks, n, d, x); }
    if PoolBall(g, pool, d, x) && (d > 0 ==> !PoolBall(g, pool, d - 1, x)) {
      BallHasDepth(g, pool, walks, n, d, x);
    }
  }

  lemma PoolBallGrows(g: Graph, pool: set<Id>, d: nat, x: Id)
    requires PoolBall(g, pool, d, x)
    ensures PoolBall(g, pool, d + 1, x)
  {
    var o :| o in pool && x in Ball(g, o, d);
    BallGrows(g, o, d, d + 1);
  }

  lemma DepthsAreDistances(g: Graph, depths: map<nat, set<Id>>, pool: set<Id>, walks: map<Id, Walk>, n: nat)
    requires AreWindowDepths(depths, pool, walks, n) && AllExact(g, pool, walks, n)
    ensures forall d :: d in depths ==> depths[d] == PoolSphere(g, pool, d)
  {
    hide AllExact, PoolBall, HasDepth;
    forall d, x | d in depths ensures x in depths[d] <==> x in PoolSphere(g, pool, d) {
      DepthWithinBall(g, pool, walks, n, d, x);
      if d > 0 { DepthWithinBall(g, pool, walks, n, d - 1, x); }
      InPoolSphere(g, pool, d, x);
    }
  }

  lemma InPoolSphere(g: Graph, pool: set<Id>, d: nat, x: Id)
    ensures x in PoolSphere(g, pool, d) <==> PoolBall(g, pool, d, x) && (d > 0 ==> !PoolBall(g, pool, d - 1, x))
  {
    hide Ball;
  }
}
