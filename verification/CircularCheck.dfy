// Detection of circular dependence in the graph by topological elimination
// (config.py: _check_circular, _check_circular_helper).

module CircularCheck {

  datatype Node = Node(task: string, point: int)

  type EdgeMap = map<Node, set<Node>>

  ghost predicate Edge(m: EdgeMap, x: Node, y: Node) {
    x in m && y in m[x]
  }

  ghost predicate NoEmptySets(m: EdgeMap) {
    forall x :: x in m ==> m[x] != {}
  }

  // The two maps hold the same edges, keyed by opposite ends.
  ghost predicate Inverse(m: EdgeMap, r: EdgeMap) {
    forall x, y :: Edge(m, x, y) <==> Edge(r, y, x)
  }

  /* ---- walks and cycles ---- */

  ghost predicate Walk(m: EdgeMap, p: seq<Node>) {
    |p| > 0 && forall i :: 0 <= i < |p| - 1 ==> Edge(m, p[i], p[i + 1])
  }

  ghost predicate IsCycle(m: EdgeMap, p: seq<Node>) {
    Walk(m, p) && |p| > 1 && p[0] == p[|p| - 1]
  }

  // A walk that ends at x and starts by going round a cycle.
  ghost predicate LoopsInto(m: EdgeMap, p: seq<Node>, i: int, x: Node) {
    Walk(m, p) && 0 < i < |p| && p[i] == p[0] && p[|p| - 1] == x
  }

  ghost predicate FedByCycle(m: EdgeMap, x: Node) {
    exists p, i :: LoopsInto(m, p, i, x)
  }

  // A walk from y that ends by going round a cycle.
  ghost predicate FeedsCycle(m: EdgeMap, y: Node) {
    exists p, j :: Walk(m, p) && p[0] == y && 0 <= j < |p| - 1 && p[j] == p[|p| - 1]
  }

  lemma WalkIn(m: EdgeMap, n: EdgeMap, p: seq<Node>)
    requires Walk(m, p) && forall x, y :: Edge(m, x, y) ==> Edge(n, x, y)
    ensures Walk(n, p)
  {
  }

  lemma FedAlongEdge(m: EdgeMap, x: Node, y: Node)
    requires FedByCycle(m, x) && Edge(m, x, y)
    ensures FedByCycle(m, y)
  {
    var p, i :| LoopsInto(m, p, i, x);
    assert LoopsInto(m, p + [y], i, y);
  }

  lemma CycleIsFedAndFeeds(m: EdgeMap, p: seq<Node>)
    requires IsCycle(m, p)
    ensures FedByCycle(m, p[0]) && FeedsCycle(m, p[1])
  {
    assert LoopsInto(m, p, |p| - 1, p[0]);
    var q := p[1..] + [p[1]];
    assert Walk(m, q) && q[0] == q[|q| - 1] == p[1];
  }

  lemma FedHasCycle(m: EdgeMap, x: Node) returns (c: seq<Node>)
    requires FedByCycle(m, x)
    ensures IsCycle(m, c)
  {
    var p, i :| LoopsInto(m, p, i, x);
    c := p[..i + 1];
  }

  function Reversed(p: seq<Node>): (r: seq<Node>)
    ensures |r| == |p| && forall i :: 0 <= i < |p| ==> r[i] == p[|p| - 1 - i]
  {
    seq(|p|, i requires 0 <= i < |p| => p[|p| - 1 - i])
  }

  lemma FedInReverse(m: EdgeMap, r: EdgeMap, y: Node)
    requires Inverse(m, r)
    ensures FedByCycle(r, y) <==> FeedsCycle(m, y)
  {
    if p, i :| LoopsInto(r, p, i, y) {
      var q := Reversed(p);
      assert Walk(m, q) && q[|p| - 1 - i] == q[|q| - 1];
    }
    if p, j :| Walk(m, p) && p[0] == y && 0 <= j < |p| - 1 && p[j] == p[|p| - 1] {
      assert LoopsInto(r, Reversed(p), |p| - 1 - j, y);
    }
  }

  /* ---- a finite set in which everything has a predecessor holds a cycle ---- */

  lemma Pigeonhole(p: seq<Node>, s: set<Node>) returns (i: nat, j: nat)
    requires |p| > |s| && forall k :: 0 <= k < |p| ==> p[k] in s
    ensures i < j < |p| && p[i] == p[j]
    decreases s
  {
    var last := p[|p| - 1];
    if k :| 0 <= k < |p| - 1 && p[k] == last {
      i, j := k, |p| - 1;
    } else {
      i, j := Pigeonhole(p[..|p| - 1], s - {last});
    }
  }

  ghost predicate Preceded(m: EdgeMap, s: set<Node>, x: Node) {
    exists w :: w in s && Edge(m, w, x)
  }

  ghost predicate AllPreceded(m: EdgeMap, s: set<Node>) {
    forall x {:trigger Preceded(m, s, x)} :: x in s ==> Preceded(m, s, x)
  }

  lemma WalkBack(m: EdgeMap, s: set<Node>, x: Node, n: nat) returns (p: seq<Node>)
    requires AllPreceded(m, s) && x in s
    ensures Walk(m, p) && |p| == n + 1 && p[n] == x
    ensures forall k :: 0 <= k < |p| ==> p[k] in s
    decreases n
  {
    if n == 0 {
      p := [x];
    } else {
      assert Preceded(m, s, x);
      var w :| w in s && Edge(m, w, x);
      p := WalkBack(m, s, w, n - 1);
      p := p + [x];
    }
  }

  lemma PrecededAreFed(m: EdgeMap, s: set<Node>, x: Node)
    requires AllPreceded(m, s) && x in s
    ensures FedByCycle(m, x)
  {
    var p := WalkBack(m, s, x, |s|);
    var i, j := Pigeonhole(p, s);
    assert LoopsInto(m, p[i..], j - i, x);
  }

  /* ---- an elimination order never reaches a cycle ---- */

  // Every predecessor of an eliminated node was eliminated before it.
  ghost predicate EliminationOrder(m: EdgeMap, order: seq<Node>) {
    forall k, w :: 0 <= k < |order| && Edge(m, w, order[k]) ==> w in order[..k]
  }

  lemma EliminateNext(m: EdgeMap, order: seq<Node>, x: Node)
    requires EliminationOrder(m, order) && forall w :: Edge(m, w, x) ==> w in order
    ensures EliminationOrder(m, order + [x])
  {
    var next := order + [x];
    forall k, w | 0 <= k < |next| && Edge(m, w, next[k]) ensures w in next[..k] {
      assert next[..k] == order[..k];
    }
  }

  lemma EliminatedBefore(m: EdgeMap, order: seq<Node>, p: seq<Node>, k: nat) returns (h: nat)
    requires EliminationOrder(m, order) && Walk(m, p)
    requires k < |order| && order[k] == p[|p| - 1]
    ensures h <= k && order[h] == p[0] && (|p| > 1 ==> h < k)
    decreases |p|
  {
    if |p| == 1 {
      h := k;
    } else {
      var q := p[..|p| - 1];
      assert Edge(m, q[|q| - 1], p[|p| - 1]);
      var k' :| 0 <= k' < k && order[k'] == q[|q| - 1];
      h := EliminatedBefore(m, order, q, k');
    }
  }

  lemma FedNotEliminated(m: EdgeMap, order: seq<Node>, x: Node)
    requires EliminationOrder(m, order) && FedByCycle(m, x)
    ensures x !in order
  {
    if x in order {
      var k: nat :| k < |order| && order[k] == x;
      var p, i :| LoopsInto(m, p, i, x);
      var h := EliminatedBefore(m, order, p[i..], k);
      NoInfiniteDescent(m, order, p[..i + 1], h);
    }
  }

  lemma {:induction false} NoInfiniteDescent(m: EdgeMap, order: seq<Node>, c: seq<Node>, k: nat)
    requires EliminationOrder(m, order) && IsCycle(m, c) && k < |order|
    ensures order[k] != c[0]
    decreases k
  {
    if order[k] == c[0] {
      var h := EliminatedBefore(m, order, c, k);
      NoInfiniteDescent(m, order, c, h);
    }
  }

  /* ---- the elimination loop ---- */

  // A dict of sets, changed in place.
  class Adjacency {
    var m: EdgeMap

    constructor ()
      ensures m == map[]
    {
      m := map[];
    }

    // setdefault(x, set()) and add(y)
    method Add(x: Node, y: Node)
      requires NoEmptySets(m)
      modifies this
      ensures NoEmptySets(m)
      ensures forall v, w :: Edge(m, v, w) <==> Edge(old(m), v, w) || (v == x && w == y)
    {
      m := m[x := (if x in m then m[x] else {}) + {y}];
    }

    // remove(y) from the set of x, and delete x if that leaves it empty
    method Remove(x: Node, y: Node) returns (emptied: bool)
      requires NoEmptySets(m) && Edge(m, x, y)
      modifies this
      ensures NoEmptySets(m)
      ensures emptied <==> x !in m
      ensures m.Keys == old(m.Keys) - if emptied then {x} else {}
      ensures forall v, w :: Edge(m, v, w) <==> Edge(old(m), v, w) && (v != x || w != y)
    {
      var ys := m[x] - {y};
      emptied := ys == {};
      if emptied {
        assert forall w :: w in m[x] && w != y ==> w in ys;
        m := m - {x};
      } else {
        m := m[x := ys];
      }
    }
  }

  ghost predicate Mirrored(x2ys: Adjacency, y2xs: Adjacency)
    reads x2ys, y2xs
  {
    x2ys != y2xs && Inverse(x2ys.m, y2xs.m) && NoEmptySets(x2ys.m) && NoEmptySets(y2xs.m)
  }

  // Remove from y2xs the edges that leave x; return the nodes this frees.
  method RemoveOutgoing(x: Node, x2ys: Adjacency, y2xs: Adjacency) returns (freed: set<Node>)
    requires Mirrored(x2ys, y2xs) && x in x2ys.m && x !in y2xs.m
    modifies y2xs
    ensures NoEmptySets(y2xs.m)
    ensures forall y, w :: Edge(y2xs.m, y, w) <==> Edge(old(y2xs.m), y, w) && w != x
    ensures y2xs.m.Keys <= old(y2xs.m.Keys)
    ensures freed == (x2ys.m.Keys * old(y2xs.m.Keys)) - y2xs.m.Keys
  {
    freed := {};
    var todo := x2ys.m[x];
    while todo != {}
      invariant todo <= x2ys.m[x] && NoEmptySets(y2xs.m)
      invariant forall y, w :: Edge(y2xs.m, y, w) <==> Edge(old(y2xs.m), y, w) && (w != x || y in todo)
      invariant y2xs.m.Keys <= old(y2xs.m.Keys)
      invariant freed == (x2ys.m.Keys * old(y2xs.m.Keys)) - y2xs.m.Keys
      decreases todo
    {
      var y :| y in todo;
      todo := todo - {y};
      assert Edge(x2ys.m, x, y) && Edge(y2xs.m, y, x);
      var emptied := y2xs.Remove(y, x);
      if emptied && y in x2ys.m {
        freed := freed + {y};
      }
    }
  }

  // Exactly the edges whose source is fed by a cycle survive.
  method CheckCircularHelper(x2ys: Adjacency, y2xs: Adjacency)
    requires Mirrored(x2ys, y2xs)
    modifies x2ys, y2xs
    ensures Mirrored(x2ys, y2xs)
    ensures forall x, y :: Edge(x2ys.m, x, y) <==> Edge(old(x2ys.m), x, y) && FedByCycle(old(x2ys.m), x)
  {
    ghost var all := x2ys.m;
    ghost var order: seq<Node> := [];
    var starters := x2ys.m.Keys - y2xs.m.Keys;
    while starters != {}
      invariant Mirrored(x2ys, y2xs)
      invariant starters == x2ys.m.Keys - y2xs.m.Keys
      invariant EliminationOrder(all, order)
      invariant forall x, y :: Edge(x2ys.m, x, y) <==> Edge(all, x, y) && x !in order
      decreases x2ys.m.Keys
    {
      var x :| x in starters;
      starters := starters - {x};
      forall w | Edge(all, w, x) ensures w in order {
        assert !Edge(y2xs.m, x, w);
      }
      var freed := RemoveOutgoing(x, x2ys, y2xs);
      starters := starters + freed;
      x2ys.m := x2ys.m - {x};
      EliminateNext(all, order, x);
      order := order + [x];
    }
    assert forall z :: z in x2ys.m.Keys && z !in y2xs.m.Keys ==> z in starters;
    forall x, y | Edge(all, x, y) && x !in order ensures FedByCycle(all, x) {
      assert AllPreceded(all, x2ys.m.Keys) by {
        forall z | z in x2ys.m ensures Preceded(all, x2ys.m.Keys, z) {
          assert z in x2ys.m.Keys;
          var w :| w in y2xs.m[z];
          assert Edge(x2ys.m, w, z);
        }
      }
      assert Edge(x2ys.m, x, y);
      PrecededAreFed(all, x2ys.m.Keys, x);
    }
    forall x | FedByCycle(all, x) ensures x !in order {
      FedNotEliminated(all, order, x);
    }
  }

  /* ---- the check ---- */

  const CHECK_CIRCULAR_LIMIT := 100

  datatype Verdict = Skipped | NoneFound | CircularEdges(edges: set<(Node, Node)>)

  ghost predicate InGraph(raw: seq<(Node, Node)>, x: Node, y: Node) {
    (x, y) in raw
  }

  function Sources(raw: seq<(Node, Node)>): set<Node> {
    set e | e in raw :: e.0
  }

  function Targets(raw: seq<(Node, Node)>, x: Node): set<Node> {
    set e | e in raw && e.0 == x :: e.1
  }

  function GraphOf(raw: seq<(Node, Node)>): (m: EdgeMap)
    ensures NoEmptySets(m)
    ensures forall x, y :: Edge(m, x, y) <==> InGraph(raw, x, y)
  {
    assert forall x, y :: InGraph(raw, x, y) ==> x in Sources(raw) && y in Targets(raw, x);
    assert forall x :: x in Sources(raw) ==> exists y :: y in Targets(raw, x) by {
      forall x | x in Sources(raw) ensures exists y :: y in Targets(raw, x) {
        var e :| e in raw && e.0 == x;
        assert e.1 in Targets(raw, x);
      }
    }
    map x | x in Sources(raw) :: Targets(raw, x)
  }

  lemma SameEdges(m: EdgeMap, n: EdgeMap)
    requires NoEmptySets(m) && NoEmptySets(n)
    requires forall x, y :: Edge(m, x, y) <==> Edge(n, x, y)
    ensures m == n
  {
    forall x ensures x in m <==> x in n {
      if x in m { var y :| y in m[x]; assert Edge(n, x, y); }
      if x in n { var y :| y in n[x]; assert Edge(m, x, y); }
    }
    forall x | x in m ensures m[x] == n[x] {
      forall y ensures y in m[x] <==> y in n[x] {
        assert Edge(m, x, y) <==> Edge(n, x, y);
      }
    }
  }

  // Once round the elimination keeps what a cycle feeds, so walks onward from
  // there survive it and the second round sees the same cycles.
  lemma FeedsInResidue(m: EdgeMap, n: EdgeMap, x: Node, y: Node)
    requires forall v, w :: Edge(n, v, w) <==> Edge(m, v, w) && FedByCycle(m, v)
    requires Edge(m, x, y) && FedByCycle(m, x)
    ensures FeedsCycle(n, y) <==> FeedsCycle(m, y)
  {
    if p, j :| Walk(n, p) && p[0] == y && 0 <= j < |p| - 1 && p[j] == p[|p| - 1] {
      WalkIn(n, m, p);
    }
    if p, j :| Walk(m, p) && p[0] == y && 0 <= j < |p| - 1 && p[j] == p[|p| - 1] {
      FedAlongEdge(m, x, y);
      FedAlongWalk(m, p);
      assert Walk(n, p);
    }
  }

  lemma {:induction false} FedAlongWalk(m: EdgeMap, p: seq<Node>)
    requires Walk(m, p) && FedByCycle(m, p[0])
    ensures forall i :: 0 <= i < |p| ==> FedByCycle(m, p[i])
  {
    if |p| > 1 {
      FedAlongEdge(m, p[0], p[1]);
      FedAlongWalk(m, p[1..]);
      forall i | 0 <= i < |p| ensures FedByCycle(m, p[i]) {
        if i > 0 { assert p[i] == p[1..][i - 1]; }
      }
    }
  }

  // raw is the concrete graph; taskCount and force decide whether it is checked.
  method CheckCircular(raw: seq<(Node, Node)>, taskCount: nat, force: bool) returns (v: Verdict)
    ensures v.Skipped? <==> taskCount > 100 && !force
    ensures !v.Skipped? ==> (v.CircularEdges? <==> exists c :: IsCycle(GraphOf(raw), c))
    ensures v.CircularEdges? ==>
              forall x, y :: (x, y) in v.edges <==>
                (x, y) in raw && FedByCycle(GraphOf(raw), x) && FeedsCycle(GraphOf(raw), y)
  {
    if taskCount > CHECK_CIRCULAR_LIMIT && !force {
      return Skipped;
    }
    ghost var graph := GraphOf(raw);
    var lhs2rhss := new Adjacency();
    var rhs2lhss := new Adjacency();
    for i := 0 to |raw|
      invariant Mirrored(lhs2rhss, rhs2lhss) && fresh(lhs2rhss) && fresh(rhs2lhss)
      invariant forall x, y :: Edge(lhs2rhss.m, x, y) <==> InGraph(raw[..i], x, y)
    {
      lhs2rhss.Add(raw[i].0, raw[i].1);
      rhs2lhss.Add(raw[i].1, raw[i].0);
      assert raw[..i + 1] == raw[..i] + [raw[i]];
    }
    assert raw[..|raw|] == raw;
    SameEdges(lhs2rhss.m, graph);
    CheckCircularHelper(lhs2rhss, rhs2lhss);
    if c :| IsCycle(graph, c) {
      CycleIsFedAndFeeds(graph, c);
      assert Edge(lhs2rhss.m, c[0], c[1]);
    }
    if rhs2lhss.m == map[] {
      return NoneFound;
    }
    ghost var residue, residueR := lhs2rhss.m, rhs2lhss.m;
    CheckCircularHelper(rhs2lhss, lhs2rhss);
    var edges := set y, x | y in rhs2lhss.m && x in rhs2lhss.m[y] :: (x, y);
    forall x, y ensures (x, y) in edges <==> (x, y) in raw && FedByCycle(graph, x) && FeedsCycle(graph, y) {
      assert (x, y) in edges <==> Edge(rhs2lhss.m, y, x);
      FedInReverse(residue, residueR, y);
      if Edge(graph, x, y) && FedByCycle(graph, x) {
        FeedsInResidue(graph, residue, x, y);
      }
    }
    ghost var y :| y in residueR;
    ghost var x :| x in residueR[y];
    assert Edge(residue, x, y);
    ghost var c := FedHasCycle(graph, x);
    CycleIsFedAndFeeds(graph, c);
    assert (c[0], c[1]) in edges;
    v := if edges != {} then CircularEdges(edges) else NoneFound;
  }
}
