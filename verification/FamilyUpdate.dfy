// Update of the state and totals of flagged families and their ancestors
// (data_store_mgr.py: update_family_proxies, _family_ascent_point_update;
// task_state_prop.py: extract_group_state).

module GroupState {
  import opened FamilyNodes

  const ORDERED_STATES: seq<Status> :=
    [SubmitFailed, Failed, Expired, Running, Submitted, Preparing, Waiting, Succeeded]

  // The loop over the ordered states, from number i on.
  function FirstIn(order: seq<Status>, states: set<Status>): Status {
    if order == [] then Unset
    else if order[0] in states then order[0]
    else FirstIn(order[1..], states)
  }

  function ExtractGroupState(states: set<Status>): Status {
    FirstIn(ORDERED_STATES, states)
  }

  // How soon a state is looked for.
  function Rank(s: Status): nat {
    match s
    case SubmitFailed => 0
    case Failed => 1
    case Expired => 2
    case Running => 3
    case Submitted => 4
    case Preparing => 5
    case Waiting => 6
    case Succeeded => 7
    case Unset => 8
  }

  lemma {:induction false} FirstFrom(states: set<Status>, k: nat)
    requires k <= 8
    ensures var s := FirstIn(ORDERED_STATES[k..], states);
            && (s != Unset ==> s in states && Rank(s) >= k)
            && (forall u :: u in states && k <= Rank(u) < 8 ==> s != Unset && Rank(s) <= Rank(u))
    decreases 8 - k
  {
    if k < 8 {
      FirstFrom(states, k + 1);
      assert ORDERED_STATES[k..][0] == ORDERED_STATES[k] && ORDERED_STATES[k..][1..] == ORDERED_STATES[k + 1..];
      assert Rank(ORDERED_STATES[k]) == k;
      assert forall u :: Rank(u) == k ==> u == ORDERED_STATES[k];
    }
  }

  // The group has the first of its states by rank, and no state if it has none.
  lemma GroupIsFirst(states: set<Status>, s: Status)
    requires s != Unset
    ensures ExtractGroupState(states) == s <==> s in states && forall u :: u in states ==> Rank(s) <= Rank(u)
    ensures ExtractGroupState(states) == Unset <==> states <= {Unset}
  {
    FirstFrom(states, 0);
    assert ORDERED_STATES[0..] == ORDERED_STATES;
    assert forall u, v :: Rank(u) == Rank(v) ==> u == v;
    assert forall u :: Rank(u) == 8 ==> u == Unset;
  }

  // The more important of two states.
  function Better(a: Status, b: Status): Status {
    ExtractGroupState({a, b})
  }

  lemma {:induction false} FirstInUnion(order: seq<Status>, a: set<Status>, b: set<Status>)
    requires Unset !in order
    ensures FirstIn(order, a + b) == FirstIn(order, {FirstIn(order, a), FirstIn(order, b)})
  {
    if order != [] {
      FirstInUnion(order[1..], a, b);
      var x, y := FirstIn(order, a), FirstIn(order, b);
      if order[0] !in a + b && order[0] !in {x, y} {
        assert FirstIn(order, a + b) == FirstIn(order[1..], a + b);
      }
      FirstInMember(order[1..], a);
      FirstInMember(order[1..], b);
    }
  }

  lemma {:induction false} FirstInMember(order: seq<Status>, a: set<Status>)
    ensures FirstIn(order, a) == Unset || (FirstIn(order, a) in a && FirstIn(order, a) in order)
  {
    if order != [] { FirstInMember(order[1..], a); }
  }

  // Group states compose: a group of groups is the group of all.
  lemma GroupOfUnion(a: set<Status>, b: set<Status>)
    ensures ExtractGroupState(a + b) == Better(ExtractGroupState(a), ExtractGroupState(b))
  {
    FirstInUnion(ORDERED_STATES, a, b);
  }

  lemma {:induction false} FirstInOne(order: seq<Status>, s: Status)
    requires Unset !in order
    ensures FirstIn(order, {s}) == if s in order then s else Unset
  {
    if order != [] { FirstInOne(order[1..], s); }
  }

  lemma GroupOfOne(s: Status)
    ensures ExtractGroupState({s}) == s
  {
    FirstInOne(ORDERED_STATES, s);
    assert s == Unset || s in ORDERED_STATES by {
      assert ORDERED_STATES[0] == SubmitFailed && ORDERED_STATES[1] == Failed && ORDERED_STATES[2] == Expired
          && ORDERED_STATES[3] == Running && ORDERED_STATES[4] == Submitted && ORDERED_STATES[5] == Preparing
          && ORDERED_STATES[6] == Waiting && ORDERED_STATES[7] == Succeeded;
    }
  }
}

module FamilyUpdate {
  import opened FamilyNodes
  import opened GroupState
  import opened Wrappers

  // A task as the update sees it: the delta's fields over the node's.
  datatype TaskView = TaskView(state: Status, held: bool, queued: bool, runahead: bool, depth: nat)

  // What stays fixed while the families are updated.  The forest leaves out the
  // pruned families and tasks.  deep asks that depths are right as well.
  datatype Env = Env(forest: Forest, height: Id -> nat, top: nat, deep: bool, pruned: set<Id>,
                     tasks: map<Id, TaskView>, pool: set<Id>, window: set<Id>, edgeDistance: nat)

  datatype View = NoNode | View(node: FamilyProxy)

  ghost predicate InWindow(e: Env, t: Id) {
    e.window == {} || t in e.window
  }

  ghost predicate ValidEnv(e: Env) {
    && TreeShaped(e.forest, e.height)
    && (forall f :: f in e.forest.families ==> e.height(f) < e.top)
       // a family that is stored is a child of its parent, if that is stored
    && (forall f :: f in e.forest.parent && e.forest.parent[f] in e.forest.families && f !in e.pruned ==>
          f in e.forest.families[e.forest.parent[f]])
    && (forall f, c :: f in e.forest.families && c in e.forest.families[f] ==> c !in e.pruned)
       // the parent of a family that stays does too
    && (forall f :: f in e.forest.parent && f !in e.pruned ==> e.forest.parent[f] !in e.pruned)
       // a task is in one family
    && (forall f, g, t :: f in e.forest.tasks && g in e.forest.tasks && t in e.forest.tasks[f] && t in e.forest.tasks[g] ==> f == g)
    && (forall f, t :: f in e.forest.tasks && t in e.forest.tasks[f] ==> t in e.tasks)
       // active tasks are in the window, at depth 0
    && (forall t :: t in e.pool && t in e.tasks ==> InWindow(e, t) && e.tasks[t].depth == 0)
    && (forall t :: t in e.tasks ==> e.tasks[t].state != Unset)
  }

  /* ---- the subtree of a family ---- */

  ghost function SubTasks(e: Env, f: Id): set<Id>
    requires ValidEnv(e)
    decreases e.height(f)
  {
    if f !in e.forest.families then {}
    else e.forest.tasks[f] + Below(e, f, e.forest.families[f])
  }

  ghost function Below(e: Env, f: Id, cs: set<Id>): set<Id>
    requires ValidEnv(e) && f in e.forest.families && cs <= e.forest.families[f]
    decreases e.height(f), 0
  {
    set c, t | c in cs && t in SubTasks(e, c) :: t
  }

  // g is f or has f above it.
  ghost predicate Under(e: Env, g: Id, f: Id)
    requires ValidEnv(e)
    decreases if g in e.forest.parent then e.top - e.height(g) else 0
  {
    g == f || (g in e.forest.parent && e.forest.parent[g] in e.forest.parent && Under(e, e.forest.parent[g], f))
  }

  lemma {:induction false} UnderHeight(e: Env, g: Id, f: Id)
    requires ValidEnv(e) && Under(e, g, f)
    ensures g == f || e.height(g) < e.height(f)
    decreases if g in e.forest.parent then e.top - e.height(g) else 0
  {
    if g != f { UnderHeight(e, e.forest.parent[g], f); }
  }

  lemma {:induction false} UnderThenParent(e: Env, g: Id, f: Id)
    requires ValidEnv(e) && Under(e, g, f) && f in e.forest.parent && e.forest.parent[f] in e.forest.parent
    ensures Under(e, g, e.forest.parent[f])
    decreases if g in e.forest.parent then e.top - e.height(g) else 0
  {
    if g != f { UnderThenParent(e, e.forest.parent[g], f); }
  }

  // Two families above the same one are above one another.
  lemma {:induction false} UnderComparable(e: Env, g: Id, a: Id, b: Id)
    requires ValidEnv(e) && Under(e, g, a) && Under(e, g, b)
    ensures Under(e, a, b) || Under(e, b, a)
    decreases if g in e.forest.parent then e.top - e.height(g) else 0
  {
    if g != a && g != b { UnderComparable(e, e.forest.parent[g], a, b); }
  }

  lemma {:induction false} SubTasksAreUnder(e: Env, f: Id, g: Id, t: Id)
    requires ValidEnv(e) && t in SubTasks(e, f) && g in e.forest.tasks && t in e.forest.tasks[g]
    ensures Under(e, g, f)
    decreases e.height(f)
  {
    if t !in e.forest.tasks[f] {
      var c :| c in e.forest.families[f] && t in SubTasks(e, c);
      SubTasksAreUnder(e, c, g, t);
      UnderThenParent(e, g, c);
    }
  }

  lemma {:induction false} SubTasksAreTasks(e: Env, f: Id, t: Id)
    requires ValidEnv(e) && t in SubTasks(e, f)
    ensures exists g :: g in e.forest.tasks && t in e.forest.tasks[g]
    decreases e.height(f)
  {
    if t !in e.forest.tasks[f] {
      var c :| c in e.forest.families[f] && t in SubTasks(e, c);
      SubTasksAreTasks(e, c, t);
    }
  }

  // A child family shares no task with its siblings or with the parent itself.
  lemma SiblingsDisjoint(e: Env, f: Id, c: Id, cs: set<Id>)
    requires ValidEnv(e) && f in e.forest.families && c in e.forest.families[f]
    requires cs <= e.forest.families[f] && c !in cs
    ensures SubTasks(e, c) !! e.forest.tasks[f]
    ensures SubTasks(e, c) !! Below(e, f, cs)
  {
    forall t | t in SubTasks(e, c) && t in e.forest.tasks[f] ensures false {
      SubTasksAreUnder(e, c, f, t);
      UnderHeight(e, f, c);
    }
    forall t | t in SubTasks(e, c) && t in Below(e, f, cs) ensures false {
      var d :| d in cs && t in SubTasks(e, d);
      SubTasksAreTasks(e, c, t);
      var g :| g in e.forest.tasks && t in e.forest.tasks[g];
      SubTasksAreUnder(e, c, g, t);
      SubTasksAreUnder(e, d, g, t);
      UnderComparable(e, g, c, d);
      SiblingNotUnder(e, f, c, d);
      SiblingNotUnder(e, f, d, c);
    }
  }

  lemma SiblingNotUnder(e: Env, f: Id, c: Id, d: Id)
    requires ValidEnv(e) && f in e.forest.families && c in e.forest.families[f] && d in e.forest.families[f] && c != d
    ensures !Under(e, c, d)
  {
    if Under(e, c, d) {
      assert e.forest.parent[c] == f;
      UnderHeight(e, f, d);
    }
  }

  /* ---- counting ---- */

  datatype Tally = InState(status: Status) | IsHeld | IsQueued | IsRunahead

  predicate Has(v: TaskView, k: Tally) {
    match k
    case InState(s) => v.state == s
    case IsHeld => v.held
    case IsQueued => v.queued
    case IsRunahead => v.runahead
  }

  ghost function Counted(e: Env, ts: set<Id>, k: Tally): set<Id> {
    set t | t in ts && t in e.pool && t in e.tasks && Has(e.tasks[t], k)
  }

  ghost function Count(e: Env, ts: set<Id>, k: Tally): nat {
    |Counted(e, ts, k)|
  }

  lemma CountUnion(e: Env, a: set<Id>, b: set<Id>, k: Tally)
    requires a !! b
    ensures Count(e, a + b, k) == Count(e, a, k) + Count(e, b, k)
  {
    assert Counted(e, a + b, k) == Counted(e, a, k) + Counted(e, b, k);
  }

  lemma CountOne(e: Env, t: Id, k: Tally)
    requires t in e.tasks
    ensures Count(e, {t}, k) == if t in e.pool && Has(e.tasks[t], k) then 1 else 0
  {
    assert Counted(e, {t}, k) == if t in e.pool && Has(e.tasks[t], k) then {t} else {};
  }

  // The counters that a family keeps: totals by state (a Counter), held, queued, runahead.
  datatype Totals = Totals(states: map<Status, nat>, held: nat, queued: nat, runahead: nat)

  function Get(m: map<Status, nat>, s: Status): nat {
    if s in m then m[s] else 0
  }

  function Of(a: Totals, k: Tally): nat {
    match k
    case InState(s) => Get(a.states, s)
    case IsHeld => a.held
    case IsQueued => a.queued
    case IsRunahead => a.runahead
  }

  function TotalsOf(n: FamilyProxy): Totals {
    Totals(n.stateTotals, n.heldTotal, n.queuedTotal, n.runaheadTotal)
  }

  // Counter addition keeps the positive totals only.
  function Add(a: Totals, b: Totals): (r: Totals)
    ensures forall k :: Of(r, k) == Of(a, k) + Of(b, k)
  {
    Totals(map s | s in a.states.Keys + b.states.Keys && Get(a.states, s) + Get(b.states, s) > 0 ::
             Get(a.states, s) + Get(b.states, s),
           a.held + b.held, a.queued + b.queued, a.runahead + b.runahead)
  }

  function AddTask(a: Totals, v: TaskView): (r: Totals)
    ensures forall k :: Of(r, k) == Of(a, k) + if Has(v, k) then 1 else 0
  {
    Totals(a.states[v.state := Get(a.states, v.state) + 1],
           a.held + (if v.held then 1 else 0),
           a.queued + (if v.queued then 1 else 0),
           a.runahead + (if v.runahead then 1 else 0))
  }

  ghost predicate Accurate(e: Env, a: Totals, ts: set<Id>) {
    forall k :: Of(a, k) == Count(e, ts, k)
  }

  lemma AccurateUnion(e: Env, a: Totals, b: Totals, ts: set<Id>, us: set<Id>)
    requires Accurate(e, a, ts) && Accurate(e, b, us) && ts !! us
    ensures Accurate(e, Add(a, b), ts + us)
  {
    forall k ensures Of(Add(a, b), k) == Count(e, ts + us, k) {
      CountUnion(e, ts, us, k);
    }
  }

  lemma AccurateTask(e: Env, a: Totals, ts: set<Id>, t: Id)
    requires Accurate(e, a, ts) && t !in ts && t in e.tasks
    ensures Accurate(e, if t in e.pool then AddTask(a, e.tasks[t]) else a, ts + {t})
  {
    var b := if t in e.pool then AddTask(a, e.tasks[t]) else a;
    forall k ensures Of(b, k) == Count(e, ts + {t}, k) {
      CountUnion(e, ts, {t}, k);
      CountOne(e, t, k);
    }
  }

  lemma AccurateInactive(e: Env, a: Totals, ts: set<Id>, us: set<Id>)
    requires Accurate(e, a, ts) && us !! e.pool
    ensures Accurate(e, a, ts + us)
  {
    forall k ensures Of(a, k) == Count(e, ts + us, k) {
      assert Counted(e, ts + us, k) == Counted(e, ts, k);
    }
  }

  ghost function WindowStates(e: Env, ts: set<Id>): set<Status> {
    set t | t in ts && t in e.tasks && InWindow(e, t) :: e.tasks[t].state
  }

  // The least depth of the tasks of ts in the window, but no more than the
  // edge distance.
  ghost predicate IsLeastDepth(e: Env, ts: set<Id>, depth: nat) {
    && depth <= e.edgeDistance
    && (forall t :: t in ts && t in e.tasks && InWindow(e, t) ==> depth <= e.tasks[t].depth)
    && (depth == e.edgeDistance || exists t :: t in ts && t in e.tasks && InWindow(e, t) && depth == e.tasks[t].depth)
  }

  lemma LeastDepthUnion(e: Env, ts: set<Id>, us: set<Id>, a: nat, b: nat)
    requires IsLeastDepth(e, ts, a) && IsLeastDepth(e, us, b)
    ensures IsLeastDepth(e, ts + us, if b < a then b else a)
  {
    var d := if b < a then b else a;
    if d != e.edgeDistance {
      if b < a {
        var t :| t in us && t in e.tasks && InWindow(e, t) && b == e.tasks[t].depth;
        assert t in ts + us;
      } else {
        var t :| t in ts && t in e.tasks && InWindow(e, t) && a == e.tasks[t].depth;
        assert t in ts + us;
      }
    }
  }

  // f and every family below it have a task in the window.
  ghost predicate Populated(e: Env, f: Id)
    requires ValidEnv(e)
    decreases e.height(f)
  {
    && f in e.forest.families
    && ((exists t :: t in e.forest.tasks[f] && InWindow(e, t)) || e.forest.families[f] != {})
    && forall c :: c in e.forest.families[f] ==> Populated(e, c)
  }

  lemma {:induction false} PopulatedHasStates(e: Env, f: Id)
    requires ValidEnv(e) && Populated(e, f)
    ensures WindowStates(e, SubTasks(e, f)) - {Unset} != {}
    decreases e.height(f)
  {
    if t :| t in e.forest.tasks[f] && InWindow(e, t) {
      assert t in SubTasks(e, f);
      assert e.tasks[t].state in WindowStates(e, SubTasks(e, f)) - {Unset};
    } else {
      var c :| c in e.forest.families[f];
      PopulatedHasStates(e, c);
      var s :| s in WindowStates(e, SubTasks(e, c)) - {Unset};
      var t :| t in SubTasks(e, c) && t in e.tasks && InWindow(e, t) && e.tasks[t].state == s;
      assert t in SubTasks(e, f);
      assert s in WindowStates(e, SubTasks(e, f)) - {Unset};
    }
  }

  lemma KnownStateGroups(states: set<Status>)
    requires states - {Unset} != {}
    ensures ExtractGroupState(states) != Unset
  {
    var s :| s in states - {Unset};
    GroupOfOne(s);
    SomeKnown(ORDERED_STATES, states, s);
  }

  lemma {:induction false} SomeKnown(order: seq<Status>, states: set<Status>, s: Status)
    requires Unset !in order && s in states && FirstIn(order, {s}) == s != Unset
    ensures FirstIn(order, states) != Unset
  {
    if order != [] && order[0] !in states {
      SomeKnown(order[1..], states, s);
    }
  }

  /* ---- a family whose stored values are right ---- */

  ghost predicate Fresh(e: Env, f: Id, v: View)
    requires ValidEnv(e)
  {
    var ts := SubTasks(e, f);
    && (v.NoNode? ==> ts !! e.pool && !Populated(e, f))
    && (v.View? ==>
          && Accurate(e, TotalsOf(v.node), ts)
          && (!(ts !! e.pool) ==> v.node.graphDepth == 0)
          && (Populated(e, f) && e.deep ==> IsLeastDepth(e, ts, v.node.graphDepth))
          && (Populated(e, f) ==> v.node.state == ExtractGroupState(WindowStates(e, ts))))
  }

  // The local variables of the update of one family, over the tasks ts gathered so far.
  datatype Summary = Summary(totals: Totals, states: set<Status>, depth: nat)

  ghost predicate Sums(e: Env, s: Summary, ts: set<Id>, populated: bool) {
    && Accurate(e, s.totals, ts)
    && (!(ts !! e.pool) ==> s.depth == 0)
    && (populated && e.deep ==> IsLeastDepth(e, ts, s.depth))
    && (populated ==> ExtractGroupState(s.states) == ExtractGroupState(WindowStates(e, ts)))
  }

  function AddChild(s: Summary, v: View): Summary {
    match v
    case NoNode => s
    case View(n) =>
      Summary(if n.graphDepth == 0 then Add(s.totals, TotalsOf(n)) else s.totals,
              s.states + {n.state},
              if n.graphDepth < s.depth then n.graphDepth else s.depth)
  }

  function AddChildTask(s: Summary, v: TaskView, active: bool): Summary {
    Summary(if active then AddTask(s.totals, v) else s.totals,
            s.states + {v.state},
            if v.depth < s.depth then v.depth else s.depth)
  }

  lemma AddChildSums(e: Env, s: Summary, ts: set<Id>, c: Id, v: View, populated: bool)
    requires ValidEnv(e) && Sums(e, s, ts, populated) && Fresh(e, c, v) && SubTasks(e, c) !! ts
    requires populated ==> Populated(e, c)
    ensures Sums(e, AddChild(s, v), ts + SubTasks(e, c), populated)
  {
    var us := SubTasks(e, c);
    if v.NoNode? || v.node.graphDepth != 0 {
      AccurateInactive(e, s.totals, ts, us);
    } else {
      AccurateUnion(e, s.totals, TotalsOf(v.node), ts, us);
    }
    if populated && e.deep && v.View? {
      LeastDepthUnion(e, ts, us, s.depth, v.node.graphDepth);
    }
    if populated {
      assert WindowStates(e, ts + us) == WindowStates(e, ts) + WindowStates(e, us);
      GroupOfUnion(WindowStates(e, ts), WindowStates(e, us));
      GroupOfUnion(s.states, {v.node.state});
      GroupOfOne(v.node.state);
    }
  }

  lemma NothingSums(e: Env, f: Id, populated: bool)
    requires ValidEnv(e) && f in e.forest.families
    ensures Sums(e, Summary(Totals(map[], 0, 0, 0), {}, e.edgeDistance), Below(e, f, {}), populated)
  {
    assert Below(e, f, {}) == {} && WindowStates(e, {}) == {};
    assert forall k :: Counted(e, {}, k) == {};
  }

  lemma AddChildStep(e: Env, f: Id, seen: set<Id>, c: Id, s: Summary, v: View, populated: bool)
    requires ValidEnv(e) && f in e.forest.families && c in e.forest.families[f]
    requires seen <= e.forest.families[f] && c !in seen
    requires Sums(e, s, Below(e, f, seen), populated) && (populated ==> Populated(e, f))
    requires if c in e.forest.families then Fresh(e, c, v) else v == NoNode
    ensures Sums(e, AddChild(s, v), Below(e, f, seen + {c}), populated)
  {
    hide Sums, Fresh;
    assert Below(e, f, seen + {c}) == Below(e, f, seen) + SubTasks(e, c);
    if c in e.forest.families {
      SiblingsDisjoint(e, f, c, seen);
      AddChildSums(e, s, Below(e, f, seen), c, v, populated);
    } else {
      assert Below(e, f, seen) + SubTasks(e, c) == Below(e, f, seen);
    }
  }

  lemma TaskDepth(e: Env, ts: set<Id>, t: Id, depth: nat)
    requires IsLeastDepth(e, ts, depth) && t in e.tasks
    ensures IsLeastDepth(e, ts + {t}, if InWindow(e, t) && e.tasks[t].depth < depth then e.tasks[t].depth else depth)
  {
    if exists u :: u in ts && u in e.tasks && InWindow(e, u) && depth == e.tasks[u].depth {
      var u :| u in ts && u in e.tasks && InWindow(e, u) && depth == e.tasks[u].depth;
      assert u in ts + {t};
    }
    assert t in ts + {t};
  }

  lemma AddTaskSums(e: Env, s: Summary, ts: set<Id>, t: Id, populated: bool)
    requires ValidEnv(e) && Sums(e, s, ts, populated) && t in e.tasks && t !in ts
    ensures Sums(e, if InWindow(e, t) then AddChildTask(s, e.tasks[t], t in e.pool) else s, ts + {t}, populated)
  {
    AccurateTask(e, s.totals, ts, t);
    if populated && e.deep {
      TaskDepth(e, ts, t, s.depth);
    }
    if InWindow(e, t) {
      assert WindowStates(e, ts + {t}) == WindowStates(e, ts) + {e.tasks[t].state};
      GroupOfUnion(WindowStates(e, ts), {e.tasks[t].state});
      GroupOfUnion(s.states, {e.tasks[t].state});
    } else {
      assert WindowStates(e, ts + {t}) == WindowStates(e, ts);
    }
  }

  lemma AddTaskStep(e: Env, f: Id, s: Summary, seen: set<Id>, t: Id, populated: bool)
    requires ValidEnv(e) && f in e.forest.families && f in e.forest.tasks
    requires t in e.forest.tasks[f] && t in e.tasks && t !in seen
    requires Sums(e, s, Below(e, f, e.forest.families[f]) + seen, populated)
    ensures Sums(e, if InWindow(e, t) then AddChildTask(s, e.tasks[t], t in e.pool) else s,
                 Below(e, f, e.forest.families[f]) + (seen + {t}), populated)
  {
    hide Sums;
    var below := Below(e, f, e.forest.families[f]);
    if t in below {
      var c :| c in e.forest.families[f] && t in SubTasks(e, c);
      SiblingsDisjoint(e, f, c, {});
    }
    AddTaskSums(e, s, below + seen, t, populated);
    assert (below + seen) + {t} == below + (seen + {t});
  }

  /* ---- the worklist ---- */

  // views: what is stored of each family; flagged: state_update_families;
  // done: updated_state_families.
  datatype State = State(views: map<Id, View>, flagged: set<Id>, done: set<Id>)

  // A family whose stored values are wrong has a flagged one below it.
  ghost predicate InvFresh(e: Env, st: State)
    requires ValidEnv(e)
  {
    && st.views.Keys == e.forest.families.Keys
    && forall f :: f in st.views && f !in e.pruned && !Fresh(e, f, st.views[f]) ==>
         exists g :: g in st.flagged && Under(e, g, f)
  }

  ghost predicate InvDone(e: Env, st: State)
    requires ValidEnv(e)
  {
    && st.flagged !! e.pruned
    && forall g, f :: g in st.flagged && f in st.done && f in e.forest.families ==> !Under(e, g, f)
  }

  // first: the families flagged at the start.
  ghost predicate InvReach(e: Env, first: set<Id>, st: State)
    requires ValidEnv(e)
  {
    && first <= st.flagged + st.done
    && (forall f :: f in st.done && f in e.forest.parent && e.forest.parent[f] != "" ==>
          e.forest.parent[f] in st.flagged + st.done)
    && (forall f :: f in st.flagged + st.done && f in e.forest.families ==> Above(e, first, f))
  }

  // f is a family of first, or above one.
  ghost predicate Above(e: Env, first: set<Id>, f: Id)
    requires ValidEnv(e)
  {
    exists w :: w in first && Under(e, w, f)
  }

  ghost predicate Inv(e: Env, first: set<Id>, st: State) {
    ValidEnv(e) && InvFresh(e, st) && InvDone(e, st) && InvReach(e, first, st)
  }

  // No flagged family below f, f itself apart.
  ghost predicate ClearBelow(e: Env, st: State, f: Id)
    requires ValidEnv(e)
  {
    forall g :: g in st.flagged && Under(e, g, f) ==> g == f
  }

  ghost predicate Clear(e: Env, flagged: set<Id>, f: Id)
    requires ValidEnv(e)
  {
    forall g :: g in flagged ==> !Under(e, g, f)
  }

  ghost function Up(e: Env, f: Id): set<Id> {
    if f in e.forest.parent && e.forest.parent[f] != "" then {e.forest.parent[f]} else {}
  }

  lemma UpAt(e: Env, f: Id)
    requires f in e.forest.parent
    ensures Up(e, f) == if e.forest.parent[f] != "" then {e.forest.parent[f]} else {}
  {
  }

  // f has been updated: its new values are stored, it is unflagged and its parent flagged.
  ghost function Updated(e: Env, st: State, f: Id, v: View): State
    requires f in e.forest.parent
  {
    State(st.views[f := v], (st.flagged + Up(e, f)) - {f}, st.done + {f})
  }

  lemma UpdatedInvFresh(e: Env, st: State, f: Id, v: View)
    requires ValidEnv(e) && InvFresh(e, st)
    requires f in e.forest.families && f in st.flagged && Fresh(e, f, v)
    ensures InvFresh(e, Updated(e, st, f, v))
  {
    var st', p := Updated(e, st, f, v), e.forest.parent[f];
    forall h | h in st'.views && h !in e.pruned && !Fresh(e, h, st'.views[h])
      ensures exists g :: g in st'.flagged && Under(e, g, h)
    {
      var g :| g in st.flagged && Under(e, g, h);
      if g == f {
        assert p in st'.flagged && Under(e, p, h);
      } else {
        assert g in st'.flagged;
      }
    }
  }

  // What the parent is below, the family is below.
  lemma ParentNotUnder(e: Env, f: Id, h: Id)
    requires ValidEnv(e) && f in e.forest.families && h in e.forest.families && !Under(e, f, h)
    ensures !Under(e, e.forest.parent[f], h)
  {
  }

  lemma UpdatedInvDone(e: Env, st: State, f: Id, v: View)
    requires ValidEnv(e) && InvDone(e, st)
    requires f in e.forest.families && f in st.flagged && ClearBelow(e, st, f)
    ensures InvDone(e, Updated(e, st, f, v)) && f !in st.done
    ensures Clear(e, Updated(e, st, f, v).flagged, f)
  {
    var st', p := Updated(e, st, f, v), e.forest.parent[f];
    assert Under(e, f, f);
    assert !Under(e, p, f) by {
      if Under(e, p, f) { UnderHeight(e, p, f); }
    }
    forall g, h | g in st'.flagged && h in st'.done && h in e.forest.families ensures !Under(e, g, h) {
      if h != f && g !in st.flagged {
        ParentNotUnder(e, f, h);
      }
    }
    hide Under;
  }

  lemma UpdatedInvReach(e: Env, first: set<Id>, st: State, f: Id, v: View)
    requires ValidEnv(e) && InvReach(e, first, st) && f in e.forest.families && f in st.flagged
    ensures InvReach(e, first, Updated(e, st, f, v))
  {
    var st', p := Updated(e, st, f, v), e.forest.parent[f];
    if p in e.forest.families {
      var w :| w in first && Under(e, w, f);
      UnderThenParent(e, w, f);
      assert Above(e, first, p);
    }
  }

  lemma UpdatedInv(e: Env, first: set<Id>, st: State, f: Id, v: View)
    requires Inv(e, first, st) && f in e.forest.families && f in e.forest.parent
    requires f in st.flagged && ClearBelow(e, st, f) && Fresh(e, f, v)
    ensures Inv(e, first, Updated(e, st, f, v)) && f !in st.done
    ensures Clear(e, Updated(e, st, f, v).flagged, f)
  {
    hide InvFresh, InvDone, InvReach, Fresh, ClearBelow, Clear, Updated;
    UpdatedInvFresh(e, st, f, v);
    UpdatedInvDone(e, st, f, v);
    UpdatedInvReach(e, first, st, f, v);
  }

  // The children of a family with nothing flagged below it are all fresh.
  lemma ClearChildrenAreFresh(e: Env, st: State, c: Id)
    requires ValidEnv(e) && InvFresh(e, st) && Clear(e, st.flagged, c)
    requires c in e.forest.families && c !in e.pruned
    ensures Fresh(e, c, st.views[c])
  {
  }

  // A flagged name that is not stored is only marked.
  lemma UnknownKeepsInv(e: Env, first: set<Id>, st: State, f: Id)
    requires Inv(e, first, st) && f !in e.forest.families
    ensures Inv(e, first, st.(flagged := st.flagged - {f}, done := st.done + {f}))
    ensures Clear(e, st.flagged - {f}, f)
  {
    var st' := st.(flagged := st.flagged - {f}, done := st.done + {f});
    forall h | h in st'.views && h !in e.pruned && !Fresh(e, h, st'.views[h])
      ensures exists g :: g in st'.flagged && Under(e, g, h)
    {
      var g :| g in st.flagged && Under(e, g, h);
      assert g in st'.flagged;
    }
    forall g | g in st.flagged - {f} ensures !Under(e, g, f) {
      UnderUnknown(e, g, f);
    }
  }

  lemma {:induction false} UnderUnknown(e: Env, g: Id, f: Id)
    requires ValidEnv(e) && f !in e.forest.families && g != f
    ensures !Under(e, g, f)
    decreases if g in e.forest.parent then e.top - e.height(g) else 0
  {
    if g in e.forest.parent && e.forest.parent[g] in e.forest.parent {
      UnderUnknown(e, e.forest.parent[g], f);
    }
  }

  // With nothing flagged any more, every family is right and exactly the
  // families on the way up from the first ones were updated.
  ghost predicate AllUpdated(e: Env, first: set<Id>, st: State)
    requires ValidEnv(e)
  {
    && st.views.Keys == e.forest.families.Keys
    && (forall f :: f in e.forest.families && f !in e.pruned ==> Fresh(e, f, st.views[f]))
    && (forall f :: f in e.forest.families ==> (f in st.done <==> Above(e, first, f)))
  }

  lemma {:induction false} DoneUpwards(e: Env, first: set<Id>, st: State, g: Id, f: Id)
    requires ValidEnv(e) && InvReach(e, first, st) && st.flagged == {}
    requires g in st.done && Under(e, g, f)
    ensures f in st.done
    decreases if g in e.forest.parent then e.top - e.height(g) else 0
  {
    if g != f { DoneUpwards(e, first, st, e.forest.parent[g], f); }
  }

  lemma WorklistEmpty(e: Env, first: set<Id>, st: State)
    requires Inv(e, first, st) && st.flagged == {}
    ensures AllUpdated(e, first, st)
  {
    forall f | f in e.forest.families && Above(e, first, f) ensures f in st.done {
      var w :| w in first && Under(e, w, f);
      DoneUpwards(e, first, st, w, f);
    }
  }

  /* ---- one recursive call ---- */

  // Of the stored families, only those under f have been unflagged.
  ghost predicate Kept(e: Env, before: set<Id>, after: set<Id>, f: Id)
    requires ValidEnv(e)
  {
    forall g :: g in before && g in e.forest.families && !Under(e, g, f) ==> g in after
  }

  // The calls for the children cs of f have returned.
  ghost predicate KidsUpdated(e: Env, before: set<Id>, now: set<Id>, f: Id, cs: set<Id>)
    requires ValidEnv(e)
  {
    && now <= before + {f}
    && (f in before ==> f in now)
    && Kept(e, before, now, f)
    && (forall c :: c in cs && c in e.forest.families ==> Clear(e, now, c))
  }

  lemma {:induction false} BelowAChild(e: Env, g: Id, f: Id)
    requires ValidEnv(e) && Under(e, g, f) && g != f && g !in e.pruned
    ensures exists c :: f in e.forest.families && c in e.forest.families[f] && c in e.forest.families && Under(e, g, c)
    decreases if g in e.forest.parent then e.top - e.height(g) else 0
  {
    var p := e.forest.parent[g];
    if p == f {
      assert Under(e, g, g);
    } else {
      BelowAChild(e, p, f);
      var c :| c in e.forest.families[f] && c in e.forest.families && Under(e, p, c);
      assert Under(e, g, c);
    }
  }

  lemma UnderKnown(e: Env, g: Id, f: Id)
    requires ValidEnv(e) && Under(e, g, f) && g in e.forest.families
    ensures f in e.forest.families
  {
    if f !in e.forest.families { UnderUnknown(e, g, f); }
  }

  lemma ChildNotAbove(e: Env, f: Id, c: Id)
    requires ValidEnv(e) && f in e.forest.families && c in e.forest.families[f]
    ensures !Under(e, f, c)
  {
    if Under(e, f, c) { UnderHeight(e, f, c); }
  }

  lemma UnderChildIsUnder(e: Env, f: Id, c: Id, g: Id)
    requires ValidEnv(e) && f in e.forest.families && c in e.forest.families[f] && c in e.forest.families && Under(e, g, c)
    ensures Under(e, g, f)
  {
    UnderThenParent(e, g, c);
  }

  lemma ChildBelow(e: Env, f: Id, c: Id)
    requires ValidEnv(e) && f in e.forest.families && c in e.forest.families[f]
    ensures e.height(c) < e.height(f) && Up(e, c) <= {f}
  {
  }

  lemma KeptUnflagged(e: Env, before: set<Id>, now: set<Id>, after: set<Id>, f: Id)
    requires ValidEnv(e) && Kept(e, before, now, f) && now - {f} <= after
    ensures Kept(e, before, after, f)
  {
    assert Under(e, f, f);
  }

  lemma DoneIsClear(e: Env, st: State, c: Id)
    requires ValidEnv(e) && InvDone(e, st)
    ensures c in st.done && c in e.forest.families ==> Clear(e, st.flagged, c)
  {
  }

  lemma ClearedBelow(e: Env, st: State, f: Id)
    requires ValidEnv(e) && InvDone(e, st) && f in e.forest.families
    requires forall c :: c in e.forest.families[f] && c in e.forest.families ==> Clear(e, st.flagged, c)
    ensures ClearBelow(e, st, f)
    ensures f !in st.flagged ==> Clear(e, st.flagged, f)
  {
    forall g | g in st.flagged && Under(e, g, f) ensures g == f {
      if g != f { BelowAChild(e, g, f); }
    }
  }

  lemma KidsUpdatedStep(e: Env, before: set<Id>, now: set<Id>, after: set<Id>, f: Id, cs: set<Id>, c: Id)
    requires ValidEnv(e) && f in e.forest.families && cs <= e.forest.families[f] && c in e.forest.families[f]
    requires KidsUpdated(e, before, now, f, cs)
    requires after <= now + {f} && Kept(e, now, after, c)
    requires c in e.forest.families ==> Clear(e, after, c)
    ensures KidsUpdated(e, before, after, f, cs + {c})
  {
    ChildNotAbove(e, f, c);
    forall g | g in before && g in e.forest.families && !Under(e, g, f) ensures g in after {
      if Under(e, g, c) {
        UnderKnown(e, g, c);
        UnderChildIsUnder(e, f, c, g);
      }
    }
    forall d | d in cs && d in e.forest.families ensures Clear(e, after, d) {
      ChildNotAbove(e, f, d);
    }
  }

  /* ---- the store ---- */

  // A task proxy or a delta of one; None is a field that is not set.
  datatype TaskProxy = TaskProxy(state: Option<Status>, isHeld: Option<bool>, isQueued: Option<bool>,
                                 isRunahead: Option<bool>, graphDepth: Option<nat>)

  // from_delta_or_node
  function Field<T>(delta: Option<T>, node: Option<T>, default: T): T {
    if delta.Some? then delta.value else if node.Some? then node.value else default
  }

  const NoDelta := TaskProxy(None, None, None, None, None)

  function ViewTask(delta: TaskProxy, node: TaskProxy): TaskView {
    TaskView(Field(delta.state, node.state, Unset), Field(delta.isHeld, node.isHeld, false),
             Field(delta.isQueued, node.isQueued, false), Field(delta.isRunahead, node.isRunahead, false),
             Field(delta.graphDepth, node.graphDepth, 0))
  }

  function ViewFamily(data: Families, updated: Families, f: Id): View {
    if f in updated then View(updated[f]) else if f in data then View(data[f]) else NoNode
  }

  ghost function Views(data: Families, added: Families, updated: Families): map<Id, View> {
    map f | f in data.Keys + added.Keys :: ViewFamily(data, updated, f)
  }

  // The families and tasks that are not pruned.
  ghost function Staying(data: Families, added: Families, updated: Families,
                         prunedFamilies: set<Id>, prunedTasks: set<Id>): Forest
  {
    Forest(map f | f in data.Keys + added.Keys :: Node(data, added, f).firstParent,
           StayingFamilies(data, added, updated, prunedFamilies),
           StayingTasks(data, added, updated, prunedTasks))
  }

  ghost function StayingFamilies(data: Families, added: Families, updated: Families, pruned: set<Id>): map<Id, set<Id>> {
    map f | f in data.Keys + added.Keys :: ChildFamilies(Node(data, added, f), updated, f) - pruned
  }

  ghost function StayingTasks(data: Families, added: Families, updated: Families, pruned: set<Id>): map<Id, set<Id>> {
    map f | f in data.Keys + added.Keys :: ChildTasks(Node(data, added, f), updated, f) - pruned
  }

  // setdefault(f, empty delta).MergeFrom(fp_delta): the scalar fields are set, an
  // undetermined state is not, and the child lists stay.
  function Merge(prior: View, s: Summary): (r: FamilyProxy)
    ensures r.childFamilies == if prior.View? then prior.node.childFamilies else {}
    ensures r.childTasks == if prior.View? then prior.node.childTasks else {}
  {
    var n := if prior.View? then prior.node else FamilyProxy("", {}, {}, Unset, map[], 0, 0, 0, 0);
    var g := ExtractGroupState(s.states);
    n.(state := (if g == Unset then n.state else g),
       stateTotals := (map st | st in {Waiting, Expired, Preparing, SubmitFailed, Submitted, Running, Failed, Succeeded} ::
                         Get(s.totals.states, st)),
       heldTotal := s.totals.held, queuedTotal := s.totals.queued, runaheadTotal := s.totals.runahead,
       graphDepth := s.depth)
  }

  // No task has the state Unset, so dropping that total loses nothing.
  lemma MergeFresh(e: Env, f: Id, prior: View, s: Summary)
    requires ValidEnv(e) && Sums(e, s, SubTasks(e, f), Populated(e, f))
    ensures Fresh(e, f, View(Merge(prior, s)))
  {
    var n, ts := Merge(prior, s), SubTasks(e, f);
    forall k ensures Of(TotalsOf(n), k) == Count(e, ts, k) {
      assert Of(s.totals, k) == Count(e, ts, k);
      if k == InState(Unset) {
        assert Counted(e, ts, k) == {};
      }
    }
    if Populated(e, f) {
      PopulatedHasStates(e, f);
      KnownStateGroups(WindowStates(e, ts));
    }
  }

  // Storing totals in a delta changes what is stored of f only, and no child list.
  lemma StoreMerged(data: Families, added: Families, updated: Families, pf: set<Id>, pt: set<Id>, f: Id, n: FamilyProxy)
    requires f in data || f in added
    requires n.childFamilies == if f in updated then updated[f].childFamilies else {}
    requires n.childTasks == if f in updated then updated[f].childTasks else {}
    ensures Staying(data, added, updated[f := n], pf, pt) == Staying(data, added, updated, pf, pt)
  {
    StayingFamiliesMerged(data, added, updated, pf, f, n);
    StayingTasksMerged(data, added, updated, pt, f, n);
    hide StayingFamilies, StayingTasks;
  }

  lemma StayingFamiliesMerged(data: Families, added: Families, updated: Families, pf: set<Id>, f: Id, n: FamilyProxy)
    requires f in data || f in added
    requires n.childFamilies == if f in updated then updated[f].childFamilies else {}
    ensures StayingFamilies(data, added, updated[f := n], pf) == StayingFamilies(data, added, updated, pf)
  {
    hide Node;
    var a, b := StayingFamilies(data, added, updated[f := n], pf), StayingFamilies(data, added, updated, pf);
    assert a.Keys == b.Keys;
    forall g | g in a ensures a[g] == b[g] {
    }
  }

  lemma StayingTasksMerged(data: Families, added: Families, updated: Families, pt: set<Id>, f: Id, n: FamilyProxy)
    requires f in data || f in added
    requires n.childTasks == if f in updated then updated[f].childTasks else {}
    ensures StayingTasks(data, added, updated[f := n], pt) == StayingTasks(data, added, updated, pt)
  {
    hide Node;
    var a, b := StayingTasks(data, added, updated[f := n], pt), StayingTasks(data, added, updated, pt);
    assert a.Keys == b.Keys;
    forall g | g in a ensures a[g] == b[g] {
    }
  }

  lemma ViewsMerged(data: Families, added: Families, updated: Families, f: Id, n: FamilyProxy)
    requires f in data || f in added
    ensures Views(data, added, updated[f := n]) == Views(data, added, updated)[f := View(n)]
  {
    var v, w := Views(data, added, updated[f := n]), Views(data, added, updated)[f := View(n)];
    forall g | g in v ensures v[g] == w[g] {
    }
    assert v.Keys == w.Keys;
  }

  // What stays, of the records.
  lemma StayingIs(data: Families, added: Families, updated: Families, prunedFamilies: set<Id>, prunedTasks: set<Id>,
                  f: Id, node: FamilyProxy, x: Id)
    requires (f in data && node == data[f]) || (f !in data && f in added && node == added[f])
    ensures var s := Staying(data, added, updated, prunedFamilies, prunedTasks);
            && f in s.parent && s.parent[f] == node.firstParent
            && f in s.families && (x in s.families[f] <==>
                 x !in prunedFamilies && (x in node.childFamilies || (f in updated && x in updated[f].childFamilies)))
            && f in s.tasks && (x in s.tasks[f] <==>
                 x !in prunedTasks && (x in node.childTasks || (f in updated && x in updated[f].childTasks)))
  {
  }

  // What the store says of each task.
  function TaskOf(tpData: map<Id, TaskProxy>, tpAdded: map<Id, TaskProxy>, tpUpdated: map<Id, TaskProxy>, t: Id): TaskView {
    var node := if t in tpAdded then tpAdded[t] else if t in tpData then tpData[t] else NoDelta;
    ViewTask(if t in tpUpdated then tpUpdated[t] else NoDelta, node)
  }

  ghost function TaskViews(tpData: map<Id, TaskProxy>, tpAdded: map<Id, TaskProxy>, tpUpdated: map<Id, TaskProxy>): map<Id, TaskView> {
    map t | t in tpData.Keys + tpAdded.Keys :: TaskOf(tpData, tpAdded, tpUpdated, t)
  }

  // The same of the records themselves.

  // v is the delta's value of a field where that is set, else the node's.
  ghost predicate FieldIs<T>(delta: Option<T>, node: Option<T>, default: T, v: T) {
    || delta == Some(v)
    || (delta == None && node == Some(v))
    || (delta == None && node == None && v == default)
  }

  // v is what the records say of t: the pending delta before the added node,
  // and that before the stored one.
  ghost predicate TaskIs(tpData: map<Id, TaskProxy>, tpAdded: map<Id, TaskProxy>, tpUpdated: map<Id, TaskProxy>,
                         t: Id, v: TaskView)
  {
    exists delta, node ::
      && (if t in tpUpdated then delta == tpUpdated[t] else delta == TaskProxy(None, None, None, None, None))
      && ((t in tpAdded && node == tpAdded[t]) || (t !in tpAdded && t in tpData && node == tpData[t]))
      && FieldIs(delta.state, node.state, Unset, v.state)
      && FieldIs(delta.isHeld, node.isHeld, false, v.held)
      && FieldIs(delta.isQueued, node.isQueued, false, v.queued)
      && FieldIs(delta.isRunahead, node.isRunahead, false, v.runahead)
      && FieldIs(delta.graphDepth, node.graphDepth, 0, v.depth)
  }

  lemma FieldMeans<T>(delta: Option<T>, node: Option<T>, default: T, v: T)
    ensures FieldIs(delta, node, default, v) <==> v == Field(delta, node, default)
  {
  }

  lemma ViewMeans(delta: TaskProxy, node: TaskProxy, v: TaskView)
    ensures v == ViewTask(delta, node) <==>
      && FieldIs(delta.state, node.state, Unset, v.state)
      && FieldIs(delta.isHeld, node.isHeld, false, v.held)
      && FieldIs(delta.isQueued, node.isQueued, false, v.queued)
      && FieldIs(delta.isRunahead, node.isRunahead, false, v.runahead)
      && FieldIs(delta.graphDepth, node.graphDepth, 0, v.depth)
  {
    FieldMeans(delta.state, node.state, Unset, v.state);
    FieldMeans(delta.isHeld, node.isHeld, false, v.held);
    FieldMeans(delta.isQueued, node.isQueued, false, v.queued);
    FieldMeans(delta.isRunahead, node.isRunahead, false, v.runahead);
    FieldMeans(delta.graphDepth, node.graphDepth, 0, v.depth);
    hide FieldIs, Field;
  }

  lemma TaskViewIs(tpData: map<Id, TaskProxy>, tpAdded: map<Id, TaskProxy>, tpUpdated: map<Id, TaskProxy>,
                   t: Id, v: TaskView)
    ensures t in TaskViews(tpData, tpAdded, tpUpdated) <==> t in tpData || t in tpAdded
    ensures t in TaskViews(tpData, tpAdded, tpUpdated) ==>
              (TaskViews(tpData, tpAdded, tpUpdated)[t] == v <==> TaskIs(tpData, tpAdded, tpUpdated, t, v))
  {
    if t in tpData || t in tpAdded {
      var delta := if t in tpUpdated then tpUpdated[t] else NoDelta;
      var node := if t in tpAdded then tpAdded[t] else tpData[t];
      ViewMeans(delta, node, v);
      hide FieldIs, ViewTask;
    }
  }

  // The active tasks of ts of which the records say k.
  ghost function CountedInRecords(tpData: map<Id, TaskProxy>, tpAdded: map<Id, TaskProxy>, tpUpdated: map<Id, TaskProxy>,
                                  ts: set<Id>, pool: set<Id>, k: Tally): set<Id>
  {
    set t | t in ts && t in pool && exists v :: TaskIs(tpData, tpAdded, tpUpdated, t, v) && Has(v, k)
  }

  lemma CountedIs(e: Env, tpData: map<Id, TaskProxy>, tpAdded: map<Id, TaskProxy>, tpUpdated: map<Id, TaskProxy>,
                  ts: set<Id>, k: Tally)
    requires e.tasks == TaskViews(tpData, tpAdded, tpUpdated)
    ensures Counted(e, ts, k) == CountedInRecords(tpData, tpAdded, tpUpdated, ts, e.pool, k)
  {
    var c := CountedInRecords(tpData, tpAdded, tpUpdated, ts, e.pool, k);
    hide TaskIs;
    forall t ensures t in Counted(e, ts, k) <==> t in c {
      if t in e.tasks {
        TaskViewIs(tpData, tpAdded, tpUpdated, t, e.tasks[t]);
        forall v | TaskIs(tpData, tpAdded, tpUpdated, t, v) ensures v == e.tasks[t] {
          TaskViewIs(tpData, tpAdded, tpUpdated, t, v);
        }
      } else {
        forall v ensures !TaskIs(tpData, tpAdded, tpUpdated, t, v) {
          NoRecord(tpData, tpAdded, tpUpdated, t, v);
        }
      }
    }
  }

  lemma NoRecord(tpData: map<Id, TaskProxy>, tpAdded: map<Id, TaskProxy>, tpUpdated: map<Id, TaskProxy>, t: Id, v: TaskView)
    requires t !in TaskViews(tpData, tpAdded, tpUpdated)
    ensures !TaskIs(tpData, tpAdded, tpUpdated, t, v)
  {
  }

  // The totals of every family that stays count the active tasks below it of
  // which the records say so, and its state is the group state of theirs.
  ghost predicate TellRecords(e: Env, tpData: map<Id, TaskProxy>, tpAdded: map<Id, TaskProxy>,
                              tpUpdated: map<Id, TaskProxy>, views: map<Id, View>)
    requires ValidEnv(e)
  {
    forall f :: f in views && f in e.forest.families && f !in e.pruned && views[f].View? ==>
      var n, ts := views[f].node, SubTasks(e, f);
      && (forall k :: Of(TotalsOf(n), k) == |CountedInRecords(tpData, tpAdded, tpUpdated, ts, e.pool, k)|)
      && (Populated(e, f) ==>
            exists states: set<Status> ::
              && n.state == ExtractGroupState(states)
              && forall s :: s in states <==>
                   exists t, v :: t in ts && InWindow(e, t) && TaskIs(tpData, tpAdded, tpUpdated, t, v) && v.state == s)
      && (Populated(e, f) && e.deep ==> LeastInRecords(e, tpData, tpAdded, tpUpdated, ts, n.graphDepth))
  }

  ghost predicate LeastInRecords(e: Env, tpData: map<Id, TaskProxy>, tpAdded: map<Id, TaskProxy>,
                                 tpUpdated: map<Id, TaskProxy>, ts: set<Id>, depth: nat)
  {
    && depth <= e.edgeDistance
    && (forall t, v :: t in ts && InWindow(e, t) && TaskIs(tpData, tpAdded, tpUpdated, t, v) ==> depth <= v.depth)
    && (depth == e.edgeDistance ||
        exists t, v :: t in ts && InWindow(e, t) && TaskIs(tpData, tpAdded, tpUpdated, t, v) && depth == v.depth)
  }

  lemma LeastIs(e: Env, tpData: map<Id, TaskProxy>, tpAdded: map<Id, TaskProxy>, tpUpdated: map<Id, TaskProxy>,
                ts: set<Id>, depth: nat)
    requires e.tasks == TaskViews(tpData, tpAdded, tpUpdated) && IsLeastDepth(e, ts, depth)
    ensures LeastInRecords(e, tpData, tpAdded, tpUpdated, ts, depth)
  {
    hide TaskIs;
    forall t, v | t in ts && InWindow(e, t) && TaskIs(tpData, tpAdded, tpUpdated, t, v) ensures depth <= v.depth {
      if t !in e.tasks { NoRecord(tpData, tpAdded, tpUpdated, t, v); }
      TaskViewIs(tpData, tpAdded, tpUpdated, t, v);
    }
    if depth != e.edgeDistance {
      var t :| t in ts && t in e.tasks && InWindow(e, t) && depth == e.tasks[t].depth;
      TaskViewIs(tpData, tpAdded, tpUpdated, t, e.tasks[t]);
    }
  }

  lemma StatesAre(e: Env, tpData: map<Id, TaskProxy>, tpAdded: map<Id, TaskProxy>, tpUpdated: map<Id, TaskProxy>,
                  ts: set<Id>, s: Status)
    requires e.tasks == TaskViews(tpData, tpAdded, tpUpdated)
    ensures s in WindowStates(e, ts) <==>
            exists t, v :: t in ts && InWindow(e, t) && TaskIs(tpData, tpAdded, tpUpdated, t, v) && v.state == s
  {
    hide TaskIs;
    if s in WindowStates(e, ts) {
      var t :| t in ts && t in e.tasks && InWindow(e, t) && e.tasks[t].state == s;
      TaskViewIs(tpData, tpAdded, tpUpdated, t, e.tasks[t]);
    }
    if t, v :| t in ts && InWindow(e, t) && TaskIs(tpData, tpAdded, tpUpdated, t, v) && v.state == s {
      if t !in e.tasks { NoRecord(tpData, tpAdded, tpUpdated, t, v); }
      TaskViewIs(tpData, tpAdded, tpUpdated, t, v);
    }
  }

  lemma UpdatedTellRecords(e: Env, first: set<Id>, st: State, tpData: map<Id, TaskProxy>, tpAdded: map<Id, TaskProxy>,
                           tpUpdated: map<Id, TaskProxy>)
    requires ValidEnv(e) && AllUpdated(e, first, st) && e.tasks == TaskViews(tpData, tpAdded, tpUpdated)
    ensures TellRecords(e, tpData, tpAdded, tpUpdated, st.views)
  {
    hide TaskIs, CountedInRecords, LeastInRecords, IsLeastDepth, TaskViews, ValidEnv, SubTasks, Populated, Counted,
         WindowStates;
    forall f | f in st.views && f in e.forest.families && f !in e.pruned && st.views[f].View?
      ensures var n, ts := st.views[f].node, SubTasks(e, f);
        && (forall k :: Of(TotalsOf(n), k) == |CountedInRecords(tpData, tpAdded, tpUpdated, ts, e.pool, k)|)
        && (Populated(e, f) ==>
              exists states: set<Status> ::
                && n.state == ExtractGroupState(states)
                && forall s :: s in states <==>
                     exists t, v :: t in ts && InWindow(e, t) && TaskIs(tpData, tpAdded, tpUpdated, t, v) && v.state == s)
        && (Populated(e, f) && e.deep ==> LeastInRecords(e, tpData, tpAdded, tpUpdated, ts, n.graphDepth))
    {
      if Populated(e, f) && e.deep {
        LeastIs(e, tpData, tpAdded, tpUpdated, SubTasks(e, f), st.views[f].node.graphDepth);
      }
      var n, ts := st.views[f].node, SubTasks(e, f);
      forall k ensures Of(TotalsOf(n), k) == |CountedInRecords(tpData, tpAdded, tpUpdated, ts, e.pool, k)| {
        CountedIs(e, tpData, tpAdded, tpUpdated, ts, k);
        assert Of(TotalsOf(n), k) == Count(e, ts, k);
      }
      forall s ensures s in WindowStates(e, ts) <==>
                       exists t, v :: t in ts && InWindow(e, t) && TaskIs(tpData, tpAdded, tpUpdated, t, v) && v.state == s
      {
        StatesAre(e, tpData, tpAdded, tpUpdated, ts, s);
      }
    }
  }

  // now: the store as it is; known: the stored families; deltas: those with a delta.
  ghost predicate Consistent(e: Env, now: Env, first: set<Id>, deltas: set<Id>, st: State, log: seq<Id>) {
    && e == now
    && deltas <= e.forest.families.Keys
    && Inv(e, first, st)
    && Distinct(log)
    && (forall f :: f in log <==> f in st.done && f in e.forest.families)
  }

  lemma ConsistentStep(e: Env, first: set<Id>, deltas: set<Id>, st: State, log: seq<Id>, f: Id, v: View)
    requires Consistent(e, e, first, deltas, st, log) && f in e.forest.families && f in e.forest.parent
    requires f in st.flagged && ClearBelow(e, st, f) && Fresh(e, f, v)
    ensures Consistent(e, e, first, deltas + {f}, Updated(e, st, f, v), log + [f])
    ensures Clear(e, Updated(e, st, f, v).flagged, f)
  {
    hide ValidEnv, InvFresh, InvDone, InvReach, Clear, ClearBelow, Fresh;
    UpdatedInv(e, first, st, f, v);
    assert f !in log;
  }

  lemma StartsAt(e: Env, deltas: set<Id>, st: State)
    requires ValidEnv(e) && deltas <= e.forest.families.Keys
    requires st.flagged !! e.pruned && InvFresh(e, st) && st.done == {}
    ensures Consistent(e, e, st.flagged, deltas, st, [])
  {
    hide Fresh, TreeShaped, InvFresh;
    forall f | f in st.flagged && f in e.forest.families ensures Above(e, st.flagged, f) {
      assert Under(e, f, f);
    }
  }

  class FamilyStore {
    var data: Families
    var added: Families
    var updated: Families
    var tpData: map<Id, TaskProxy>
    var tpAdded: map<Id, TaskProxy>
    var tpUpdated: map<Id, TaskProxy>
    var pool: set<Id>             // all_task_pool
    var window: set<Id>           // all_n_window_nodes
    var edgeDistance: nat         // n_edge_distance
    var prunedFamilies: set<Id>   // family_pruned_ids
    var prunedTasks: set<Id>      // pruned_task_proxies
    var flagged: set<Id>          // state_update_families
    var done: set<Id>             // updated_state_families
    ghost var log: seq<Id>        // the families updated, in order

    function Kids(f: Id): set<Id>
      requires f in data || f in added
      reads this
    {
      ChildFamilies(Node(data, added, f), updated, f) - prunedFamilies
    }

    function KidTasks(f: Id): set<Id>
      requires f in data || f in added
      reads this
    {
      ChildTasks(Node(data, added, f), updated, f) - prunedTasks
    }

    ghost function EnvOf(height: Id -> nat, top: nat, deep: bool): Env
      reads this
    {
      Env(Staying(data, added, updated, prunedFamilies, prunedTasks),
          height, top, deep, prunedFamilies,
          TaskViews(tpData, tpAdded, tpUpdated),
          pool, window, edgeDistance)
    }

    ghost function Sets(): State
      reads this
    {
      State(Views(data, added, updated), flagged, done)
    }

    lemma EnvAt(e: Env, f: Id)
      requires e == EnvOf(e.height, e.top, e.deep) && updated.Keys <= data.Keys + added.Keys
      ensures f in e.forest.families <==> f in data || f in added
      ensures f in e.forest.parent <==> f in data || f in added
      ensures f in data || f in added ==>
                && e.forest.families[f] == Kids(f) && e.forest.tasks[f] == KidTasks(f)
                && e.forest.parent[f] == Node(data, added, f).firstParent
      ensures e.edgeDistance == edgeDistance && e.pool == pool && e.window == window && e.pruned == prunedFamilies
      ensures f !in data && f !in added ==> ViewFamily(data, updated, f) == NoNode
    {
    }

    ghost predicate Valid(e: Env, first: set<Id>)
      reads this
    {
      Consistent(e, EnvOf(e.height, e.top, e.deep), first, updated.Keys, Sets(), log)
    }

    lemma ValidFacts(e: Env, first: set<Id>, f: Id)
      requires Valid(e, first) && (f in data || f in added)
      ensures e == EnvOf(e.height, e.top, e.deep) && Inv(e, first, Sets()) && ValidEnv(e)
      ensures f in e.forest.families && f in e.forest.parent && e.forest.parent[f] == Node(data, added, f).firstParent
    {
      EnvAt(e, f);
    }

    // e describes the store, and what is stored of the child families of f is right.
    ghost predicate Ready(e: Env, f: Id)
      reads this
    {
      && (f in data || f in added)
      && updated.Keys <= data.Keys + added.Keys
      && e == EnvOf(e.height, e.top, e.deep) && ValidEnv(e)
      && forall c :: c in Kids(f) && (c in data || c in added) ==> Fresh(e, c, ViewFamily(data, updated, c))
    }

    lemma ReadyFamily(e: Env, f: Id)
      requires Ready(e, f)
      ensures ValidEnv(e) && f in e.forest.families && e.forest.families[f] == Kids(f)
      ensures e.edgeDistance == edgeDistance
    {
      EnvAt(e, f);
    }

    lemma ReadyChild(e: Env, f: Id, c: Id)
      requires Ready(e, f) && c in Kids(f)
      ensures ValidEnv(e)
      ensures if c in e.forest.families then Fresh(e, c, ViewFamily(data, updated, c))
              else ViewFamily(data, updated, c) == NoNode
    {
      EnvAt(e, c);
    }

    lemma NoTasksYet(e: Env, f: Id)
      requires Ready(e, f)
      ensures f in data || f in added
      ensures ValidEnv(e) && f in e.forest.families && e.forest.families[f] == Kids(f)
      ensures Below(e, f, Kids(f)) + {} == Below(e, f, Kids(f))
    {
      EnvAt(e, f);
    }

    lemma ReadyTask(e: Env, f: Id, t: Id)
      requires Ready(e, f) && t in KidTasks(f)
      ensures ValidEnv(e) && f in e.forest.families && e.forest.families[f] == Kids(f)
      ensures f in e.forest.tasks && t in e.forest.tasks[f]
      ensures t in e.tasks && e.tasks[t] == TaskOf(tpData, tpAdded, tpUpdated, t)
      ensures InWindow(e, t) <==> window == {} || t in window
      ensures e.pool == pool
    {
      EnvAt(e, f);
    }

    lemma AllTasks(e: Env, f: Id)
      requires Ready(e, f)
      ensures ValidEnv(e) && f in e.forest.families && e.forest.families[f] == Kids(f)
      ensures Below(e, f, Kids(f)) + KidTasks(f) == SubTasks(e, f)
    {
      EnvAt(e, f);
    }

    // The loops over the child families and tasks.
    method Summarise(f: Id, kids: set<Id>, ghost e: Env) returns (s: Summary)
      requires Ready(e, f) && kids == Kids(f)
      ensures ValidEnv(e) && Sums(e, s, SubTasks(e, f), Populated(e, f))
    {
      hide *;
      ReadyFamily(e, f);
      ghost var populated := Populated(e, f);
      NothingSums(e, f, populated);
      s := Summary(Totals(map[], 0, 0, 0), {}, edgeDistance);
      ghost var seen: set<Id> := {};
      var left := kids;
      while left != {}
        invariant left <= kids && seen == kids - left
        invariant Sums(e, s, Below(e, f, seen), populated)
        decreases left
      {
        var c :| c in left;
        left := left - {c};
        ReadyChild(e, f, c);
        AddChildStep(e, f, seen, c, s, ViewFamily(data, updated, c), populated);
        s := AddChild(s, ViewFamily(data, updated, c));
        seen := seen + {c};
      }
      assert seen == kids;
      s := SummariseTasks(f, s, e, populated);
    }

    method SummariseTasks(f: Id, families: Summary, ghost e: Env, ghost populated: bool) returns (s: Summary)
      requires Ready(e, f)
      requires ValidEnv(e) && f in e.forest.families && e.forest.families[f] == Kids(f)
      requires Sums(e, families, Below(e, f, Kids(f)), populated)
      ensures Sums(e, s, SubTasks(e, f), populated)
    {
      hide *;
      s := families;
      ghost var seen: set<Id> := {};
      NoTasksYet(e, f);
      var left := KidTasks(f);
      while left != {}
        invariant left <= KidTasks(f) && seen == KidTasks(f) - left
        invariant Sums(e, s, Below(e, f, Kids(f)) + seen, populated)
        decreases left
      {
        var t :| t in left;
        left := left - {t};
        ReadyTask(e, f, t);
        AddTaskStep(e, f, s, seen, t, populated);
        // "if all_nodes and tp_id not in all_nodes: continue"
        if window == {} || t in window {
          s := AddChildTask(s, TaskOf(tpData, tpAdded, tpUpdated, t), t in pool);
        }
        seen := seen + {t};
      }
      assert seen == KidTasks(f);
      AllTasks(e, f);
    }

    // What the store must come to for Valid when f is next in the log.
    lemma Stored(e: Env, first: set<Id>, deltas: set<Id>, st: State, was: seq<Id>)
      requires Consistent(e, e, first, deltas, st, was)
      requires e == Env(Staying(data, added, updated, prunedFamilies, prunedTasks), e.height, e.top, e.deep, prunedFamilies,
                        TaskViews(tpData, tpAdded, tpUpdated), pool, window, edgeDistance)
      requires updated.Keys == deltas && Sets() == st && log == was
      ensures Valid(e, first)
    {
      hide Consistent, Sets, Staying, TaskViews;
    }

    lemma DeltaAt(f: Id, s: Summary)
      ensures Delta(f, s) == Merge(if f in updated then View(updated[f]) else NoNode, s)
    {
    }

    lemma SetsAt()
      ensures Sets().flagged == flagged && Sets().done == done
    {
    }

    lemma MarksAre(e: Env, st: State, f: Id, v: View)
      requires f in e.forest.parent && Views(data, added, updated) == st.views[f := v]
      requires flagged == (st.flagged + Up(e, f)) - {f} && done == st.done + {f}
      ensures Sets() == Updated(e, st, f, v)
    {
      hide Views, Up;
    }

    // What the totals s make of the delta of f.
    ghost function Delta(f: Id, s: Summary): FamilyProxy
      reads this
    {
      Merge(if f in updated then View(updated[f]) else NoNode, s)
    }

    lemma StoreFacts(e: Env, first: set<Id>, f: Id, s: Summary)
      requires Valid(e, first) && f in flagged && (f in data || f in added)
      requires ClearBelow(e, Sets(), f) && Sums(e, s, SubTasks(e, f), Populated(e, f))
      ensures f in e.forest.parent && e.forest.parent[f] == Node(data, added, f).firstParent
      ensures Consistent(e, e, first, updated[f := Delta(f, s)].Keys, Updated(e, Sets(), f, View(Delta(f, s))), log + [f])
      ensures Clear(e, (flagged + Up(e, f)) - {f}, f)
      ensures e == Env(Staying(data, added, updated[f := Delta(f, s)], prunedFamilies, prunedTasks), e.height, e.top,
                       e.deep, prunedFamilies, TaskViews(tpData, tpAdded, tpUpdated), pool, window, edgeDistance)
      ensures Views(data, added, updated[f := Delta(f, s)]) == Sets().views[f := View(Delta(f, s))]
    {
      hide Consistent, ValidEnv, Inv, Sums, Fresh, SubTasks, Populated, Under, Clear, ClearBelow, Staying, Views,
           TaskViews, Merge, Kids, KidTasks, Ready, ViewFamily, Distinct;
      ValidFacts(e, first, f);
      var n := Delta(f, s);
      MergeFresh(e, f, if f in updated then View(updated[f]) else NoNode, s);
      ConsistentStep(e, first, updated.Keys, Sets(), log, f, View(n));
      StoreMerged(data, added, updated, prunedFamilies, prunedTasks, f, n);
      ViewsMerged(data, added, updated, f, n);
      assert updated[f := n].Keys == updated.Keys + {f};
    }

    // fp_updated.setdefault(f, PbFamilyProxy()).MergeFrom(fp_delta), then the marks.
    method StoreSummary(f: Id, s: Summary, ghost e: Env, ghost first: set<Id>)
      requires Valid(e, first) && f in flagged && (f in data || f in added)
      requires ClearBelow(e, Sets(), f) && Sums(e, s, SubTasks(e, f), Populated(e, f))
      modifies this`updated, this`flagged, this`done, this`log
      ensures Valid(e, first)
      ensures flagged == (old(flagged) + Up(e, f)) - {f} && done == old(done) + {f} && log == old(log) + [f]
      ensures Clear(e, flagged, f)
    {
      hide *;
      StoreFacts(e, first, f, s);
      ghost var st, was := Sets(), log;
      SetsAt();
      UpAt(e, f);
      var n := Merge(if f in updated then View(updated[f]) else NoNode, s);
      DeltaAt(f, s);
      updated := updated[f := n];
      done := done + {f};
      if Node(data, added, f).firstParent != "" {
        flagged := flagged + {Node(data, added, f).firstParent};
      }
      flagged := flagged - {f};
      log := log + [f];
      MarksAre(e, st, f, View(n));
      Stored(e, first, updated.Keys, Updated(e, st, f, View(n)), was + [f]);
    }

    lemma MarkingUnknown(e: Env, first: set<Id>, f: Id)
      requires Valid(e, first) && f !in data && f !in added
      ensures ValidEnv(e) && Kept(e, flagged, flagged - {f}, f) && Kept(e, flagged, flagged, f)
      ensures Consistent(e, EnvOf(e.height, e.top, e.deep), first, updated.Keys,
                         Sets().(flagged := flagged - {f}, done := done + {f}), log)
    {
      EnvAt(e, f);
      UnknownKeepsInv(e, first, Sets(), f);
      hide Staying, Views, TaskViews, InvFresh, InvDone, InvReach, TreeShaped;
    }

    lemma BeforeKids(e: Env, first: set<Id>, f: Id)
      requires Valid(e, first) && (f in data || f in added)
      ensures ValidEnv(e) && KidsUpdated(e, flagged, flagged, f, {})
    {
    }

    lemma KidsFixed(e: Env, first: set<Id>, f: Id)
      requires Valid(e, first) && (f in data || f in added)
      ensures ValidEnv(e) && f in e.forest.families && e.forest.families[f] == Kids(f)
    {
      EnvAt(e, f);
    }

    // After the call for c, or without one because c is done.
    lemma KidUpdated(e: Env, first: set<Id>, start: set<Id>, before: set<Id>, f: Id, cs: set<Id>, c: Id)
      requires Valid(e, first) && (f in data || f in added) && c in Kids(f) && cs <= Kids(f)
      requires ValidEnv(e) && KidsUpdated(e, start, before, f, cs)
      requires flagged <= before + {f} && Kept(e, before, flagged, c)
      requires c in done || ((c in data || c in added) ==> Clear(e, flagged, c))
      ensures KidsUpdated(e, start, flagged, f, cs + {c})
    {
      EnvAt(e, f);
      EnvAt(e, c);
      DoneIsClear(e, Sets(), c);
      KidsUpdatedStep(e, start, before, flagged, f, cs, c);
    }

    lemma AfterKids(e: Env, first: set<Id>, start: set<Id>, f: Id)
      requires Valid(e, first) && (f in data || f in added)
      requires ValidEnv(e) && KidsUpdated(e, start, flagged, f, Kids(f))
      ensures ClearBelow(e, Sets(), f)
      ensures f !in flagged ==> Clear(e, flagged, f) && flagged <= start
      ensures f in start ==> f in flagged
      ensures Kept(e, start, flagged, f) && flagged <= start + {f}
      ensures f in flagged ==> Ready(e, f)
    {
      EnvAt(e, f);
      ClearedBelow(e, Sets(), f);
      forall c | c in Kids(f) && (c in data || c in added)
        ensures Fresh(e, c, ViewFamily(data, updated, c))
      {
        EnvAt(e, c);
        ClearChildrenAreFresh(e, Sets(), c);
      }
    }

    method FamilyAscentPointUpdate(f: Id, ghost e: Env, ghost first: set<Id>)
      requires Valid(e, first)
      modifies this`updated, this`flagged, this`done, this`log
      ensures Valid(e, first)
      ensures ValidEnv(e) && Kept(e, old(flagged), flagged, f)
      ensures f in data || f in added ==> Clear(e, flagged, f)
      ensures flagged <= old(flagged) + Up(e, f) && old(done) <= done
      ensures f in old(flagged) ==> f in done
      ensures f !in data && f !in added ==> flagged == old(flagged) - {f} && done <= old(done) + {f}
      decreases e.height(f), 1
    {
      hide *;
      if f in data || f in added {
        UpdateKnown(f, e, first);
      } else {
        MarkingUnknown(e, first, f);
        MarkUnknown(f, e, first);
      }
    }

    method MarkUnknown(f: Id, ghost e: Env, ghost first: set<Id>)
      requires Valid(e, first)
      requires Consistent(e, EnvOf(e.height, e.top, e.deep), first, updated.Keys,
                          Sets().(flagged := flagged - {f}, done := done + {f}), log)
      modifies this`flagged, this`done
      ensures Valid(e, first)
      ensures flagged == old(flagged) - {f}
      ensures done == old(done) + if f in old(flagged) then {f} else {}
    {
      hide Consistent, Staying, Views, TaskViews;
      if f in flagged {
        done := done + {f};
        flagged := flagged - {f};
      } else {
        assert flagged - {f} == flagged;
      }
    }

    method UpdateKnown(f: Id, ghost e: Env, ghost first: set<Id>)
      requires Valid(e, first) && (f in data || f in added)
      modifies this`updated, this`flagged, this`done, this`log
      ensures Valid(e, first)
      ensures ValidEnv(e) && Kept(e, old(flagged), flagged, f) && Clear(e, flagged, f)
      ensures flagged <= old(flagged) + Up(e, f) && old(done) <= done
      ensures f in old(flagged) ==> f in done
      decreases e.height(f), 0
    {
      hide *;
      var kids := Kids(f);
      BeforeKids(e, first, f);
      KidsFixed(e, first, f);
      var left := kids;
      assert kids - left == {};
      while left != {}
        invariant Valid(e, first) && left <= kids
        invariant old(done) <= done
        invariant ValidEnv(e) && KidsUpdated(e, old(flagged), flagged, f, kids - left)
        decreases left
      {
        var c :| c in left;
        ChildBelow(e, f, c);
        ghost var before := flagged;
        if c !in done {
          FamilyAscentPointUpdate(c, e, first);
        }
        KidsFixed(e, first, f);
        KidUpdated(e, first, old(flagged), before, f, kids - left, c);
        assert kids - (left - {c}) == (kids - left) + {c};
        left := left - {c};
      }
      assert kids - left == kids;
      KidsFixed(e, first, f);
      AfterKids(e, first, old(flagged), f);
      if f in flagged {
        ghost var now := flagged;
        var s := Summarise(f, kids, e);
        StoreSummary(f, s, e, first);
        KeptUnflagged(e, old(flagged), now, flagged, f);
      }
    }

    // Wrong values are stored only on the way up from a flagged family, and no
    // flagged family is pruned.
    ghost predicate Startable(height: Id -> nat, top: nat, deep: bool)
      reads this
    {
      var e := EnvOf(height, top, deep);
      && updated.Keys <= data.Keys + added.Keys
      && ValidEnv(e)
      && flagged !! prunedFamilies
      && InvFresh(e, Sets())
    }

    lemma Starts(height: Id -> nat, top: nat, deep: bool)
      requires Startable(height, top, deep) && done == {} && log == []
      ensures Valid(EnvOf(height, top, deep), flagged)
    {
      var e := EnvOf(height, top, deep);
      assert e.forest.families.Keys == data.Keys + added.Keys;
      hide Staying, Views, TaskViews, ValidEnv, InvFresh, Consistent;
      StartsAt(e, updated.Keys, Sets());
    }

    lemma Finishes(e: Env, first: set<Id>)
      requires Valid(e, first) && flagged == {}
      ensures ValidEnv(e) && AllUpdated(e, first, Sets()) && e == EnvOf(e.height, e.top, e.deep)
      ensures Distinct(log) && forall f :: f in log <==> f in e.forest.families && Above(e, first, f)
      ensures TellRecords(e, tpData, tpAdded, tpUpdated, Sets().views)
    {
      WorklistEmpty(e, first, Sets());
      UpdatedTellRecords(e, first, Sets(), tpData, tpAdded, tpUpdated);
      hide *;
    }

    // Every family that stays is right afterwards; the ones updated are exactly
    // those flagged or above one flagged, each once, whatever the order.
    method UpdateFamilyProxies(ghost height: Id -> nat, ghost top: nat, ghost deep: bool)
      requires Startable(height, top, deep)
      modifies this`updated, this`flagged, this`done, this`log
      ensures flagged == {} && EnvOf(height, top, deep) == old(EnvOf(height, top, deep))
      ensures ValidEnv(EnvOf(height, top, deep)) && AllUpdated(EnvOf(height, top, deep), old(flagged), Sets())
      ensures Distinct(log) && forall f :: f in log <==>
                f in EnvOf(height, top, deep).forest.families && Above(EnvOf(height, top, deep), old(flagged), f)
      ensures TellRecords(EnvOf(height, top, deep), tpData, tpAdded, tpUpdated, Sets().views)
    {
      hide *;
      ghost var e, first := EnvOf(height, top, deep), flagged;
      Restart(height, top, deep);
      while flagged != {}
        invariant Valid(e, first)
        decreases (data.Keys + added.Keys) - done, flagged
      {
        var f :| f in flagged;
        NotYetDone(e, first, f);
        FamilyAscentPointUpdate(f, e, first);
      }
      Finishes(e, first);
    }

    lemma NotYetDone(e: Env, first: set<Id>, f: Id)
      requires Valid(e, first) && f in flagged
      ensures f in data || f in added ==> f !in done
    {
      EnvAt(e, f);
      assert ValidEnv(e) && Under(e, f, f);
    }

    method Restart(ghost height: Id -> nat, ghost top: nat, ghost deep: bool)
      requires Startable(height, top, deep)
      modifies this`done, this`log
      ensures Valid(EnvOf(height, top, deep), flagged) && EnvOf(height, top, deep) == old(EnvOf(height, top, deep))
      ensures var e := EnvOf(height, top, deep); e.height == height && e.top == top && e.deep == deep
    {
      done, log := {}, [];
      Starts(height, top, deep);
    }
  }
}