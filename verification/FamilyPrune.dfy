// Pruning of family proxies from the data store (data_store_mgr.py:
// prune_data_store, _family_ascent_point_prune).

module FamilyNodes {

  type Id = string

  // Unset stands for a state field with no value.
  datatype Status =
    | Waiting | Expired | Preparing | SubmitFailed | Submitted | Running | Failed | Succeeded | Unset

  // The fields of a family proxy that the two traversals read or write.
  // firstParent is "" for the root; an unset field of a delta has its default.
  datatype FamilyProxy = FamilyProxy(
    firstParent: Id, childFamilies: set<Id>, childTasks: set<Id>,
    state: Status, stateTotals: map<Status, nat>,
    heldTotal: nat, queuedTotal: nat, runaheadTotal: nat, graphDepth: nat)

  type Families = map<Id, FamilyProxy>

  // The family tree that the stored nodes and their pending deltas describe.
  datatype Forest = Forest(parent: map<Id, Id>, families: map<Id, set<Id>>, tasks: map<Id, set<Id>>)

  function ChildFamilies(node: FamilyProxy, updated: Families, f: Id): set<Id> {
    node.childFamilies + if f in updated then updated[f].childFamilies else {}
  }

  function ChildTasks(node: FamilyProxy, updated: Families, f: Id): set<Id> {
    node.childTasks + if f in updated then updated[f].childTasks else {}
  }

  function Node(data: Families, added: Families, f: Id): FamilyProxy
    requires f in data || f in added
  {
    if f in data then data[f] else added[f]
  }

  function ForestOf(data: Families, added: Families, updated: Families): Forest {
    var known := data.Keys + added.Keys;
    Forest(map f | f in known :: Node(data, added, f).firstParent,
           map f | f in known :: ChildFamilies(Node(data, added, f), updated, f),
           map f | f in known :: ChildTasks(Node(data, added, f), updated, f))
  }

  lemma ForestAt(data: Families, added: Families, updated: Families, f: Id)
    requires f in data || f in added
    ensures var forest, node := ForestOf(data, added, updated), Node(data, added, f);
            && forest.parent.Keys == forest.families.Keys == forest.tasks.Keys
            && f in forest.parent && forest.parent[f] == node.firstParent
            && f in forest.families && forest.families[f] == ChildFamilies(node, updated, f)
            && f in forest.tasks && forest.tasks[f] == ChildTasks(node, updated, f)
  {
  }

  // What the forest says, of the records: the stored node before the added
  // one, with the children that its delta adds.
  lemma ForestIs(data: Families, added: Families, updated: Families, f: Id, node: FamilyProxy, x: Id)
    requires (f in data && node == data[f]) || (f !in data && f in added && node == added[f])
    ensures var forest := ForestOf(data, added, updated);
            && f in forest.parent && forest.parent[f] == node.firstParent
            && f in forest.families && (x in forest.families[f] <==>
                 x in node.childFamilies || (f in updated && x in updated[f].childFamilies))
            && f in forest.tasks && (x in forest.tasks[f] <==>
                 x in node.childTasks || (f in updated && x in updated[f].childTasks))
  {
  }

  // Families form trees: a child family names its one parent, and height
  // decreases from parent to child.
  ghost predicate TreeShaped(forest: Forest, height: Id -> nat) {
    && forest.parent.Keys == forest.families.Keys == forest.tasks.Keys
    && "" !in forest.parent
    && (forall p, c :: p in forest.families && c in forest.families[p] ==>
          height(c) < height(p) && (c in forest.parent ==> forest.parent[c] == p))
    && (forall f :: f in forest.parent && forest.parent[f] != "" ==> height(f) < height(forest.parent[f]))
  }
}

module FamilyPrune {
  import opened FamilyNodes

  // Nothing in the subtree of f survives the removal of the tasks in gone.
  ghost predicate Dead(forest: Forest, height: Id -> nat, gone: set<Id>, f: Id)
    requires TreeShaped(forest, height)
    decreases height(f)
  {
    && f in forest.families
    && forest.tasks[f] <= gone
    && forall c :: c in forest.families[f] ==> Dead(forest, height, gone, c)
  }

  // f and every family below it hold some task.
  ghost predicate Inhabited(forest: Forest, height: Id -> nat, f: Id)
    requires TreeShaped(forest, height)
    decreases height(f)
  {
    && f in forest.families
    && (forest.tasks[f] != {} || forest.families[f] != {})
    && forall c :: c in forest.families[f] ==> Inhabited(forest, height, c)
  }

  // The test that the ascent makes at f, given the families pruned so far.
  ghost predicate Prunable(forest: Forest, gone: set<Id>, pruned: set<Id>, f: Id)
    requires forest.families.Keys == forest.tasks.Keys
  {
    f in forest.families && forest.tasks[f] <= gone && forest.families[f] <= pruned
  }

  // f loses a task or a child family of its own.
  ghost predicate Loses(forest: Forest, gone: set<Id>, pruned: set<Id>, f: Id)
    requires forest.families.Keys == forest.tasks.Keys
  {
    f in forest.families && (forest.tasks[f] * gone != {} || forest.families[f] * pruned != {})
  }

  // What a pruning starts from.
  datatype Start = Start(forest: Forest, height: Id -> nat, gone: set<Id>, updated: Families,
                         flagged: set<Id>, parents: set<Id>, stored: map<Id, set<Id>>, top: nat)

  // The child families of each family that are not in its delta only.
  function StoredOf(data: Families, added: Families): map<Id, set<Id>> {
    map f | f in data.Keys + added.Keys :: Node(data, added, f).childFamilies
  }

  ghost function StartOf(data: Families, added: Families, updated: Families, flagged: set<Id>,
                         parents: set<Id>, gone: set<Id>, height: Id -> nat, top: nat): Start
  {
    Start(ForestOf(data, added, updated), height, gone, updated, flagged, parents,
          StoredOf(data, added), top)
  }

  ghost predicate ValidStart(s: Start) {
    && (forall f :: f in s.forest.families ==> s.height(f) < s.top)
    && TreeShaped(s.forest, s.height)
    && (forall f, t :: f in s.forest.tasks && t in s.forest.tasks[f] && t in s.gone ==> f in s.parents)
    && s.stored.Keys == s.forest.families.Keys
    && (forall f :: f in s.stored ==> s.stored[f] <= s.forest.families[f])
  }

  // At or below f, a child family is in its parent's delta only.
  ghost predicate PendingBelow(s: Start, f: Id)
    requires ValidStart(s)
    decreases s.height(f)
  {
    f in s.stored &&
      (s.stored[f] != s.forest.families[f] || exists c :: c in s.forest.families[f] && PendingBelow(s, c))
  }

  ghost predicate OneChildOnly(s: Start, f: Id)
    requires ValidStart(s) && f in s.forest.families
  {
    s.forest.tasks[f] == {} && exists c :: s.forest.families[f] == {c}
  }

  // Something of f can be pruned before something else of f is reached.
  ghost predicate Untidy(s: Start, f: Id)
    requires ValidStart(s) && f in s.forest.families
  {
    PendingBelow(s, f) && !OneChildOnly(s, f)
  }

  // The sets that the ascents change.
  datatype State = State(pruned: set<Id>, checked: set<Id>, parents: set<Id>, flagged: set<Id>)

  ghost predicate InvPruned(s: Start, st: State)
    requires ValidStart(s)
  {
    && st.pruned <= st.checked
    && s.parents <= st.checked + st.parents
    && (forall f :: f in st.pruned ==> Prunable(s.forest, s.gone, st.pruned, f))
    && (forall f :: f in st.pruned && s.forest.parent[f] != "" ==> s.forest.parent[f] in st.checked + st.parents)
    && (forall f :: f in st.checked && Prunable(s.forest, s.gone, st.pruned, f) ==> f in st.pruned + st.parents)
  }

  ghost predicate InvFlagged(s: Start, st: State)
    requires ValidStart(s)
  {
    && s.flagged <= st.flagged
    && (forall f :: f in st.checked && Loses(s.forest, s.gone, st.pruned, f) ==> f in st.flagged + st.pruned + st.parents)
    && (forall f :: f in st.flagged && f !in s.flagged ==> Loses(s.forest, s.gone, st.pruned, f))
  }

  // Where no child families are pending, a check is final.
  ghost predicate InvSettled(s: Start, st: State)
    requires ValidStart(s)
  {
    && (forall f, c :: f in st.checked && f in s.stored && c in s.stored[f] ==> c in st.checked)
    && (forall f :: f in st.checked && Dead(s.forest, s.height, s.gone, f) && !PendingBelow(s, f) ==> f in st.pruned)
    && (forall f :: f in st.flagged && f !in s.flagged && Dead(s.forest, s.height, s.gone, f) ==> Untidy(s, f))
  }

  ghost predicate Inv(s: Start, st: State) {
    && ValidStart(s)
    && InvPruned(s, st)
    && InvFlagged(s, st)
    && InvSettled(s, st)
  }

  ghost function Checked(s: Start, st: State, f: Id): State
    requires ValidStart(s)
  {
    if f !in s.forest.families then st.(checked := st.checked + {f}, parents := st.parents - {f})
    else if Prunable(s.forest, s.gone, st.pruned, f) then
      var p := s.forest.parent[f];
      st.(pruned := st.pruned + {f}, checked := st.checked + {f},
          parents := (st.parents + if p != "" then {p} else {}) - {f})
    else
      st.(checked := st.checked + {f}, parents := st.parents - {f},
          flagged := st.flagged + if Loses(s.forest, s.gone, st.pruned, f) then {f} else {})
  }

  // One ascent at f, with the stored child families in some order.
  ghost predicate Ascends(s: Start, st: State, f: Id, after: State)
    requires ValidStart(s)
    decreases s.height(f), 1
  {
    if f !in s.stored then after == Checked(s, st, f)
    else exists m :: Visits(s, f, st, s.stored[f], m) && after == Checked(s, m, f)
  }

  // Ascents at some child families of f, but for those that are checked when their turn comes.
  ghost predicate Visits(s: Start, f: Id, st: State, kids: set<Id>, after: State)
    requires ValidStart(s) && f in s.stored && kids <= s.stored[f]
    decreases s.height(f), 0, kids
  {
    if kids == {} then after == st
    else exists c, m :: c in kids && Visits(s, f, st, kids - {c}, m) &&
           if c in m.checked then after == m else Ascends(s, m, c, after)
  }

  function Started(s: Start): State {
    State({}, {}, s.parents, s.flagged)
  }

  // What the work list can come to in n ascents, each at any family waiting in it.
  ghost predicate Reaches(s: Start, st: State, n: nat)
    requires ValidStart(s)
    decreases n
  {
    if n == 0 then st == Started(s)
    else exists m, f :: Reaches(s, m, n - 1) && f in m.parents && Ascends(s, m, f, st)
  }

  // A way for the whole pruning to end.
  ghost predicate Outcome(s: Start, st: State)
    requires ValidStart(s)
  {
    st.parents == {} && exists n :: Reaches(s, st, n)
  }

  lemma {:induction false} PrunedIsDead(s: Start, st: State, f: Id)
    requires ValidStart(s) && InvPruned(s, st) && f in st.pruned
    ensures Dead(s.forest, s.height, s.gone, f)
    decreases s.height(f)
  {
    assert Prunable(s.forest, s.gone, st.pruned, f);
    forall c | c in s.forest.families[f] ensures Dead(s.forest, s.height, s.gone, c) {
      PrunedIsDead(s, st, c);
    }
  }

  // Pruning f changes the test only for the parent of f.
  lemma PruningAffectsParent(s: Start, st: State, f: Id, g: Id)
    requires ValidStart(s) && g in s.forest.families && f in s.forest.families
    requires g != s.forest.parent[f]
    ensures s.forest.families[g] * (st.pruned + {f}) == s.forest.families[g] * st.pruned
    ensures Prunable(s.forest, s.gone, st.pruned + {f}, g) <==> Prunable(s.forest, s.gone, st.pruned, g)
    ensures Loses(s.forest, s.gone, st.pruned + {f}, g) <==> Loses(s.forest, s.gone, st.pruned, g)
  {
    assert f !in s.forest.families[g];
  }

  lemma CheckedInvPruned(s: Start, st: State, f: Id)
    requires ValidStart(s) && InvPruned(s, st)
    ensures InvPruned(s, Checked(s, st, f))
  {
    var st' := Checked(s, st, f);
    forall g | g in st'.checked && Prunable(s.forest, s.gone, st'.pruned, g) ensures g in st'.pruned + st'.parents {
      if f in st'.pruned && g != f && g != s.forest.parent[f] {
        PruningAffectsParent(s, st, f, g);
      }
    }
  }

  lemma CheckedInvFlagged(s: Start, st: State, f: Id)
    requires ValidStart(s) && InvPruned(s, st) && InvFlagged(s, st)
    ensures InvFlagged(s, Checked(s, st, f))
  {
    var st' := Checked(s, st, f);
    forall g | g in st'.checked && Loses(s.forest, s.gone, st'.pruned, g)
      ensures g in st'.flagged + st'.pruned + st'.parents
    {
      if f in st'.pruned && g != f && g != s.forest.parent[f] {
        PruningAffectsParent(s, st, f, g);
      }
    }
    forall g | g in st'.flagged && g !in s.flagged ensures Loses(s.forest, s.gone, st'.pruned, g) {
      if g in st.flagged {
        assert Loses(s.forest, s.gone, st.pruned, g);
      }
    }
  }

  // Nothing at or below f is pending and all that it has is checked, so it can be pruned if it is dead.
  lemma SettledIsPrunable(s: Start, st: State, f: Id)
    requires ValidStart(s) && InvSettled(s, st) && f in s.stored && s.stored[f] <= st.checked
    requires Dead(s.forest, s.height, s.gone, f) && !PendingBelow(s, f)
    ensures Prunable(s.forest, s.gone, st.pruned, f)
  {
    forall c | c in s.forest.families[f] ensures c in st.pruned {
      assert Dead(s.forest, s.height, s.gone, c) && !PendingBelow(s, c);
    }
  }

  lemma LoserIsUntidy(s: Start, st: State, f: Id)
    requires ValidStart(s) && InvSettled(s, st) && f in s.stored && s.stored[f] <= st.checked
    requires Dead(s.forest, s.height, s.gone, f)
    requires Loses(s.forest, s.gone, st.pruned, f) && !Prunable(s.forest, s.gone, st.pruned, f)
    ensures Untidy(s, f)
  {
    if !PendingBelow(s, f) {
      SettledIsPrunable(s, st, f);
    }
  }

  lemma CheckedInvSettled(s: Start, st: State, f: Id)
    requires ValidStart(s) && InvPruned(s, st) && InvSettled(s, st)
    requires f in s.stored ==> s.stored[f] <= st.checked
    ensures InvSettled(s, Checked(s, st, f))
  {
    if Dead(s.forest, s.height, s.gone, f) && !PendingBelow(s, f) {
      SettledIsPrunable(s, st, f);
    }
    if Dead(s.forest, s.height, s.gone, f) && Loses(s.forest, s.gone, st.pruned, f)
      && !Prunable(s.forest, s.gone, st.pruned, f) {
      LoserIsUntidy(s, st, f);
    }
    hide InvPruned, Dead, PendingBelow, Untidy, Loses, Prunable;
  }

  /* ---- what the ascents amount to once the worklist is empty ---- */

  lemma {:induction false} DeadIsPruned(s: Start, st: State, f: Id)
    requires ValidStart(s) && InvPruned(s, st) && st.parents == {}
    requires Dead(s.forest, s.height, s.gone, f) && Inhabited(s.forest, s.height, f)
    ensures f in st.pruned
    decreases s.height(f)
  {
    forall c | c in s.forest.families[f] ensures c in st.pruned {
      DeadIsPruned(s, st, c);
    }
    if t :| t in s.forest.tasks[f] {
      assert f in s.parents;
    } else {
      var c :| c in s.forest.families[f];
      assert c in st.pruned && s.forest.parent[c] == f;
    }
    assert Prunable(s.forest, s.gone, st.pruned, f);
  }

  // The pruned families are those that nothing survives in, and the flagged
  // survivors are those that lost a task or a child family.  A family that is
  // pruned was flagged on the way only where a check could come too early.
  ghost predicate PrunedExactly(s: Start, pruned: set<Id>, flagged: set<Id>)
    requires ValidStart(s)
  {
    && (forall f :: f in pruned ==> Dead(s.forest, s.height, s.gone, f))
    && (forall f :: f in s.forest.families && Inhabited(s.forest, s.height, f) ==>
          (f in pruned <==> Dead(s.forest, s.height, s.gone, f)))
    && s.flagged <= flagged
    && (forall f :: f in s.forest.families && f !in s.flagged && f !in pruned ==>
          (f in flagged <==> Loses(s.forest, s.gone, pruned, f)))
    && (forall f :: f in pruned && f in flagged && f !in s.flagged ==> Untidy(s, f))
  }

  lemma LosersFlagged(s: Start, st: State, f: Id)
    requires ValidStart(s) && InvPruned(s, st) && InvFlagged(s, st) && st.parents == {}
    requires f !in st.pruned && Loses(s.forest, s.gone, st.pruned, f)
    ensures f in st.flagged
  {
    if c :| c in s.forest.families[f] * st.pruned {
      assert s.forest.parent[c] == f;
    } else {
      var t :| t in s.forest.tasks[f] * s.gone;
    }
    assert f in st.checked;
  }

  lemma FlaggedFacts(s: Start, st: State, f: Id)
    requires Inv(s, st) && f in st.flagged && f !in s.flagged
    ensures ValidStart(s) && Loses(s.forest, s.gone, st.pruned, f)
    ensures f in st.pruned ==> Untidy(s, f)
  {
    hide Loses, Untidy;
    if f in st.pruned { PrunedIsDead(s, st, f); }
  }

  lemma DeadPruned(s: Start, st: State)
    requires Inv(s, st) && st.parents == {}
    ensures forall f :: f in st.pruned ==> f in s.forest.families && Dead(s.forest, s.height, s.gone, f)
    ensures forall f :: f in s.forest.families && Inhabited(s.forest, s.height, f) ==>
              (Dead(s.forest, s.height, s.gone, f) ==> f in st.pruned)
  {
    forall f | f in st.pruned ensures f in s.forest.families && Dead(s.forest, s.height, s.gone, f) {
      PrunedIsDead(s, st, f);
    }
    forall f | Inhabited(s.forest, s.height, f) && Dead(s.forest, s.height, s.gone, f) ensures f in st.pruned {
      DeadIsPruned(s, st, f);
    }
  }

  lemma LosersAre(s: Start, st: State)
    requires Inv(s, st) && st.parents == {}
    ensures s.flagged <= st.flagged
    ensures forall f :: f in s.forest.families && f !in s.flagged && f !in st.pruned ==>
              (f in st.flagged <==> Loses(s.forest, s.gone, st.pruned, f))
    ensures forall f :: f in st.pruned && f in st.flagged && f !in s.flagged ==> f in s.forest.families && Untidy(s, f)
  {
    forall f | f in s.forest.families && f !in s.flagged && f !in st.pruned
      ensures f in st.flagged <==> Loses(s.forest, s.gone, st.pruned, f)
    {
      if Loses(s.forest, s.gone, st.pruned, f) { LosersFlagged(s, st, f); }
    }
    forall f | f in st.pruned && f in st.flagged && f !in s.flagged ensures f in s.forest.families && Untidy(s, f) {
      FlaggedFacts(s, st, f);
    }
  }

  lemma EndsExactly(s: Start, st: State)
    requires Inv(s, st) && st.parents == {}
    ensures ValidStart(s) && PrunedExactly(s, st.pruned, st.flagged)
  {
    hide TreeShaped, InvPruned, InvFlagged, InvSettled, Loses, Untidy, Dead, Inhabited;
    DeadPruned(s, st);
    LosersAre(s, st);
  }

  lemma AscentsPruneExactly(s: Start, data: Families, added: Families, updated: Families, st: State)
    requires Good(s, data, added, updated, st) && st.parents == {}
    ensures ValidStart(s) && PrunedExactly(s, st.pruned, st.flagged)
    ensures updated == s.updated - st.pruned
  {
    hide ForestOf, StoredOf, PrunedExactly, InvPruned, InvFlagged, InvSettled;
    EndsExactly(s, st);
  }

  /* ---- the worklist shrinks ---- */

  ghost function Weight(s: Start, f: Id): nat {
    1 + if s.height(f) < s.top then s.top - s.height(f) else 0
  }

  ghost function TotalWeight(s: Start, fs: set<Id>): nat {
    if fs == {} then 0 else var f :| f in fs; Weight(s, f) + TotalWeight(s, fs - {f})
  }

  lemma {:induction false} TotalWeightRemove(s: Start, fs: set<Id>, f: Id)
    requires f in fs
    ensures TotalWeight(s, fs) == Weight(s, f) + TotalWeight(s, fs - {f})
    decreases fs
  {
    var g :| g in fs && TotalWeight(s, fs) == Weight(s, g) + TotalWeight(s, fs - {g});
    if f != g {
      TotalWeightRemove(s, fs - {g}, f);
      TotalWeightRemove(s, fs - {f}, g);
      assert fs - {g} - {f} == fs - {f} - {g};
    }
  }

  lemma {:induction false} TotalWeightSubset(s: Start, fs: set<Id>, gs: set<Id>)
    requires fs <= gs
    ensures TotalWeight(s, fs) <= TotalWeight(s, gs)
    decreases gs
  {
    if f :| f in gs && f !in fs {
      TotalWeightRemove(s, gs, f);
      TotalWeightSubset(s, fs, gs - {f});
    } else {
      assert forall x :: x in gs ==> x in fs;
      assert fs == gs;
    }
  }

  lemma AscentLowersWeight(s: Start, before: set<Id>, f: Id, up: set<Id>, after: set<Id>)
    requires f in before && after <= (before - {f}) + up
    requires up == {} || exists p :: up == {p} && s.height(f) < s.height(p) && s.height(f) < s.top
    ensures TotalWeight(s, after) < TotalWeight(s, before)
  {
    TotalWeightRemove(s, before, f);
    TotalWeightSubset(s, after, (before - {f}) + up);
    if p :| up == {p} && s.height(f) < s.height(p) && s.height(f) < s.top {
      if p in before - {f} {
        assert (before - {f}) + up == before - {f};
      } else {
        assert (before - {f}) + up - {p} == before - {f};
        TotalWeightRemove(s, (before - {f}) + up, p);
      }
    } else {
      assert (before - {f}) + up == before - {f};
    }
  }

  ghost function UpTo(s: Start, f: Id): set<Id> {
    if f in s.forest.parent && s.forest.parent[f] != "" then {s.forest.parent[f]} else {}
  }

  lemma StartGood(data: Families, added: Families, updated: Families, flagged: set<Id>,
                  parents: set<Id>, gone: set<Id>, height: Id -> nat, top: nat)
    requires ValidStart(StartOf(data, added, updated, flagged, parents, gone, height, top))
    ensures var s := StartOf(data, added, updated, flagged, parents, gone, height, top);
            && Good(s, data, added, updated, State({}, {}, parents, flagged)) && s.gone == gone && s.updated == updated
            && Started(s) == State({}, {}, parents, flagged)
  {
    assert updated - {} == updated;
  }

  lemma BelowInTree(s: Start, f: Id, c: Id)
    requires ValidStart(s) && f in s.forest.families && c in s.forest.families[f]
    ensures s.height(c) < s.height(f) && UpTo(s, c) <= {f}
  {
    hide PendingBelow;
  }

  lemma UpIsHigher(s: Start, data: Families, added: Families, updated: Families, st: State, f: Id)
    requires Good(s, data, added, updated, st)
    ensures UpTo(s, f) == {} || exists p :: UpTo(s, f) == {p} && s.height(f) < s.height(p) && s.height(f) < s.top
  {
    hide InvPruned, InvFlagged, InvSettled, ForestOf;
    if f in s.forest.parent && s.forest.parent[f] != "" {
      assert UpTo(s, f) == {s.forest.parent[f]};
    }
  }

  lemma ChildIsBelow(s: Start, data: Families, added: Families, updated: Families, st: State, f: Id, c: Id)
    requires Good(s, data, added, updated, st) && (f in data || f in added)
    requires c in Node(data, added, f).childFamilies
    ensures s.height(c) < s.height(f) && UpTo(s, c) <= {f}
  {
    hide InvPruned, InvFlagged, InvSettled, ForestOf, TreeShaped;
    ForestAt(data, added, s.updated, f);
    BelowInTree(s, f, c);
  }

  lemma UnknownChecked(s: Start, data: Families, added: Families, updated: Families, st: State, f: Id)
    requires Good(s, data, added, updated, st) && f !in data && f !in added
    ensures Checked(s, st, f) == st.(checked := st.checked + {f}, parents := st.parents - {f})
    ensures updated == s.updated - st.pruned
  {
  }

  /* ---- the store ---- */

  ghost predicate Good(s: Start, data: Families, added: Families, updated: Families, st: State) {
    && Inv(s, st)
    && s.forest == ForestOf(data, added, s.updated)
    && updated == s.updated - st.pruned
    && s.stored == StoredOf(data, added)
  }

  lemma CheckedGood(s: Start, data: Families, added: Families, updated: Families, st: State, f: Id)
    requires Good(s, data, added, updated, st)
    requires (f in data || f in added) ==> Node(data, added, f).childFamilies <= st.checked
    ensures Good(s, data, added, s.updated - Checked(s, st, f).pruned, Checked(s, st, f))
    ensures Checked(s, st, f).parents <= (st.parents - {f}) + UpTo(s, f)
    ensures Checked(s, st, f).checked == st.checked + {f}
  {
    CheckedInvPruned(s, st, f);
    CheckedInvFlagged(s, st, f);
    CheckedInvSettled(s, st, f);
  }

  lemma GoodFacts(s: Start, data: Families, added: Families, updated: Families, st: State, f: Id)
    requires Good(s, data, added, updated, st)
    ensures ValidStart(s)
    ensures f in s.stored <==> f in data || f in added
    ensures f in s.stored ==> s.stored[f] == Node(data, added, f).childFamilies
  {
    hide ForestOf, ValidStart, InvPruned, InvFlagged, InvSettled;
  }

  lemma NoneVisited(s: Start, f: Id, st: State)
    requires ValidStart(s) && f in s.stored
    ensures Visits(s, f, st, {}, st) && s.stored[f] - s.stored[f] == {}
  {
  }

  lemma OneMoreVisited(s: Start, f: Id, st: State, todo: set<Id>, c: Id, m: State, after: State)
    requires ValidStart(s) && f in s.stored && c in s.stored[f] && c !in todo
    requires Visits(s, f, st, s.stored[f] - (todo + {c}), m)
    requires if c in m.checked then after == m else Ascends(s, m, c, after)
    ensures Visits(s, f, st, s.stored[f] - todo, after)
  {
    hide ValidStart, Ascends;
    assert s.stored[f] - todo - {c} == s.stored[f] - (todo + {c});
  }

  lemma AllVisited(s: Start, f: Id, st: State, m: State, after: State)
    requires ValidStart(s) && f in s.stored && Visits(s, f, st, s.stored[f] - {}, m) && after == Checked(s, m, f)
    ensures Ascends(s, st, f, after)
  {
    hide ValidStart, Visits, Checked;
    assert s.stored[f] - {} == s.stored[f];
  }

  lemma NoneReached(s: Start)
    requires ValidStart(s)
    ensures Reaches(s, Started(s), 0)
  {
  }

  lemma NextReached(s: Start, m: State, n: nat, f: Id, after: State)
    requires ValidStart(s) && Reaches(s, m, n) && f in m.parents && Ascends(s, m, f, after)
    ensures Reaches(s, after, n + 1)
  {
    hide ValidStart, Ascends;
  }

  lemma UnknownAscends(s: Start, st: State, f: Id)
    requires ValidStart(s) && f !in s.stored
    ensures Ascends(s, st, f, Checked(s, st, f))
  {
  }

  lemma DifferenceEmpty(a: set<Id>, b: set<Id>)
    ensures a - b == {} <==> a <= b
  {
    if !(a <= b) {
      var x :| x in a && x !in b;
      assert x in a - b;
    }
  }

  // The sets of a node less the deltas of pruned families give the same test.
  lemma TestAgrees(s: Start, data: Families, added: Families, updated: Families, st: State, f: Id)
    requires Good(s, data, added, updated, st) && (f in data || f in added)
    ensures ValidStart(s) && updated == s.updated - st.pruned
    ensures f in s.forest.families && s.forest.parent[f] == Node(data, added, f).firstParent
    ensures var node := Node(data, added, f);
            var tasks, families := ChildTasks(node, updated, f), ChildFamilies(node, updated, f);
            && ((tasks - s.gone != {} || families - st.pruned != {}) <==> !Prunable(s.forest, s.gone, st.pruned, f))
            && (!Prunable(s.forest, s.gone, st.pruned, f) ==>
                  ((tasks * s.gone != {} || families * st.pruned != {}) <==> Loses(s.forest, s.gone, st.pruned, f)))
  {
    hide InvFlagged, InvSettled, TreeShaped, ForestOf;
    var node := Node(data, added, f);
    var tasks, families := ChildTasks(node, updated, f), ChildFamilies(node, updated, f);
    ForestAt(data, added, s.updated, f);
    if f in st.pruned {
      assert Prunable(s.forest, s.gone, st.pruned, f);
      assert tasks - s.gone == {} && families - st.pruned == {};
    } else {
      assert tasks == s.forest.tasks[f] && families == s.forest.families[f];
      DifferenceEmpty(tasks, s.gone);
      DifferenceEmpty(families, st.pruned);
    }
  }

  // A flagged node, or one in the window of a flagged node, but in that of no
  // active one.
  ghost predicate PathEnded(windowNodes: map<Id, set<Id>>, flagged: set<Id>, pool: set<Id>, x: Id) {
    && (x in flagged || exists k :: k in flagged && k in windowNodes && x in windowNodes[k])
    && !exists k :: k in pool && k in windowNodes && x in windowNodes[k]
  }

  // The stored tasks among them.
  ghost function OutOfWindow(tasks: map<Id, Id>, windowNodes: map<Id, set<Id>>, flagged: set<Id>, pool: set<Id>): set<Id> {
    set t | t in tasks && PathEnded(windowNodes, flagged, pool, t)
  }

  ghost function ParentsOf(tasks: map<Id, Id>, ids: set<Id>): set<Id> {
    set t | t in ids && t in tasks :: tasks[t]
  }

  class DataStore {
    var data: Families
    var added: Families
    var updated: Families
    var stateUpdate: set<Id>    // state_update_families
    var pruned: set<Id>         // family_pruned_ids
    var parentIds: set<Id>      // local to prune_data_store, passed to the ascent
    var checkedIds: set<Id>     // likewise

    var pool: set<Id>                     // all_task_pool
    var tasks: map<Id, Id>                // the stored task proxies, with their first parents
    var windowNodes: map<Id, set<Id>>     // n_window_nodes
    var allWindowNodes: set<Id>           // all_n_window_nodes
    var triggerNodes: map<Id, set<Id>>    // prune_trigger_nodes
    var pruneFlagged: set<Id>             // prune_flagged_nodes
    var prunedTasks: set<Id>              // pruned_task_proxies

    ghost function Sets(): State
      reads this
    {
      State(pruned, checkedIds, parentIds, stateUpdate)
    }

    ghost predicate Valid(s: Start)
      reads this
    {
      Good(s, data, added, updated, Sets())
    }

    method FamilyAscentPointPrune(f: Id, gone: set<Id>, ghost s: Start)
      requires Valid(s) && gone == s.gone
      modifies this`updated, this`stateUpdate, this`pruned, this`parentIds, this`checkedIds
      ensures Valid(s)
      ensures checkedIds >= old(checkedIds) + {f}
      ensures parentIds <= (old(parentIds) - {f}) + UpTo(s, f)
      ensures ValidStart(s) && Ascends(s, old(Sets()), f, Sets())
      decreases s.height(f)
    {
      hide Good, Ascends, Visits, ValidStart;
      GoodFacts(s, data, added, updated, Sets(), f);
      ghost var st := Sets();
      if f in data || f in added {
        var node := Node(data, added, f);
        ghost var parents0, checked0 := parentIds, checkedIds;
        var todo := node.childFamilies;
        NoneVisited(s, f, st);
        while todo != {}
          invariant Valid(s) && todo <= node.childFamilies
          invariant checked0 <= checkedIds
          invariant parentIds <= parents0 + {f}
          invariant node.childFamilies - todo <= checkedIds
          invariant ValidStart(s) && f in s.stored && s.stored[f] == node.childFamilies
          invariant Visits(s, f, st, s.stored[f] - todo, Sets())
          decreases todo
        {
          var child :| child in todo;
          ghost var m := Sets();
          assert todo == todo - {child} + {child};
          todo := todo - {child};
          if child !in checkedIds {
            ChildIsBelow(s, data, added, updated, Sets(), f, child);
            FamilyAscentPointPrune(child, gone, s);
          }
          OneMoreVisited(s, f, st, todo, child, m, Sets());
        }
        ghost var m := Sets();
        CheckFamily(f, node, gone, s);
        AllVisited(s, f, st, m, Sets());
      } else {
        CheckedGood(s, data, added, updated, Sets(), f);
        UnknownChecked(s, data, added, updated, Sets(), f);
        checkedIds := checkedIds + {f};
        parentIds := parentIds - {f};
        UnknownAscends(s, st, f);
      }
    }

    // The part of the ascent that follows the child families.
    method CheckFamily(f: Id, node: FamilyProxy, gone: set<Id>, ghost s: Start)
      requires Valid(s) && gone == s.gone && (f in data || f in added) && node == Node(data, added, f)
      requires node.childFamilies <= checkedIds
      modifies this`updated, this`stateUpdate, this`pruned, this`parentIds, this`checkedIds
      ensures Valid(s)
      ensures checkedIds == old(checkedIds) + {f}
      ensures parentIds <= (old(parentIds) - {f}) + UpTo(s, f)
      ensures ValidStart(s) && Sets() == Checked(s, old(Sets()), f)
    {
      hide Good, Prunable, Loses, ValidStart;
      ghost var st := Sets();
      TestAgrees(s, data, added, updated, st, f);
      CheckedGood(s, data, added, updated, st, f);
      var tasks, families := ChildTasks(node, updated, f), ChildFamilies(node, updated, f);
      if tasks - gone != {} || families - pruned != {} {
        if tasks * gone != {} || families * pruned != {} {
          stateUpdate := stateUpdate + {f};
        }
      } else {
        if node.firstParent != "" {
          parentIds := parentIds + {node.firstParent};
        }
        updated := updated - {f};
        pruned := pruned + {f};
      }
      checkedIds := checkedIds + {f};
      parentIds := parentIds - {f};
      assert Sets() == Checked(s, st, f);
      assert updated == s.updated - pruned;
    }

    // The while loop of prune_data_store, from the parents of the pruned tasks.
    method PruneFamilies(parents: set<Id>, gone: set<Id>, ghost height: Id -> nat, ghost top: nat)
      requires ValidStart(StartOf(data, added, updated, stateUpdate, parents, gone, height, top))
      modifies this`updated, this`stateUpdate, this`pruned, this`parentIds, this`checkedIds
      ensures updated == old(updated) - pruned
      ensures PrunedExactly(
                StartOf(data, added, old(updated), old(stateUpdate), parents, gone, height, top), pruned, stateUpdate)
      ensures Outcome(StartOf(data, added, old(updated), old(stateUpdate), parents, gone, height, top), Sets())
    {
      hide Good, ValidStart, PrunedExactly, StartOf, ForestOf, StoredOf, Outcome;
      ghost var s := StartOf(data, added, updated, stateUpdate, parents, gone, height, top);
      StartGood(data, added, updated, stateUpdate, parents, gone, height, top);
      pruned, checkedIds, parentIds := {}, {}, parents;
      assert Valid(s);
      Ascend(gone, s);
    }

    method Ascend(gone: set<Id>, ghost s: Start)
      requires Valid(s) && gone == s.gone && ValidStart(s) && Sets() == Started(s)
      modifies this`updated, this`stateUpdate, this`pruned, this`parentIds, this`checkedIds
      ensures updated == s.updated - pruned
      ensures ValidStart(s) && PrunedExactly(s, pruned, stateUpdate) && Outcome(s, Sets())
    {
      hide Good, PrunedExactly, Ascends, Reaches, ValidStart;
      ghost var n: nat := 0;
      NoneReached(s);
      while parentIds != {}
        invariant Valid(s) && ValidStart(s) && Reaches(s, Sets(), n)
        decreases TotalWeight(s, parentIds)
      {
        var f :| f in parentIds;
        ghost var before, m := parentIds, Sets();
        UpIsHigher(s, data, added, updated, Sets(), f);
        FamilyAscentPointPrune(f, gone, s);
        AscentLowersWeight(s, before, f, UpTo(s, f), parentIds);
        NextReached(s, m, n, f, Sets());
        n := n + 1;
      }
      AscentsPruneExactly(s, data, added, updated, Sets());
    }

    ghost function Beginning(height: Id -> nat, top: nat): Start
      reads this
    {
      var gone := OutOfWindow(tasks, windowNodes, pruneFlagged, pool);
      StartOf(data, added, updated, stateUpdate, ParentsOf(tasks, gone), gone, height, top)
    }

    method PruneDataStore(ghost height: Id -> nat, ghost top: nat)
      requires ValidStart(Beginning(height, top))
      modifies this`updated, this`stateUpdate, this`pruned, this`parentIds, this`checkedIds,
        this`allWindowNodes, this`pruneFlagged, this`triggerNodes, this`windowNodes, this`prunedTasks
      ensures old(pruneFlagged) == {} ==>
                pruned == {} && updated == old(updated) && stateUpdate == old(stateUpdate) && prunedTasks == old(prunedTasks)
      ensures old(pruneFlagged) != {} ==>
                && PrunedExactly(old(Beginning(height, top)), pruned, stateUpdate)
                && Outcome(old(Beginning(height, top)), Sets())
                && updated == old(updated) - pruned
                && (forall t :: t in prunedTasks <==> t in old(prunedTasks) || (t in tasks && PathEnded(old(windowNodes), old(pruneFlagged), pool, t)))
    {
      hide ValidStart, PrunedExactly, StartOf, Windows, FirstParents, Outcome, PathEnded, ParentsOf;
      pruned := {};
      if pruneFlagged != {} {
        PruneOutOfWindow(height, top);
      }
    }

    method PruneOutOfWindow(ghost height: Id -> nat, ghost top: nat)
      requires ValidStart(Beginning(height, top))
      modifies this`updated, this`stateUpdate, this`pruned, this`parentIds, this`checkedIds,
        this`allWindowNodes, this`pruneFlagged, this`triggerNodes, this`windowNodes, this`prunedTasks
      ensures PrunedExactly(old(Beginning(height, top)), pruned, stateUpdate)
      ensures Outcome(old(Beginning(height, top)), Sets())
      ensures updated == old(updated) - pruned
      ensures prunedTasks == old(prunedTasks + OutOfWindow(tasks, windowNodes, pruneFlagged, pool))
    {
      hide ValidStart, PrunedExactly, StartOf, Windows, FirstParents, Outcome, PathEnded, ParentsOf;
      var nodeIds := SelectOutOfWindow();
      assert nodeIds == old(OutOfWindow(tasks, windowNodes, pruneFlagged, pool));
      var parents := FirstParents(tasks, nodeIds);
      FirstParentsAre(tasks, nodeIds);
      PruneFamilies(parents, nodeIds, height, top);
      prunedTasks := prunedTasks + nodeIds;
    }

    method SelectOutOfWindow() returns (nodeIds: set<Id>)
      modifies this`allWindowNodes, this`pruneFlagged, this`triggerNodes, this`windowNodes
      ensures forall t :: t in nodeIds <==> t in tasks && PathEnded(old(windowNodes), old(pruneFlagged), pool, t)
      ensures pruneFlagged == old(pruneFlagged) * pool
      ensures forall x :: x in allWindowNodes <==> exists k :: k in pool && k in old(windowNodes) && x in old(windowNodes)[k]
      ensures forall k :: k in triggerNodes <==> k in old(triggerNodes) && k in allWindowNodes
      ensures forall k :: k in triggerNodes ==> triggerNodes[k] == old(triggerNodes)[k]
      ensures forall k :: k in windowNodes <==> k in old(windowNodes) && !PathEnded(old(windowNodes), old(pruneFlagged), pool, k)
      ensures forall k :: k in windowNodes ==> windowNodes[k] == old(windowNodes)[k]
    {
      WindowsAre(windowNodes, pool);
      WindowsAre(windowNodes, pruneFlagged);
      hide Windows;
      allWindowNodes := Windows(windowNodes, pool);
      // out_paths_nodes.difference(all_task_pool) is computed and dropped
      nodeIds := pruneFlagged + Windows(windowNodes, pruneFlagged) - allWindowNodes;
      assert forall x :: x in nodeIds <==> PathEnded(old(windowNodes), old(pruneFlagged), pool, x);
      pruneFlagged := pruneFlagged * pool;
      triggerNodes := triggerNodes - (triggerNodes.Keys - allWindowNodes);
      windowNodes := windowNodes - nodeIds;
      nodeIds := set t | t in nodeIds && t in tasks;
    }
  }

  function FirstParents(tasks: map<Id, Id>, ids: set<Id>): set<Id> {
    set t | t in tasks && t in ids :: tasks[t]
  }

  lemma FirstParentsAre(tasks: map<Id, Id>, ids: set<Id>)
    ensures FirstParents(tasks, ids) == ParentsOf(tasks, ids)
  {
  }

  function Windows(windowNodes: map<Id, set<Id>>, ids: set<Id>): set<Id> {
    set k, x | k in windowNodes && k in ids && x in windowNodes[k] :: x
  }

  lemma WindowsAre(windowNodes: map<Id, set<Id>>, ids: set<Id>)
    ensures forall x :: x in Windows(windowNodes, ids) <==> exists k :: k in ids && k in windowNodes && x in windowNodes[k]
  {
  }
}
