// A family that is pruned should not be flagged for update on the way.  Whether
// it can be depends on the order in which the work list is gone through: this
// says exactly for which families some order does both (data_store_mgr.py).

module FamilyPruneOrder {
  import opened FamilyNodes
  import opened FamilyPrune

  function Kids(s: Start, f: Id, all: bool): set<Id>
    requires f in s.stored && s.stored.Keys == s.forest.families.Keys
  {
    if all then s.forest.families[f] else s.stored[f]
  }

  // g is f or below it, by all child families or by the stored ones only.
  ghost predicate Holds(s: Start, f: Id, g: Id, all: bool)
    requires ValidStart(s)
    decreases s.height(f)
  {
    g == f || (f in s.stored && exists c :: c in Kids(s, f, all) && Holds(s, c, g, all))
  }

  lemma {:induction false} StoredIsHeld(s: Start, f: Id, g: Id)
    requires ValidStart(s) && Holds(s, f, g, false)
    ensures Holds(s, f, g, true)
    decreases s.height(f)
  {
    if g != f {
      var c :| c in Kids(s, f, false) && Holds(s, c, g, false);
      StoredIsHeld(s, c, g);
      assert c in Kids(s, f, true);
    }
  }

  lemma {:induction false} HoldsJoin(s: Start, f: Id, g: Id, h: Id, all: bool)
    requires ValidStart(s) && Holds(s, f, g, all) && Holds(s, g, h, all)
    ensures Holds(s, f, h, all)
    decreases s.height(f)
  {
    if g != f {
      var c :| c in Kids(s, f, all) && Holds(s, c, g, all);
      HoldsJoin(s, c, g, h, all);
    }
  }

  lemma {:induction false} HoldsHeight(s: Start, f: Id, g: Id, all: bool)
    requires ValidStart(s) && Holds(s, f, g, all)
    ensures g == f || s.height(g) < s.height(f)
    decreases s.height(f)
  {
    if g != f {
      var c :| c in Kids(s, f, all) && Holds(s, c, g, all);
      HoldsHeight(s, c, g, all);
    }
  }

  // The way up.

  ghost predicate Up(s: Start, g: Id, f: Id)
    requires ValidStart(s)
    decreases if g in s.forest.parent then s.top - s.height(g) else 0
  {
    g == f || (g in s.forest.parent && s.forest.parent[g] in s.forest.parent && Up(s, s.forest.parent[g], f))
  }

  lemma {:induction false} UpThenParent(s: Start, g: Id, f: Id)
    requires ValidStart(s) && Up(s, g, f) && f in s.forest.parent && s.forest.parent[f] in s.forest.parent
    ensures Up(s, g, s.forest.parent[f])
    decreases if g in s.forest.parent then s.top - s.height(g) else 0
  {
    if g != f {
      UpThenParent(s, s.forest.parent[g], f);
    } else {
      assert Up(s, s.forest.parent[f], s.forest.parent[f]);
    }
  }

  lemma {:induction false} UpComparable(s: Start, g: Id, a: Id, b: Id)
    requires ValidStart(s) && Up(s, g, a) && Up(s, g, b)
    ensures Up(s, a, b) || Up(s, b, a)
    decreases if g in s.forest.parent then s.top - s.height(g) else 0
  {
    if g != a && g != b { UpComparable(s, s.forest.parent[g], a, b); }
  }

  lemma {:induction false} UpHeight(s: Start, g: Id, f: Id)
    requires ValidStart(s) && Up(s, g, f)
    ensures g == f || s.height(g) < s.height(f)
    decreases if g in s.forest.parent then s.top - s.height(g) else 0
  {
    if g != f { UpHeight(s, s.forest.parent[g], f); }
  }

  lemma {:induction false} HeldIsUp(s: Start, f: Id, g: Id)
    requires ValidStart(s) && Holds(s, f, g, true) && Dead(s.forest, s.height, s.gone, f)
    ensures Up(s, g, f)
    decreases s.height(f)
  {
    if g != f {
      var c :| c in Kids(s, f, true) && Holds(s, c, g, true);
      assert Dead(s.forest, s.height, s.gone, c);
      HeldIsUp(s, c, g);
      UpThenParent(s, g, c);
    }
  }

  // Child families hold nothing in common.
  lemma SiblingsApart(s: Start, f: Id, c: Id, d: Id, g: Id)
    requires ValidStart(s) && Dead(s.forest, s.height, s.gone, f)
    requires c in s.forest.families[f] && d in s.forest.families[f] && c != d
    requires Holds(s, c, g, true)
    ensures !Holds(s, d, g, true)
  {
    assert Dead(s.forest, s.height, s.gone, c) && Dead(s.forest, s.height, s.gone, d);
    if Holds(s, d, g, true) {
      HeldIsUp(s, c, g);
      HeldIsUp(s, d, g);
      UpComparable(s, g, c, d);
      if Up(s, c, d) { UpHeight(s, f, d); } else { UpHeight(s, f, c); }
    }
  }

  // Something below f is not reached from f by stored child families.
  lemma {:induction false} Unreached(s: Start, f: Id) returns (d: Id)
    requires ValidStart(s) && Dead(s.forest, s.height, s.gone, f) && PendingBelow(s, f)
    ensures d != f && Holds(s, f, d, true) && !Holds(s, f, d, false)
    decreases s.height(f)
  {
    var c;
    if s.stored[f] != s.forest.families[f] {
      d :| d in s.forest.families[f] && d !in s.stored[f];
      c := d;
    } else {
      c :| c in s.forest.families[f] && PendingBelow(s, c);
      assert Dead(s.forest, s.height, s.gone, c);
      d := Unreached(s, c);
      HoldsHeight(s, c, d, true);
    }
    assert c in Kids(s, f, true) && Holds(s, c, d, true);
    if Holds(s, f, d, false) {
      var k :| k in Kids(s, f, false) && Holds(s, k, d, false);
      StoredIsHeld(s, k, d);
      if k != c { SiblingsApart(s, f, k, c, d); }
    }
  }

  // What is below a pruned family is pruned.
  lemma {:induction false} PrunedBelow(s: Start, st: State, f: Id, g: Id)
    requires ValidStart(s) && InvPruned(s, st) && f in st.pruned && Holds(s, f, g, true)
    ensures g in st.pruned
    decreases s.height(f)
  {
    if g != f {
      assert Prunable(s.forest, s.gone, st.pruned, f);
      var c :| c in Kids(s, f, true) && Holds(s, c, g, true);
      PrunedBelow(s, st, c, g);
    }
  }

  // What any ascent does.

  ghost predicate Later(s: Start, st: State, after: State, f: Id)
    requires ValidStart(s)
  {
    && Inv(s, after)
    && st.pruned <= after.pruned && st.flagged <= after.flagged && st.checked <= after.checked
    && (forall g :: g in after.checked ==> g in st.checked || Holds(s, f, g, false))
    && after.parents <= st.parents + {f} + UpTo(s, f)
  }

  lemma CheckedLater(s: Start, st: State, f: Id)
    requires Inv(s, st) && (f in s.stored ==> s.stored[f] <= st.checked)
    ensures Later(s, st, Checked(s, st, f), f)
    ensures f in Checked(s, st, f).checked && f !in Checked(s, st, f).parents
  {
    CheckedInvPruned(s, st, f);
    CheckedInvFlagged(s, st, f);
    CheckedInvSettled(s, st, f);
    hide InvPruned, InvFlagged, InvSettled, Prunable, Loses;
    assert Holds(s, f, f, false);
  }

  lemma LaterJoin(s: Start, st: State, m: State, after: State, f: Id, c: Id)
    requires ValidStart(s) && f in s.stored && c in s.stored[f]
    requires Later(s, st, m, f) && Later(s, m, after, c) && c !in after.parents
    ensures Later(s, st, after, f)
  {
    hide Inv, ValidStart;
    UpToChild(s, f, c);
    forall g | g in after.checked ensures g in st.checked || Holds(s, f, g, false) {
      if g !in m.checked { HeldByChild(s, f, c, g); }
    }
  }

  lemma UpToChild(s: Start, f: Id, c: Id)
    requires ValidStart(s) && f in s.stored && c in s.stored[f]
    ensures UpTo(s, c) <= {f}
  {
    BelowInTree(s, f, c);
  }

  lemma HeldByChild(s: Start, f: Id, c: Id, g: Id)
    requires ValidStart(s) && f in s.stored && c in s.stored[f] && Holds(s, c, g, false)
    ensures Holds(s, f, g, false)
  {
    assert c in Kids(s, f, false);
  }

  lemma {:induction false} AscentLater(s: Start, st: State, f: Id, after: State)
    requires Inv(s, st) && Ascends(s, st, f, after)
    ensures Later(s, st, after, f) && f in after.checked && f !in after.parents
    decreases s.height(f), 1
  {
    hide InvPruned, InvFlagged, InvSettled, Checked, Visits;
    if f !in s.stored {
      CheckedLater(s, st, f);
    } else {
      var m :| Visits(s, f, st, s.stored[f], m) && after == Checked(s, m, f);
      VisitsLater(s, f, st, s.stored[f], m);
      CheckedLater(s, m, f);
    }
  }

  lemma {:induction false} VisitsLater(s: Start, f: Id, st: State, kids: set<Id>, after: State)
    requires Inv(s, st) && f in s.stored && kids <= s.stored[f] && Visits(s, f, st, kids, after)
    ensures Later(s, st, after, f) && kids <= after.checked
    decreases s.height(f), 0, kids
  {
    hide InvPruned, InvFlagged, InvSettled, Ascends;
    if kids != {} {
      var c, m :| c in kids && Visits(s, f, st, kids - {c}, m) &&
                  if c in m.checked then after == m else Ascends(s, m, c, after);
      VisitsLater(s, f, st, kids - {c}, m);
      if c !in m.checked {
        AscentLater(s, m, c, after);
        LaterJoin(s, st, m, after, f, c);
      }
      forall k | k in kids ensures k in after.checked {
        assert k == c || k in kids - {c};
      }
    }
  }

  // There is an ascent wherever one is begun.
  lemma {:induction false} AscentExists(s: Start, st: State, f: Id) returns (after: State)
    requires ValidStart(s)
    ensures Ascends(s, st, f, after)
    decreases s.height(f), 1
  {
    if f !in s.stored {
      after := Checked(s, st, f);
    } else {
      var m := VisitsExist(s, f, st, s.stored[f]);
      after := Checked(s, m, f);
    }
  }

  lemma {:induction false} VisitsExist(s: Start, f: Id, st: State, kids: set<Id>) returns (after: State)
    requires ValidStart(s) && f in s.stored && kids <= s.stored[f]
    ensures Visits(s, f, st, kids, after)
    decreases s.height(f), 0, kids
  {
    hide Ascends, Checked;
    if kids == {} {
      after := st;
    } else {
      var c :| c in kids;
      var m := VisitsExist(s, f, st, kids - {c});
      if c in m.checked {
        after := m;
      } else {
        ChildIsLower(s, f, c);
        after := AscentExists(s, m, c);
      }
      assert c in kids && Visits(s, f, st, kids - {c}, m);
    }
  }

  lemma ChildIsLower(s: Start, f: Id, c: Id)
    requires ValidStart(s) && f in s.stored && c in s.stored[f]
    ensures s.height(c) < s.height(f)
  {
    BelowInTree(s, f, c);
  }

  lemma StartInv(s: Start)
    requires ValidStart(s)
    ensures Inv(s, Started(s))
  {
  }

  lemma {:induction false} ReachedInv(s: Start, st: State, n: nat)
    requires ValidStart(s) && Reaches(s, st, n)
    ensures Inv(s, st)
    decreases n
  {
    hide Inv, Ascends, ValidStart;
    if n == 0 {
      StartInv(s);
    } else {
      var m, f :| Reaches(s, m, n - 1) && f in m.parents && Ascends(s, m, f, st);
      ReachedInv(s, m, n - 1);
      AscentLater(s, m, f, st);
    }
  }

  // Going on, at families of xs only, until none of them waits.

  ghost predicate Closed(s: Start, xs: Id -> bool)
    requires ValidStart(s)
  {
    forall f, g :: xs(f) && Holds(s, f, g, false) ==> xs(g)
  }

  ghost predicate Drained(s: Start, st: State, m: State, xs: Id -> bool) {
    && Inv(s, m)
    && st.pruned <= m.pruned && st.flagged <= m.flagged
    && (forall g :: g in m.checked ==> g in st.checked || xs(g))
    && (forall g :: g in m.parents ==> !xs(g))
  }

  lemma ParentIsHigher(s: Start, f: Id)
    requires ValidStart(s)
    ensures UpTo(s, f) == {} || exists p :: UpTo(s, f) == {p} && s.height(f) < s.height(p) && s.height(f) < s.top
    ensures f !in UpTo(s, f)
  {
    if f in s.forest.parent && s.forest.parent[f] != "" {
      assert UpTo(s, f) == {s.forest.parent[f]};
    }
  }

  lemma Waiting(before: set<Id>, f: Id, up: set<Id>, after: set<Id>)
    requires after <= before + {f} + up && f !in after
    ensures after <= (before - {f}) + up
  {
  }

  lemma {:induction false} Drain(s: Start, st: State, n: nat, xs: Id -> bool) returns (m: State, k: nat)
    requires Inv(s, st) && Reaches(s, st, n) && Closed(s, xs)
    ensures Reaches(s, m, k) && Drained(s, st, m, xs)
    decreases TotalWeight(s, st.parents)
  {
    hide InvPruned, InvFlagged, InvSettled, Ascends, Reaches, ValidStart, TotalWeight;
    if f :| f in st.parents && xs(f) {
      var after := AscentExists(s, st, f);
      AscentLater(s, st, f, after);
      ParentIsHigher(s, f);
      Waiting(st.parents, f, UpTo(s, f), after.parents);
      AscentLowersWeight(s, st.parents, f, UpTo(s, f), after.parents);
      NextReached(s, st, n, f, after);
      m, k := Drain(s, after, n + 1, xs);
    } else {
      m, k := st, n;
    }
  }

  // A dead family of which nothing waits has been pruned.
  lemma {:induction false} DeadIsPrunedIn(s: Start, st: State, f: Id)
    requires ValidStart(s) && InvPruned(s, st) && forall g :: g in st.parents ==> !Holds(s, f, g, true)
    requires Dead(s.forest, s.height, s.gone, f) && Inhabited(s.forest, s.height, f)
    ensures f in st.pruned
    decreases s.height(f)
  {
    forall c | c in s.forest.families[f] ensures c in st.pruned {
      forall g | g in st.parents ensures !Holds(s, c, g, true) {
        assert c in Kids(s, f, true);
      }
      DeadIsPrunedIn(s, st, c);
    }
    assert Holds(s, f, f, true);
    if t :| t in s.forest.tasks[f] {
      assert f in s.parents;
    } else {
      var c :| c in s.forest.families[f];
      assert c in st.pruned && s.forest.parent[c] == f;
    }
    assert Prunable(s.forest, s.gone, st.pruned, f);
  }

  // An ascent from f that does not reach d flags f, if f has lost something.
  lemma FlaggedEarly(s: Start, st: State, n: nat, f: Id, d: Id) returns (m: State)
    requires Inv(s, st) && Reaches(s, st, n) && f in st.parents && Loses(s.forest, s.gone, st.pruned, f)
    requires d !in st.checked && Holds(s, f, d, true) && !Holds(s, f, d, false)
    ensures Inv(s, m) && Reaches(s, m, n + 1) && f in m.flagged
  {
    m := AscentExists(s, st, f);
    hide Ascends, Reaches;
    NextReached(s, st, n, f, m);
    AscentLater(s, st, f, m);
    hide InvSettled, ValidStart;
    assert d !in m.pruned;
    if f in m.pruned { PrunedBelow(s, m, f, d); }
    assert Loses(s.forest, s.gone, m.pruned, f);
  }

  // Everything of one child family first: then the other is not yet reached.
  lemma OneChildFirst(s: Start, f: Id, c: Id, d: Id) returns (m: State, n: nat)
    requires ValidStart(s) && Dead(s.forest, s.height, s.gone, f) && Inhabited(s.forest, s.height, f)
    requires c in s.forest.families[f] && !Holds(s, c, d, true)
    ensures Inv(s, m) && Reaches(s, m, n) && f in m.parents && Loses(s.forest, s.gone, m.pruned, f)
    ensures d !in m.checked
  {
    var xs := (g: Id) => ValidStart(s) && Holds(s, c, g, true);
    forall g, h | xs(g) && Holds(s, g, h, false) ensures xs(h) {
      StoredIsHeld(s, g, h);
      HoldsJoin(s, c, g, h, true);
    }
    StartInv(s);
    NoneReached(s);
    m, n := Drain(s, Started(s), 0, xs);
    hide Reaches, InvFlagged, InvSettled, Closed;
    assert Dead(s.forest, s.height, s.gone, c) && Inhabited(s.forest, s.height, c);
    DeadIsPrunedIn(s, m, c);
    assert c in s.forest.families[f] * m.pruned;
    if f in m.checked { HoldsHeight(s, c, f, true); }
  }

  lemma EndsPruned(s: Start, st: State, n: nat, f: Id) returns (end: State)
    requires Inv(s, st) && Reaches(s, st, n) && f in st.flagged
    requires Dead(s.forest, s.height, s.gone, f) && Inhabited(s.forest, s.height, f)
    ensures Outcome(s, end) && f in end.flagged && f in end.pruned
  {
    var k;
    end, k := Drain(s, st, n, (g: Id) => true);
    hide Reaches, InvFlagged, InvSettled;
    assert end.parents == {};
    DeadIsPruned(s, end, f);
  }

  // Some order comes to f when it has lost something and d is not yet reached.
  lemma SomethingLost(s: Start, f: Id, d: Id) returns (m: State, n: nat)
    requires ValidStart(s) && f in s.forest.families && Inhabited(s.forest, s.height, f)
    requires Dead(s.forest, s.height, s.gone, f) && !OneChildOnly(s, f) && d != f && Holds(s, f, d, true)
    ensures Inv(s, m) && Reaches(s, m, n) && f in m.parents && Loses(s.forest, s.gone, m.pruned, f)
    ensures d !in m.checked
  {
    if t :| t in s.forest.tasks[f] {
      m, n := Started(s), 0;
      StartInv(s);
      NoneReached(s);
      assert t in s.forest.tasks[f] * s.gone;
    } else {
      var c :| c in Kids(s, f, true) && Holds(s, c, d, true);
      var k := OtherChild(s, f, c);
      SiblingsApart(s, f, c, k, d);
      m, n := OneChildFirst(s, f, k, d);
    }
  }

  lemma OtherChild(s: Start, f: Id, c: Id) returns (k: Id)
    requires ValidStart(s) && f in s.forest.families && c in s.forest.families[f]
    requires s.forest.tasks[f] == {} && !OneChildOnly(s, f)
    ensures k in s.forest.families[f] && k != c
  {
    assert s.forest.families[f] != {c};
    if k' :| k' in s.forest.families[f] && k' != c {
      k := k';
    }
  }

  lemma FlaggedThenPruned(s: Start, st: State, n: nat, f: Id, d: Id) returns (end: State)
    requires Inv(s, st) && Reaches(s, st, n) && f in st.parents && Loses(s.forest, s.gone, st.pruned, f)
    requires d !in st.checked && Holds(s, f, d, true) && !Holds(s, f, d, false)
    requires Dead(s.forest, s.height, s.gone, f) && Inhabited(s.forest, s.height, f)
    ensures Outcome(s, end) && f in end.flagged && f in end.pruned
  {
    hide *;
    var m := FlaggedEarly(s, st, n, f, d);
    end := EndsPruned(s, m, n + 1, f);
  }

  lemma BothInSomeOrder(s: Start, f: Id) returns (end: State)
    requires ValidStart(s) && f in s.forest.families && Inhabited(s.forest, s.height, f)
    requires Dead(s.forest, s.height, s.gone, f) && Untidy(s, f)
    ensures Outcome(s, end) && f in end.flagged && f in end.pruned
  {
    assert PendingBelow(s, f) && !OneChildOnly(s, f);
    hide *;
    var d := Unreached(s, f);
    var st, n := SomethingLost(s, f, d);
    end := FlaggedThenPruned(s, st, n, f, d);
  }

  // Some order both flags and prunes a family, of the inhabited ones, exactly
  // when nothing in it survives and it is untidy.
  lemma FlaggedAndPrunedIff(s: Start, f: Id)
    requires ValidStart(s) && f in s.forest.families && f !in s.flagged && Inhabited(s.forest, s.height, f)
    ensures (exists end :: Outcome(s, end) && f in end.flagged && f in end.pruned) <==>
            Dead(s.forest, s.height, s.gone, f) && Untidy(s, f)
  {
    if Dead(s.forest, s.height, s.gone, f) && Untidy(s, f) {
      var end := BothInSomeOrder(s, f);
    }
    if end :| Outcome(s, end) && f in end.flagged && f in end.pruned {
      var n :| Reaches(s, end, n);
      ReachedInv(s, end, n);
      FlaggedFacts(s, end, f);
      PrunedIsDead(s, end, f);
    }
  }

  // For example: a family that loses its only task, and with it a child family
  // that its stored node does not list yet.
  ghost function NewChild(): Start {
    Start(Forest(map["FAM" := "", "SUB" := "FAM"], map["FAM" := {"SUB"}, "SUB" := {}], map["FAM" := {"a"}, "SUB" := {"b"}]),
          (f: Id) => if f == "FAM" then 1 else 0, {"a", "b"}, map[], {}, {"FAM", "SUB"},
          map["FAM" := {}, "SUB" := {}], 2)
  }

  lemma NewChildForest()
    ensures TreeShaped(NewChild().forest, NewChild().height)
  {
    var f := NewChild().forest;
    assert f.parent.Keys == f.families.Keys == f.tasks.Keys == {"FAM", "SUB"};
    assert f.families["FAM"] == {"SUB"} && f.families["SUB"] == {};
  }

  lemma NewChildIsValid()
    ensures ValidStart(NewChild())
  {
    NewChildForest();
    hide TreeShaped;
    var s := NewChild();
    assert s.forest.families.Keys == s.forest.tasks.Keys == s.stored.Keys == {"FAM", "SUB"};
  }

  lemma NewChildDies()
    requires ValidStart(NewChild())
    ensures var s := NewChild();
            && "FAM" in s.forest.families && Inhabited(s.forest, s.height, "FAM")
            && Dead(s.forest, s.height, s.gone, "FAM") && Untidy(s, "FAM")
  {
    hide ValidStart;
    var s := NewChild();
    assert s.forest.families["FAM"] == {"SUB"} && s.forest.families["SUB"] == {};
    assert "a" in s.forest.tasks["FAM"] && "b" in s.forest.tasks["SUB"];
    assert Dead(s.forest, s.height, s.gone, "SUB") && Inhabited(s.forest, s.height, "SUB");
    assert s.stored["FAM"] == {};
  }

  lemma NewChildMissed() returns (end: State)
    ensures ValidStart(NewChild()) && Outcome(NewChild(), end) && "FAM" in end.flagged && "FAM" in end.pruned
  {
    hide *;
    NewChildIsValid();
    NewChildDies();
    end := BothInSomeOrder(NewChild(), "FAM");
  }
}
