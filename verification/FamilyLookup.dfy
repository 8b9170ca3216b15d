// Expanding families to the tasks they contain (id_match.py).

module FamilyLookup {

  // Each family's descendants, families among them.
  type Descendants = map<string, set<string>>

  ghost predicate ReachesIn(d: Descendants, f: string, n: string, steps: nat)
    decreases steps
  {
    f in d && if steps <= 1 then steps == 1 && n in d[f]
              else exists m :: m in d[f] && ReachesIn(d, m, n, steps - 1)
  }

  ghost predicate Reaches(d: Descendants, f: string, n: string) {
    exists steps: nat :: ReachesIn(d, f, n, steps)
  }

  ghost predicate Acyclic(d: Descendants) {
    forall f :: f in d ==> !Reaches(d, f, f)
  }

  // The tasks a family contains at any depth.
  ghost predicate Contains(d: Descendants, f: string, n: string) {
    n !in d && Reaches(d, f, n)
  }

  lemma OneStep(d: Descendants, f: string, n: string)
    requires f in d && n in d[f]
    ensures Reaches(d, f, n)
  {
    assert ReachesIn(d, f, n, 1);
  }

  lemma {:induction false} StepsJoin(d: Descendants, f: string, m: string, n: string, i: nat, j: nat)
    requires ReachesIn(d, f, m, i) && ReachesIn(d, m, n, j)
    ensures ReachesIn(d, f, n, i + j)
    decreases i
  {
    if i > 1 {
      var x :| x in d[f] && ReachesIn(d, x, m, i - 1);
      StepsJoin(d, x, m, n, i - 1, j);
    }
  }

  lemma ReachesJoin(d: Descendants, f: string, m: string, n: string)
    requires Reaches(d, f, m) && Reaches(d, m, n)
    ensures Reaches(d, f, n)
  {
    var i: nat :| ReachesIn(d, f, m, i);
    var j: nat :| ReachesIn(d, m, n, j);
    StepsJoin(d, f, m, n, i, j);
  }

  lemma FirstStep(d: Descendants, f: string, n: string)
    requires Reaches(d, f, n)
    ensures f in d && (n in d[f] || exists m :: m in d[f] && m in d && Reaches(d, m, n))
  {
    var i: nat :| ReachesIn(d, f, n, i);
    if i > 1 {
      var m :| m in d[f] && ReachesIn(d, m, n, i - 1);
    }
  }

  // How many families a family reaches: less the further down it is.
  ghost function FamiliesBelow(d: Descendants, f: string): set<string> {
    set g | g in d && Reaches(d, f, g)
  }

  lemma BelowShrinks(d: Descendants, f: string, g: string)
    requires Acyclic(d) && f in d && g in d && g in d[f]
    ensures |FamiliesBelow(d, g)| < |FamiliesBelow(d, f)|
  {
    OneStep(d, f, g);
    forall h | h in FamiliesBelow(d, g) ensures h in FamiliesBelow(d, f) - {g} {
      ReachesJoin(d, f, g, h);
    }
    Fewer(FamiliesBelow(d, g), FamiliesBelow(d, f) - {g});
  }

  lemma {:induction false} Fewer<T>(a: set<T>, b: set<T>)
    requires a <= b
    ensures |a| <= |b|
    decreases a
  {
    if a != {} {
      var x :| x in a;
      Fewer(a - {x}, b - {x});
    }
  }

  lemma BelowBounded(d: Descendants, f: string)
    ensures |FamiliesBelow(d, f)| <= |d.Keys|
  {
    Fewer(FamiliesBelow(d, f), d.Keys);
  }

  // What a family's set keeps while its families are replaced by their own
  // descendants: all in it are reached, and no task is lost.
  ghost predicate Partial(d: Descendants, f: string, names: set<string>) {
    && (forall n :: n in names ==> Reaches(d, f, n))
    && (forall n :: Contains(d, f, n) ==> n in names || exists g :: g in names && Reaches(d, g, n))
  }

  // The families still in the set are no higher than this.
  ghost predicate Below(d: Descendants, names: set<string>, bound: nat) {
    forall g :: g in names && g in d ==> |FamiliesBelow(d, g)| < bound
  }

  ghost predicate AllPartial(d: Descendants, lookup: Descendants, bound: nat) {
    && lookup.Keys == d.Keys
    && forall f :: f in lookup ==> Partial(d, f, lookup[f]) && Below(d, lookup[f], bound)
  }

  lemma StartPartial(d: Descendants, f: string)
    requires f in d
    ensures Partial(d, f, d[f]) && Below(d, d[f], |d.Keys| + 1)
  {
    forall n | n in d[f] ensures Reaches(d, f, n) {
      OneStep(d, f, n);
    }
    forall n | Contains(d, f, n) ensures n in d[f] || exists g :: g in d[f] && Reaches(d, g, n) {
      FirstStep(d, f, n);
    }
    forall g | g in d[f] && g in d ensures |FamiliesBelow(d, g)| < |d.Keys| + 1 {
      BelowBounded(d, g);
    }
  }

  lemma ReplacePartial(d: Descendants, f: string, names: set<string>, g: string)
    requires Partial(d, f, names) && g in names && g in d && !Reaches(d, g, g)
    ensures Partial(d, f, names - {g} + d[g])
  {
    var after := names - {g} + d[g];
    forall n | n in after ensures Reaches(d, f, n) {
      if n in d[g] {
        OneStep(d, g, n);
        ReachesJoin(d, f, g, n);
      }
    }
    forall n | Contains(d, f, n) ensures n in after || exists h :: h in after && Reaches(d, h, n) {
      if n !in after {
        var h :| h in names && Reaches(d, h, n);
        if h == g {
          FirstStep(d, g, n);
        } else {
          assert h in after;
        }
      }
    }
  }

  // A family on a cycle is replaced by, among others, the next one on it.
  ghost predicate HoldsCycle(d: Descendants, names: set<string>) {
    exists g :: g in names && Reaches(d, g, g)
  }

  lemma CycleStays(d: Descendants, names: set<string>, g: string)
    requires g in names && g in d && HoldsCycle(d, names)
    ensures HoldsCycle(d, names - {g} + d[g])
  {
    var h :| h in names && Reaches(d, h, h);
    if h == g {
      NextOnCycle(d, g);
    }
    var after := names - {g} + d[g];
    assert exists m :: m in after && Reaches(d, m, m);
  }

  lemma CycleHasFamily(d: Descendants, names: set<string>)
    requires HoldsCycle(d, names)
    ensures HasFamily(d, names)
  {
    var h :| h in names && Reaches(d, h, h);
    FirstStep(d, h, h);
  }

  lemma NextOnCycle(d: Descendants, f: string)
    requires Reaches(d, f, f)
    ensures f in d && exists m :: m in d[f] && Reaches(d, m, m)
  {
    FirstStep(d, f, f);
    if f !in d[f] {
      var m :| m in d[f] && m in d && Reaches(d, m, f);
      OneStep(d, f, m);
      ReachesJoin(d, m, f, m);
    }
  }

  lemma NoFamilyLeft(d: Descendants, f: string, names: set<string>)
    requires Partial(d, f, names)
    requires !HasFamily(d, names)
    ensures forall n :: n in names <==> Contains(d, f, n)
  {
    forall n | Contains(d, f, n) ensures n in names {
      if n !in names {
        var g :| g in names && Reaches(d, g, n);
        FirstStep(d, g, n);
      }
    }
  }

  predicate HasFamily(d: Descendants, names: set<string>) {
    exists g :: g in names && g in d
  }

  lemma NoFamilyBelow(d: Descendants, names: set<string>, bound: nat)
    requires !HasFamily(d, names)
    ensures Below(d, names, bound)
  {
  }

  // One family's set in one pass: every family seen at the start is replaced.
  method ExpandOnce(d: Descendants, f: string, names: set<string>, ghost bound: nat)
    returns (after: set<string>, changed: bool)
    requires Acyclic(d) ==> Partial(d, f, names) && Below(d, names, bound)
    ensures changed <==> HasFamily(d, names)
    ensures !changed ==> after == names
    ensures Acyclic(d) ==> Partial(d, f, after) && (changed ==> bound > 0 && Below(d, after, bound - 1))
    ensures HoldsCycle(d, names) ==> changed && HoldsCycle(d, after)
  {
    hide Partial, FamiliesBelow, Reaches, HoldsCycle;
    ghost var finite := Acyclic(d);
    after, changed := names, false;
    var seen := names;
    while seen != {}
      invariant seen <= names && seen <= after
      invariant finite ==> Partial(d, f, after)
      invariant changed <==> HasFamily(d, names - seen)
      invariant !changed ==> after == names
      invariant finite && changed ==> bound > 0
      invariant finite ==>
                  forall g :: g in after && g in d ==> g in seen || (bound > 0 && |FamiliesBelow(d, g)| < bound - 1)
      invariant HoldsCycle(d, names) ==> HoldsCycle(d, after)
      decreases |seen|
    {
      var name :| name in seen;
      seen := seen - {name};
      if name in d {
        changed := true;
        assert name in names - seen;
        if finite {
          ReplacePartial(d, f, after, name);
          forall g | g in d[name] && g in d ensures |FamiliesBelow(d, g)| < bound - 1 {
            BelowShrinks(d, name, g);
          }
        }
        if HoldsCycle(d, after) {
          CycleStays(d, after, name);
        }
        after := after - {name} + d[name];
      }
    }
    if finite && changed {
      assert Below(d, after, bound - 1);
    }
    if HoldsCycle(d, names) {
      CycleHasFamily(d, names);
    }
  }

  // One pass over all the families, in any order.  With a family below itself,
  // a set that holds such a family still does after any pass, and the pass
  // reports a change: then, and only then, the passes do not end.
  method Iter(d: Descendants, lookup: Descendants, ghost bound: nat) returns (after: Descendants, changed: bool)
    requires lookup.Keys == d.Keys && (Acyclic(d) ==> AllPartial(d, lookup, bound))
    ensures after.Keys == lookup.Keys
    ensures Acyclic(d) && changed ==> bound > 0 && AllPartial(d, after, bound - 1)
    ensures forall f :: f in lookup && HoldsCycle(d, lookup[f]) ==> changed && HoldsCycle(d, after[f])
    ensures !changed ==> after == lookup && forall f :: f in lookup ==> !HasFamily(d, lookup[f])
  {
    hide Partial, Below, Reaches, Acyclic, HasFamily, HoldsCycle;
    ghost var finite := Acyclic(d);
    after, changed := lookup, false;
    var todo := lookup.Keys;
    while todo != {}
      invariant todo <= lookup.Keys && after.Keys == lookup.Keys
      invariant forall f :: f in todo ==> after[f] == lookup[f]
      invariant finite ==> forall f :: f in lookup ==> Partial(d, f, after[f])
      invariant finite && changed ==> bound > 0
      invariant forall f :: f in lookup && f !in todo ==>
                  if HasFamily(d, lookup[f]) then changed && (finite ==> Below(d, after[f], bound - 1))
                  else after[f] == lookup[f]
      invariant forall f :: f in lookup && f !in todo && HoldsCycle(d, lookup[f]) ==> changed && HoldsCycle(d, after[f])
      invariant !changed ==> after == lookup
      decreases |todo|
    {
      var f :| f in todo;
      var names, altered := ExpandOnce(d, f, after[f], bound);
      after := after[f := names];
      changed := changed || altered;
      todo := todo - {f};
    }
    if finite && changed {
      forall f | f in lookup ensures Below(d, after[f], bound - 1) {
        if !HasFamily(d, lookup[f]) {
          NoFamilyBelow(d, lookup[f], bound - 1);
        }
      }
    }
  }

  // Every family mapped to exactly the tasks it contains, at any depth, whatever
  // the order in which the sets are gone through.
  method GetFamilyLookup(d: Descendants) returns (lookup: Descendants)
    requires Acyclic(d)
    ensures lookup.Keys == d.Keys
    ensures forall f :: f in d ==> forall n :: n in lookup[f] <==> Contains(d, f, n)
  {
    hide Partial, Below, Reaches, Acyclic, Contains, HasFamily;
    lookup := d;
    ghost var bound: nat := |d.Keys| + 1;
    forall f | f in d ensures Partial(d, f, d[f]) && Below(d, d[f], bound) {
      StartPartial(d, f);
    }
    var changed := true;
    while changed
      invariant AllPartial(d, lookup, bound)
      invariant !changed ==> forall f :: f in lookup ==> !HasFamily(d, lookup[f])
      decreases changed, bound
    {
      lookup, changed := Iter(d, lookup, bound);
      if changed {
        bound := bound - 1;
      }
    }
    forall f | f in d ensures forall n :: n in lookup[f] <==> Contains(d, f, n) {
      NoFamilyLeft(d, f, lookup[f]);
    }
  }
}
