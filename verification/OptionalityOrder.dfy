// When the order in which outputs are declared does not matter (graph_parser.py).

module OptionalityOrder {
  import opened GraphTerms
  import opened OutputOptionality

  // Whether calls are accepted can hang on their order once families are
  // involved: the first value of a row is remembered and checked again later.
  // Here a graph is rejected in one order of its lines and accepted in another.

  const FAMILY_REQUIRES := Call("a", Builtin(Succeeded), false, false, true)
  const TASK_ALLOWS := Call("a", Builtin(Succeeded), true, false, false)
  const FAMILY_FAILS := Call("a", Builtin(Failed), true, false, true)

  ghost function Settled(first: bool): Table {
    map[("a", Builtin(Succeeded)) := Entry(true, first, true)]
  }

  lemma AfterTwo(first: bool)
    ensures Run(if first then [TASK_ALLOWS, FAMILY_REQUIRES] else [FAMILY_REQUIRES, TASK_ALLOWS])
            == Outcome(Settled(first), true)
  {
    var (a, b) := if first then (TASK_ALLOWS, FAMILY_REQUIRES) else (FAMILY_REQUIRES, TASK_ALLOWS);
    assert [a, b][..1] == [a] && [a][..0] == [];
    OneClaim(map[], Claims(a)[0]);
    var t := MakeClaim(map[], Claims(a)[0]).table;
    assert Run([a]) == Outcome(t, true);
    OneClaim(t, Claims(b)[0]);
  }

  lemma ThenFails(first: bool)
    ensures SetOutputOpt(Settled(first), FAMILY_FAILS).ok == first
  {
    OneClaim(Settled(first), Claims(FAMILY_FAILS)[0]);
  }

  lemma AcceptanceHangsOnOrder()
    ensures !Run([FAMILY_REQUIRES, TASK_ALLOWS, FAMILY_FAILS]).ok
    ensures Run([TASK_ALLOWS, FAMILY_REQUIRES, FAMILY_FAILS]).ok
  {
    AfterTwo(false);
    AfterTwo(true);
    ThenFails(false);
    ThenFails(true);
    hide SetOutputOpt, Settled;
    assert [FAMILY_REQUIRES, TASK_ALLOWS, FAMILY_FAILS][..2] == [FAMILY_REQUIRES, TASK_ALLOWS];
    assert [TASK_ALLOWS, FAMILY_REQUIRES, FAMILY_FAILS][..2] == [TASK_ALLOWS, FAMILY_REQUIRES];
  }

  // A required family default on success is not held against the task's own
  // finish trigger, which makes success optional before it speaks of failure.
  predicate Spared(c: Claim, k: Call) {
    c.member && c.output == Builtin(Succeeded) && k.output == Builtin(Finished) && !k.member
  }

  // What the calls must say, taken together, for every order to be accepted.
  ghost predicate OrderFree(calls: seq<Call>) {
    && (forall k :: k in calls ==> !OptionalFinish(k))
    && (forall c :: c in AllMade(calls) && MustBeOptional(c.output) ==> c.optional)
    && (forall c, d :: c in AllMade(calls) && d in AllMade(calls) && c.Key() == d.Key() && c.member == d.member ==>
         c.optional == d.optional)
    && (forall c, k, d :: c in AllMade(calls) && k in calls && d in Claims(k) && Opposed(c, d) ==>
         c.optional || Spared(c, k))
  }

  // It is enough.

  // The first value of a row came from one of the claims on it.
  ghost predicate DefaultTold(claims: set<Claim>, t: Table) {
    forall k :: k in t && !t[k].default ==> exists c :: c in claims && c.Key() == k && !c.optional
  }

  lemma ClaimTold(claims: set<Claim>, t: Table, c: Claim)
    requires DefaultTold(claims, t)
    ensures DefaultTold(claims + {c}, MakeClaim(t, c).table)
  {
    hide OpposedRight;
    var u := MakeClaim(t, c).table;
    forall k | k in u && !u[k].default ensures exists d :: d in claims + {c} && d.Key() == k && !d.optional {
      if k in t && !t[k].default {
        var d :| d in claims && d.Key() == k && !d.optional;
        assert d in claims + {c};
      } else {
        assert c in claims + {c};
      }
    }
  }

  // The claims on one row say optional: the task's own, and all of them if need be.
  ghost predicate OptionalSide(claims: set<Claim>, key: Key, all: bool) {
    && (forall e :: e in claims && e.Key() == key && !e.member ==> e.optional)
    && ((all || !exists e :: e in claims && e.Key() == key && !e.member) ==>
         forall e :: e in claims && e.Key() == key ==> e.optional)
  }

  ghost predicate Unopposed(claims: set<Claim>, c: Claim) {
    forall d :: d in claims && Opposed(c, d) ==>
      OptionalSide(claims + {c}, c.Key(), false) && OptionalSide(claims, d.Key(), c.member)
  }

  ghost predicate Fitting(claims: set<Claim>, c: Claim) {
    && (MustBeOptional(c.output) ==> c.optional)
    && (forall d :: d in claims && d.Key() == c.Key() && d.member == c.member ==> d.optional == c.optional)
  }

  lemma EnterAccepted(claims: set<Claim>, t: Table, c: Claim)
    requires Sound(t) && Describes(claims, t) && Fitting(claims, c)
    ensures Enter(t, c).ok
  {
    if c.Key() in t {
      var e := t[c.Key()];
      if e.settled && !c.member {
        var d :| d in claims && d.Key() == c.Key() && !d.member;
      } else if !e.settled && c.member {
        var d :| d in claims && d.Key() == c.Key();
      }
    }
  }

  // What a row has when its claims say optional.
  lemma RowOptional(claims: set<Claim>, t: Table, key: Key, all: bool)
    requires Sound(t) && Describes(claims, t) && DefaultTold(claims, t) && key in t
    requires OptionalSide(claims, key, all)
    ensures t[key].optional && (all || !t[key].settled ==> t[key].default)
  {
    if t[key].settled {
      var d :| d in claims && d.Key() == key && !d.member;
    } else {
      var d :| d in claims && d.Key() == key;
    }
  }

  lemma EnteredOptional(claims: set<Claim>, t: Table, c: Claim)
    requires Sound(t) && Describes(claims, t) && OptionalSide(claims + {c}, c.Key(), false)
    ensures Enter(t, c).ok ==> Enter(t, c).table[c.Key()].optional
  {
    assert c in claims + {c};
    if Enter(t, c).ok && c.Key() in t {
      if t[c.Key()].settled {
        var d :| d in claims && d.Key() == c.Key() && !d.member;
        assert d in claims + {c};
      } else if c.member {
        var d :| d in claims && d.Key() == c.Key();
        assert d in claims + {c};
        assert forall e :: e in claims + {c} && e.Key() == c.Key() ==> e.member;
      }
    } else if c.Key() !in t && c.member {
      assert forall e :: e in claims + {c} && e.Key() == c.Key() ==> e.member;
    }
  }

  lemma FittingAccepted(claims: set<Claim>, t: Table, c: Claim)
    requires Sound(t) && Describes(claims, t) && DefaultTold(claims, t)
    requires Fitting(claims, c) && Unopposed(claims, c)
    ensures MakeClaim(t, c).ok
  {
    EnterAccepted(claims, t, c);
    if HasOpposite(c.output) && (c.name, Opposite(c.output)) in t {
      var d :| d in claims && d.Key() == (c.name, Opposite(c.output));
      assert Opposed(c, d);
      RowOptional(claims, t, d.Key(), c.member);
      EnteredOptional(claims, t, c);
      hide Describes, DefaultTold, OptionalSide, Sound;
    }
  }

  // The claims made before the i-th claim of the last call.
  ghost function MadeBefore(calls: seq<Call>, k: Call, i: nat): set<Claim>
    requires i <= |Claims(k)|
  {
    AllMade(calls) + Made(Claims(k)[..i])
  }

  // Each of them is part of some call; with a finish trigger's claim about
  // failure there is its claim about success.
  lemma CameFrom(calls: seq<Call>, k: Call, i: nat, d: Claim) returns (from: Call)
    requires i < |Claims(k)| && d in MadeBefore(calls, k, i)
    ensures from in calls + [k] && d in Claims(from)
    ensures from.output == Builtin(Finished) && d.output == Builtin(Failed) ==>
              Claim(from.name, Builtin(Succeeded), true, from.member) in MadeBefore(calls, k, i)
  {
    if d in AllMade(calls) {
      from :| from in calls && d in Claims(from);
      if from.output == Builtin(Finished) {
        assert Claims(from)[0] in Claims(from);
      }
    } else {
      from := k;
      assert d in Claims(k)[..i];
    }
  }

  lemma MadeBeforeIn(calls: seq<Call>, k: Call, i: nat)
    requires i < |Claims(k)|
    ensures MadeBefore(calls, k, i) + {Claims(k)[i]} <= AllMade(calls + [k])
    ensures MadeBefore(calls, k, i) + {Claims(k)[i]} == MadeBefore(calls, k, i + 1)
  {
    assert Claims(k)[..i + 1] == Claims(k)[..i] + [Claims(k)[i]];
    forall c | c in MadeBefore(calls, k, i + 1) ensures c in AllMade(calls + [k]) {
      if c in AllMade(calls) {
        var from :| from in calls && c in Claims(from);
        assert from in calls + [k];
      } else {
        assert c in Claims(k) && k in calls + [k];
      }
    }
  }

  // Claims that are optional unless spared are so where the finish trigger that
  // spares them has had its say about success.
  lemma SideOptional(claims: set<Claim>, key: Key, all: bool, k: Call)
    requires forall e :: e in claims && e.Key() == key ==> e.optional || Spared(e, k)
    requires all ==> k.member
    requires (exists e :: e in claims && e.Key() == key && Spared(e, k)) ==>
               Claim(key.0, Builtin(Succeeded), true, k.member) in claims
    ensures OptionalSide(claims, key, all)
  {
    if e :| e in claims && e.Key() == key && !e.optional {
      var success := Claim(key.0, Builtin(Succeeded), true, k.member);
      assert success in claims && success.Key() == key && !success.member;
    }
  }

  lemma StageUnopposed(calls: seq<Call>, k: Call, i: nat, d: Claim)
    requires i < |Claims(k)| && OrderFree(calls + [k])
    requires d in MadeBefore(calls, k, i) && Opposed(Claims(k)[i], d)
    ensures OptionalSide(MadeBefore(calls, k, i) + {Claims(k)[i]}, Claims(k)[i].Key(), false)
    ensures OptionalSide(MadeBefore(calls, k, i), d.Key(), Claims(k)[i].member)
  {
    OwnSide(calls, k, i, d);
    OtherSide(calls, k, i, d);
  }

  lemma OpposedBack(c: Claim, d: Claim, e: Claim)
    requires Opposed(c, d)
    ensures e.Key() == c.Key() ==> Opposed(e, d)
    ensures e.Key() == d.Key() ==> Opposed(e, c)
    ensures c.name == d.name
    ensures c.output == Builtin(Succeeded) <==> d.output == Builtin(Failed)
    ensures d.output == Builtin(Succeeded) <==> c.output == Builtin(Failed)
  {
  }

  lemma OwnSide(calls: seq<Call>, k: Call, i: nat, d: Claim)
    requires i < |Claims(k)| && OrderFree(calls + [k])
    requires d in MadeBefore(calls, k, i) && Opposed(Claims(k)[i], d)
    ensures OptionalSide(MadeBefore(calls, k, i) + {Claims(k)[i]}, Claims(k)[i].Key(), false)
  {
    var c, before, all := Claims(k)[i], MadeBefore(calls, k, i), AllMade(calls + [k]);
    MadeBeforeIn(calls, k, i);
    var from := CameFrom(calls, k, i, d);
    ClaimNames(from, d);
    OpposedBack(c, d, c);
    hide AllMade, MadeBefore, Claims, Opposed, MustBeOptional, OptionalSide;
    forall e | e in before + {c} && e.Key() == c.Key() ensures e.optional || Spared(e, from) {
      OpposedBack(c, d, e);
      assert e in all;
    }
    SideOptional(before + {c}, c.Key(), false, from);
  }

  lemma OtherSide(calls: seq<Call>, k: Call, i: nat, d: Claim)
    requires i < |Claims(k)| && OrderFree(calls + [k])
    requires d in MadeBefore(calls, k, i) && Opposed(Claims(k)[i], d)
    ensures OptionalSide(MadeBefore(calls, k, i), d.Key(), Claims(k)[i].member)
  {
    var c, before, all := Claims(k)[i], MadeBefore(calls, k, i), AllMade(calls + [k]);
    MadeBeforeIn(calls, k, i);
    assert c in Claims(k) && k in calls + [k];
    ClaimNames(k, c);
    OpposedBack(c, d, d);
    if k.output == Builtin(Finished) && c.output == Builtin(Failed) {
      FinishInOrder(calls, k, i);
    }
    hide AllMade, MadeBefore, Claims, Opposed, MustBeOptional, OptionalSide;
    forall e | e in before && e.Key() == d.Key() ensures e.optional || Spared(e, k) {
      OpposedBack(c, d, e);
      assert e in all;
    }
    SideOptional(before, d.Key(), c.member, k);
  }

  lemma ClaimNames(k: Call, c: Claim)
    requires c in Claims(k)
    ensures c.name == k.name && c.member == k.member
  {
  }

  lemma FinishInOrder(calls: seq<Call>, k: Call, i: nat)
    requires i < |Claims(k)| && k.output == Builtin(Finished) && Claims(k)[i].output == Builtin(Failed)
    ensures Claim(k.name, Builtin(Succeeded), true, k.member) in MadeBefore(calls, k, i)
  {
    assert i == 1 && Claims(k)[..1][0] == Claims(k)[0];
  }

  lemma StageFits(calls: seq<Call>, k: Call, i: nat)
    requires i < |Claims(k)| && OrderFree(calls + [k])
    ensures Fitting(MadeBefore(calls, k, i), Claims(k)[i])
    ensures Unopposed(MadeBefore(calls, k, i), Claims(k)[i])
  {
    MadeBeforeIn(calls, k, i);
    hide OptionalSide, MadeBefore;
    forall d | d in MadeBefore(calls, k, i) && Opposed(Claims(k)[i], d)
      ensures OptionalSide(MadeBefore(calls, k, i) + {Claims(k)[i]}, Claims(k)[i].Key(), false)
      ensures OptionalSide(MadeBefore(calls, k, i), d.Key(), Claims(k)[i].member)
    {
      StageUnopposed(calls, k, i, d);
    }
  }

  lemma {:induction false} StagesAccepted(calls: seq<Call>, k: Call, i: nat, t: Table)
    requires i <= |Claims(k)| && OrderFree(calls + [k])
    requires Sound(t) && Describes(MadeBefore(calls, k, i), t) && DefaultTold(MadeBefore(calls, k, i), t)
    ensures MakeClaims(t, Claims(k)[i..]).ok
    ensures DefaultTold(MadeBefore(calls, k, |Claims(k)|), MakeClaims(t, Claims(k)[i..]).table)
    decreases |Claims(k)| - i
  {
    hide OrderFree, Sound, Describes, DefaultTold, MadeBefore, MakeClaim, Fitting, Unopposed;
    if i < |Claims(k)| {
      var c, before := Claims(k)[i], MadeBefore(calls, k, i);
      StageFits(calls, k, i);
      FittingAccepted(before, t, c);
      ClaimSound(t, c);
      ClaimDescribed(before, t, c);
      ClaimTold(before, t, c);
      MadeBeforeIn(calls, k, i);
      assert Claims(k)[i..][1..] == Claims(k)[i + 1..];
      StagesAccepted(calls, k, i + 1, MakeClaim(t, c).table);
    }
  }

  lemma OrderFreeBefore(calls: seq<Call>)
    requires calls != [] && OrderFree(calls)
    ensures OrderFree(calls[..|calls| - 1])
  {
    AllMadeSplit(calls);
    hide Claims, AllMade, Made;
    assert forall k :: k in calls[..|calls| - 1] ==> k in calls;
  }

  lemma {:induction false} OrderFreeAccepted(calls: seq<Call>)
    requires OrderFree(calls)
    ensures Run(calls).ok && DefaultTold(AllMade(calls), Run(calls).table)
  {
    if calls != [] {
      var before, k := calls[..|calls| - 1], calls[|calls| - 1];
      OrderFreeBefore(calls);
      OrderFreeAccepted(before);
      RunSound(before);
      RunDescribed(before);
      assert calls == before + [k];
      assert !OptionalFinish(k);
      AllMadeSplit(calls);
      AllMadeIs(before, k);
      hide OrderFree, Sound, Describes, DefaultTold, MadeBefore, AllMade;
      StagesAccepted(before, k, 0, Run(before).table);
      assert Claims(k)[0..] == Claims(k);
    }
  }

  lemma AllMadeIs(calls: seq<Call>, k: Call)
    ensures MadeBefore(calls, k, 0) == AllMade(calls)
    ensures MadeBefore(calls, k, |Claims(k)|) == AllMade(calls) + Made(Claims(k))
  {
    assert Claims(k)[..|Claims(k)|] == Claims(k);
  }

  // And it is needed: two calls that break it are rejected when they come first.

  ghost predicate AnyOrderAccepted(calls: seq<Call>) {
    forall others :: multiset(others) == multiset(calls) ==> Run(others).ok
  }

  lemma PutFirst(calls: seq<Call>, a: Call) returns (rest: seq<Call>)
    requires a in calls
    ensures multiset([a] + rest) == multiset(calls)
    ensures forall b :: b in calls && b != a ==> b in rest
  {
    var i :| 0 <= i < |calls| && calls[i] == a;
    rest := calls[..i] + calls[i + 1..];
    assert calls == calls[..i] + [calls[i]] + calls[i + 1..];
  }

  lemma FirstAccepted(calls: seq<Call>, a: Call)
    requires AnyOrderAccepted(calls) && a in calls
    ensures SetOutputOpt(map[], a).ok
  {
    var rest := PutFirst(calls, a);
    RunPrefix([a], rest);
    assert [a][..0] == [];
  }

  lemma FirstTwoAccepted(calls: seq<Call>, a: Call, b: Call)
    requires AnyOrderAccepted(calls) && a in calls && b in calls && a != b
    ensures SetOutputOpt(map[], a).ok && SetOutputOpt(SetOutputOpt(map[], a).table, b).ok
  {
    var rest := PutFirst(calls, a);
    var others := PutFirst(rest, b);
    assert multiset([a, b] + others) == multiset(calls) by {
      assert [a, b] + others == [a] + ([b] + others);
      assert multiset([a] + ([b] + others)) == multiset([a]) + multiset([b] + others);
      assert multiset([a] + rest) == multiset([a]) + multiset(rest);
    }
    RunPrefix([a, b], others);
    assert [a, b][..1] == [a] && [a][..0] == [];
    assert Run([a]) == SetOutputOpt(map[], a);
    assert Run([a, b]) == if Run([a]).ok then SetOutputOpt(Run([a]).table, b) else Run([a]);
  }

  // The row that a claim leaves in an empty table.
  function NewRow(c: Claim): Entry {
    Entry(c.optional, c.optional, !c.member)
  }

  lemma FirstCall(a: Call, c: Claim)
    requires SetOutputOpt(map[], a).ok && c in Claims(a)
    ensures var t := SetOutputOpt(map[], a).table;
            c.Key() in t && t[c.Key()] == NewRow(c)
    ensures MustBeOptional(c.output) ==> c.optional
    ensures |Claims(a)| == 1 ==> SetOutputOpt(map[], a).table == map[c.Key() := NewRow(c)]
  {
    OneClaim(map[], Claims(a)[0]);
    if |Claims(a)| == 2 {
      assert Claims(a)[1..] == [Claims(a)[1]];
      OneClaim(MakeClaim(map[], Claims(a)[0]).table, Claims(a)[1]);
    }
  }

  lemma SameKeyAgree(a: Call, b: Call, c: Claim, d: Claim)
    requires SetOutputOpt(map[], a).ok && SetOutputOpt(SetOutputOpt(map[], a).table, b).ok
    requires c in Claims(a) && d in Claims(b) && c.Key() == d.Key() && c.member == d.member
    ensures c.optional == d.optional
  {
    FirstCall(a, c);
    var t := SetOutputOpt(map[], a).table;
    OneClaim(t, Claims(b)[0]);
    if |Claims(b)| == 2 {
      var u := MakeClaim(t, Claims(b)[0]).table;
      assert Claims(b)[1..] == [Claims(b)[1]];
      OneClaim(u, Claims(b)[1]);
    }
  }

  lemma OppositesAgree(a: Call, b: Call, c: Claim, d: Claim)
    requires SetOutputOpt(map[], a).ok && SetOutputOpt(SetOutputOpt(map[], a).table, b).ok
    requires c in Claims(a) && d in Claims(b) && Opposed(c, d) && |Claims(a)| == 1
    ensures c.optional || Spared(c, b)
  {
    FirstCall(a, c);
    var t := SetOutputOpt(map[], a).table;
    assert Opposed(d, c);
    OneClaim(t, Claims(b)[0]);
    if |Claims(b)| == 2 {
      var u := MakeClaim(t, Claims(b)[0]).table;
      assert Claims(b)[1..] == [Claims(b)[1]];
      OneClaim(u, Claims(b)[1]);
    }
  }

  lemma OrderFreeNeeded(calls: seq<Call>)
    requires AnyOrderAccepted(calls)
    ensures OrderFree(calls)
  {
    hide AnyOrderAccepted, SetOutputOpt, Claims, MustBeOptional, Opposed, Spared;
    forall k | k in calls ensures !OptionalFinish(k) {
      FirstAccepted(calls, k);
      AcceptedFinish(k);
    }
    forall c | c in AllMade(calls) && MustBeOptional(c.output) ensures c.optional {
      var a :| a in calls && c in Claims(a);
      FirstAccepted(calls, a);
      FirstCall(a, c);
    }
    forall c, d | c in AllMade(calls) && d in AllMade(calls) && c.Key() == d.Key() && c.member == d.member
      ensures c.optional == d.optional
    {
      var a :| a in calls && c in Claims(a);
      var b :| b in calls && d in Claims(b);
      if a == b {
        OneClaimEach(a, c, d);
      } else {
        FirstTwoAccepted(calls, a, b);
        SameKeyAgree(a, b, c, d);
      }
    }
    forall c, b, d | c in AllMade(calls) && b in calls && d in Claims(b) && Opposed(c, d)
      ensures c.optional || Spared(c, b)
    {
      var a :| a in calls && c in Claims(a);
      FinishOptional(a, c, d);
      if !c.optional {
        FirstTwoAccepted(calls, a, b);
        OppositesAgree(a, b, c, d);
      }
    }
  }

  lemma AcceptedFinish(k: Call)
    requires SetOutputOpt(map[], k).ok
    ensures !OptionalFinish(k)
  {
  }

  lemma OneClaimEach(a: Call, c: Claim, d: Claim)
    requires c in Claims(a) && d in Claims(a) && c.Key() == d.Key()
    ensures c == d
  {
  }

  lemma FinishOptional(a: Call, c: Claim, d: Claim)
    requires c in Claims(a) && Opposed(c, d)
    ensures c.optional || (|Claims(a)| == 1 && d !in Claims(a))
  {
  }

  // The calls are accepted in every order exactly when they are order-free.
  lemma AcceptedInAnyOrderIff(calls: seq<Call>)
    ensures AnyOrderAccepted(calls) <==> OrderFree(calls)
  {
    if OrderFree(calls) {
      forall others | multiset(others) == multiset(calls) ensures Run(others).ok {
        SameCallsOrderFree(calls, others);
        OrderFreeAccepted(others);
      }
    }
    if AnyOrderAccepted(calls) {
      OrderFreeNeeded(calls);
    }
  }

  lemma SameCallsOrderFree(calls: seq<Call>, others: seq<Call>)
    requires multiset(others) == multiset(calls) && OrderFree(calls)
    ensures OrderFree(others)
  {
    SameCallsSameClaims(calls, others);
    forall k ensures k in calls <==> k in others {
      assert k in multiset(calls) <==> k in multiset(others);
    }
    hide AllMade, Claims;
  }
}
