// What the right sides of a graph say about outputs, and what table that makes
// (graph_parser.py: _compute_triggers, _set_output_opt).

module GraphOutputs {
  import opened GraphExpressions
  import opened GraphTerms
  import opened GraphTriggers
  import OO = OutputOptionality

  // What one right-hand node says of each of its tasks, read off the node.

  // An output and its optionality.  A finish qualifier is about success and
  // failure, both optional; a node with no qualifier is about success, but a
  // family only if nothing is on its left, and a task at the end of a chain only
  // if it is marked optional.
  ghost predicate SaysOutput(fm: Families, ends: set<Node>, n: Node, hasLeft: bool, output: Trigger, optional: bool)
    requires n.Task?
  {
    var family := n.name in fm;
    match n.trigger
    case None =>
      && output == Builtin(Succeeded) && optional == n.optional
      && (!hasLeft || (!family && (n.optional || n !in ends)))
    case Some(t) =>
      if t == Builtin(Finished) || t == Short(Finished) || (family && t.Family? && t.status == Finished) then
        (output == Builtin(Succeeded) || output == Builtin(Failed)) && optional
      else
        && optional == n.optional
        && output == if t.Short? || (family && t.Family?) then Builtin(t.status) else t
  }

  // A suicide trigger says nothing but that its task can expire, where expiry is used.
  ghost predicate Says(fm: Families, ends: set<Node>, expire: bool, n: Node, hasLeft: bool, c: OO.Claim) {
    && n.Task?
    && (if n.name in fm then c.name in fm[n.name] else c.name == n.name)
    && if n.suicide then
         expire && n.offset == "" && c.output == Builtin(Expired) && c.optional && !c.member
       else
         c.member == (n.name in fm) && SaysOutput(fm, ends, n, hasLeft, c.output, c.optional)
  }

  ghost predicate Said(fm: Families, ends: set<Node>, expire: bool, pairs: seq<Pair>, c: OO.Claim) {
    exists p, n :: p in pairs && n in Leaves(p.right) && Says(fm, ends, expire, n, p.left.Some?, c)
  }

  // The table tells what the graph says: it has a row for each output spoken
  // of, fixed if a task speaks of it itself, and then as the task says, else as
  // the families do.
  ghost predicate Tells(fm: Families, ends: set<Node>, expire: bool, pairs: seq<Pair>, t: OO.Table) {
    && (forall c :: Said(fm, ends, expire, pairs, c) ==>
          && c.Key() in t
          && (!c.member ==> t[c.Key()].settled)
          && ((c.member ==> !t[c.Key()].settled) ==> c.optional == t[c.Key()].optional))
    && (forall k :: k in t ==>
          exists c :: Said(fm, ends, expire, pairs, c) && c.Key() == k && (t[k].settled ==> !c.member))
  }

  // The calls make these claims.

  lemma MadeJoin(calls: seq<OO.Call>, more: seq<OO.Call>, c: OO.Claim)
    ensures c in OO.AllMade(calls + more) <==> c in OO.AllMade(calls) || c in OO.AllMade(more)
  {
    if c in OO.AllMade(calls + more) {
      var k :| k in calls + more && c in OO.Claims(k);
      assert k in calls || k in more;
    }
    if k :| k in calls && c in OO.Claims(k) { assert k in calls + more; }
    if k :| k in more && c in OO.Claims(k) { assert k in calls + more; }
  }

  lemma MadeOne(k: OO.Call, c: OO.Claim)
    ensures c in OO.AllMade([k]) <==> c in OO.Claims(k)
  {
    assert k in [k];
  }

  ghost predicate ClaimsOutput(name: string, o: Trigger, optional: bool, suicide: bool, member: bool, c: OO.Claim) {
    && !suicide && c.name == name && c.member == member
    && if o == Builtin(Finished) then (c.output == Builtin(Succeeded) || c.output == Builtin(Failed)) && c.optional
       else c.output == o && c.optional == optional
  }

  lemma CallClaims(name: string, o: Trigger, optional: bool, suicide: bool, member: bool, c: OO.Claim)
    ensures c in OO.Claims(OO.Call(name, o, optional, suicide, member)) <==>
            ClaimsOutput(name, o, optional, suicide, member, c)
  {
    var cs := OO.Claims(OO.Call(name, o, optional, suicide, member));
    if |cs| == 2 { assert cs == [cs[0], cs[1]]; }
  }

  lemma {:induction false} OutputsClaim(name: string, outputs: seq<Trigger>, optional: bool, suicide: bool, member: bool,
                                        c: OO.Claim)
    ensures c in OO.AllMade(OutputCalls(name, outputs, optional, suicide, member)) <==>
            exists o :: o in outputs && ClaimsOutput(name, o, optional, suicide, member, c)
    decreases |outputs|
  {
    if outputs != [] {
      var before, o := outputs[..|outputs| - 1], outputs[|outputs| - 1];
      OutputsClaim(name, before, optional, suicide, member, c);
      var k := OO.Call(name, o, optional, suicide, member);
      MadeJoin(OutputCalls(name, before, optional, suicide, member), [k], c);
      MadeOne(k, c);
      CallClaims(name, o, optional, suicide, member, c);
      hide ClaimsOutput;
      assert outputs == before + [o];
    }
  }

  lemma ExpiryClaims(expire: bool, suicide: bool, name: string, c: OO.Claim)
    ensures c in OO.AllMade(ExpireCalls(expire, suicide, name)) <==>
            suicide && expire && c == OO.Claim(name, Builtin(Expired), true, false)
  {
    var k := OO.Call(name, Builtin(Expired), true, false, false);
    MadeOne(k, c);
  }

  ghost predicate MemberSays(expire: bool, n: Node, said: (seq<Trigger>, bool), member: bool, name: string, c: OO.Claim)
    requires n.Task?
  {
    || (n.suicide && n.offset == "" && expire && c == OO.Claim(name, Builtin(Expired), true, false))
    || (exists o :: o in said.0 && ClaimsOutput(name, o, said.1, n.suicide, member, c))
  }

  lemma {:induction false} RightClaims(expire: bool, n: Node, members: seq<string>, said: (seq<Trigger>, bool),
                                       member: bool, c: OO.Claim)
    requires n.Task?
    ensures c in OO.AllMade(RightCalls(expire, n, members, said, member)) <==>
            exists m :: m in members && MemberSays(expire, n, said, member, m, c)
    decreases |members|
  {
    if members != [] {
      var before, last := members[..|members| - 1], members[|members| - 1];
      RightClaims(expire, n, before, said, member, c);
      var calls := RightCalls(expire, n, before, said, member);
      LastClaims(expire, n, calls, last, said, member, c);
      assert RightCalls(expire, n, members, said, member) ==
             calls + ExpireCalls(expire, n.suicide && n.offset == "", last)
             + OutputCalls(last, said.0, said.1, n.suicide, member);
      hide *;
      assert members == before + [last];
    }
  }

  lemma LastClaims(expire: bool, n: Node, calls: seq<OO.Call>, last: string, said: (seq<Trigger>, bool), member: bool,
                   c: OO.Claim)
    requires n.Task?
    ensures c in OO.AllMade(calls + ExpireCalls(expire, n.suicide && n.offset == "", last)
                            + OutputCalls(last, said.0, said.1, n.suicide, member)) <==>
            c in OO.AllMade(calls) || MemberSays(expire, n, said, member, last, c)
  {
    var expiry := ExpireCalls(expire, n.suicide && n.offset == "", last);
    var outputs := OutputCalls(last, said.0, said.1, n.suicide, member);
    ExpiryClaims(expire, n.suicide && n.offset == "", last, c);
    OutputsClaim(last, said.0, said.1, n.suicide, member, c);
    MadeJoin(calls, expiry, c);
    MadeJoin(calls + expiry, outputs, c);
    hide OO.AllMade, ExpireCalls, OutputCalls, ClaimsOutput;
  }

  // The node's calls claim what it says.
  lemma NodeClaims(fm: Families, ends: set<Node>, expire: bool, n: Node, hasLeft: bool, c: OO.Claim)
    requires RightOutputs(fm, ends, n, hasLeft).Some?
    ensures c in OO.AllMade(CallsOfRight(fm, ends, expire, n, hasLeft)) <==> Says(fm, ends, expire, n, hasLeft, c)
  {
    var said := RightOutputs(fm, ends, n, hasLeft).value;
    var member := n.name in fm;
    RightClaims(expire, n, RightMembers(fm, n.name), said, member, c);
    RightMembersAre(fm, n.name, c.name);
    SaidOutputs(fm, ends, n, hasLeft, c.output, c.optional);
    hide RightCalls, RightOutputs, RightMembers, SaysOutput;
    if m :| m in RightMembers(fm, n.name) && MemberSays(expire, n, said, member, m, c) {
      assert m == c.name;
    }
    if Says(fm, ends, expire, n, hasLeft, c) {
      assert MemberSays(expire, n, said, member, c.name, c);
    }
  }

  lemma SaidOutputs(fm: Families, ends: set<Node>, n: Node, hasLeft: bool, output: Trigger, optional: bool)
    requires RightOutputs(fm, ends, n, hasLeft).Some?
    ensures n.Task?
    ensures var said := RightOutputs(fm, ends, n, hasLeft).value;
            SaysOutput(fm, ends, n, hasLeft, output, optional) <==>
            exists o :: o in said.0 &&
              if o == Builtin(Finished) then (output == Builtin(Succeeded) || output == Builtin(Failed)) && optional
              else output == o && optional == said.1
  {
    var outputs := RightOutputs(fm, ends, n, hasLeft).value.0;
    assert |outputs| <= 2;
    assert |outputs| == 1 ==> outputs == [outputs[0]];
    assert |outputs| == 2 ==> outputs == [outputs[0], outputs[1]];
    match n.trigger
    case None => if outputs != [] { assert outputs[0] in outputs; }
    case Some(t) =>
      if n.name in fm {
        assert t.Family?;
        if t.status == Finished {
          assert outputs[0] == Builtin(Succeeded) && outputs[1] == Builtin(Failed);
          assert outputs[0] in outputs && outputs[1] in outputs;
        } else {
          assert outputs[0] in outputs;
        }
      } else {
        assert outputs[0] in outputs;
      }
  }

  lemma {:induction false} RightsClaim(fm: Families, ends: set<Node>, expire: bool, rights: seq<Node>, hasLeft: bool,
                                       c: OO.Claim)
    requires LegalRights(fm, ends, rights, hasLeft)
    ensures c in OO.AllMade(AllRightCalls(fm, ends, expire, rights, hasLeft)) <==>
            exists n :: n in rights && Says(fm, ends, expire, n, hasLeft, c)
    decreases |rights|
  {
    hide Says, RightOutputs, CallsOfRight;
    if rights != [] {
      var before, last := rights[..|rights| - 1], rights[|rights| - 1];
      RightsClaim(fm, ends, expire, before, hasLeft, c);
      NodeClaims(fm, ends, expire, last, hasLeft, c);
      MadeJoin(AllRightCalls(fm, ends, expire, before, hasLeft), CallsOfRight(fm, ends, expire, last, hasLeft), c);
      hide OO.AllMade;
      assert rights == before + [last];
      assert forall n :: n in rights <==> n in before || n == last;
    }
  }

  lemma {:induction false} RepeatedClaim(each: seq<OO.Call>, times: nat, c: OO.Claim)
    ensures c in OO.AllMade(Repeated(each, times)) <==> times > 0 && c in OO.AllMade(each)
  {
    if times > 0 {
      RepeatedClaim(each, times - 1, c);
      MadeJoin(Repeated(each, times - 1), each, c);
    }
  }

  lemma PairClaims(fm: Families, ends: set<Node>, expire: bool, p: Pair, c: OO.Claim)
    requires LegalPair(fm, ends, p)
    ensures c in OO.AllMade(PairCalls(fm, ends, expire, p)) <==>
            exists n :: n in Leaves(p.right) && Says(fm, ends, expire, n, p.left.Some?, c)
  {
    hide Says, OO.AllMade, Conjuncts;
    RightsClaim(fm, ends, expire, Leaves(p.right), p.left.Some?, c);
    if p.left.Some? {
      SomeConjunct(p.left.value);
      RepeatedClaim(AllRightCalls(fm, ends, expire, Leaves(p.right), true), |Lefts(p.left.value)|, c);
    }
  }

  lemma {:induction false} GraphClaims(fm: Families, ends: set<Node>, expire: bool, pairs: seq<Pair>, c: OO.Claim)
    requires forall p :: p in pairs ==> LegalPair(fm, ends, p)
    ensures c in OO.AllMade(GraphCalls(fm, ends, expire, pairs)) <==> Said(fm, ends, expire, pairs, c)
    decreases |pairs|
  {
    hide Says, LegalPair, PairCalls, Leaves;
    if pairs != [] {
      var before, last := pairs[..|pairs| - 1], pairs[|pairs| - 1];
      GraphClaims(fm, ends, expire, before, c);
      PairClaims(fm, ends, expire, last, c);
      MadeJoin(GraphCalls(fm, ends, expire, before), PairCalls(fm, ends, expire, last), c);
      hide OO.AllMade;
      assert pairs == before + [last];
      assert forall p :: p in pairs <==> p in before || p == last;
    }
  }

  // What makes a right-hand node an error: an xtrigger, or a family with a
  // task's qualifier or with an optional finish.
  lemma IllegalRight(fm: Families, ends: set<Node>, n: Node, hasLeft: bool)
    ensures RightOutputs(fm, ends, n, hasLeft).None? <==>
      || n.Xtrigger?
      || (n.name in fm && n.trigger.Some? &&
          (!n.trigger.value.Family? || (n.trigger.value.status == Finished && n.optional)))
  {
  }

  // Once a graph is accepted, the table tells what its right sides say.
  lemma AcceptedTells(fm: Families, ends: set<Node>, expire: bool, t: Triggers, table: OO.Table, pairs: seq<Pair>)
    requires GraphProcessed(fm, ends, expire, t, table, pairs, NoFault)
    ensures Tells(fm, ends, expire, pairs, table)
  {
    hide PairsProcessed, Said, Tells;
    var calls := GraphCalls(fm, ends, expire, pairs);
    OO.RunDescribed(calls);
    AcceptedLegal(fm, ends, expire, t, table, pairs);
    forall c ensures c in OO.AllMade(calls) <==> Said(fm, ends, expire, pairs, c) {
      GraphClaims(fm, ends, expire, pairs, c);
    }
    DescribedTells(fm, ends, expire, pairs, table, OO.AllMade(calls));
  }

  lemma DescribedTells(fm: Families, ends: set<Node>, expire: bool, pairs: seq<Pair>, table: OO.Table,
                       claims: set<OO.Claim>)
    requires OO.Describes(claims, table)
    requires forall c :: c in claims <==> Said(fm, ends, expire, pairs, c)
    ensures Tells(fm, ends, expire, pairs, table)
  {
    hide Said;
    forall k | k in table
      ensures exists c :: Said(fm, ends, expire, pairs, c) && c.Key() == k && (table[k].settled ==> !c.member)
    {
      var c :| c in claims && c.Key() == k && (table[k].settled ==> !c.member);
    }
  }

  lemma AcceptedLegal(fm: Families, ends: set<Node>, expire: bool, t: Triggers, table: OO.Table, pairs: seq<Pair>)
    requires GraphProcessed(fm, ends, expire, t, table, pairs, NoFault)
    ensures forall p :: p in pairs ==> LegalPair(fm, ends, p)
  {
    hide LegalPair;
  }
}
