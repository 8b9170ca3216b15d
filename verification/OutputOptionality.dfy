// Optional and required task outputs, as the graph declares them (graph_parser.py).

module GraphTerms {

  // The built-in task outputs, with the finish pseudo-output.
  datatype Status = Expired | Submitted | SubmitFailed | Started | Succeeded | Failed | Finished

  // What can follow a node's colon: an output by its own name, the short form
  // of a built-in one (fail for failed), a family qualifier (fail-any), or an
  // output named by the workflow.
  datatype Trigger = Builtin(status: Status) | Short(status: Status)
                   | Family(status: Status, all: bool) | Custom(text: string)

  // TaskTrigger.standardise_name
  function Standard(t: Trigger): Trigger {
    if t.Short? then Builtin(t.status) else t
  }
}

module OutputOptionality {
  import opened GraphTerms

  type Key = (string, Trigger)

  // One row of task_output_opt: the optionality, the one it was given first,
  // and whether a trigger on the task itself has settled it.
  datatype Entry = Entry(optional: bool, default: bool, settled: bool)
  type Table = map<Key, Entry>

  datatype Outcome = Outcome(table: Table, ok: bool)

  // The arguments of one call of _set_output_opt.
  datatype Call = Call(name: string, output: Trigger, optional: bool, suicide: bool, member: bool)

  // One output of one task declared optional or required.
  datatype Claim = Claim(name: string, output: Trigger, optional: bool, member: bool) {
    function Key(): Key {
      (name, output)
    }
  }

  predicate MustBeOptional(o: Trigger) {
    o == Builtin(Expired) || o == Builtin(SubmitFailed)
  }

  predicate HasOpposite(o: Trigger) {
    o in [Builtin(Succeeded), Builtin(Failed), Builtin(Submitted), Builtin(SubmitFailed)]
  }

  function Opposite(o: Trigger): (r: Trigger)
    requires HasOpposite(o)
    ensures HasOpposite(r) && r != o
  {
    match o.status
    case Succeeded => Builtin(Failed)
    case Failed => Builtin(Succeeded)
    case Submitted => Builtin(SubmitFailed)
    case _ => Builtin(Submitted)
  }

  // What a call declares: nothing for a suicide trigger, both ends for finish.
  function Claims(c: Call): seq<Claim> {
    if c.suicide then []
    else if c.output == Builtin(Finished) then
      [Claim(c.name, Builtin(Succeeded), true, c.member), Claim(c.name, Builtin(Failed), true, c.member)]
    else
      [Claim(c.name, c.output, c.optional, c.member)]
  }

  predicate OptionalFinish(c: Call) {
    !c.suicide && c.output == Builtin(Finished) && c.optional
  }

  // Enter a claim, or compare it with the row that is there.
  function Enter(t: Table, c: Claim): Outcome {
    if c.Key() !in t then
      Outcome(t[c.Key() := Entry(c.optional, c.optional, !c.member)], true)
    else
      var e := t[c.Key()];
      if e.settled then Outcome(t, c.member || c.optional == e.optional)
      else if c.member then Outcome(t, c.optional == e.default)
      else Outcome(t[c.Key() := Entry(c.optional, e.default, true)], true)
  }

  predicate OpposedRight(t: Table, c: Claim)
    requires c.Key() in t
  {
    HasOpposite(c.output) && (c.name, Opposite(c.output)) in t ==>
      var opposed := t[(c.name, Opposite(c.output))];
      && t[c.Key()].optional
      && opposed.optional
      && (c.member || !opposed.settled ==> opposed.default)
  }

  function MakeClaim(t: Table, c: Claim): Outcome {
    if MustBeOptional(c.output) && !c.optional then Outcome(t, false)
    else
      var entered := Enter(t, c);
      Outcome(entered.table, entered.ok && OpposedRight(entered.table, c))
  }

  function MakeClaims(t: Table, cs: seq<Claim>): Outcome
    decreases |cs|
  {
    if cs == [] then Outcome(t, true)
    else
      var first := MakeClaim(t, cs[0]);
      if first.ok then MakeClaims(first.table, cs[1..]) else first
  }

  function SetOutputOpt(t: Table, c: Call): Outcome {
    if OptionalFinish(c) then Outcome(t, false) else MakeClaims(t, Claims(c))
  }

  // A whole run of calls on a new parser, stopped by the first error.
  function Run(calls: seq<Call>): Outcome {
    if calls == [] then Outcome(map[], true)
    else
      var before := Run(calls[..|calls| - 1]);
      if before.ok then SetOutputOpt(before.table, calls[|calls| - 1]) else before
  }

  // What every accepted table keeps.

  ghost predicate Sound(t: Table) {
    && (forall k :: k in t && !t[k].settled ==> t[k].optional == t[k].default)
    && (forall k :: k in t && MustBeOptional(k.1) ==> t[k].optional)
    && (forall k :: k in t && HasOpposite(k.1) && (k.0, Opposite(k.1)) in t ==> t[k].optional)
  }

  ghost predicate SettledKept(t: Table, u: Table) {
    forall k :: k in t && t[k].settled ==> k in u && u[k] == t[k]
  }

  lemma ClaimSound(t: Table, c: Claim)
    requires Sound(t)
    ensures SettledKept(t, MakeClaim(t, c).table)
    ensures MakeClaim(t, c).ok ==> Sound(MakeClaim(t, c).table)
  {
    var r := MakeClaim(t, c);
    if r.ok {
      forall k | k in r.table && HasOpposite(k.1) && (k.0, Opposite(k.1)) in r.table
        ensures r.table[k].optional
      {
        if k != c.Key() && (k.0, Opposite(k.1)) == c.Key() {
          assert (c.name, Opposite(c.output)) == k;
        }
      }
    }
  }

  lemma {:induction false} ClaimsSound(t: Table, cs: seq<Claim>)
    requires Sound(t)
    ensures SettledKept(t, MakeClaims(t, cs).table)
    ensures MakeClaims(t, cs).ok ==> Sound(MakeClaims(t, cs).table)
    decreases |cs|
  {
    if cs != [] {
      ClaimSound(t, cs[0]);
      if MakeClaim(t, cs[0]).ok {
        ClaimsSound(MakeClaim(t, cs[0]).table, cs[1..]);
      }
    }
  }

  // After any accepted calls: a row that is not settled has its first value,
  // expired and submit-failed are optional, and so are both of two opposites.
  lemma {:induction false} RunSound(calls: seq<Call>)
    requires Run(calls).ok
    ensures Sound(Run(calls).table)
  {
    if calls != [] {
      RunSound(calls[..|calls| - 1]);
      ClaimsSound(Run(calls[..|calls| - 1]).table, Claims(calls[|calls| - 1]));
    }
  }

  // So of any task: expired and submit-failed are optional, and success and
  // failure are if both are spoken of, and so are submission and its failure.
  lemma AcceptedMeans(calls: seq<Call>, name: string)
    requires Run(calls).ok
    ensures var t := Run(calls).table;
            && NotRequired(t, name, Expired) && NotRequired(t, name, SubmitFailed)
            && OptionalIfBoth(t, name, Succeeded, Failed) && OptionalIfBoth(t, name, Submitted, SubmitFailed)
  {
    RunSound(calls);
    hide Run;
    assert Opposite(Builtin(Succeeded)) == Builtin(Failed) && Opposite(Builtin(Failed)) == Builtin(Succeeded);
    assert Opposite(Builtin(Submitted)) == Builtin(SubmitFailed) && Opposite(Builtin(SubmitFailed)) == Builtin(Submitted);
  }

  predicate NotRequired(t: Table, name: string, s: Status) {
    (name, Builtin(s)) in t ==> t[(name, Builtin(s))].optional
  }

  predicate OptionalIfBoth(t: Table, name: string, a: Status, b: Status) {
    (name, Builtin(a)) in t && (name, Builtin(b)) in t ==> NotRequired(t, name, a) && NotRequired(t, name, b)
  }

  // A settled row is never changed by later calls, accepted or not.
  lemma {:induction false} SettledForever(calls: seq<Call>, later: seq<Call>)
    requires Run(calls).ok
    ensures SettledKept(Run(calls).table, Run(calls + later).table)
    decreases |later|
  {
    if later == [] {
      assert calls + later == calls;
    } else {
      var before, last := later[..|later| - 1], later[|later| - 1];
      SettledForever(calls, before);
      NextRun(calls, later);
      hide Run, SetOutputOpt, Sound;
      if Run(calls + before).ok {
        RunSound(calls + before);
        CallKeeps(Run(calls + before).table, last);
      }
    }
  }

  lemma NextRun(calls: seq<Call>, later: seq<Call>)
    requires later != []
    ensures var before := Run(calls + later[..|later| - 1]);
            Run(calls + later) == if before.ok then SetOutputOpt(before.table, later[|later| - 1]) else before
  {
    var all := calls + later;
    assert all[..|all| - 1] == calls + later[..|later| - 1];
  }

  lemma {:induction false} RunPrefix(calls: seq<Call>, later: seq<Call>)
    requires Run(calls + later).ok
    ensures Run(calls).ok
    decreases |later|
  {
    if later == [] {
      assert calls + later == calls;
    } else {
      NextRun(calls, later);
      RunPrefix(calls, later[..|later| - 1]);
    }
  }

  lemma CallKeeps(t: Table, c: Call)
    requires Sound(t)
    ensures SettledKept(t, SetOutputOpt(t, c).table)
  {
    ClaimsSound(t, Claims(c));
  }

  // The order of the calls.

  ghost predicate Describes(claims: set<Claim>, t: Table) {
    && (forall k :: k in t ==> exists c :: c in claims && c.Key() == k)
    && (forall k :: k in t && t[k].settled ==> exists c :: c in claims && c.Key() == k && !c.member)
    && (forall c :: c in claims ==> c.Key() in t)
    && (forall c :: c in claims && !c.member ==> t[c.Key()].settled)
    && (forall c :: c in claims && (c.member ==> !t[c.Key()].settled) ==> c.optional == t[c.Key()].optional)
  }

  function Made(cs: seq<Claim>): set<Claim> {
    set c | c in cs
  }

  function AllMade(calls: seq<Call>): set<Claim> {
    set call, c | call in calls && c in Claims(call) :: c
  }

  // Each row has a claim of its own kind behind it.
  lemma ClaimBehind(claims: set<Claim>, t: Table, c: Claim, k: Key)
    requires Describes(claims, t) && MakeClaim(t, c).ok && k in MakeClaim(t, c).table
    ensures exists d :: d in claims + {c} && d.Key() == k &&
                        (MakeClaim(t, c).table[k].settled ==> !d.member)
  {
    hide OpposedRight, HasOpposite, MustBeOptional, Opposite;
    if k in t && (k != c.Key() || t[k].settled) {
      var d :| d in claims && d.Key() == k && (t[k].settled ==> !d.member);
      assert d in claims + {c};
    } else {
      assert c in claims + {c};
    }
  }

  // And each claim is told by its row.
  lemma RowBehind(claims: set<Claim>, t: Table, c: Claim, d: Claim)
    requires Sound(t) && Describes(claims, t) && MakeClaim(t, c).ok && d in claims + {c}
    ensures d.Key() in MakeClaim(t, c).table
    ensures var e := MakeClaim(t, c).table[d.Key()];
            (!d.member ==> e.settled) && ((d.member ==> !e.settled) ==> d.optional == e.optional)
  {
    hide OpposedRight, HasOpposite, MustBeOptional, Opposite;
  }

  lemma ClaimDescribed(claims: set<Claim>, t: Table, c: Claim)
    requires Sound(t) && Describes(claims, t) && MakeClaim(t, c).ok
    ensures Describes(claims + {c}, MakeClaim(t, c).table)
  {
    var u := MakeClaim(t, c).table;
    forall k | k in u
      ensures exists d :: d in claims + {c} && d.Key() == k && (u[k].settled ==> !d.member)
    {
      ClaimBehind(claims, t, c, k);
    }
    forall d | d in claims + {c}
      ensures d.Key() in u && (!d.member ==> u[d.Key()].settled)
      ensures (d.member ==> !u[d.Key()].settled) ==> d.optional == u[d.Key()].optional
    {
      RowBehind(claims, t, c, d);
    }
    hide MakeClaim;
  }

  lemma MadeSplit(claims: set<Claim>, cs: seq<Claim>)
    requires cs != []
    ensures claims + {cs[0]} + Made(cs[1..]) == claims + Made(cs)
  {
    assert cs == [cs[0]] + cs[1..];
  }

  lemma {:induction false} ClaimsDescribed(claims: set<Claim>, t: Table, cs: seq<Claim>)
    requires Sound(t) && Describes(claims, t) && MakeClaims(t, cs).ok
    ensures Describes(claims + Made(cs), MakeClaims(t, cs).table)
    decreases |cs|
  {
    hide Describes, Sound, MakeClaim;
    if cs == [] {
      assert claims + Made(cs) == claims;
    } else {
      ClaimSound(t, cs[0]);
      ClaimDescribed(claims, t, cs[0]);
      ClaimsDescribed(claims + {cs[0]}, MakeClaim(t, cs[0]).table, cs[1..]);
      MadeSplit(claims, cs);
    }
  }

  lemma AllMadeSplit(calls: seq<Call>)
    requires calls != []
    ensures AllMade(calls) == AllMade(calls[..|calls| - 1]) + Made(Claims(calls[|calls| - 1]))
  {
    var last := calls[|calls| - 1];
    assert calls == calls[..|calls| - 1] + [last];
    forall c | c in Made(Claims(last)) ensures c in AllMade(calls) {
      assert last in calls;
    }
  }

  // The table is told by the claims alone: a task's output is optional as its
  // own triggers say, or as its families say when it has none of its own.
  lemma {:induction false} RunDescribed(calls: seq<Call>)
    requires Run(calls).ok
    ensures Describes(AllMade(calls), Run(calls).table)
  {
    if calls != [] {
      var before := calls[..|calls| - 1];
      RunSound(before);
      RunDescribed(before);
      AllMadeSplit(calls);
      ClaimsDescribed(AllMade(before), Run(before).table, Claims(calls[|calls| - 1]));
    }
  }

  ghost predicate SameBits(t: Table, u: Table) {
    && t.Keys == u.Keys
    && forall k :: k in t ==> t[k].optional == u[k].optional && t[k].settled == u[k].settled
  }

  lemma DescribedAlike(claims: set<Claim>, t: Table, u: Table)
    requires Describes(claims, t) && Describes(claims, u)
    ensures SameBits(t, u)
  {
    forall k | k in t ensures k in u && t[k].optional == u[k].optional && t[k].settled == u[k].settled {
      var c :| c in claims && c.Key() == k;
    }
    forall k | k in u ensures k in t {
      var c :| c in claims && c.Key() == k;
    }
  }

  lemma SameCallsSameClaims(calls: seq<Call>, others: seq<Call>)
    requires multiset(calls) == multiset(others)
    ensures AllMade(calls) == AllMade(others)
  {
    forall c ensures c in calls <==> c in others {
      assert c in multiset(calls) <==> c in multiset(others);
    }
  }

  // Two accepted orders of the same calls end with the same optional and
  // settled bits.
  lemma OrderIrrelevant(calls: seq<Call>, others: seq<Call>)
    requires multiset(calls) == multiset(others)
    requires Run(calls).ok && Run(others).ok
    ensures SameBits(Run(calls).table, Run(others).table)
  {
    RunDescribed(calls);
    RunDescribed(others);
    SameCallsSameClaims(calls, others);
    DescribedAlike(AllMade(calls), Run(calls).table, Run(others).table);
  }

  lemma OneClaim(t: Table, c: Claim)
    ensures MakeClaims(t, [c]) == MakeClaim(t, c)
  {
    assert [c][1..] == [];
  }

  // With no family among them, calls are accepted exactly when what they say
  // is consistent, so then the order does not matter at all.
  ghost predicate Agreeing(claims: set<Claim>) {
    && (forall c :: c in claims && MustBeOptional(c.output) ==> c.optional)
    && (forall c, d :: c in claims && d in claims && c.Key() == d.Key() ==> c.optional == d.optional)
    && (forall c, d :: c in claims && d in claims && Opposed(c, d) ==> c.optional && d.optional)
  }

  predicate Opposed(c: Claim, d: Claim) {
    HasOpposite(c.output) && d.Key() == (c.name, Opposite(c.output))
  }

  lemma OwnClaimAccepted(claims: set<Claim>, t: Table, c: Claim)
    requires Sound(t) && Describes(claims, t)
    requires !c.member && forall d :: d in claims ==> !d.member
    requires Agreeing(claims + {c})
    ensures MakeClaim(t, c).ok
  {
    assert c in claims + {c};
    if c.Key() in t {
      var d :| d in claims && d.Key() == c.Key();
      assert d in claims + {c};
    }
    if HasOpposite(c.output) && (c.name, Opposite(c.output)) in t {
      var d :| d in claims && d.Key() == (c.name, Opposite(c.output));
      assert d in claims + {c} && Opposed(c, d);
    }
  }

  lemma AgreeingPart(claims: set<Claim>, more: set<Claim>)
    requires Agreeing(claims + more)
    ensures Agreeing(claims)
  {
    forall c | c in claims ensures c in claims + more {}
  }

  lemma {:induction false} OwnClaimsAccepted(claims: set<Claim>, t: Table, cs: seq<Claim>)
    requires Sound(t) && Describes(claims, t)
    requires forall d :: d in claims + Made(cs) ==> !d.member
    requires Agreeing(claims + Made(cs))
    ensures MakeClaims(t, cs).ok
    decreases |cs|
  {
    hide Describes, Sound, Agreeing, MakeClaim;
    if cs != [] {
      MadeSplit(claims, cs);
      AgreeingPart(claims + {cs[0]}, Made(cs[1..]));
      OwnClaimAccepted(claims, t, cs[0]);
      ClaimSound(t, cs[0]);
      ClaimDescribed(claims, t, cs[0]);
      OwnClaimsAccepted(claims + {cs[0]}, MakeClaim(t, cs[0]).table, cs[1..]);
    }
  }

  lemma DescribedAgree(claims: set<Claim>, t: Table)
    requires Sound(t) && Describes(claims, t)
    requires forall d :: d in claims ==> !d.member
    ensures Agreeing(claims)
  {
    forall c, d | c in claims && d in claims && Opposed(c, d)
      ensures c.optional && d.optional
    {
      OpposedAgree(claims, t, c, d);
    }
    hide Opposed;
  }

  lemma OpposedAgree(claims: set<Claim>, t: Table, c: Claim, d: Claim)
    requires Sound(t) && Describes(claims, t) && c in claims && d in claims && !c.member && !d.member && Opposed(c, d)
    ensures c.optional && d.optional
  {
    assert HasOpposite(d.output) && Opposite(d.output) == c.output;
    assert c.Key() in t && d.Key() in t && (d.name, Opposite(d.output)) == c.Key();
  }

  ghost predicate NoFamilies(calls: seq<Call>) {
    forall c :: c in calls ==> !c.member
  }

  lemma OwnClaims(calls: seq<Call>)
    requires NoFamilies(calls)
    ensures forall d :: d in AllMade(calls) ==> !d.member
  {
  }

  lemma {:induction false} OwnAcceptedIff(calls: seq<Call>)
    requires NoFamilies(calls)
    ensures Run(calls).ok <==> (forall c :: c in calls ==> !OptionalFinish(c)) && Agreeing(AllMade(calls))
  {
    OwnClaims(calls);
    if calls != [] {
      var before, last := calls[..|calls| - 1], calls[|calls| - 1];
      assert calls == before + [last];
      OwnAcceptedIff(before);
      AllMadeSplit(calls);
      if Agreeing(AllMade(calls)) {
        AgreeingPart(AllMade(before), Made(Claims(last)));
      }
      if Run(before).ok {
        RunSound(before);
        RunDescribed(before);
        if Agreeing(AllMade(calls)) {
          OwnClaimsAccepted(AllMade(before), Run(before).table, Claims(last));
        }
      }
    }
    if Run(calls).ok {
      RunSound(calls);
      RunDescribed(calls);
      DescribedAgree(AllMade(calls), Run(calls).table);
    }
  }
}
