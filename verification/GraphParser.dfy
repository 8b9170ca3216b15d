// How a dependency pair of the graph becomes recorded triggers (graph_parser.py).

module GraphExpressions {
  import opened GraphTerms
  import opened Wrappers

  // A node as the graph writes it: a task or family with the offset and the
  // qualifier that may follow its name, or an @xtrigger.
  datatype Node = Task(suicide: bool, name: string, offset: string, trigger: Option<Trigger>, optional: bool)
                | Xtrigger(text: string)

  datatype Expr = Leaf(node: Node) | And(l: Expr, r: Expr) | Or(l: Expr, r: Expr) | Paren(e: Expr)

  // The member tasks of each family.
  type Families = map<string, seq<string>>

  ghost predicate Proper(fm: Families) {
    forall f :: f in fm ==> fm[f] != [] && forall m :: m in fm[f] ==> m !in fm
  }

  function Leaves(e: Expr): seq<Node> {
    match e
    case Leaf(n) => [n]
    case And(l, r) => Leaves(l) + Leaves(r)
    case Or(l, r) => Leaves(l) + Leaves(r)
    case Paren(i) => Leaves(i)
  }

  predicate HasOr(e: Expr) {
    match e
    case Leaf(_) => false
    case And(l, r) => HasOr(l) || HasOr(r)
    case Or(_, _) => true
    case Paren(i) => HasOr(i)
  }

  predicate HasParen(e: Expr) {
    match e
    case Leaf(_) => false
    case And(l, r) => HasParen(l) || HasParen(r)
    case Or(l, r) => HasParen(l) || HasParen(r)
    case Paren(_) => true
  }

  // What an expression means when certain outputs are complete.

  datatype Atom = Output(name: string, offset: string, trigger: Trigger) | Clock(text: string)

  // A family qualifier read as it is written, or as fam_to_mem_trigger_map
  // has it: there submit-fail-any stands for some member submitted.
  datatype Reading = AsWritten | AsMapped

  // fam_to_mem_trigger_map
  function MemberStatus(s: Status, all: bool): Status {
    if s == SubmitFailed && !all then Submitted else s
  }

  predicate TaskTruth(done: set<Atom>, name: string, offset: string, t: Trigger) {
    if t == Builtin(Finished) then
      Output(name, offset, Builtin(Succeeded)) in done || Output(name, offset, Builtin(Failed)) in done
    else
      Output(name, offset, t) in done
  }

  predicate FamilyTruth(members: seq<string>, done: set<Atom>, offset: string, s: Status, all: bool) {
    if all then forall m :: m in members ==> TaskTruth(done, m, offset, Builtin(s))
    else exists m :: m in members && TaskTruth(done, m, offset, Builtin(s))
  }

  predicate NodeTruth(reading: Reading, fm: Families, done: set<Atom>, n: Node) {
    match n
    case Xtrigger(x) => Clock(x) in done
    case Task(_, name, offset, None, _) => TaskTruth(done, name, offset, Builtin(Succeeded))
    case Task(_, name, offset, Some(t), _) =>
      if t.Family? && name in fm then
        var anySubmitFail := t.status == SubmitFailed && !t.all;
        FamilyTruth(fm[name], done, offset, if reading == AsMapped && anySubmitFail then Submitted else t.status, t.all)
      else
        TaskTruth(done, name, offset, if t.Short? then Builtin(t.status) else t)
  }

  predicate Truth(reading: Reading, fm: Families, done: set<Atom>, e: Expr) {
    match e
    case Leaf(n) => NodeTruth(reading, fm, done, n)
    case And(l, r) => Truth(reading, fm, done, l) && Truth(reading, fm, done, r)
    case Or(l, r) => Truth(reading, fm, done, l) || Truth(reading, fm, done, r)
    case Paren(i) => Truth(reading, fm, done, i)
  }

  // The evaluation a recorded expression gets: every leaf names one output.
  predicate Holds(done: set<Atom>, e: Expr) {
    match e
    case Leaf(Xtrigger(x)) => Clock(x) in done
    case Leaf(Task(_, name, offset, t, _)) => t.Some? && Output(name, offset, t.value) in done
    case And(l, r) => Holds(done, l) && Holds(done, r)
    case Or(l, r) => Holds(done, l) || Holds(done, r)
    case Paren(i) => Holds(done, i)
  }

  // Left-hand nodes that are not an error.
  predicate Legal(fm: Families, n: Node) {
    n.Xtrigger? || (!n.suicide && if n.name in fm then n.trigger.Some? && n.trigger.value.Family?
                                  else n.trigger.None? || !n.trigger.value.Family?)
  }

  ghost predicate AllLegal(fm: Families, e: Expr) {
    forall n :: n in Leaves(e) ==> Legal(fm, n)
  }

  // The three rewritings of a left side.

  // Give every node a standard qualifier; replace families by members; replace
  // finish by succeeded or failed.
  datatype Rewrite = Names | Members | Finishes

  function Explicit(t: Option<Trigger>): Trigger {
    if t.None? then Builtin(Succeeded) else Standard(t.value)
  }

  function MemberNode(member: string, offset: string, s: Status): Node {
    Task(false, member, offset, Some(Builtin(s)), false)
  }

  // Members joined by & or |.
  function Join(members: seq<string>, offset: string, s: Status, all: bool): Expr
    requires members != []
  {
    var first := Leaf(MemberNode(members[0], offset, s));
    if |members| == 1 then first
    else
      var rest := Join(members[1..], offset, s, all);
      if all then And(first, rest) else Or(first, rest)
  }

  predicate IsFamilyTrigger(fm: Families, n: Node) {
    n.Task? && n.trigger.Some? && n.trigger.value.Family? && n.name in fm && fm[n.name] != []
  }

  predicate IsFinish(n: Node) {
    n.Task? && n.trigger == Some(Builtin(Finished))
  }

  function Image(fm: Families, r: Rewrite, n: Node): Expr {
    match r
    case Names => Leaf(if n.Xtrigger? then n else n.(trigger := Some(Explicit(n.trigger))))
    case Members =>
      if IsFamilyTrigger(fm, n) then
        var t := n.trigger.value;
        Paren(Join(fm[n.name], n.offset, MemberStatus(t.status, t.all), t.all))
      else Leaf(n)
    case Finishes =>
      if IsFinish(n) then
        Paren(Or(Leaf(n.(trigger := Some(Builtin(Succeeded)))), Leaf(n.(trigger := Some(Builtin(Failed))))))
      else Leaf(n)
  }

  // The node without its '?', which the patterns do not look at.
  function Bare(n: Node): Node {
    if n.Task? then n.(optional := false) else n
  }

  // Every occurrence of the given nodes replaced; with one node, this is one re.sub.
  function Replaced(fm: Families, r: Rewrite, ks: set<Node>, e: Expr): Expr {
    match e
    case Leaf(n) => if Bare(n) in ks then Image(fm, r, n) else e
    case And(a, b) => And(Replaced(fm, r, ks, a), Replaced(fm, r, ks, b))
    case Or(a, b) => Or(Replaced(fm, r, ks, a), Replaced(fm, r, ks, b))
    case Paren(i) => Paren(Replaced(fm, r, ks, i))
  }

  // Every leaf replaced at once.
  function Rewritten(fm: Families, r: Rewrite, e: Expr): Expr {
    match e
    case Leaf(n) => Image(fm, r, n)
    case And(a, b) => And(Rewritten(fm, r, a), Rewritten(fm, r, b))
    case Or(a, b) => Or(Rewritten(fm, r, a), Rewritten(fm, r, b))
    case Paren(i) => Paren(Rewritten(fm, r, i))
  }

  function Stripped(e: Expr): Expr {
    match e
    case Leaf(n) => Leaf(Bare(n))
    case And(a, b) => And(Stripped(a), Stripped(b))
    case Or(a, b) => Or(Stripped(a), Stripped(b))
    case Paren(i) => Paren(Stripped(i))
  }

  function Compiled(fm: Families, e: Expr): Expr {
    Rewritten(fm, Finishes, Rewritten(fm, Members, Stripped(Rewritten(fm, Names, e))))
  }

  // Replacing one node after another is replacing all of them at once.

  lemma {:induction false} JoinStable(fm: Families, k: Node, members: seq<string>, offset: string, s: Status, all: bool)
    requires members != []
    ensures Replaced(fm, Members, {k}, Join(members, offset, s, all)) == Join(members, offset, s, all)
  {
    assert Image(fm, Members, MemberNode(members[0], offset, s)) == Leaf(MemberNode(members[0], offset, s));
    if |members| > 1 {
      JoinStable(fm, k, members[1..], offset, s, all);
    }
  }

  lemma ImageStable(fm: Families, r: Rewrite, k: Node, n: Node)
    ensures Replaced(fm, r, {k}, Image(fm, r, n)) == Image(fm, r, n)
  {
    if r == Members && IsFamilyTrigger(fm, n) {
      var t := n.trigger.value;
      JoinStable(fm, k, fm[n.name], n.offset, MemberStatus(t.status, t.all), t.all);
    } else if r == Finishes && IsFinish(n) {
      FinishStable(fm, k, n);
    }
  }

  lemma FinishStable(fm: Families, k: Node, n: Node)
    requires IsFinish(n)
    ensures Replaced(fm, Finishes, {k}, Image(fm, Finishes, n)) == Image(fm, Finishes, n)
  {
    var a, b := Leaf(n.(trigger := Some(Builtin(Succeeded)))), Leaf(n.(trigger := Some(Builtin(Failed))));
    assert Replaced(fm, Finishes, {k}, Or(a, b)) == Or(a, b);
  }

  lemma {:induction false} OneAfterAnother(fm: Families, r: Rewrite, ks: set<Node>, k: Node, e: Expr)
    ensures Replaced(fm, r, {k}, Replaced(fm, r, ks, e)) == Replaced(fm, r, ks + {k}, e)
  {
    match e
    case Leaf(n) =>
      if Bare(n) in ks {
        ImageStable(fm, r, k, n);
      }
    case And(a, b) =>
      OneAfterAnother(fm, r, ks, k, a);
      OneAfterAnother(fm, r, ks, k, b);
    case Or(a, b) =>
      OneAfterAnother(fm, r, ks, k, a);
      OneAfterAnother(fm, r, ks, k, b);
    case Paren(i) =>
      OneAfterAnother(fm, r, ks, k, i);
  }

  // A node that the rewriting leaves alone need not be looked for.
  ghost predicate Idle(fm: Families, r: Rewrite, k: Node) {
    forall n {:trigger Bare(n)} :: Bare(n) == k ==> Image(fm, r, n) == Leaf(n)
  }

  lemma {:induction false} IdleSkipped(fm: Families, r: Rewrite, ks: set<Node>, k: Node, e: Expr)
    requires Idle(fm, r, k)
    ensures Replaced(fm, r, ks + {k}, e) == Replaced(fm, r, ks, e)
  {
    match e
    case Leaf(n) =>
    case And(a, b) =>
      IdleSkipped(fm, r, ks, k, a);
      IdleSkipped(fm, r, ks, k, b);
    case Or(a, b) =>
      IdleSkipped(fm, r, ks, k, a);
      IdleSkipped(fm, r, ks, k, b);
    case Paren(i) =>
      IdleSkipped(fm, r, ks, k, i);
  }

  lemma {:induction false} NothingReplaced(fm: Families, r: Rewrite, e: Expr)
    ensures Replaced(fm, r, {}, e) == e
  {
    match e
    case Leaf(n) =>
    case And(a, b) =>
      NothingReplaced(fm, r, a);
      NothingReplaced(fm, r, b);
    case Or(a, b) =>
      NothingReplaced(fm, r, a);
      NothingReplaced(fm, r, b);
    case Paren(i) =>
      NothingReplaced(fm, r, i);
  }

  function Keys(ns: seq<Node>): set<Node> {
    set n | n in ns :: Bare(n)
  }

  lemma {:induction false} AllReplaced(fm: Families, r: Rewrite, ks: set<Node>, e: Expr)
    requires Keys(Leaves(e)) <= ks
    ensures Replaced(fm, r, ks, e) == Rewritten(fm, r, e)
  {
    match e
    case Leaf(n) =>
      assert Bare(n) in Keys([n]);
    case And(a, b) =>
      assert Keys(Leaves(e)) == Keys(Leaves(a)) + Keys(Leaves(b));
      AllReplaced(fm, r, ks, a);
      AllReplaced(fm, r, ks, b);
    case Or(a, b) =>
      assert Keys(Leaves(e)) == Keys(Leaves(a)) + Keys(Leaves(b));
      AllReplaced(fm, r, ks, a);
      AllReplaced(fm, r, ks, b);
    case Paren(i) =>
      AllReplaced(fm, r, ks, i);
  }

  // The nodes of a rewritten expression, in order.

  function Images(fm: Families, r: Rewrite, ns: seq<Node>): seq<Node> {
    if ns == [] then []
    else Images(fm, r, ns[..|ns| - 1]) + Leaves(Image(fm, r, ns[|ns| - 1]))
  }

  lemma {:induction false} ImagesJoined(fm: Families, r: Rewrite, ns: seq<Node>, ms: seq<Node>)
    ensures Images(fm, r, ns + ms) == Images(fm, r, ns) + Images(fm, r, ms)
    decreases |ms|
  {
    if ms == [] {
      assert ns + ms == ns;
    } else {
      assert (ns + ms)[..|ns + ms| - 1] == ns + ms[..|ms| - 1];
      ImagesJoined(fm, r, ns, ms[..|ms| - 1]);
    }
  }

  lemma {:induction false} LeavesRewritten(fm: Families, r: Rewrite, e: Expr)
    ensures Leaves(Rewritten(fm, r, e)) == Images(fm, r, Leaves(e))
  {
    match e
    case Leaf(n) =>
      assert Images(fm, r, [n]) == Images(fm, r, []) + Leaves(Image(fm, r, n));
    case And(a, b) =>
      LeavesRewritten(fm, r, a);
      LeavesRewritten(fm, r, b);
      ImagesJoined(fm, r, Leaves(a), Leaves(b));
    case Or(a, b) =>
      LeavesRewritten(fm, r, a);
      LeavesRewritten(fm, r, b);
      ImagesJoined(fm, r, Leaves(a), Leaves(b));
    case Paren(i) =>
      LeavesRewritten(fm, r, i);
  }

  lemma NextReplaced(fm: Families, r: Rewrite, e: Expr, ns: seq<Node>, i: nat)
    requires i < |ns|
    ensures var sofar := Replaced(fm, r, Keys(ns[..i]), e);
            var next := Replaced(fm, r, Keys(ns[..i + 1]), e);
            Replaced(fm, r, {Bare(ns[i])}, sofar) == next && (Idle(fm, r, Bare(ns[i])) ==> sofar == next)
  {
    assert ns[..i + 1] == ns[..i] + [ns[i]];
    assert Keys(ns[..i + 1]) == Keys(ns[..i]) + {Bare(ns[i])} by {
      assert forall n :: n in ns[..i + 1] <==> n in ns[..i] || n == ns[i];
    }
    OneAfterAnother(fm, r, Keys(ns[..i]), Bare(ns[i]), e);
    if Idle(fm, r, Bare(ns[i])) {
      IdleSkipped(fm, r, Keys(ns[..i]), Bare(ns[i]), e);
    }
  }

  lemma NextImages(fm: Families, r: Rewrite, ns: seq<Node>, i: nat)
    requires i < |ns|
    ensures Images(fm, r, ns[..i + 1]) == Images(fm, r, ns[..i]) + Leaves(Image(fm, r, ns[i]))
  {
    assert ns[..i + 1][..i] == ns[..i];
  }

  lemma WholeReplaced(fm: Families, r: Rewrite, e: Expr)
    ensures var ns := Leaves(e);
            && Replaced(fm, r, Keys(ns[..|ns|]), e) == Rewritten(fm, r, e)
            && Images(fm, r, ns[..|ns|]) == Leaves(Rewritten(fm, r, e))
  {
    var ns := Leaves(e);
    assert ns[..|ns|] == ns;
    AllReplaced(fm, r, Keys(ns), e);
    LeavesRewritten(fm, r, e);
  }

  lemma IdleNodes(fm: Families, n: Node)
    ensures n.Xtrigger? || (n.trigger.Some? && !n.trigger.value.Short?) ==> Idle(fm, Names, Bare(n))
    ensures !IsFamilyTrigger(fm, n) ==> Idle(fm, Members, Bare(n))
    ensures !IsFinish(n) ==> Idle(fm, Finishes, Bare(n))
  {
  }

  function Bares(ns: seq<Node>): seq<Node> {
    if ns == [] then [] else Bares(ns[..|ns| - 1]) + [Bare(ns[|ns| - 1])]
  }

  lemma {:induction false} BaresJoined(ns: seq<Node>, ms: seq<Node>)
    ensures Bares(ns + ms) == Bares(ns) + Bares(ms)
    decreases |ms|
  {
    if ms == [] {
      assert ns + ms == ns;
    } else {
      assert (ns + ms)[..|ns + ms| - 1] == ns + ms[..|ms| - 1];
      BaresJoined(ns, ms[..|ms| - 1]);
    }
  }

  lemma {:induction false} LeavesStripped(e: Expr)
    ensures Leaves(Stripped(e)) == Bares(Leaves(e))
  {
    match e
    case Leaf(n) =>
      assert Bares([n]) == Bares([]) + [Bare(n)];
    case And(a, b) =>
      LeavesStripped(a);
      LeavesStripped(b);
      BaresJoined(Leaves(a), Leaves(b));
    case Or(a, b) =>
      LeavesStripped(a);
      LeavesStripped(b);
      BaresJoined(Leaves(a), Leaves(b));
    case Paren(i) =>
      LeavesStripped(i);
  }

  // A family has a family trigger, and nothing else has.
  predicate FamilyFits(fm: Families, n: Node) {
    n.Task? ==> (n.name in fm <==> n.trigger.Some? && n.trigger.value.Family?)
  }

  lemma {:induction false} FitsIffLegal(fm: Families, e: Expr)
    requires forall n :: n in Leaves(e) && n.Task? ==> !n.suicide && !(n.name in fm && n.trigger.None?)
    ensures (forall n :: n in Leaves(Stripped(Rewritten(fm, Names, e))) ==> FamilyFits(fm, n)) <==> AllLegal(fm, e)
  {
    match e
    case Leaf(n) =>
      assert n in Leaves(e);
      var m := Bare(Image(fm, Names, n).node);
      assert Leaves(Stripped(Rewritten(fm, Names, e))) == [m];
      assert FamilyFits(fm, m) == Legal(fm, n);
    case And(a, b) =>
      FitsIffLegal(fm, a);
      FitsIffLegal(fm, b);
    case Or(a, b) =>
      FitsIffLegal(fm, a);
      FitsIffLegal(fm, b);
    case Paren(i) =>
      FitsIffLegal(fm, i);
  }

  // Meaning is kept.

  lemma {:induction false} JoinTruth(reading: Reading, fm: Families, done: set<Atom>,
                                     members: seq<string>, offset: string, s: Status, all: bool)
    requires members != []
    ensures Truth(reading, fm, done, Join(members, offset, s, all)) == FamilyTruth(members, done, offset, s, all)
  {
    if |members| > 1 {
      JoinTruth(reading, fm, done, members[1..], offset, s, all);
      assert members == [members[0]] + members[1..];
    } else {
      assert members == [members[0]];
    }
  }

  lemma ImageTruth(fm: Families, done: set<Atom>, r: Rewrite, n: Node)
    ensures Truth(AsMapped, fm, done, Image(fm, r, n)) == NodeTruth(AsMapped, fm, done, n)
  {
    if r == Members && IsFamilyTrigger(fm, n) {
      var t := n.trigger.value;
      JoinTruth(AsMapped, fm, done, fm[n.name], n.offset, MemberStatus(t.status, t.all), t.all);
    } else if r == Finishes && IsFinish(n) {
      FinishTruth(fm, done, n);
    }
  }

  lemma FinishTruth(fm: Families, done: set<Atom>, n: Node)
    requires IsFinish(n)
    ensures Truth(AsMapped, fm, done, Image(fm, Finishes, n)) == NodeTruth(AsMapped, fm, done, n)
  {
    var a, b := Leaf(n.(trigger := Some(Builtin(Succeeded)))), Leaf(n.(trigger := Some(Builtin(Failed))));
    assert Truth(AsMapped, fm, done, Or(a, b)) == (Truth(AsMapped, fm, done, a) || Truth(AsMapped, fm, done, b));
  }

  lemma {:induction false} RewrittenTruth(fm: Families, done: set<Atom>, r: Rewrite, e: Expr)
    ensures Truth(AsMapped, fm, done, Rewritten(fm, r, e)) == Truth(AsMapped, fm, done, e)
  {
    match e
    case Leaf(n) =>
      ImageTruth(fm, done, r, n);
    case And(a, b) =>
      RewrittenTruth(fm, done, r, a);
      RewrittenTruth(fm, done, r, b);
    case Or(a, b) =>
      RewrittenTruth(fm, done, r, a);
      RewrittenTruth(fm, done, r, b);
    case Paren(i) =>
      RewrittenTruth(fm, done, r, i);
  }

  lemma {:induction false} StrippedTruth(fm: Families, done: set<Atom>, e: Expr)
    ensures Truth(AsMapped, fm, done, Stripped(e)) == Truth(AsMapped, fm, done, e)
  {
    match e
    case Leaf(n) =>
    case And(a, b) =>
      StrippedTruth(fm, done, a);
      StrippedTruth(fm, done, b);
    case Or(a, b) =>
      StrippedTruth(fm, done, a);
      StrippedTruth(fm, done, b);
    case Paren(i) =>
      StrippedTruth(fm, done, i);
  }

  // What the leaves look like between the rewritings.

  datatype Stage = Written | Named | Unmarked | Expanded | Plain

  predicate At(fm: Families, stage: Stage, n: Node) {
    if stage == Written then Legal(fm, n)
    else
      n.Xtrigger? || (
        && !n.suicide
        && n.trigger.Some?
        && !n.trigger.value.Short?
        && (stage != Named ==> !n.optional)
        && (if stage.Expanded? || stage.Plain? then n.name !in fm && !n.trigger.value.Family?
            else n.name in fm <==> n.trigger.value.Family?)
        && (stage.Plain? ==> n.trigger.value != Builtin(Finished)))
  }

  predicate Each(fm: Families, stage: Stage, e: Expr) {
    match e
    case Leaf(n) => At(fm, stage, n)
    case And(l, r) => Each(fm, stage, l) && Each(fm, stage, r)
    case Or(l, r) => Each(fm, stage, l) && Each(fm, stage, r)
    case Paren(i) => Each(fm, stage, i)
  }

  lemma {:induction false} EachLeaf(fm: Families, stage: Stage, e: Expr)
    ensures Each(fm, stage, e) <==> forall n :: n in Leaves(e) ==> At(fm, stage, n)
  {
    match e
    case Leaf(n) =>
    case And(a, b) =>
      EachLeaf(fm, stage, a);
      EachLeaf(fm, stage, b);
    case Or(a, b) =>
      EachLeaf(fm, stage, a);
      EachLeaf(fm, stage, b);
    case Paren(i) =>
      EachLeaf(fm, stage, i);
  }

  lemma {:induction false} JoinExpanded(fm: Families, members: seq<string>, offset: string, s: Status, all: bool)
    requires members != [] && forall m :: m in members ==> m !in fm
    ensures Each(fm, Expanded, Join(members, offset, s, all))
  {
    if |members| > 1 {
      JoinExpanded(fm, members[1..], offset, s, all);
    }
  }

  function StageBefore(r: Rewrite): Stage {
    match r
    case Names => Written
    case Members => Unmarked
    case Finishes => Expanded
  }

  function StageAfter(r: Rewrite): Stage {
    match r
    case Names => Named
    case Members => Expanded
    case Finishes => Plain
  }

  lemma {:induction false} StageReached(fm: Families, r: Rewrite, e: Expr)
    requires Proper(fm) && Each(fm, StageBefore(r), e)
    ensures Each(fm, StageAfter(r), Rewritten(fm, r, e))
  {
    match e
    case Leaf(n) =>
      if r == Members && IsFamilyTrigger(fm, n) {
        var t := n.trigger.value;
        JoinExpanded(fm, fm[n.name], n.offset, MemberStatus(t.status, t.all), t.all);
      } else if r == Finishes && IsFinish(n) {
        FinishPlain(fm, n);
      }
    case And(a, b) =>
      StageReached(fm, r, a);
      StageReached(fm, r, b);
    case Or(a, b) =>
      StageReached(fm, r, a);
      StageReached(fm, r, b);
    case Paren(i) =>
      StageReached(fm, r, i);
  }

  lemma FinishPlain(fm: Families, n: Node)
    requires IsFinish(n) && At(fm, Expanded, n)
    ensures Each(fm, Plain, Image(fm, Finishes, n))
  {
    var a, b := Leaf(n.(trigger := Some(Builtin(Succeeded)))), Leaf(n.(trigger := Some(Builtin(Failed))));
    assert Each(fm, Plain, Or(a, b)) == (Each(fm, Plain, a) && Each(fm, Plain, b));
  }

  lemma {:induction false} StrippedUnmarked(fm: Families, e: Expr)
    requires Each(fm, Named, e)
    ensures Each(fm, Unmarked, Stripped(e))
  {
    match e
    case Leaf(n) =>
    case And(a, b) =>
      StrippedUnmarked(fm, a);
      StrippedUnmarked(fm, b);
    case Or(a, b) =>
      StrippedUnmarked(fm, a);
      StrippedUnmarked(fm, b);
    case Paren(i) =>
      StrippedUnmarked(fm, i);
  }

  lemma {:induction false} PlainHolds(fm: Families, done: set<Atom>, e: Expr)
    requires Each(fm, Plain, e)
    ensures Holds(done, e) == Truth(AsMapped, fm, done, e)
  {
    match e
    case Leaf(n) =>
    case And(a, b) =>
      PlainHolds(fm, done, a);
      PlainHolds(fm, done, b);
    case Or(a, b) =>
      PlainHolds(fm, done, a);
      PlainHolds(fm, done, b);
    case Paren(i) =>
      PlainHolds(fm, done, i);
  }

  // Every leaf of a compiled expression is one output of one task, or an
  // xtrigger; no family, short name, finish or '?' is left in it.
  lemma CompiledPlain(fm: Families, e: Expr)
    requires Proper(fm) && AllLegal(fm, e)
    ensures Each(fm, Plain, Compiled(fm, e))
  {
    EachLeaf(fm, Written, e);
    StageReached(fm, Names, e);
    var named := Rewritten(fm, Names, e);
    StrippedUnmarked(fm, named);
    StageReached(fm, Members, Stripped(named));
    StageReached(fm, Finishes, Rewritten(fm, Members, Stripped(named)));
  }

  // And it holds exactly when the expression that was written does.
  lemma CompiledMeansTheSame(fm: Families, done: set<Atom>, e: Expr)
    requires Proper(fm) && AllLegal(fm, e)
    ensures Holds(done, Compiled(fm, e)) == Truth(AsMapped, fm, done, e)
  {
    CompiledPlain(fm, e);
    PlainHolds(fm, done, Compiled(fm, e));
    var named := Rewritten(fm, Names, e);
    RewrittenTruth(fm, done, Names, e);
    StrippedTruth(fm, done, named);
    RewrittenTruth(fm, done, Members, Stripped(named));
    RewrittenTruth(fm, done, Finishes, Rewritten(fm, Members, Stripped(named)));
  }

  // The two readings.

  predicate SubmitFailAny(n: Node) {
    n.Task? && n.trigger == Some(Family(SubmitFailed, false))
  }

  lemma {:induction false} ReadingsAgree(fm: Families, done: set<Atom>, e: Expr)
    requires forall n :: n in Leaves(e) ==> !SubmitFailAny(n)
    ensures Truth(AsMapped, fm, done, e) == Truth(AsWritten, fm, done, e)
  {
    match e
    case Leaf(n) =>
      assert n in Leaves(e);
    case And(a, b) =>
      ReadingsAgree(fm, done, a);
      ReadingsAgree(fm, done, b);
    case Or(a, b) =>
      ReadingsAgree(fm, done, a);
      ReadingsAgree(fm, done, b);
    case Paren(i) =>
      ReadingsAgree(fm, done, i);
  }

  // For one node the readings agree, whatever is complete, exactly when it is
  // not a submit-fail-any trigger: that one waits for a member to be submitted.
  lemma ReadingsAgreeIff(fm: Families, n: Node)
    requires Proper(fm) && Legal(fm, n)
    ensures (forall done :: NodeTruth(AsMapped, fm, done, n) == NodeTruth(AsWritten, fm, done, n)) <==> !SubmitFailAny(n)
  {
    if SubmitFailAny(n) {
      var m := fm[n.name][0];
      var done := {Output(m, n.offset, Builtin(SubmitFailed))};
      assert TaskTruth(done, m, n.offset, Builtin(SubmitFailed));
      assert NodeTruth(AsWritten, fm, done, n) && !NodeTruth(AsMapped, fm, done, n);
    }
  }

  // Splitting a left side on AND.

  function Conjuncts(e: Expr): seq<Expr> {
    if e.And? then Conjuncts(e.l) + Conjuncts(e.r) else [e]
  }

  // A left side with an OR or a parenthesis in it is kept whole.
  function Lefts(e: Expr): seq<Expr> {
    if HasOr(e) || HasParen(e) then [e] else Conjuncts(e)
  }

  lemma {:induction false} ConjunctsTruth(reading: Reading, fm: Families, done: set<Atom>, e: Expr)
    ensures (forall c :: c in Conjuncts(e) ==> Truth(reading, fm, done, c)) <==> Truth(reading, fm, done, e)
  {
    if e.And? {
      ConjunctsTruth(reading, fm, done, e.l);
      ConjunctsTruth(reading, fm, done, e.r);
    } else {
      assert e in Conjuncts(e);
    }
  }

  lemma {:induction false} ConjunctsLegal(fm: Families, e: Expr)
    requires forall c :: c in Conjuncts(e) ==> AllLegal(fm, c)
    ensures AllLegal(fm, e)
  {
    if e.And? {
      ConjunctsLegal(fm, e.l);
      ConjunctsLegal(fm, e.r);
    } else {
      assert e in Conjuncts(e);
    }
  }

  lemma {:induction false} ConjunctLegal(fm: Families, e: Expr, c: Expr)
    requires AllLegal(fm, e) && c in Conjuncts(e)
    ensures AllLegal(fm, c)
  {
    if e.And? {
      if c in Conjuncts(e.l) {
        ConjunctLegal(fm, e.l, c);
      } else {
        ConjunctLegal(fm, e.r, c);
      }
    }
  }

  lemma LeftsLegal(fm: Families, e: Expr)
    ensures AllLegal(fm, e) <==> forall c :: c in Lefts(e) ==> AllLegal(fm, c)
  {
    if HasOr(e) || HasParen(e) {
      assert e in Lefts(e);
    } else {
      if AllLegal(fm, e) {
        forall c | c in Lefts(e) ensures AllLegal(fm, c) {
          ConjunctLegal(fm, e, c);
        }
      } else if forall c :: c in Lefts(e) ==> AllLegal(fm, c) {
        ConjunctsLegal(fm, e);
      }
    }
  }

  // The compiled parts of a left side hold together exactly when it does.
  lemma PartsMeanTheWhole(fm: Families, done: set<Atom>, e: Expr)
    requires Proper(fm) && AllLegal(fm, e)
    ensures (forall c :: c in Lefts(e) ==> Holds(done, Compiled(fm, c))) <==> Truth(AsMapped, fm, done, e)
  {
    LeftsLegal(fm, e);
    forall c | c in Lefts(e) ensures Holds(done, Compiled(fm, c)) == Truth(AsMapped, fm, done, c) {
      CompiledMeansTheSame(fm, done, c);
    }
    if HasOr(e) || HasParen(e) {
      assert e in Lefts(e);
    } else {
      ConjunctsTruth(AsMapped, fm, done, e);
    }
  }
}

module GraphTriggers {
  import opened GraphExpressions
  import opened GraphTerms
  import opened Wrappers
  import OO = OutputOptionality

  // The outputs a recorded expression waits for, and whether it is a suicide trigger.
  datatype Trigs = Trigs(outputs: seq<Node>, suicide: bool)

  // Per task, its trigger expressions; None is the absent left side.
  type Triggers = map<string, map<Option<Expr>, Trigs>>

  datatype Pair = Pair(left: Option<Expr>, right: Expr)

  datatype Fault = NoFault | Illegal | BothWays | Clash

  predicate Recorded(t: Triggers, name: string, e: Expr, suicide: bool) {
    name in t && Some(e) in t[name] && t[name][Some(e)].suicide == suicide
  }

  ghost predicate ListsOutputs(t: Triggers) {
    forall name, e :: name in t && Some(e) in t[name] ==> t[name][Some(e)].outputs == Leaves(e)
  }

  function Noted(t: Triggers, name: string, e: Option<Expr>, x: Trigs): Triggers {
    t[name := (if name in t then t[name] else map[])[e := x]]
  }

  // The right side.

  function RightMembers(fm: Families, name: string): seq<string> {
    if name in fm then fm[name] else [name]
  }

  lemma RightMembersAre(fm: Families, n: string, name: string)
    ensures name in RightMembers(fm, n) <==> if n in fm then name in fm[n] else name == n
  {
  }

  // A node with an offset does not define a trigger; a family defines one for
  // each of its members.
  predicate Defines(fm: Families, n: Node, name: string, suicide: bool) {
    && n.Task? && n.offset == "" && n.suicide == suicide
    && if n.name in fm then name in fm[n.name] else name == n.name
  }

  // fam_to_mem_output_map
  function MemberOutputs(s: Status): seq<Trigger> {
    if s == Finished then [Builtin(Succeeded), Builtin(Failed)] else [Builtin(s)]
  }

  // The outputs a right-hand node says something about, and what; none if it
  // is in error.
  function RightOutputs(fm: Families, ends: set<Node>, n: Node, hasLeft: bool): Option<(seq<Trigger>, bool)> {
    if n.Xtrigger? then None
    else if n.name in fm then
      match n.trigger
      case None => Some((if hasLeft then [] else [Builtin(Succeeded)], n.optional))
      case Some(Family(s, _)) => if s == Finished && n.optional then None
                                 else Some((MemberOutputs(s), n.optional || s == Finished))
      case Some(_) => None
    else
      match n.trigger
      case Some(t) => Some(([Standard(t)], n.optional))
      case None => Some((if n.optional || n !in ends || !hasLeft then [Builtin(Succeeded)] else [], n.optional))
  }

  function ExpireCalls(expire: bool, suicide: bool, name: string): seq<OO.Call> {
    if suicide && expire then [OO.Call(name, Builtin(Expired), true, false, false)] else []
  }

  function OutputCalls(name: string, outputs: seq<Trigger>, optional: bool, suicide: bool, member: bool): seq<OO.Call> {
    if outputs == [] then []
    else OutputCalls(name, outputs[..|outputs| - 1], optional, suicide, member)
         + [OO.Call(name, outputs[|outputs| - 1], optional, suicide, member)]
  }

  // What one right-hand node makes of the optionality table, member by member.
  function RightCalls(expire: bool, n: Node, members: seq<string>, said: (seq<Trigger>, bool), member: bool): seq<OO.Call>
    requires n.Task?
  {
    if members == [] then []
    else
      var last := members[|members| - 1];
      RightCalls(expire, n, members[..|members| - 1], said, member)
      + ExpireCalls(expire, n.suicide && n.offset == "", last)
      + OutputCalls(last, said.0, said.1, n.suicide, member)
  }

  // What a pair asks to have recorded.
  ghost predicate Demanded(fm: Families, e: Option<Expr>, rights: seq<Node>, name: string, x: Expr, suicide: bool) {
    e == Some(x) && exists n :: n in rights && Defines(fm, n, name, suicide)
  }

  ghost predicate Asked(fm: Families, parts: seq<Expr>, rights: seq<Node>, name: string, x: Expr, suicide: bool) {
    (exists c :: c in parts && x == Compiled(fm, c)) && (exists n :: n in rights && Defines(fm, n, name, suicide))
  }

  ghost predicate Demands(fm: Families, p: Pair, name: string, x: Expr, suicide: bool) {
    p.left.Some? && Asked(fm, Lefts(p.left.value), Leaves(p.right), name, x, suicide)
  }

  ghost predicate LegalLeft(fm: Families, left: Option<Expr>) {
    left.Some? ==> AllLegal(fm, left.value)
  }

  ghost predicate LegalRights(fm: Families, ends: set<Node>, rights: seq<Node>, hasLeft: bool) {
    forall n :: n in rights ==> RightOutputs(fm, ends, n, hasLeft).Some?
  }

  ghost predicate LegalPair(fm: Families, ends: set<Node>, p: Pair) {
    && !HasOr(p.right)
    && LegalLeft(fm, p.left)
    && LegalRights(fm, ends, Leaves(p.right), p.left.Some?)
  }

  class GraphParser {
    const families: Families
    const ends: set<Node>
    const expire: bool
    var triggers: Triggers
    var outputOpt: OO.Table
    ghost var calls: seq<OO.Call>

    ghost predicate Valid()
      reads this
    {
      && Proper(families)
      && OO.Run(calls) == OO.Outcome(outputOpt, true)
      && ListsOutputs(triggers)
    }

    constructor (families: Families, ends: set<Node>, expire: bool)
      requires Proper(families)
      ensures Valid() && triggers == map[] && outputOpt == map[] && calls == []
      ensures this.families == families && this.ends == ends && this.expire == expire
    {
      this.families, this.ends, this.expire := families, ends, expire;
      triggers, outputOpt, calls := map[], map[], [];
    }

    // The part of _set_output_opt that is about one output.
    method DeclareOutput(name: string, output: Trigger, optional: bool, member: bool) returns (ok: bool)
      modifies `outputOpt
      ensures OO.Outcome(outputOpt, ok) == OO.MakeClaim(old(outputOpt), OO.Claim(name, output, optional, member))
    {
      if (output == Builtin(Expired) || output == Builtin(SubmitFailed)) && !optional {
        return false;
      }
      if (name, output) !in outputOpt {
        outputOpt := outputOpt[(name, output) := OO.Entry(optional, optional, !member)];
      } else {
        var before := outputOpt[(name, output)];
        if before.settled {
          if !member && optional != before.optional {
            return false;
          }
        } else if member {
          if optional != before.default {
            return false;
          }
        } else {
          outputOpt := outputOpt[(name, output) := OO.Entry(optional, before.default, true)];
        }
      }
      if OO.HasOpposite(output) && (name, OO.Opposite(output)) in outputOpt {
        var opposed := outputOpt[(name, OO.Opposite(output))];
        var own := outputOpt[(name, output)];
        if member || !opposed.settled {
          if !own.optional || !opposed.default {
            return false;
          } else if !own.optional || !opposed.optional {
            return false;
          }
        } else if !own.optional || !opposed.optional {
          return false;
        }
      }
      return true;
    }

    method SetOutputOpt(name: string, output: Trigger, optional: bool, suicide: bool, member: bool) returns (ok: bool)
      requires Valid()
      modifies `outputOpt, `calls
      ensures calls == old(calls) + [OO.Call(name, output, optional, suicide, member)]
      ensures OO.Outcome(outputOpt, ok) == OO.Run(calls)
    {
      ghost var call := OO.Call(name, output, optional, suicide, member);
      calls := calls + [call];
      assert calls[..|calls| - 1] == old(calls);
      assert OO.Run(calls) == OO.SetOutputOpt(outputOpt, call);
      if suicide {
        return true;
      }
      if output == Builtin(Finished) {
        if optional {
          return false;
        }
        ghost var a, b := OO.Claims(call)[0], OO.Claims(call)[1];
        assert OO.Claims(call)[1..] == [b];
        ghost var first := OO.MakeClaim(outputOpt, a);
        OO.OneClaim(first.table, b);
        assert OO.Run(calls) == if first.ok then OO.MakeClaim(first.table, b) else first;
        ok := DeclareOutput(name, Builtin(Succeeded), true, member);
        if ok {
          ok := DeclareOutput(name, Builtin(Failed), true, member);
        }
        return;
      }
      OO.OneClaim(outputOpt, OO.Claims(call)[0]);
      ok := DeclareOutput(name, output, optional, member);
    }

    method SetTriggers(name: string, suicide: bool, outputs: seq<Node>, expr: Option<Expr>) returns (fault: Fault)
      requires Valid()
      requires expr.Some? ==> outputs == Leaves(expr.value)
      modifies this
      ensures fault == if expr.Some? && Recorded(old(triggers), name, expr.value, !suicide) then BothWays else NoFault
      ensures fault == BothWays ==> triggers == old(triggers)
      ensures fault == NoFault ==>
                && Valid()
                && triggers == Noted(old(triggers), name, expr, Trigs(outputs, suicide))
                && calls == old(calls) + ExpireCalls(expire, suicide, name)
    {
      if name in triggers && expr in triggers[name] {
        if expr.Some? && suicide != triggers[name][expr].suicide {
          return BothWays;
        }
      }
      triggers := triggers[name := (if name in triggers then triggers[name] else map[])[expr := Trigs(outputs, suicide)]];
      if suicide && expire {
        ghost var before, table := calls, outputOpt;
        var ok := SetOutputOpt(name, Builtin(Expired), true, false, false);
        assert calls[..|calls| - 1] == before;
        ExpiryAccepted(before, name);
      }
      return NoFault;
    }

    // Declare the outputs a right-hand node names, for one member.
    method SetOutputs(name: string, outputs: seq<Trigger>, optional: bool, suicide: bool, member: bool)
      returns (fault: Fault)
      requires Valid()
      modifies `outputOpt, `calls
      ensures fault == NoFault || fault == Clash
      ensures fault == NoFault ==> Valid()
      ensures Called(old(calls), calls, OutputCalls(name, outputs, optional, suicide, member), fault)
    {
      hide *;
      ghost var first := calls;
      NoOutputsCalled(name, optional, suicide, member);
      for i := 0 to |outputs|
        invariant Valid()
        invariant calls == first + OutputCalls(name, outputs[..i], optional, suicide, member)
      {
        var ok := SetOutputOpt(name, outputs[i], optional, suicide, member);
        OutputCalled(name, outputs, optional, suicide, member, i, first, calls, ok);
        if !ok {
          return Clash;
        }
        StillValid();
      }
      assert outputs[..|outputs|] == outputs;
      AllCalled(first, calls, OutputCalls(name, outputs, optional, suicide, member));
      return NoFault;
    }

    twostate lemma StillValid()
      requires old(Valid()) && OO.Outcome(outputOpt, true) == OO.Run(calls) && triggers == old(triggers)
      ensures Valid()
    {
    }

    // One right-hand node of a pair, recorded for each of its members.
    method RecordRight(n: Node, expr: Option<Expr>, waits: seq<Node>) returns (fault: Fault)
      requires Valid()
      requires expr.Some? ==> waits == Leaves(expr.value)
      modifies this
      ensures Extended(families, old(triggers), triggers, expr, [n], fault == NoFault)
      ensures fault == NoFault ==> Valid()
      ensures Called(old(calls), calls, CallsOfRight(families, ends, expire, n, expr.Some?), fault)
      ensures fault == Illegal <==> RightOutputs(families, ends, n, expr.Some?).None?
      ensures fault == BothWays ==> Contrary(families, triggers, expr, [n])
    {
      NothingAdded(families, triggers, expr, [n]);
      if n.Xtrigger? {
        return Illegal;
      }
      var optional, outputs, members := n.optional, [], [n.name];
      if n.name in families {
        members := families[n.name];
        if n.trigger.None? {
          // A lone family stands for its members' success.
          outputs := if expr.None? then MemberOutputs(Succeeded) else [];
        } else if !n.trigger.value.Family? {
          return Illegal;
        } else {
          if n.trigger.value.status == Finished {
            if optional {
              return Illegal;
            }
            optional := true;
          }
          outputs := MemberOutputs(n.trigger.value.status);
        }
      } else if n.trigger.Some? {
        outputs := [Standard(n.trigger.value)];
      } else if optional || n !in ends || expr.None? {
        outputs := [Builtin(Succeeded)];
      }
      fault := RecordMembers(n, members, expr, waits, outputs, optional);
    }

    method RecordMembers(n: Node, members: seq<string>, expr: Option<Expr>, waits: seq<Node>,
                         outputs: seq<Trigger>, optional: bool) returns (fault: Fault)
      requires Valid() && n.Task? && members == RightMembers(families, n.name)
      requires expr.Some? ==> waits == Leaves(expr.value)
      modifies this
      ensures Extended(families, old(triggers), triggers, expr, [n], fault == NoFault)
      ensures fault == NoFault ==> Valid()
      ensures Called(old(calls), calls, RightCalls(expire, n, members, (outputs, optional), n.name in families), fault)
      ensures fault != Illegal
      ensures fault == BothWays ==> Contrary(families, triggers, expr, [n])
    {
      hide *;
      ghost var before, first := triggers, calls;
      ghost var said, member := (outputs, optional), n.name in families;
      NoCallsYet(expire, n, said, member);
      NoMembersYet(before, expr, n);
      for i := 0 to |members|
        invariant Valid()
        invariant MembersAdded(before, triggers, expr, n, members[..i])
        invariant calls == old(calls) + RightCalls(expire, n, members[..i], said, member)
      {
        NextCalls(expire, n, members, i, said, member);
        MembersExtend(families, before, triggers, expr, n, members, i);
        if n.offset == "" {
          ghost var sofar := triggers;
          fault := SetTriggers(members[i], n.suicide, waits, expr);
          if fault != NoFault {
            BothWaysContrary(families, triggers, expr, n, members[i]);
            NoCallsKnown(first, calls, RightCalls(expire, n, members, said, member), fault);
            return;
          }
          OneMoreMember(before, sofar, expr, n, waits, members, i);
        } else {
          OffsetAddsNone(before, triggers, expr, n, members, i);
        }
        ghost var middle := calls;
        fault := SetOutputs(members[i], outputs, optional, n.suicide, n.name in families);
        MemberCalled(expire, n, members, i, said, member, first, middle, calls, fault);
        if fault != NoFault {
          MembersExtend(families, before, triggers, expr, n, members, i + 1);
          return;
        }
      }
      assert members[..|members|] == members;
      MembersExtend(families, before, triggers, expr, n, members, |members|);
      AllCalled(first, calls, RightCalls(expire, n, members, said, member));
      return NoFault;
    }

    // Replace finish triggers, and list the outputs that are waited for.
    method ReplaceFinishes(expr: Expr, info: seq<Node>) returns (done: Expr, waits: seq<Node>)
      requires info == Leaves(expr)
      ensures done == Rewritten(families, Finishes, expr) && waits == Leaves(done)
    {
      hide Image, Images, Replaced, Rewritten, Leaves, Keys, Idle;
      done, waits := expr, [];
      NothingReplaced(families, Finishes, expr);
      NothingYet(families, Finishes, info);
      for i := 0 to |info|
        invariant done == Replaced(families, Finishes, Keys(info[..i]), expr)
        invariant waits == Images(families, Finishes, info[..i])
      {
        var n := info[i];
        NextReplaced(families, Finishes, expr, info, i);
        NextImages(families, Finishes, info, i);
        FinishLeaves(families, n);
        if IsFinish(n) {
          done := Replaced(families, Finishes, {Bare(n)}, done);
          waits := waits + [n.(trigger := Some(Builtin(Succeeded))), n.(trigger := Some(Builtin(Failed)))];
        } else {
          IdleNodes(families, n);
          waits := waits + [n];
        }
      }
      WholeReplaced(families, Finishes, expr);
    }

    // Replace families by their members.
    method ExpandMembers(expr: Expr, info: seq<Node>) returns (expanded: Expr, members: seq<Node>)
      requires Proper(families) && info == Leaves(expr)
      ensures expanded == Rewritten(families, Members, expr) && members == Leaves(expanded)
    {
      hide Image, Images, Replaced, Rewritten, Leaves, Keys, Idle;
      expanded, members := expr, [];
      NothingReplaced(families, Members, expr);
      NothingYet(families, Members, info);
      for i := 0 to |info|
        invariant expanded == Replaced(families, Members, Keys(info[..i]), expr)
        invariant members == Images(families, Members, info[..i])
      {
        var n := info[i];
        NextReplaced(families, Members, expr, info, i);
        NextImages(families, Members, info, i);
        if IsFamilyTrigger(families, n) {
          expanded := Replaced(families, Members, {Bare(n)}, expanded);
          members := members + Leaves(Image(families, Members, n));
        } else {
          IdleNodes(families, n);
          LoneLeaf(families, n);
          members := members + [n];
        }
      }
      WholeReplaced(families, Members, expr);
    }

    // Give every node of a left side a standard qualifier.
    method StandardiseNames(left: Expr) returns (expr: Expr, info: seq<Node>, legal: bool)
      ensures legal <==> forall n :: n in Leaves(left) && n.Task? ==> !(n.name in families && n.trigger.None?)
      ensures legal ==> expr == Rewritten(families, Names, left) && info == Bares(Leaves(expr))
    {
      hide Image, Images, Replaced, Rewritten, Leaves, Keys, Idle, Bares;
      var nodes := Leaves(left);
      expr, info := left, [];
      NothingReplaced(families, Names, left);
      NothingYet(families, Names, nodes);
      for i := 0 to |nodes|
        invariant forall j :: 0 <= j < i && nodes[j].Task? ==> !(nodes[j].name in families && nodes[j].trigger.None?)
        invariant expr == Replaced(families, Names, Keys(nodes[..i]), left)
        invariant info == Bares(Images(families, Names, nodes[..i]))
      {
        var n := nodes[i];
        NextReplaced(families, Names, left, nodes, i);
        NextImages(families, Names, nodes, i);
        IdleNodes(families, n);
        NamedLeaf(families, n);
        BaresJoined(Images(families, Names, nodes[..i]), Leaves(Image(families, Names, n)));
        if n.Xtrigger? {
          info := info + [n];
        } else {
          var trigger := Builtin(Succeeded);
          if n.trigger.Some? {
            trigger := Standard(n.trigger.value);
            if trigger != n.trigger.value {
              expr := Replaced(families, Names, {Bare(n)}, expr);
            }
          } else {
            if n.name in families {
              return expr, info, false;
            }
            expr := Replaced(families, Names, {Bare(n)}, expr);
          }
          info := info + [Task(n.suicide, n.name, n.offset, Some(trigger), false)];
        }
      }
      WholeReplaced(families, Names, left);
      legal := true;
    }

    method ComputeTriggers(rights: seq<Node>, expr: Option<Expr>, info: seq<Node>) returns (fault: Fault)
      requires Valid()
      requires expr.Some? ==> info == Leaves(expr.value)
      modifies this
      ensures Computed(families, ends, old(triggers), triggers, Settled(families, expr), rights, expr.Some?, fault)
      ensures fault == NoFault ==> Valid()
      ensures Called(old(calls), calls, AllRightCalls(families, ends, expire, rights, expr.Some?), fault)
    {
      hide *;
      ghost var before, first := triggers, calls;
      ghost var e := Settled(families, expr);
      var done, waits := expr, [];
      if expr.Some? {
        var finished;
        finished, waits := ReplaceFinishes(expr.value, info);
        done := Some(finished);
      }
      SettledIs(families, expr);
      assert done == e && (done.Some? ==> waits == Leaves(done.value));
      ghost var hasLeft := expr.Some?;
      assert done.Some? == hasLeft;
      NothingComputed(families, ends, before, e, rights, hasLeft);
      NoRightCallsYet(families, ends, expire, rights, hasLeft);
      for i := 0 to |rights|
        invariant Valid()
        invariant Extended(families, before, triggers, e, rights[..i], true)
        invariant LegalRights(families, ends, rights[..i], hasLeft)
        invariant calls == old(calls) + AllRightCalls(families, ends, expire, rights[..i], hasLeft)
      {
        ghost var sofar, middle := triggers, calls;
        fault := RecordRight(rights[i], done, waits);
        RightCalled(families, ends, expire, rights, i, hasLeft, first, middle, calls, fault);
        NextRight(families, ends, before, sofar, triggers, e, rights, i, hasLeft, fault);
        if fault != NoFault {
          return;
        }
      }
      assert rights[..|rights|] == rights;
      AllCalled(first, calls, AllRightCalls(families, ends, expire, rights, hasLeft));
      AllComputed(families, ends, before, triggers, e, rights, hasLeft);
      return NoFault;
    }

    // _families_all_to_all
    method FamiliesAllToAll(part: Expr, expr: Expr, rights: seq<Node>, info: seq<Node>) returns (fault: Fault)
      requires Valid()
      requires expr == Stripped(Rewritten(families, Names, part)) && info == Leaves(expr)
      modifies this
      ensures Computed(families, ends, old(triggers), triggers, Some(Compiled(families, part)), rights, true, fault)
      ensures fault == NoFault ==> Valid()
      ensures Called(old(calls), calls, AllRightCalls(families, ends, expire, rights, true), fault)
    {
      hide Leaves, Computed, Rewritten, Stripped;
      var expanded, members := ExpandMembers(expr, info);
      fault := ComputeTriggers(rights, Some(expanded), members);
    }

    // One part of a left side, with every right-hand node.
    method ProcPart(part: Expr, rights: seq<Node>) returns (fault: Fault)
      requires Valid()
      requires forall n :: n in Leaves(part) && n.Task? ==> !n.suicide
      modifies this
      ensures PartProcessed(families, ends, old(triggers), triggers, part, rights, fault)
      ensures fault == NoFault ==> Valid()
      ensures Called(old(calls), calls, AllRightCalls(families, ends, expire, rights, true), fault)
    {
      hide Computed, Rewritten, Stripped, Compiled, Bares;
      ghost var before := triggers;
      var expr, info, legal := StandardiseNames(part);
      if !legal {
        BadPart(families, ends, before, part, rights);
        return Illegal;
      }
      FitsIffLegal(families, part);
      LeavesStripped(expr);
      expr := Stripped(expr);
      for i := 0 to |info|
        invariant forall j :: 0 <= j < i ==> FamilyFits(families, info[j])
      {
        if info[i].Task? {
          var familyTrigger := info[i].trigger.Some? && info[i].trigger.value.Family?;
          if (info[i].name in families) != familyTrigger {
            assert !FamilyFits(families, info[i]) && info[i] in Leaves(expr);
            BadPart(families, ends, before, part, rights);
            return Illegal;
          }
        }
      }
      assert AllLegal(families, part);
      fault := FamiliesAllToAll(part, expr, rights, info);
      GoodPart(families, ends, before, triggers, part, rights, fault);
    }

    // Record one pair of a dependency chain.
    method ProcDepPair(p: Pair) returns (fault: Fault)
      requires Valid()
      modifies this
      ensures Processed(families, ends, old(triggers), triggers, p, fault)
      ensures fault == NoFault ==> Valid()
      ensures Called(old(calls), calls, PairCalls(families, ends, expire, p), fault)
    {
      PairCallsAre(families, ends, expire, p);
      NoCallsKnown(calls, calls, PairCalls(families, ends, expire, p), Illegal);
      hide *;
      ghost var before, first := triggers, calls;
      if HasOr(p.right) {
        OrOnRight(families, ends, before, p);
        return Illegal;
      }
      var rights := Leaves(p.right);
      if p.left.None? {
        fault := ComputeTriggers(rights, None, []);
        NoLeftProcessed(families, ends, before, triggers, p, fault);
        return;
      }
      if exists n :: n in Leaves(p.left.value) && n.Task? && n.suicide {
        SuicideOnLeft(families, ends, before, p);
        return Illegal;
      }
      var parts := Lefts(p.left.value);
      ghost var each := AllRightCalls(families, ends, expire, rights, true);
      NoneRepeated(each);
      NoPartsYet(families, ends, before, p.left.value, rights);
      for i := 0 to |parts|
        invariant Valid()
        invariant PartsProcessed(families, ends, before, triggers, parts[..i], rights)
        invariant calls == first + Repeated(each, i)
      {
        PartUnmarked(p.left.value, parts[i]);
        ghost var sofar, middle := triggers, calls;
        fault := ProcPart(parts[i], rights);
        PartCalled(each, |parts|, i, first, middle, calls, fault);
        NextPart(families, ends, before, sofar, triggers, p, i, fault);
        if fault != NoFault {
          return;
        }
      }
      assert parts[..|parts|] == parts;
      AllParts(families, ends, before, triggers, p);
      AllCalled(first, calls, PairCalls(families, ends, expire, p));
      return NoFault;
    }

    lemma ValidRun()
      requires Valid()
      ensures OO.Run(calls) == OO.Outcome(outputOpt, true)
    {
    }

    // Record the pairs of a graph.
    method ProcPairs(pairs: seq<Pair>) returns (fault: Fault)
      requires Valid() && triggers == map[] && calls == []
      modifies this
      ensures GraphProcessed(families, ends, expire, triggers, outputOpt, pairs, fault)
      ensures fault == NoFault ==> Valid()
    {
      NoGraphCallsYet(families, ends, expire, pairs);
      hide *;
      NoPairsYet(families, ends, triggers, pairs);
      for i := 0 to |pairs|
        invariant Valid()
        invariant PairsProcessed(families, ends, triggers, pairs[..i])
        invariant calls == GraphCalls(families, ends, expire, pairs[..i])
      {
        ghost var sofar, middle := triggers, calls;
        fault := ProcDepPair(pairs[i]);
        PairCalled(families, ends, expire, pairs, i, middle, calls, fault);
        NextPair(families, ends, expire, sofar, triggers, outputOpt, pairs, i, fault);
        if fault != NoFault {
          return;
        }
      }
      assert pairs[..|pairs|] == pairs;
      ValidRun();
      AllPairs(families, ends, expire, triggers, outputOpt, pairs);
      return NoFault;
    }
  }

  // Outcomes of a part, a pair and a whole graph.

  ghost predicate OnlyAdds(fm: Families, t0: Triggers, t: Triggers, parts: seq<Expr>, rights: seq<Node>, whole: bool) {
    && (forall name, x, s :: Recorded(t, name, x, s) ==>
         Recorded(t0, name, x, s) || Asked(fm, parts, rights, name, x, s))
    && (whole ==> forall name, x, s :: Recorded(t0, name, x, s) || Asked(fm, parts, rights, name, x, s) ==>
         Recorded(t, name, x, s))
  }

  ghost predicate ContraryAsked(fm: Families, t: Triggers, parts: seq<Expr>, rights: seq<Node>) {
    exists name, x, s :: Recorded(t, name, x, s) && Asked(fm, parts, rights, name, x, !s)
  }

  ghost predicate PartProcessed(fm: Families, ends: set<Node>, t0: Triggers, t: Triggers, part: Expr,
                                rights: seq<Node>, fault: Fault) {
    && OnlyAdds(fm, t0, t, [part], rights, fault == NoFault)
    && (fault == NoFault ==> AllLegal(fm, part) && LegalRights(fm, ends, rights, true))
    && (fault == Illegal ==> !(AllLegal(fm, part) && LegalRights(fm, ends, rights, true)))
    && (fault == BothWays ==> ContraryAsked(fm, t, [part], rights))
  }

  ghost predicate PartsProcessed(fm: Families, ends: set<Node>, t0: Triggers, t: Triggers, parts: seq<Expr>, rights: seq<Node>) {
    && OnlyAdds(fm, t0, t, parts, rights, true)
    && (forall c :: c in parts ==> AllLegal(fm, c))
    && (parts != [] ==> LegalRights(fm, ends, rights, true))
  }

  ghost predicate Processed(fm: Families, ends: set<Node>, t0: Triggers, t: Triggers, p: Pair,
                            fault: Fault) {
    && (forall name, x, s :: Recorded(t, name, x, s) ==> Recorded(t0, name, x, s) || Demands(fm, p, name, x, s))
    && (fault == NoFault ==>
         && LegalPair(fm, ends, p)
         && forall name, x, s :: Recorded(t0, name, x, s) || Demands(fm, p, name, x, s) ==> Recorded(t, name, x, s))
    && (fault == Illegal ==> !LegalPair(fm, ends, p))
    && (fault == BothWays ==> exists name, x, s :: Recorded(t, name, x, s) && Demands(fm, p, name, x, !s))
  }

  ghost predicate SomeDemands(fm: Families, pairs: seq<Pair>, name: string, x: Expr, s: bool) {
    exists p :: p in pairs && Demands(fm, p, name, x, s)
  }

  ghost predicate PairsProcessed(fm: Families, ends: set<Node>, t: Triggers, pairs: seq<Pair>) {
    && (forall p :: p in pairs ==> LegalPair(fm, ends, p))
    && (forall name, x, s :: Recorded(t, name, x, s) <==> SomeDemands(fm, pairs, name, x, s))
  }

  // Without a fault, exactly what the pairs ask for is recorded, and the outputs
  // are as all that the pairs say about them makes them.  A fault has
  // its cause in the graph: a pair that is in error, the same condition asked
  // to trigger and to remove one task, or outputs whose optionality clashes.
  ghost predicate GraphProcessed(fm: Families, ends: set<Node>, expire: bool, t: Triggers, outputOpt: OO.Table,
                                 pairs: seq<Pair>, fault: Fault) {
    && (fault == NoFault ==>
         && PairsProcessed(fm, ends, t, pairs)
         && OO.Run(GraphCalls(fm, ends, expire, pairs)) == OO.Outcome(outputOpt, true))
    && (fault == Illegal ==> exists p :: p in pairs && !LegalPair(fm, ends, p))
    && (fault == Clash ==> !OO.Run(GraphCalls(fm, ends, expire, pairs)).ok)
    && (fault == BothWays ==>
         exists name, x :: SomeDemands(fm, pairs, name, x, true) && SomeDemands(fm, pairs, name, x, false))
  }

  lemma BadPart(fm: Families, ends: set<Node>, t: Triggers, part: Expr, rights: seq<Node>)
    requires !AllLegal(fm, part) || exists n :: n in Leaves(part) && n.Task? && n.name in fm && n.trigger.None?
    ensures PartProcessed(fm, ends, t, t, part, rights, Illegal)
  {
  }

  lemma GoodPart(fm: Families, ends: set<Node>, t0: Triggers, t: Triggers, part: Expr, rights: seq<Node>,
                 fault: Fault)
    requires AllLegal(fm, part)
    requires Computed(fm, ends, t0, t, Some(Compiled(fm, part)), rights, true, fault)
    ensures PartProcessed(fm, ends, t0, t, part, rights, fault)
  {
    hide Compiled, LegalRights, Recorded, Defines, Leaves;
    assert part in [part];
    forall name, x, s
      ensures Demanded(fm, Some(Compiled(fm, part)), rights, name, x, s) <==> Asked(fm, [part], rights, name, x, s)
    {
    }
    if fault == BothWays {
      var name, x, s :| Recorded(t, name, x, s) && Demanded(fm, Some(Compiled(fm, part)), rights, name, x, !s);
      assert Asked(fm, [part], rights, name, x, !s);
    }
  }

  lemma OrOnRight(fm: Families, ends: set<Node>, t: Triggers, p: Pair)
    requires HasOr(p.right)
    ensures Processed(fm, ends, t, t, p, Illegal)
  {
  }

  lemma SuicideOnLeft(fm: Families, ends: set<Node>, t: Triggers, p: Pair)
    requires p.left.Some? && exists n :: n in Leaves(p.left.value) && n.Task? && n.suicide
    ensures Processed(fm, ends, t, t, p, Illegal)
  {
  }

  lemma NoLeftProcessed(fm: Families, ends: set<Node>, t0: Triggers, t: Triggers, p: Pair,
                        fault: Fault)
    requires p.left.None? && !HasOr(p.right)
    requires Computed(fm, ends, t0, t, Settled(fm, None), Leaves(p.right), false, fault)
    ensures Processed(fm, ends, t0, t, p, fault)
  {
    hide Recorded, LegalRights, Defines, Leaves, HasOr;
  }

  lemma NoPartsYet(fm: Families, ends: set<Node>, t: Triggers, left: Expr, rights: seq<Node>)
    ensures PartsProcessed(fm, ends, t, t, Lefts(left)[..0], rights)
  {
  }

  lemma {:induction false} ConjunctLeaves(e: Expr, c: Expr)
    requires c in Conjuncts(e)
    ensures forall n :: n in Leaves(c) ==> n in Leaves(e)
  {
    if e.And? {
      if c in Conjuncts(e.l) {
        ConjunctLeaves(e.l, c);
      } else {
        ConjunctLeaves(e.r, c);
      }
    }
  }

  lemma PartUnmarked(left: Expr, part: Expr)
    requires part in Lefts(left)
    requires !exists n :: n in Leaves(left) && n.Task? && n.suicide
    ensures forall n :: n in Leaves(part) && n.Task? ==> !n.suicide
  {
    if !HasOr(left) && !HasParen(left) {
      ConjunctLeaves(left, part);
    }
  }

  lemma AskedSplit(fm: Families, parts: seq<Expr>, rights: seq<Node>, i: nat, name: string, x: Expr, s: bool)
    requires i < |parts|
    ensures Asked(fm, parts[..i + 1], rights, name, x, s) <==>
            Asked(fm, parts[..i], rights, name, x, s) || Asked(fm, [parts[i]], rights, name, x, s)
    ensures Asked(fm, parts[..i + 1], rights, name, x, s) ==> Asked(fm, parts, rights, name, x, s)
  {
    hide Compiled;
    assert parts[..i + 1] == parts[..i] + [parts[i]];
  }

  lemma NextPart(fm: Families, ends: set<Node>, t0: Triggers, t1: Triggers, t: Triggers, p: Pair, i: nat,
                 fault: Fault)
    requires p.left.Some? && i < |Lefts(p.left.value)| && !HasOr(p.right)
    requires PartsProcessed(fm, ends, t0, t1, Lefts(p.left.value)[..i], Leaves(p.right))
    requires PartProcessed(fm, ends, t1, t, Lefts(p.left.value)[i], Leaves(p.right), fault)
    ensures fault == NoFault ==> PartsProcessed(fm, ends, t0, t, Lefts(p.left.value)[..i + 1], Leaves(p.right))
    ensures fault != NoFault ==> Processed(fm, ends, t0, t, p, fault)
  {
    hide Asked, Recorded, AllLegal, LegalRights, Lefts, Leaves, HasOr;
    var parts, rights := Lefts(p.left.value), Leaves(p.right);
    forall name, x, s
      ensures Asked(fm, parts[..i + 1], rights, name, x, s) <==>
              Asked(fm, parts[..i], rights, name, x, s) || Asked(fm, [parts[i]], rights, name, x, s)
      ensures Asked(fm, parts[..i + 1], rights, name, x, s) ==> Asked(fm, parts, rights, name, x, s)
    {
      AskedSplit(fm, parts, rights, i, name, x, s);
    }
    assert parts[..i + 1] == parts[..i] + [parts[i]];
    if fault == Illegal {
      LeftsLegal(fm, p.left.value);
      assert parts[i] in parts;
    }
    if fault == BothWays {
      var name, x, s :| Recorded(t, name, x, s) && Asked(fm, [parts[i]], rights, name, x, !s);
      assert Demands(fm, p, name, x, !s);
    }
  }

  lemma {:induction false} SomeConjunct(e: Expr)
    ensures Conjuncts(e) != []
  {
    if e.And? {
      SomeConjunct(e.l);
    }
  }

  lemma AllParts(fm: Families, ends: set<Node>, t0: Triggers, t: Triggers, p: Pair)
    requires p.left.Some? && !HasOr(p.right)
    requires PartsProcessed(fm, ends, t0, t, Lefts(p.left.value), Leaves(p.right))
    ensures Processed(fm, ends, t0, t, p, NoFault)
  {
    SomeConjunct(p.left.value);
    LeftsLegal(fm, p.left.value);
    assert Lefts(p.left.value) != [];
    hide Asked, Recorded, AllLegal, LegalRights, Lefts, Leaves, HasOr, Conjuncts;
  }

  lemma NoPairsYet(fm: Families, ends: set<Node>, t: Triggers, pairs: seq<Pair>)
    requires t == map[]
    ensures PairsProcessed(fm, ends, t, pairs[..0])
  {
  }

  lemma DemandSplit(fm: Families, pairs: seq<Pair>, i: nat, name: string, x: Expr, s: bool)
    requires i < |pairs|
    ensures SomeDemands(fm, pairs[..i + 1], name, x, s) <==>
            SomeDemands(fm, pairs[..i], name, x, s) || Demands(fm, pairs[i], name, x, s)
    ensures SomeDemands(fm, pairs[..i + 1], name, x, s) ==> SomeDemands(fm, pairs, name, x, s)
  {
    hide Demands;
    assert pairs[..i + 1] == pairs[..i] + [pairs[i]];
    assert pairs[i] in pairs[..i + 1];
  }

  lemma NextPair(fm: Families, ends: set<Node>, expire: bool, t0: Triggers, t: Triggers, outputOpt: OO.Table,
                 pairs: seq<Pair>, i: nat, fault: Fault)
    requires i < |pairs|
    requires fault == Clash ==> !OO.Run(GraphCalls(fm, ends, expire, pairs)).ok
    requires PairsProcessed(fm, ends, t0, pairs[..i])
    requires Processed(fm, ends, t0, t, pairs[i], fault)
    ensures fault == NoFault ==> PairsProcessed(fm, ends, t, pairs[..i + 1])
    ensures fault != NoFault ==> GraphProcessed(fm, ends, expire, t, outputOpt, pairs, fault)
  {
    hide Demands, SomeDemands, Recorded, LegalPair, GraphCalls;
    forall name, x, s
      ensures SomeDemands(fm, pairs[..i + 1], name, x, s) <==>
              SomeDemands(fm, pairs[..i], name, x, s) || Demands(fm, pairs[i], name, x, s)
      ensures SomeDemands(fm, pairs[..i + 1], name, x, s) ==> SomeDemands(fm, pairs, name, x, s)
    {
      DemandSplit(fm, pairs, i, name, x, s);
    }
    assert pairs[..i + 1] == pairs[..i] + [pairs[i]];
    assert pairs[i] in pairs;
    if fault == BothWays {
      var name, x, s :| Recorded(t, name, x, s) && Demands(fm, pairs[i], name, x, !s);
      assert SomeDemands(fm, pairs, name, x, s) && SomeDemands(fm, pairs, name, x, !s);
    }
  }

  lemma AllPairs(fm: Families, ends: set<Node>, expire: bool, t: Triggers, outputOpt: OO.Table, pairs: seq<Pair>)
    requires PairsProcessed(fm, ends, t, pairs)
    requires OO.Run(GraphCalls(fm, ends, expire, pairs)) == OO.Outcome(outputOpt, true)
    ensures GraphProcessed(fm, ends, expire, t, outputOpt, pairs, NoFault)
  {
  }

  // What is said about outputs, node by node, pair by pair.

  // The calls that were asked for have been made, or those up to the one that failed.
  ghost predicate Called(before: seq<OO.Call>, after: seq<OO.Call>, asked: seq<OO.Call>, fault: Fault) {
    && (fault == NoFault ==> after == before + asked)
    && (fault == Clash ==> !OO.Run(after).ok && after <= before + asked)
  }

  function CallsOfRight(fm: Families, ends: set<Node>, expire: bool, n: Node, hasLeft: bool): seq<OO.Call> {
    match RightOutputs(fm, ends, n, hasLeft)
    case None => []
    case Some(said) => RightCalls(expire, n, RightMembers(fm, n.name), said, n.name in fm)
  }

  // The right side is gone through once for each part of the left.
  function Repeated(each: seq<OO.Call>, times: nat): seq<OO.Call> {
    if times == 0 then [] else Repeated(each, times - 1) + each
  }

  function PairCalls(fm: Families, ends: set<Node>, expire: bool, p: Pair): seq<OO.Call> {
    var rights := Leaves(p.right);
    if p.left.None? then AllRightCalls(fm, ends, expire, rights, false)
    else Repeated(AllRightCalls(fm, ends, expire, rights, true), |Lefts(p.left.value)|)
  }

  function GraphCalls(fm: Families, ends: set<Node>, expire: bool, pairs: seq<Pair>): seq<OO.Call> {
    if pairs == [] then []
    else GraphCalls(fm, ends, expire, pairs[..|pairs| - 1]) + PairCalls(fm, ends, expire, pairs[|pairs| - 1])
  }

  lemma NoCallsKnown(before: seq<OO.Call>, after: seq<OO.Call>, asked: seq<OO.Call>, fault: Fault)
    requires fault == Illegal || fault == BothWays
    ensures Called(before, after, asked, fault)
  {
  }

  lemma AllCalled(before: seq<OO.Call>, after: seq<OO.Call>, asked: seq<OO.Call>)
    requires after == before + asked
    ensures Called(before, after, asked, NoFault)
  {
  }

  lemma CalledNext(before: seq<OO.Call>, middle: seq<OO.Call>, after: seq<OO.Call>,
                   sofar: seq<OO.Call>, next: seq<OO.Call>, asked: seq<OO.Call>, fault: Fault)
    requires middle == before + sofar && sofar + next <= asked && Called(middle, after, next, fault)
    ensures fault == NoFault ==> after == before + (sofar + next)
    ensures fault != NoFault ==> Called(before, after, asked, fault)
  {
    if fault == Clash {
      assert middle + next == before + (sofar + next);
      assert before + (sofar + next) <= before + asked;
    }
  }

  lemma {:induction false} OutputCallsSoFar(name: string, outputs: seq<Trigger>, optional: bool, suicide: bool, member: bool, i: nat)
    requires i <= |outputs|
    ensures OutputCalls(name, outputs[..i], optional, suicide, member) <=
            OutputCalls(name, outputs, optional, suicide, member)
    decreases |outputs|
  {
    if i < |outputs| {
      assert outputs[..|outputs| - 1][..i] == outputs[..i];
      OutputCallsSoFar(name, outputs[..|outputs| - 1], optional, suicide, member, i);
    } else {
      assert outputs[..i] == outputs;
    }
  }

  lemma NoOutputsCalled(name: string, optional: bool, suicide: bool, member: bool)
    ensures OutputCalls(name, [], optional, suicide, member) == []
  {
  }

  lemma OutputCalled(name: string, outputs: seq<Trigger>, optional: bool, suicide: bool, member: bool, i: nat,
                     first: seq<OO.Call>, after: seq<OO.Call>, ok: bool)
    requires i < |outputs| && ok == OO.Run(after).ok
    requires after == first + OutputCalls(name, outputs[..i], optional, suicide, member)
                      + [OO.Call(name, outputs[i], optional, suicide, member)]
    ensures after == first + OutputCalls(name, outputs[..i + 1], optional, suicide, member)
    ensures !ok ==> Called(first, after, OutputCalls(name, outputs, optional, suicide, member), Clash)
  {
    assert outputs[..i + 1][..i] == outputs[..i];
    OutputCallsSoFar(name, outputs, optional, suicide, member, i + 1);
    hide OO.Run;
  }

  lemma {:induction false} RightCallsSoFar(expire: bool, n: Node, members: seq<string>, said: (seq<Trigger>, bool),
                                           member: bool, i: nat)
    requires n.Task? && i <= |members|
    ensures RightCalls(expire, n, members[..i], said, member) <= RightCalls(expire, n, members, said, member)
    decreases |members|
  {
    if i < |members| {
      assert members[..|members| - 1][..i] == members[..i];
      RightCallsSoFar(expire, n, members[..|members| - 1], said, member, i);
    } else {
      assert members[..i] == members;
    }
  }

  lemma MemberCalled(expire: bool, n: Node, members: seq<string>, i: nat, said: (seq<Trigger>, bool), member: bool,
                     first: seq<OO.Call>, middle: seq<OO.Call>, after: seq<OO.Call>, fault: Fault)
    requires n.Task? && i < |members|
    requires middle == first + RightCalls(expire, n, members[..i], said, member)
                       + (if n.offset == "" then ExpireCalls(expire, n.suicide, members[i]) else [])
    requires Called(middle, after, OutputCalls(members[i], said.0, said.1, n.suicide, member), fault)
    ensures fault == NoFault ==> after == first + RightCalls(expire, n, members[..i + 1], said, member)
    ensures fault != NoFault ==> Called(first, after, RightCalls(expire, n, members, said, member), fault)
  {
    NextCalls(expire, n, members, i, said, member);
    RightCallsSoFar(expire, n, members, said, member, i + 1);
    hide RightCalls, OutputCalls, ExpireCalls, Called;
    var sofar := RightCalls(expire, n, members[..i], said, member)
                 + (if n.offset == "" then ExpireCalls(expire, n.suicide, members[i]) else []);
    assert middle == first + sofar;
    CalledNext(first, middle, after, sofar, OutputCalls(members[i], said.0, said.1, n.suicide, member),
               RightCalls(expire, n, members, said, member), fault);
  }

  lemma {:induction false} AllRightCallsSoFar(fm: Families, ends: set<Node>, expire: bool, rights: seq<Node>, hasLeft: bool, i: nat)
    requires i <= |rights|
    ensures AllRightCalls(fm, ends, expire, rights[..i], hasLeft) <= AllRightCalls(fm, ends, expire, rights, hasLeft)
    decreases |rights|
  {
    if i < |rights| {
      assert rights[..|rights| - 1][..i] == rights[..i];
      AllRightCallsSoFar(fm, ends, expire, rights[..|rights| - 1], hasLeft, i);
    } else {
      assert rights[..i] == rights;
    }
  }

  lemma RightCalled(fm: Families, ends: set<Node>, expire: bool, rights: seq<Node>, i: nat, hasLeft: bool,
                    first: seq<OO.Call>, middle: seq<OO.Call>, after: seq<OO.Call>, fault: Fault)
    requires i < |rights| && middle == first + AllRightCalls(fm, ends, expire, rights[..i], hasLeft)
    requires Called(middle, after, CallsOfRight(fm, ends, expire, rights[i], hasLeft), fault)
    ensures fault == NoFault ==> after == first + AllRightCalls(fm, ends, expire, rights[..i + 1], hasLeft)
    ensures fault != NoFault ==> Called(first, after, AllRightCalls(fm, ends, expire, rights, hasLeft), fault)
  {
    assert rights[..i + 1][..i] == rights[..i];
    AllRightCallsSoFar(fm, ends, expire, rights, hasLeft, i + 1);
    CalledNext(first, middle, after, AllRightCalls(fm, ends, expire, rights[..i], hasLeft),
               CallsOfRight(fm, ends, expire, rights[i], hasLeft),
               AllRightCalls(fm, ends, expire, rights, hasLeft), fault);
  }

  lemma NoneRepeated(each: seq<OO.Call>)
    ensures Repeated(each, 0) == []
  {
  }

  lemma {:induction false} RepeatedSoFar(each: seq<OO.Call>, i: nat, times: nat)
    requires i <= times
    ensures Repeated(each, i) <= Repeated(each, times)
  {
    if i < times {
      RepeatedSoFar(each, i, times - 1);
    }
  }

  lemma PartCalled(each: seq<OO.Call>, times: nat, i: nat, first: seq<OO.Call>, middle: seq<OO.Call>,
                   after: seq<OO.Call>, fault: Fault)
    requires i < times && middle == first + Repeated(each, i) && Called(middle, after, each, fault)
    ensures fault == NoFault ==> after == first + Repeated(each, i + 1)
    ensures fault != NoFault ==> Called(first, after, Repeated(each, times), fault)
  {
    RepeatedSoFar(each, i + 1, times);
    CalledNext(first, middle, after, Repeated(each, i), each, Repeated(each, times), fault);
  }

  lemma PairCallsAre(fm: Families, ends: set<Node>, expire: bool, p: Pair)
    ensures PairCalls(fm, ends, expire, p) ==
            if p.left.None? then AllRightCalls(fm, ends, expire, Leaves(p.right), false)
            else Repeated(AllRightCalls(fm, ends, expire, Leaves(p.right), true), |Lefts(p.left.value)|)
  {
  }

  lemma NoGraphCallsYet(fm: Families, ends: set<Node>, expire: bool, pairs: seq<Pair>)
    ensures GraphCalls(fm, ends, expire, pairs[..0]) == []
  {
  }

  lemma {:induction false} GraphCallsSoFar(fm: Families, ends: set<Node>, expire: bool, pairs: seq<Pair>, i: nat)
    requires i <= |pairs|
    ensures GraphCalls(fm, ends, expire, pairs[..i]) <= GraphCalls(fm, ends, expire, pairs)
    decreases |pairs|
  {
    if i < |pairs| {
      assert pairs[..|pairs| - 1][..i] == pairs[..i];
      GraphCallsSoFar(fm, ends, expire, pairs[..|pairs| - 1], i);
    } else {
      assert pairs[..i] == pairs;
    }
  }

  // A graph is rejected for its outputs only when all that it says of them is.
  lemma PairCalled(fm: Families, ends: set<Node>, expire: bool, pairs: seq<Pair>, i: nat,
                   middle: seq<OO.Call>, after: seq<OO.Call>, fault: Fault)
    requires i < |pairs| && middle == GraphCalls(fm, ends, expire, pairs[..i])
    requires Called(middle, after, PairCalls(fm, ends, expire, pairs[i]), fault)
    ensures fault == NoFault ==> after == GraphCalls(fm, ends, expire, pairs[..i + 1])
    ensures fault == Clash ==> !OO.Run(GraphCalls(fm, ends, expire, pairs)).ok
  {
    assert pairs[..i + 1][..i] == pairs[..i];
    GraphCallsSoFar(fm, ends, expire, pairs, i + 1);
    if fault == Clash {
      var all := GraphCalls(fm, ends, expire, pairs);
      assert all == after + all[|after|..];
      if OO.Run(all).ok {
        OO.RunPrefix(after, all[|after|..]);
      }
    }
  }

  // The pair's right side names the task, with or without a suicide mark.
  ghost predicate Targets(fm: Families, p: Pair, name: string, suicide: bool) {
    p.left.Some? && exists n :: n in Leaves(p.right) && Defines(fm, n, name, suicide)
  }

  // Once a graph is accepted, the conditions recorded for a task hold together
  // exactly when every left side written for it does, whatever is complete.
  lemma RecordedMeansWritten(fm: Families, ends: set<Node>, t: Triggers, pairs: seq<Pair>,
                             name: string, suicide: bool, done: set<Atom>)
    requires Proper(fm) && PairsProcessed(fm, ends, t, pairs)
    ensures (forall x :: Recorded(t, name, x, suicide) ==> Holds(done, x)) <==>
            (forall p :: p in pairs && Targets(fm, p, name, suicide) ==> Truth(AsMapped, fm, done, p.left.value))
  {
    hide Compiled, Holds, Truth, Lefts, Leaves, Defines, AllLegal, LegalRights, HasOr, Recorded, Proper;
    forall p | p in pairs && p.left.Some?
      ensures (forall c :: c in Lefts(p.left.value) ==> Holds(done, Compiled(fm, c))) <==>
              Truth(AsMapped, fm, done, p.left.value)
    {
      PartsMeanTheWhole(fm, done, p.left.value);
    }
    if forall x :: Recorded(t, name, x, suicide) ==> Holds(done, x) {
      forall p | p in pairs && Targets(fm, p, name, suicide) ensures Truth(AsMapped, fm, done, p.left.value) {
        forall c | c in Lefts(p.left.value) ensures Holds(done, Compiled(fm, c)) {
          assert Demands(fm, p, name, Compiled(fm, c), suicide);
          assert SomeDemands(fm, pairs, name, Compiled(fm, c), suicide);
        }
      }
    }
    if forall p :: p in pairs && Targets(fm, p, name, suicide) ==> Truth(AsMapped, fm, done, p.left.value) {
      forall x | Recorded(t, name, x, suicide) ensures Holds(done, x) {
        var p :| p in pairs && Demands(fm, p, name, x, suicide);
        var c :| c in Lefts(p.left.value) && x == Compiled(fm, c);
        assert Targets(fm, p, name, suicide);
      }
    }
  }

  // So it is as the graph was written, but for families' submit-fail-any.
  lemma RecordedAsWritten(fm: Families, ends: set<Node>, t: Triggers, pairs: seq<Pair>,
                          name: string, suicide: bool, done: set<Atom>)
    requires Proper(fm) && PairsProcessed(fm, ends, t, pairs)
    requires forall p, n :: p in pairs && p.left.Some? && n in Leaves(p.left.value) ==> !SubmitFailAny(n)
    ensures (forall x :: Recorded(t, name, x, suicide) ==> Holds(done, x)) <==>
            (forall p :: p in pairs && Targets(fm, p, name, suicide) ==> Truth(AsWritten, fm, done, p.left.value))
  {
    RecordedMeansWritten(fm, ends, t, pairs, name, suicide, done);
    forall p | p in pairs && p.left.Some?
      ensures Truth(AsMapped, fm, done, p.left.value) == Truth(AsWritten, fm, done, p.left.value)
    {
      ReadingsAgree(fm, done, p.left.value);
    }
  }

  lemma NothingYet(fm: Families, r: Rewrite, ns: seq<Node>)
    ensures Keys(ns[..0]) == {} && Images(fm, r, ns[..0]) == [] && Bares([]) == []
  {
  }

  lemma SettledIs(fm: Families, e: Option<Expr>)
    ensures Settled(fm, e) == if e.None? then None else Some(Rewritten(fm, Finishes, e.value))
  {
  }

  lemma FinishLeaves(fm: Families, n: Node)
    ensures Leaves(Image(fm, Finishes, n)) ==
            if IsFinish(n) then [n.(trigger := Some(Builtin(Succeeded))), n.(trigger := Some(Builtin(Failed)))] else [n]
  {
    if IsFinish(n) {
      var a, b := Leaf(n.(trigger := Some(Builtin(Succeeded)))), Leaf(n.(trigger := Some(Builtin(Failed))));
      assert Leaves(Or(a, b)) == Leaves(a) + Leaves(b);
    }
  }

  lemma LoneLeaf(fm: Families, n: Node)
    requires !IsFamilyTrigger(fm, n)
    ensures Leaves(Image(fm, Members, n)) == [n]
  {
  }

  lemma NamedLeaf(fm: Families, n: Node)
    ensures Bares(Leaves(Image(fm, Names, n))) ==
            [if n.Xtrigger? then n else Task(n.suicide, n.name, n.offset, Some(Explicit(n.trigger)), false)]
  {
    var m := Image(fm, Names, n).node;
    assert Bares([m]) == Bares([]) + [Bare(m)];
  }

  // The expression as it is recorded, from the one with the families replaced.
  function Settled(fm: Families, e: Option<Expr>): Option<Expr> {
    if e.None? then None else Some(Rewritten(fm, Finishes, e.value))
  }

  function AllRightCalls(fm: Families, ends: set<Node>, expire: bool, rights: seq<Node>, hasLeft: bool): seq<OO.Call> {
    if rights == [] then []
    else
      AllRightCalls(fm, ends, expire, rights[..|rights| - 1], hasLeft)
      + CallsOfRight(fm, ends, expire, rights[|rights| - 1], hasLeft)
  }

  lemma NoRightCallsYet(fm: Families, ends: set<Node>, expire: bool, rights: seq<Node>, hasLeft: bool)
    ensures AllRightCalls(fm, ends, expire, rights[..0], hasLeft) == []
  {
  }

  // What becomes of one expression and its right-hand nodes.
  ghost predicate Computed(fm: Families, ends: set<Node>, t0: Triggers, t: Triggers, e: Option<Expr>,
                           rights: seq<Node>, hasLeft: bool, fault: Fault) {
    && Extended(fm, t0, t, e, rights, fault == NoFault)
    && (fault == NoFault ==> LegalRights(fm, ends, rights, hasLeft))
    && (fault == Illegal ==> !LegalRights(fm, ends, rights, hasLeft))
    && (fault == BothWays ==> Contrary(fm, t, e, rights))
  }

  lemma NothingComputed(fm: Families, ends: set<Node>, t: Triggers, e: Option<Expr>, rights: seq<Node>, hasLeft: bool)
    ensures Extended(fm, t, t, e, rights[..0], true) && LegalRights(fm, ends, rights[..0], hasLeft)
  {
  }

  lemma AllComputed(fm: Families, ends: set<Node>, t0: Triggers, t: Triggers, e: Option<Expr>,
                    rights: seq<Node>, hasLeft: bool)
    requires Extended(fm, t0, t, e, rights, true) && LegalRights(fm, ends, rights, hasLeft)
    ensures Computed(fm, ends, t0, t, e, rights, hasLeft, NoFault)
  {
  }

  lemma DemandedSplit(fm: Families, e: Option<Expr>, rights: seq<Node>, i: nat, name: string, x: Expr, s: bool)
    requires i < |rights|
    ensures Demanded(fm, e, rights[..i + 1], name, x, s) <==>
            Demanded(fm, e, rights[..i], name, x, s) || Demanded(fm, e, [rights[i]], name, x, s)
    ensures Demanded(fm, e, rights[..i + 1], name, x, s) ==> Demanded(fm, e, rights, name, x, s)
  {
    assert rights[..i + 1] == rights[..i] + [rights[i]];
  }

  lemma NextRight(fm: Families, ends: set<Node>, t0: Triggers, t1: Triggers, t: Triggers, e: Option<Expr>,
                  rights: seq<Node>, i: nat, hasLeft: bool, fault: Fault)
    requires i < |rights|
    requires Extended(fm, t0, t1, e, rights[..i], true) && LegalRights(fm, ends, rights[..i], hasLeft)
    requires Extended(fm, t1, t, e, [rights[i]], fault == NoFault)
    requires fault == Illegal <==> RightOutputs(fm, ends, rights[i], hasLeft).None?
    requires fault == BothWays ==> Contrary(fm, t, e, [rights[i]])
    ensures fault == NoFault ==>
              Extended(fm, t0, t, e, rights[..i + 1], true) && LegalRights(fm, ends, rights[..i + 1], hasLeft)
    ensures fault != NoFault ==> Computed(fm, ends, t0, t, e, rights, hasLeft, fault)
  {
    hide Demanded, Recorded, RightOutputs;
    forall name, x, s
      ensures Demanded(fm, e, rights[..i + 1], name, x, s) <==>
              Demanded(fm, e, rights[..i], name, x, s) || Demanded(fm, e, [rights[i]], name, x, s)
      ensures Demanded(fm, e, rights[..i + 1], name, x, s) ==> Demanded(fm, e, rights, name, x, s)
    {
      DemandedSplit(fm, e, rights, i, name, x, s);
    }
    assert rights[..i + 1] == rights[..i] + [rights[i]];
    assert rights[i] in rights;
    if fault == BothWays {
      var name, x, s :| Recorded(t, name, x, s) && Demanded(fm, e, [rights[i]], name, x, !s);
      assert Demanded(fm, e, rights, name, x, !s);
    }
  }

  lemma NoCallsYet(expire: bool, n: Node, said: (seq<Trigger>, bool), member: bool)
    requires n.Task?
    ensures RightCalls(expire, n, [], said, member) == []
  {
  }

  lemma NextCalls(expire: bool, n: Node, members: seq<string>, i: nat, said: (seq<Trigger>, bool), member: bool)
    requires n.Task? && i < |members|
    ensures RightCalls(expire, n, members[..i + 1], said, member) ==
            RightCalls(expire, n, members[..i], said, member)
            + (if n.offset == "" then ExpireCalls(expire, n.suicide, members[i]) else [])
            + OutputCalls(members[i], said.0, said.1, n.suicide, member)
  {
    assert members[..i + 1][..i] == members[..i];
  }

  // The triggers recorded while the members of a right-hand node are gone through.

  ghost predicate MembersAdded(t0: Triggers, t: Triggers, e: Option<Expr>, n: Node, members: seq<string>) {
    forall name, x, s :: Recorded(t, name, x, s) <==>
      Recorded(t0, name, x, s) || (e == Some(x) && n.Task? && n.offset == "" && n.suicide == s && name in members)
  }

  // Nothing but what the right-hand nodes ask for has been added, and all of it if whole.
  ghost predicate Extended(fm: Families, t0: Triggers, t: Triggers, e: Option<Expr>, rights: seq<Node>, whole: bool) {
    && (forall name, x, s :: Recorded(t, name, x, s) ==>
         Recorded(t0, name, x, s) || Demanded(fm, e, rights, name, x, s))
    && (whole ==> forall name, x, s :: Recorded(t0, name, x, s) || Demanded(fm, e, rights, name, x, s) ==>
         Recorded(t, name, x, s))
  }

  // One of the nodes asks for the opposite of what is recorded.
  ghost predicate Contrary(fm: Families, t: Triggers, e: Option<Expr>, rights: seq<Node>) {
    exists name, x, s :: Recorded(t, name, x, s) && Demanded(fm, e, rights, name, x, !s)
  }

  lemma NothingAdded(fm: Families, t: Triggers, e: Option<Expr>, rights: seq<Node>)
    ensures Extended(fm, t, t, e, rights, false)
  {
  }

  lemma NoMembersYet(t: Triggers, e: Option<Expr>, n: Node)
    ensures MembersAdded(t, t, e, n, [])
  {
  }

  lemma MembersExtend(fm: Families, t0: Triggers, t: Triggers, e: Option<Expr>, n: Node, members: seq<string>, i: nat)
    requires i <= |members| && n.Task? && members == RightMembers(fm, n.name)
    requires MembersAdded(t0, t, e, n, members[..i])
    ensures Extended(fm, t0, t, e, [n], false)
    ensures i == |members| ==> Extended(fm, t0, t, e, [n], true)
  {
    assert n in [n];
    forall name ensures name in members <==> if n.name in fm then name in fm[n.name] else name == n.name {
      RightMembersAre(fm, n.name, name);
    }
    forall name, x, s | Recorded(t, name, x, s) && !Recorded(t0, name, x, s)
      ensures Demanded(fm, e, [n], name, x, s)
    {
      assert Defines(fm, n, name, s);
    }
    if i == |members| {
      assert members[..i] == members;
    }
  }

  lemma BothWaysContrary(fm: Families, t: Triggers, e: Option<Expr>, n: Node, name: string)
    requires e.Some? && n.Task? && n.offset == "" && name in RightMembers(fm, n.name)
    requires Recorded(t, name, e.value, !n.suicide)
    ensures Contrary(fm, t, e, [n])
  {
    RightMembersAre(fm, n.name, name);
    assert n in [n] && Defines(fm, n, name, n.suicide);
    assert Demanded(fm, e, [n], name, e.value, !!n.suicide);
  }

  lemma OneMoreMember(t0: Triggers, t: Triggers, e: Option<Expr>, n: Node, waits: seq<Node>, members: seq<string>, i: nat)
    requires i < |members| && n.Task? && n.offset == ""
    requires MembersAdded(t0, t, e, n, members[..i])
    requires e.Some? ==> !Recorded(t, members[i], e.value, !n.suicide)
    ensures MembersAdded(t0, Noted(t, members[i], e, Trigs(waits, n.suicide)), e, n, members[..i + 1])
  {
    var u := Noted(t, members[i], e, Trigs(waits, n.suicide));
    forall name, x, s
      ensures Recorded(u, name, x, s) <==>
              Recorded(t, name, x, s) || (e == Some(x) && n.suicide == s && name == members[i])
    {
      if name == members[i] && name in t && e == Some(x) && Some(x) in t[name] {
        assert Recorded(t, name, x, t[name][e].suicide);
      }
    }
    assert members[..i + 1] == members[..i] + [members[i]];
  }

  lemma OffsetAddsNone(t0: Triggers, t: Triggers, e: Option<Expr>, n: Node, members: seq<string>, i: nat)
    requires i < |members| && n.Task? && n.offset != ""
    requires MembersAdded(t0, t, e, n, members[..i])
    ensures MembersAdded(t0, t, e, n, members[..i + 1])
  {
  }

  // Nothing can make expiry required, so declaring it optional never fails.
  lemma ExpiryAccepted(calls: seq<OO.Call>, name: string)
    requires OO.Run(calls).ok
    ensures OO.Run(calls + [OO.Call(name, Builtin(Expired), true, false, false)]).ok
  {
    var call := OO.Call(name, Builtin(Expired), true, false, false);
    assert (calls + [call])[..|calls|] == calls;
    OO.RunSound(calls);
    OO.OneClaim(OO.Run(calls).table, OO.Claims(call)[0]);
  }
}
