// Prerequisites of a task and their cached satisfaction (prerequisite.py).

module Prerequisites {
  import opened Wrappers

  datatype Output = Output(point: string, task: string, output: string)

  // get_id
  function IdOf(k: Output): string {
    k.point + "/" + k.task
  }

  datatype Satisfied = Naturally | FromDatabase | BySkipMode | Forced | Unsatisfied

  // A condition.  Msg is an output as the graph writes it; Ref is one that has
  // been replaced by a look-up.  Evaluating a Msg left over is a syntax error.
  datatype Expr = Msg(key: Output) | Ref(key: Output) | And(l: Expr, r: Expr) | Or(l: Expr, r: Expr)

  predicate HasOr(e: Expr) {
    match e
    case Msg(_) => false
    case Ref(_) => false
    case And(l, r) => HasOr(l) || HasOr(r)
    case Or(_, _) => true
  }

  function Substitute(e: Expr, known: set<Output>): Expr {
    match e
    case Msg(k) => if k in known then Ref(k) else e
    case Ref(_) => e
    case And(l, r) => And(Substitute(l, known), Substitute(r, known))
    case Or(l, r) => Or(Substitute(l, known), Substitute(r, known))
  }

  function Leaves(e: Expr): set<Output> {
    match e
    case Msg(k) => {k}
    case Ref(k) => {k}
    case And(l, r) => Leaves(l) + Leaves(r)
    case Or(l, r) => Leaves(l) + Leaves(r)
  }

  predicate AllMsg(e: Expr) {
    match e
    case Msg(_) => true
    case Ref(_) => false
    case And(l, r) => AllMsg(l) && AllMsg(r)
    case Or(l, r) => AllMsg(l) && AllMsg(r)
  }

  function Refs(e: Expr): set<Output> {
    match e
    case Msg(_) => {}
    case Ref(k) => {k}
    case And(l, r) => Refs(l) + Refs(r)
    case Or(l, r) => Refs(l) + Refs(r)
  }

  type Outputs = map<Output, Satisfied>

  predicate Is(sat: Outputs, k: Output) {
    k in sat && sat[k] != Unsatisfied
  }

  // None is the TriggerExpressionError.  The operators do not short-circuit.
  function Eval(e: Expr, sat: Outputs): Option<bool> {
    match e
    case Msg(_) => None
    case Ref(k) => Some(Is(sat, k))
    case And(l, r) =>
      var a, b := Eval(l, sat), Eval(r, sat);
      if a.None? || b.None? then None else Some(a.value && b.value)
    case Or(l, r) =>
      var a, b := Eval(l, sat), Eval(r, sat);
      if a.None? || b.None? then None else Some(a.value || b.value)
  }

  // The truth of a condition as the graph writes it.
  predicate Truth(e: Expr, sat: Outputs) {
    match e
    case Msg(k) => Is(sat, k)
    case Ref(k) => Is(sat, k)
    case And(l, r) => Truth(l, sat) && Truth(r, sat)
    case Or(l, r) => Truth(l, sat) || Truth(r, sat)
  }

  // The condition evaluates, to its truth, exactly when every output that it
  // names was registered before the expression was set.
  lemma {:induction false} EvalIsTruth(e: Expr, known: set<Output>, sat: Outputs)
    requires AllMsg(e)
    ensures Eval(Substitute(e, known), sat) == if Leaves(e) <= known then Some(Truth(e, sat)) else None
  {
    match e
    case Msg(k) =>
    case And(l, r) =>
      EvalIsTruth(l, known, sat);
      EvalIsTruth(r, known, sat);
    case Or(l, r) =>
      EvalIsTruth(l, known, sat);
      EvalIsTruth(r, known, sat);
  }

  // Whether evaluation fails does not depend on the outputs, and satisfying more
  // of them never makes a condition false.
  lemma {:induction false} EvalMonotone(e: Expr, sat: Outputs, more: Outputs)
    requires forall k :: Is(sat, k) ==> Is(more, k)
    ensures Eval(e, sat).None? <==> Eval(e, more).None?
    ensures Eval(e, sat) == Some(true) ==> Eval(e, more) == Some(true)
  {
    match e
    case Msg(_) =>
    case Ref(_) =>
    case And(l, r) =>
      EvalMonotone(l, sat, more);
      EvalMonotone(r, sat, more);
    case Or(l, r) =>
      EvalMonotone(l, sat, more);
      EvalMonotone(r, sat, more);
  }

  /* ---- the state and its operations ---- */

  datatype State = State(sat: Outputs, expr: Option<Expr>, cached: Option<bool>)

  const Empty := State(map[], None, None)

  // What the state says, without the cache.
  function Direct(s: State): Option<bool> {
    if s.sat == map[] then Some(true)
    else match s.expr
      case None => Some(forall k :: k in s.sat ==> s.sat[k] != Unsatisfied)
      case Some(e) => Eval(e, s.sat)
  }

  function SetItem(s: State, k: Output, v: Satisfied): State {
    State(s.sat[k := v], s.expr, if s.cached == Some(true) && v != Unsatisfied then s.cached else None)
  }

  function SetExpr(s: State, e: Expr): State {
    State(s.sat, if HasOr(e) then Some(Substitute(e, s.sat.Keys)) else s.expr, None)
  }

  // The answer and the state after it; without an answer an exception is raised.
  function Ask(s: State): (Option<bool>, State) {
    if s.cached.Some? then (s.cached, s)
    else if s.sat == map[] then (Some(true), s)
    else
      var r := match s.expr
        case None => Some(forall k :: k in s.sat ==> s.sat[k] != Unsatisfied)
        case Some(e) => Eval(e, s.sat);
      (r, if r.Some? then s.(cached := r) else s)
  }

  function SatisfyOne(s: State, k: Output, v: Satisfied): State {
    if k in s.sat && s.sat[k] == Unsatisfied then SetItem(s, k, v) else s
  }

  function SatisfyAll(s: State, ks: seq<Output>, v: Satisfied): State
    decreases |ks|
  {
    if ks == [] then s else SatisfyAll(SatisfyOne(s, ks[0], v), ks[1..], v)
  }

  function ForceAll(sat: Outputs): Outputs {
    map k | k in sat :: if sat[k] == Unsatisfied then Forced else sat[k]
  }

  // When the evaluation raises, the outputs have been forced but the cache stays.
  function Force(s: State): State {
    var sat := ForceAll(s.sat);
    match s.expr
    case None => State(sat, s.expr, Some(true))
    case Some(e) => State(sat, s.expr, if Eval(e, sat).Some? then Eval(e, sat) else s.cached)
  }

  predicate Unsets(s: State, id: string, k: Output) {
    k in s.sat && IdOf(k) == id && s.sat[k] != Unsatisfied && s.sat[k] != Forced
  }

  function Unset(s: State, id: string): State {
    if exists k :: k in s.sat && Unsets(s, id, k) then
      State(map k | k in s.sat :: if Unsets(s, id, k) then Unsatisfied else s.sat[k], s.expr, None)
    else s
  }

  datatype Op =
    | Register(key: Output, value: Satisfied)
    | SetCondition(expr: Expr)
    | Query
    | SatisfyMe(outputs: seq<Output>, how: Satisfied)
    | SetSatisfied
    | UnsetNaturally(id: string)

  function Apply(s: State, op: Op): State {
    match op
    case Register(k, v) => SetItem(s, k, v)
    case SetCondition(e) => SetExpr(s, e)
    case Query => Ask(s).1
    case SatisfyMe(ks, v) => SatisfyAll(s, ks, v)
    case SetSatisfied => Force(s)
    case UnsetNaturally(id) => Unset(s, id)
  }

  function Run(s: State, ops: seq<Op>): State
    decreases |ops|
  {
    if ops == [] then s else Run(Apply(s, ops[0]), ops[1..])
  }

  /* ---- the cache is never wrong ---- */

  ghost predicate Coherent(s: State) {
    && (s.cached.Some? ==> Direct(s) == s.cached)
    && (s.expr.Some? ==> HasOr(s.expr.value) && Refs(s.expr.value) <= s.sat.Keys)
    && (s.expr.Some? && s.sat == map[] ==> s.cached.None?)
  }

  lemma {:induction false} SubstituteFacts(e: Expr, known: set<Output>)
    ensures HasOr(Substitute(e, known)) <==> HasOr(e)
    ensures Refs(Substitute(e, known)) <= known + Refs(e)
    ensures AllMsg(e) ==> Refs(e) == {}
  {
    match e
    case Msg(_) =>
    case Ref(_) =>
    case And(l, r) => SubstituteFacts(l, known); SubstituteFacts(r, known);
    case Or(l, r) => SubstituteFacts(l, known); SubstituteFacts(r, known);
  }

  // A condition over no registered output at all does not evaluate.
  lemma {:induction false} NoRefsNoValue(e: Expr, sat: Outputs)
    requires Refs(e) == {}
    ensures Eval(e, sat).None?
  {
    match e
    case Msg(_) =>
    case And(l, r) => NoRefsNoValue(l, sat);
    case Or(l, r) => NoRefsNoValue(l, sat);
  }

  lemma SetItemCoherent(s: State, k: Output, v: Satisfied)
    requires Coherent(s)
    ensures Coherent(SetItem(s, k, v))
  {
    var s' := SetItem(s, k, v);
    if s'.cached.Some? {
      assert forall j :: Is(s.sat, j) ==> Is(s'.sat, j);
      if s.expr.Some? {
        EvalMonotone(s.expr.value, s.sat, s'.sat);
      }
    }
  }

  lemma {:induction false} SatisfyAllCoherent(s: State, ks: seq<Output>, v: Satisfied)
    requires Coherent(s)
    ensures Coherent(SatisfyAll(s, ks, v))
    decreases |ks|
  {
    if ks != [] {
      SetItemCoherent(s, ks[0], v);
      SatisfyAllCoherent(SatisfyOne(s, ks[0], v), ks[1..], v);
    }
  }

  lemma ForceCoherent(s: State)
    requires Coherent(s)
    ensures Coherent(Force(s))
  {
    var sat := ForceAll(s.sat);
    assert sat.Keys == s.sat.Keys;
    if s.expr.Some? {
      EvalMonotone(s.expr.value, s.sat, sat);
      if s.sat == map[] { NoRefsNoValue(s.expr.value, sat); }
    }
  }

  lemma UnsetCoherent(s: State, id: string)
    requires Coherent(s)
    ensures Coherent(Unset(s, id))
  {
    assert Unset(s, id).sat.Keys == s.sat.Keys;
  }

  lemma SetExprCoherent(s: State, e: Expr)
    requires Coherent(s) && AllMsg(e)
    ensures Coherent(SetExpr(s, e))
  {
    SubstituteFacts(e, s.sat.Keys);
  }

  // Expressions come from the graph, with no look-up in them yet.
  predicate Legal(op: Op) {
    op.SetCondition? ==> AllMsg(op.expr)
  }

  lemma ApplyCoherent(s: State, op: Op)
    requires Coherent(s) && Legal(op)
    ensures Coherent(Apply(s, op))
  {
    match op
    case Register(k, v) => SetItemCoherent(s, k, v);
    case SetCondition(e) => SetExprCoherent(s, e);
    case Query =>
    case SatisfyMe(ks, v) => SatisfyAllCoherent(s, ks, v);
    case SetSatisfied => ForceCoherent(s);
    case UnsetNaturally(id) => UnsetCoherent(s, id);
  }

  lemma {:induction false} RunCoherent(s: State, ops: seq<Op>)
    requires Coherent(s) && forall i :: 0 <= i < |ops| ==> Legal(ops[i])
    ensures Coherent(Run(s, ops))
    decreases |ops|
  {
    if ops != [] {
      ApplyCoherent(s, ops[0]);
      RunCoherent(Apply(s, ops[0]), ops[1..]);
    }
  }

  // After any operations on a new prerequisite the answer is that of direct
  // evaluation, and asking does not change what would be answered next.
  lemma AnswerIsDirect(ops: seq<Op>)
    requires forall i :: 0 <= i < |ops| ==> Legal(ops[i])
    ensures var s := Run(Empty, ops);
            Ask(s).0 == Direct(s) && Direct(Ask(s).1) == Direct(s)
  {
    RunCoherent(Empty, ops);
  }

  // The answer in the graph's own terms.

  lemma {:induction false} AndOnlyTruth(e: Expr, sat: Outputs)
    requires !HasOr(e)
    ensures Truth(e, sat) <==> forall k :: k in Leaves(e) ==> Is(sat, k)
  {
    match e
    case Msg(_) =>
    case Ref(_) =>
    case And(l, r) =>
      AndOnlyTruth(l, sat);
      AndOnlyTruth(r, sat);
  }

  lemma {:induction false} SomeLeaf(e: Expr)
    ensures Leaves(e) != {}
  {
    match e
    case Msg(_) =>
    case Ref(_) =>
    case And(l, r) => SomeLeaf(l);
    case Or(l, r) => SomeLeaf(l);
  }

  // Operations that leave the condition alone and register none but the given outputs.
  predicate Plain(op: Op, known: set<Output>) {
    !op.SetCondition? && (op.Register? ==> op.key in known)
  }

  lemma {:induction false} SatisfyPlain(s: State, ks: seq<Output>, v: Satisfied)
    ensures SatisfyAll(s, ks, v).sat.Keys == s.sat.Keys && SatisfyAll(s, ks, v).expr == s.expr
    decreases |ks|
  {
    if ks != [] {
      SatisfyPlain(SatisfyOne(s, ks[0], v), ks[1..], v);
    }
  }

  lemma ApplyPlain(s: State, op: Op)
    requires Plain(op, s.sat.Keys)
    ensures Apply(s, op).sat.Keys == s.sat.Keys && Apply(s, op).expr == s.expr
  {
    match op
    case Register(k, v) =>
    case Query =>
    case SatisfyMe(ks, v) => SatisfyPlain(s, ks, v);
    case SetSatisfied => assert ForceAll(s.sat).Keys == s.sat.Keys;
    case UnsetNaturally(id) =>
      assert Unset(s, id).sat.Keys == s.sat.Keys;
  }

  lemma {:induction false} RunPlain(s: State, ops: seq<Op>)
    requires forall op :: op in ops ==> Plain(op, s.sat.Keys)
    ensures Run(s, ops).sat.Keys == s.sat.Keys && Run(s, ops).expr == s.expr
    decreases |ops|
  {
    if ops != [] {
      ApplyPlain(s, ops[0]);
      RunPlain(Apply(s, ops[0]), ops[1..]);
    }
  }

  // A condition set once its outputs, and no others, are registered is answered
  // with its truth, whatever is done to the prerequisite after that; with ANDs
  // alone no expression is kept, and the outputs all have to be satisfied.
  lemma AnswerIsTruth(first: seq<Op>, e: Expr, later: seq<Op>)
    requires forall op :: op in first ==> !op.SetCondition?
    requires Run(Empty, first).sat.Keys == Leaves(e) && AllMsg(e)
    requires forall op :: op in later ==> Plain(op, Leaves(e))
    ensures var r := Run(SetExpr(Run(Empty, first), e), later);
            Ask(r).0 == Some(Truth(e, r.sat))
  {
    var s := Run(Empty, first);
    assert forall i :: 0 <= i < |first| ==> first[i] in first;
    RunCoherent(Empty, first);
    NoExpression(Empty, first);
    ApplyCoherent(s, SetCondition(e));
    assert forall i :: 0 <= i < |later| ==> later[i] in later;
    RunCoherent(SetExpr(s, e), later);
    RunPlain(SetExpr(s, e), later);
    var r := Run(SetExpr(s, e), later);
    SomeLeaf(e);
    assert r.sat != map[];
    if HasOr(e) {
      EvalIsTruth(e, Leaves(e), r.sat);
    } else {
      AndOnlyTruth(e, r.sat);
    }
  }

  lemma {:induction false} NoExpression(s: State, ops: seq<Op>)
    requires s.expr.None? && forall op :: op in ops ==> !op.SetCondition?
    ensures Run(s, ops).expr.None?
    decreases |ops|
  {
    if ops != [] {
      if ops[0].SatisfyMe? {
        SatisfyPlain(s, ops[0].outputs, ops[0].how);
      }
      assert ops[0] in ops;
      NoExpression(Apply(s, ops[0]), ops[1..]);
    }
  }

  // Forced outputs stay forced through everything but a new registration of theirs.
  lemma {:induction false} ForcedStays(s: State, ops: seq<Op>, k: Output)
    requires k in s.sat && s.sat[k] == Forced
    requires forall i :: 0 <= i < |ops| ==> !(ops[i].Register? && ops[i].key == k)
    ensures k in Run(s, ops).sat && Run(s, ops).sat[k] == Forced
    decreases |ops|
  {
    if ops != [] {
      if ops[0].SatisfyMe? { SatisfyKeeps(s, ops[0].outputs, ops[0].how, k); }
      ForcedStays(Apply(s, ops[0]), ops[1..], k);
    }
  }

  lemma {:induction false} SatisfyKeeps(s: State, ks: seq<Output>, v: Satisfied, k: Output)
    requires Is(s.sat, k)
    ensures k in SatisfyAll(s, ks, v).sat && SatisfyAll(s, ks, v).sat[k] == s.sat[k]
    decreases |ks|
  {
    if ks != [] { SatisfyKeeps(SatisfyOne(s, ks[0], v), ks[1..], v, k); }
  }

  // satisfy_me changes the registered, unsatisfied outputs given to it, and those only.
  lemma {:induction false} SatisfyMeExact(s: State, ks: seq<Output>, v: Satisfied, k: Output)
    requires v != Unsatisfied
    ensures k in SatisfyAll(s, ks, v).sat <==> k in s.sat
    ensures k in s.sat ==>
              SatisfyAll(s, ks, v).sat[k] == if k in ks && s.sat[k] == Unsatisfied then v else s.sat[k]
    decreases |ks|
  {
    if ks != [] { SatisfyMeExact(SatisfyOne(s, ks[0], v), ks[1..], v, k); }
  }

  // Forcing changes exactly the unsatisfied outputs.
  lemma ForceExact(s: State, k: Output)
    ensures Force(s).expr == s.expr && (k in Force(s).sat <==> k in s.sat)
    ensures k in s.sat ==> Force(s).sat[k] == if s.sat[k] == Unsatisfied then Forced else s.sat[k]
  {
  }

  // Unsetting changes exactly the outputs of the task that are satisfied in any
  // way but by force.
  lemma UnsetExact(s: State, id: string, k: Output)
    ensures Unset(s, id).expr == s.expr && (k in Unset(s, id).sat <==> k in s.sat)
    ensures k in s.sat ==>
              var natural := s.sat[k] == Naturally || s.sat[k] == FromDatabase || s.sat[k] == BySkipMode;
              Unset(s, id).sat[k] == if k.point + "/" + k.task == id && natural then Unsatisfied else s.sat[k]
  {
    if k in s.sat && !exists j :: j in s.sat && Unsets(s, id, j) {
      assert !Unsets(s, id, k);
    }
  }

  /* ---- the object ---- */

  class Prerequisite {
    var satisfied: Outputs
    var conditionalExpression: Option<Expr>
    var cachedSatisfied: Option<bool>

    constructor ()
      ensures Snapshot() == Empty
    {
      satisfied, conditionalExpression, cachedSatisfied := map[], None, None;
    }

    ghost function Snapshot(): State
      reads this
    {
      State(satisfied, conditionalExpression, cachedSatisfied)
    }

    method Set(k: Output, value: Satisfied)
      modifies this
      ensures Snapshot() == SetItem(old(Snapshot()), k, value)
      ensures satisfied == old(satisfied)[k := value] && conditionalExpression == old(conditionalExpression)
    {
      satisfied := satisfied[k := value];
      if !(cachedSatisfied == Some(true) && value != Unsatisfied) {
        cachedSatisfied := None;
      }
    }

    method SetConditionalExpr(e: Expr)
      modifies this
      ensures Snapshot() == SetExpr(old(Snapshot()), e)
    {
      cachedSatisfied := None;
      if HasOr(e) {
        conditionalExpression := Some(Substitute(e, satisfied.Keys));
      }
    }

    method EvalSatisfied() returns (r: Option<bool>)
      ensures satisfied != map[] ==> r == Direct(Snapshot())
      ensures conditionalExpression.Some? ==> r == Eval(conditionalExpression.value, satisfied)
    {
      match conditionalExpression
      case Some(e) => r := Eval(e, satisfied);
      case None =>
        var all := true;
        var left := satisfied.Keys;
        while left != {}
          invariant left <= satisfied.Keys
          invariant all <==> forall k :: k in satisfied && k !in left ==> satisfied[k] != Unsatisfied
          decreases left
        {
          var k :| k in left;
          left := left - {k};
          all := all && satisfied[k] != Unsatisfied;
        }
        r := Some(all);
    }

    method IsSatisfied() returns (r: Option<bool>)
      modifies this
      ensures (r, Snapshot()) == Ask(old(Snapshot()))
    {
      if cachedSatisfied.Some? { return cachedSatisfied; }
      if satisfied == map[] { return Some(true); }
      r := EvalSatisfied();
      if r.Some? { cachedSatisfied := r; }
    }

    method Satisfy(outputs: seq<Output>, skipMode: bool, forced: bool)
      modifies this
      ensures Snapshot() == SatisfyAll(old(Snapshot()), outputs,
                                       if forced then Forced else if skipMode then BySkipMode else Naturally)
    {
      ghost var how := if forced then Forced else if skipMode then BySkipMode else Naturally;
      ghost var all := SatisfyAll(Snapshot(), outputs, how);
      for i := 0 to |outputs|
        invariant SatisfyAll(Snapshot(), outputs[i..], how) == all
      {
        assert outputs[i..][1..] == outputs[i + 1..];
        if outputs[i] in satisfied && satisfied[outputs[i]] == Unsatisfied {
          Set(outputs[i], if forced then Forced else if skipMode then BySkipMode else Naturally);
        }
      }
    }

    // False stands for the exception that a failed evaluation raises.
    method ForceSatisfied() returns (ok: bool)
      modifies this
      ensures Snapshot() == Force(old(Snapshot()))
      ensures satisfied.Keys == old(satisfied).Keys && forall k :: k in satisfied ==>
                satisfied[k] == if old(satisfied)[k] == Unsatisfied then Forced else old(satisfied)[k]
      ensures !ok <==> conditionalExpression.Some? && Eval(conditionalExpression.value, satisfied).None?
    {
      ghost var before := satisfied;
      var left := satisfied.Keys;
      while left != {}
        invariant left <= before.Keys == satisfied.Keys
        invariant conditionalExpression == old(conditionalExpression) && cachedSatisfied == old(cachedSatisfied)
        invariant forall k :: k in before ==>
                    satisfied[k] == if k !in left && before[k] == Unsatisfied then Forced else before[k]
        decreases left
      {
        var k :| k in left;
        left := left - {k};
        if satisfied[k] == Unsatisfied {
          satisfied := satisfied[k := Forced];
        }
      }
      assert satisfied == ForceAll(before);
      match conditionalExpression {
        case Some(e) =>
          var r := EvalSatisfied();
          if r.Some? { cachedSatisfied := r; }
          ok := r.Some?;
        case None =>
          cachedSatisfied := Some(true);
          ok := true;
      }
    }

    method UnsetNaturallySatisfied(id: string) returns (changed: bool)
      modifies this
      ensures Snapshot() == Unset(old(Snapshot()), id)
      ensures satisfied.Keys == old(satisfied).Keys && forall k :: k in satisfied ==>
                var was := old(satisfied)[k];
                satisfied[k] == if k.point + "/" + k.task == id && was != Unsatisfied && was != Forced then Unsatisfied
                                else was
      ensures changed <==> satisfied != old(satisfied)
    {
      ghost var before := Snapshot();
      changed := false;
      var left := satisfied.Keys;
      while left != {}
        invariant left <= before.sat.Keys == satisfied.Keys
        invariant conditionalExpression == before.expr
        invariant changed <==> exists k :: k in before.sat && k !in left && Unsets(before, id, k)
        invariant forall k :: k in before.sat ==>
                    satisfied[k] == if k !in left && Unsets(before, id, k) then Unsatisfied else before.sat[k]
        invariant cachedSatisfied == if changed then None else before.cached
        decreases left
      {
        var k :| k in left;
        left := left - {k};
        if IdOf(k) == id && satisfied[k] != Unsatisfied && satisfied[k] != Forced {
          assert Unsets(before, id, k);
          Set(k, Unsatisfied);
          changed := true;
        } else {
          assert !Unsets(before, id, k);
        }
      }
      assert satisfied == if changed then Unset(before, id).sat else before.sat;
      if k :| k in before.sat && Unsets(before, id, k) {
        assert satisfied[k] != before.sat[k];
      }
    }
  }
}
