// The universal identifier: its grammar, its parser and its printer (id.py).

module IdentifierGrammar {
  import opened Wrappers

  // The parts of an identifier; None is a part that is not there.
  datatype Tokens = Tokens(
    user: Option<string>,
    workflow: Option<string>, workflowSel: Option<string>,
    cycle: Option<string>, cycleSel: Option<string>,
    task: Option<string>, taskSel: Option<string>,
    job: Option<string>, jobSel: Option<string>)

  const NOTHING := Tokens(None, None, None, None, None, None, None, None, None)

  // The grammar, as RELATIVE_PATTERN and UNIVERSAL_ID have it.

  predicate Free(s: string, stop: set<char>) {
    forall i :: 0 <= i < |s| ==> s[i] !in stop
  }

  predicate IsPart(s: string) {
    s != "" && Free(s, {'/', ':', '\n'})
  }

  predicate IsUser(s: string) {
    s != "" && Free(s, {'/', ':', '\n', '~'})
  }

  // A cycle can hold colons, but not begin with one.
  predicate IsCycle(s: string) {
    s != "" && s[0] != ':' && Free(s, {'/', '\n', '~'})
  }

  // Names joined by single slashes.
  predicate IsWorkflow(s: string) {
    && s != "" && Free(s, {':', '\n', '~'})
    && s[0] != '/' && s[|s| - 1] != '/'
    && forall i :: 0 <= i < |s| - 1 ==> !(s[i] == '/' && s[i + 1] == '/')
  }

  predicate IsSel(sel: Option<string>) {
    sel.Some? ==> IsPart(sel.value)
  }

  function SelText(sel: Option<string>): string {
    if sel.None? then "" else ":" + sel.value
  }

  // A trailing slash is allowed where more could follow.
  predicate AtEnd(w: string) {
    w == "" || w == "/"
  }

  predicate JobSpelt(w: string, t: Tokens) {
    if t.job.None? then AtEnd(w) && t.jobSel.None?
    else IsPart(t.job.value) && IsSel(t.jobSel) && w == "/" + t.job.value + SelText(t.jobSel)
  }

  ghost predicate TaskSpelt(w: string, t: Tokens) {
    if t.task.None? then AtEnd(w) && t.taskSel.None? && t.job.None? && t.jobSel.None?
    else
      && IsPart(t.task.value) && IsSel(t.taskSel)
      && exists v :: w == "/" + t.task.value + SelText(t.taskSel) + v && JobSpelt(v, t)
  }

  ghost predicate CycleSpelt(w: string, t: Tokens) {
    && t.cycle.Some? && IsCycle(t.cycle.value) && IsSel(t.cycleSel)
    && exists v :: w == "//" + t.cycle.value + SelText(t.cycleSel) + v && TaskSpelt(v, t)
  }

  predicate NoCycle(t: Tokens) {
    t == Tokens(t.user, t.workflow, t.workflowSel, None, None, None, None, None, None)
  }

  ghost predicate WorkflowSpelt(w: string, t: Tokens) {
    && t.workflow.Some? && IsWorkflow(t.workflow.value) && IsSel(t.workflowSel)
    && exists v :: w == t.workflow.value + SelText(t.workflowSel) + v
                   && (((v == "" || v == "//") && NoCycle(t)) || CycleSpelt(v, t))
  }

  ghost predicate Spelt(s: string, t: Tokens) {
    if t.user.Some? then
      && IsUser(t.user.value)
      && exists w :: s == "~" + t.user.value + w
                     && ((AtEnd(w) && t == NOTHING.(user := t.user))
                         || (w != "" && w[0] == '/' && WorkflowSpelt(w[1..], t)))
    else if t.workflow.Some? then WorkflowSpelt(s, t)
    else t.workflowSel.None? && CycleSpelt(s, t)
  }

  // The parser.  It takes what the patterns take: the first place at which a
  // part can end, and for a cycle the last colon that a selector can follow.

  // How far the text goes without any of the characters.
  function Cut(s: string, stop: set<char>): (n: nat)
    ensures n <= |s| && Free(s[..n], stop) && (n < |s| ==> s[n] in stop)
  {
    if s == "" || s[0] in stop then 0
    else
      var n := Cut(s[1..], stop);
      assert s[..n + 1] == [s[0]] + s[1..][..n];
      n + 1
  }

  // name[:sel], with nothing after it.
  function ParsePart(s: string): Option<(string, Option<string>)> {
    var n := Cut(s, {':'});
    var name := s[..n];
    if !IsPart(name) then None
    else if n == |s| then Some((name, None))
    else if IsPart(s[n + 1..]) then Some((name, Some(s[n + 1..])))
    else None
  }

  // The last colon, or the length if there is none.
  function LastColon(s: string): (n: nat)
    ensures n <= |s| && (n < |s| ==> s[n] == ':') && forall i :: n < i < |s| ==> s[i] != ':'
    ensures n == |s| ==> ':' !in s
  {
    if s == "" then 0
    else if s[|s| - 1] == ':' then |s| - 1
    else
      var n := LastColon(s[..|s| - 1]);
      if n == |s| - 1 then |s| else n
  }

  function ParseCycle(s: string): Option<(string, Option<string>)> {
    var n := LastColon(s);
    if n < |s| && IsCycle(s[..n]) && IsPart(s[n + 1..]) then Some((s[..n], Some(s[n + 1..])))
    else if IsCycle(s) then Some((s, None))
    else None
  }

  function ParseAfterTask(w: string): Option<Tokens> {
    if AtEnd(w) then Some(NOTHING)
    else if w[0] != '/' then None
    else
      match ParsePart(w[1..])
      case None => None
      case Some((name, sel)) => Some(NOTHING.(job := Some(name), jobSel := sel))
  }

  function ParseAfterCycle(w: string): Option<Tokens> {
    if AtEnd(w) then Some(NOTHING)
    else if w[0] != '/' then None
    else
      var n := Cut(w[1..], {'/'});
      match ParsePart(w[1..][..n])
      case None => None
      case Some((name, sel)) =>
        match ParseAfterTask(w[1..][n..])
        case None => None
        case Some(t) => Some(t.(task := Some(name), taskSel := sel))
  }

  function ParseRelative(s: string): Option<Tokens> {
    if !("//" <= s) then None
    else
      var n := Cut(s[2..], {'/'});
      match ParseCycle(s[2..][..n])
      case None => None
      case Some((name, sel)) =>
        match ParseAfterCycle(s[2..][n..])
        case None => None
        case Some(t) => Some(t.(cycle := Some(name), cycleSel := sel))
  }

  // How far the text goes without a double slash.
  function CutDouble(s: string): (n: nat)
    ensures n <= |s|
  {
    if s == "" || "//" <= s then 0 else 1 + CutDouble(s[1..])
  }

  predicate DoubleAt(s: string, i: nat) {
    i + 1 < |s| && s[i] == '/' && s[i + 1] == '/'
  }

  lemma {:induction false} CutDoubleFirst(s: string)
    ensures var n := CutDouble(s);
            (n < |s| ==> DoubleAt(s, n)) && forall i: nat :: i < n ==> !DoubleAt(s, i)
  {
    if s != "" && !("//" <= s) {
      var n := CutDouble(s[1..]);
      CutDoubleFirst(s[1..]);
      forall i: nat | i < n + 1 ensures !DoubleAt(s, i) {
        assert i > 0 ==> (DoubleAt(s, i) <==> DoubleAt(s[1..], i - 1));
      }
    }
  }

  function ParseWorkflow(s: string): Option<Tokens> {
    var n := CutDouble(s);
    var m := Cut(s[..n], {':'});
    var name := s[..m];
    var sel := if m == n then None else Some(s[m + 1..n]);
    if !IsWorkflow(name) || !IsSel(sel) then None
    else
      var rest := if s[n..] == "" || s[n..] == "//" then Some(NOTHING) else ParseRelative(s[n..]);
      if rest.None? then None else Some(rest.value.(workflow := Some(name), workflowSel := sel))
  }

  function ParseAbsolute(s: string): Option<Tokens> {
    if s != "" && s[0] == '~' then
      var n := Cut(s[1..], {'/'});
      var name, rest := s[1..][..n], s[1..][n..];
      if !IsUser(name) then None
      else if AtEnd(rest) then Some(NOTHING.(user := Some(name)))
      else
        var t := ParseWorkflow(rest[1..]);
        if t.None? then None else Some(t.value.(user := Some(name)))
    else ParseWorkflow(s)
  }

  // The pattern for full identifiers is tried before that for relative ones.
  function Parse(s: string): Option<Tokens> {
    var t := ParseAbsolute(s);
    if t.Some? then t else ParseRelative(s)
  }

  // Whatever is parsed is spelt as the grammar says.

  lemma PartSound(s: string)
    requires ParsePart(s).Some?
    ensures var (name, sel) := ParsePart(s).value;
            IsPart(name) && IsSel(sel) && s == name + SelText(sel)
  {
    var n := Cut(s, {':'});
    if n < |s| {
      assert s == s[..n] + [s[n]] + s[n + 1..];
    } else {
      assert s[..n] == s;
    }
  }

  lemma CycleSound(s: string)
    requires ParseCycle(s).Some?
    ensures var (name, sel) := ParseCycle(s).value;
            IsCycle(name) && IsSel(sel) && s == name + SelText(sel)
  {
    var n := LastColon(s);
    if n < |s| {
      assert s == s[..n] + [s[n]] + s[n + 1..];
    }
  }

  // A text whose part up to n has been taken apart.
  lemma Glue(prefix: string, body: string, n: nat, name: string, sel: Option<string>)
    requires n <= |body| && body[..n] == name + SelText(sel)
    ensures prefix + body == prefix + name + SelText(sel) + body[n..]
  {
    assert body == body[..n] + body[n..];
  }

  lemma AfterTaskSound(w: string)
    requires ParseAfterTask(w).Some?
    ensures JobSpelt(w, ParseAfterTask(w).value)
  {
    if !AtEnd(w) {
      PartSound(w[1..]);
      assert w == "/" + w[1..];
      var (name, sel) := ParsePart(w[1..]).value;
      assert w == "/" + name + SelText(sel);
      hide ParsePart;
    }
  }

  lemma TaskMade(w: string, t: Tokens, v: string)
    requires t.task.Some? && IsPart(t.task.value) && IsSel(t.taskSel)
    requires w == "/" + t.task.value + SelText(t.taskSel) + v && JobSpelt(v, t)
    ensures TaskSpelt(w, t)
  {
    hide IsPart, JobSpelt;
  }

  lemma CycleMade(w: string, t: Tokens, v: string)
    requires t.cycle.Some? && IsCycle(t.cycle.value) && IsSel(t.cycleSel)
    requires w == "//" + t.cycle.value + SelText(t.cycleSel) + v && TaskSpelt(v, t)
    ensures CycleSpelt(w, t)
  {
    hide IsCycle, IsPart, TaskSpelt;
  }

  lemma AfterCycleSound(w: string)
    requires ParseAfterCycle(w).Some?
    ensures TaskSpelt(w, ParseAfterCycle(w).value)
  {
    if !AtEnd(w) {
      var n := Cut(w[1..], {'/'});
      var v := w[1..][n..];
      PartSound(w[1..][..n]);
      AfterTaskSound(v);
      var (name, sel) := ParsePart(w[1..][..n]).value;
      var t := ParseAfterCycle(w).value;
      JobSpeltFrame(v, ParseAfterTask(v).value, t);
      hide *;
      assert w == "/" + w[1..];
      Glue("/", w[1..], n, name, sel);
      TaskMade(w, t, v);
    }
  }

  lemma JobSpeltFrame(w: string, t: Tokens, u: Tokens)
    requires JobSpelt(w, t) && u.job == t.job && u.jobSel == t.jobSel
    ensures JobSpelt(w, u)
  {
  }

  lemma TaskSpeltFrame(w: string, t: Tokens, u: Tokens)
    requires TaskSpelt(w, t) && u.task == t.task && u.taskSel == t.taskSel && u.job == t.job && u.jobSel == t.jobSel
    ensures TaskSpelt(w, u)
  {
    hide JobSpelt, IsPart;
    if t.task.Some? {
      var v :| w == "/" + t.task.value + SelText(t.taskSel) + v && JobSpelt(v, t);
      JobSpeltFrame(v, t, u);
    }
  }

  lemma RelativeSound(s: string)
    requires ParseRelative(s).Some?
    ensures CycleSpelt(s, ParseRelative(s).value)
  {
    var n := Cut(s[2..], {'/'});
    var v := s[2..][n..];
    CycleSound(s[2..][..n]);
    AfterCycleSound(v);
    var (name, sel) := ParseCycle(s[2..][..n]).value;
    assert s == "//" + s[2..];
    Glue("//", s[2..], n, name, sel);
    var t := ParseRelative(s).value;
    TaskSpeltFrame(v, ParseAfterCycle(v).value, t);
    hide *;
    CycleMade(s, t, v);
  }

  lemma RelativeParts(s: string)
    ensures ParseRelative(s).Some? ==>
              ParseRelative(s).value.user.None? && ParseRelative(s).value.workflow.None?
              && ParseRelative(s).value.workflowSel.None?
  {
  }

  // The parts of a relative identifier do not touch the others.
  lemma CycleSpeltFrame(w: string, t: Tokens, u: Tokens)
    requires CycleSpelt(w, t) && u == t.(user := u.user, workflow := u.workflow, workflowSel := u.workflowSel)
    ensures CycleSpelt(w, u)
  {
    hide TaskSpelt, IsCycle, IsPart;
    var v :| w == "//" + t.cycle.value + SelText(t.cycleSel) + v && TaskSpelt(v, t);
    TaskSpeltFrame(v, t, u);
  }

  lemma WorkflowSound(s: string)
    requires ParseWorkflow(s).Some?
    ensures WorkflowSpelt(s, ParseWorkflow(s).value)
  {
    var n := CutDouble(s);
    var m := Cut(s[..n], {':'});
    var t := ParseWorkflow(s).value;
    var name, sel, v := s[..m], if m == n then None else Some(s[m + 1..n]), s[n..];
    assert t.workflow == Some(name) && t.workflowSel == sel && IsWorkflow(name) && IsSel(sel);
    assert v == "" || v == "//" ==> NoCycle(t);
    assert v != "" && v != "//" ==> ParseRelative(v).Some? && CycleParts(t) == CycleParts(ParseRelative(v).value);
    hide ParseWorkflow, ParseRelative, CycleSpelt, IsWorkflow, IsPart, WorkflowSpelt;
    WorkflowTaken(s, n, m);
    Glue("", s, n, name, sel);
    assert "" + s == s && "" + name == name;
    if v != "" && v != "//" {
      RelativeSound(v);
      CycleSpeltFrame(v, ParseRelative(v).value, t);
    }
    WorkflowMade(s, t, v);
  }

  function CycleParts(t: Tokens): Tokens {
    t.(user := None, workflow := None, workflowSel := None)
  }

  lemma WorkflowMade(w: string, t: Tokens, v: string)
    requires t.workflow.Some? && IsWorkflow(t.workflow.value) && IsSel(t.workflowSel)
    requires w == t.workflow.value + SelText(t.workflowSel) + v
    requires ((v == "" || v == "//") && NoCycle(t)) || CycleSpelt(v, t)
    ensures WorkflowSpelt(w, t)
  {
    hide CycleSpelt, IsWorkflow, IsPart;
  }

  lemma WorkflowTaken(s: string, n: nat, m: nat)
    requires m <= n <= |s| && (m < n ==> s[m] == ':')
    ensures s[..n] == s[..n][..m] + SelText(if m == n then None else Some(s[m + 1..n]))
    ensures s[..n][..m] == s[..m]
  {
    if m < n {
      assert s[..n] == s[..m] + [s[m]] + s[m + 1..n];
    }
  }

  lemma WorkflowSpeltFrame(w: string, t: Tokens, u: Tokens)
    requires WorkflowSpelt(w, t) && u == t.(user := u.user)
    ensures WorkflowSpelt(w, u)
  {
    var v :| w == t.workflow.value + SelText(t.workflowSel) + v
             && (((v == "" || v == "//") && NoCycle(t)) || CycleSpelt(v, t));
    if CycleSpelt(v, t) {
      CycleSpeltFrame(v, t, u);
    }
  }

  lemma ParseSound(s: string)
    requires Parse(s).Some?
    ensures Spelt(s, Parse(s).value)
  {
    hide WorkflowSpelt, CycleSpelt, ParseWorkflow, ParseRelative;
    if ParseAbsolute(s).None? {
      RelativeSound(s);
      RelativeParts(s);
    } else if s != "" && s[0] == '~' {
      var n := Cut(s[1..], {'/'});
      var rest := s[1..][n..];
      assert s == "~" + s[1..][..n] + rest;
      if !AtEnd(rest) {
        WorkflowSound(rest[1..]);
        WorkflowSpeltFrame(rest[1..], ParseWorkflow(rest[1..]).value, Parse(s).value);
      }
    } else {
      WorkflowSound(s);
      WorkflowParts(s);
    }
  }

  lemma WorkflowParts(s: string)
    ensures ParseWorkflow(s).Some? ==> ParseWorkflow(s).value.user.None? && ParseWorkflow(s).value.workflow.Some?
  {
  }

  // And whatever the grammar spells is parsed: to the same tokens, unless its
  // cycle goes on past a colon at which it could end.

  // Where a text without the characters is followed by the end or one of them,
  // that is where it is cut.
  lemma {:induction false} CutHere(a: string, r: string, stop: set<char>)
    requires Free(a, stop) && (r == "" || r[0] in stop)
    ensures Cut(a + r, stop) == |a| && (a + r)[..|a|] == a && (a + r)[|a|..] == r
  {
    if a == "" {
      assert a + r == r;
    } else {
      assert (a + r)[1..] == a[1..] + r;
      CutHere(a[1..], r, stop);
    }
  }

  lemma FreeJoin(a: string, b: string, stop: set<char>)
    ensures Free(a, stop) && Free(b, stop) ==> Free(a + b, stop)
  {
  }

  lemma FreeFewer(a: string, stop: set<char>, fewer: set<char>)
    requires Free(a, stop) && fewer <= stop
    ensures Free(a, fewer)
  {
  }

  // A part with its selector has no slash in it, and is parsed as it was.
  lemma PartComplete(name: string, sel: Option<string>)
    requires IsPart(name) && IsSel(sel)
    ensures Free(name + SelText(sel), {'/'})
    ensures ParsePart(name + SelText(sel)) == Some((name, sel))
  {
    FreeFewer(name, {'/', ':', '\n'}, {':'});
    CutHere(name, SelText(sel), {':'});
    assert sel.Some? ==> SelText(sel)[1..] == sel.value;
  }

  // The cycle ends no later than it could: its pattern is the lazy one.
  predicate NoLaterCycle(t: Tokens, other: Tokens) {
    other.cycle.Some? ==>
      && t.cycle.Some?
      && |t.cycle.value| <= |other.cycle.value|
      && (!EndsThere(other.cycle.value, other.cycleSel) ==> |t.cycle.value| < |other.cycle.value|)
  }

  // The cycle cannot be taken to end earlier.
  predicate EndsThere(name: string, sel: Option<string>) {
    sel.None? ==> LastColon(name) >= |name| - 1
  }

  lemma {:induction false} LastColonHere(a: string, b: string)
    requires ':' !in b
    ensures LastColon(a + [':'] + b) == |a|
    decreases |b|
  {
    var s := a + [':'] + b;
    if b != "" {
      assert s[..|s| - 1] == a + [':'] + b[..|b| - 1];
      LastColonHere(a, b[..|b| - 1]);
    }
  }

  lemma CycleComplete(name: string, sel: Option<string>)
    requires IsCycle(name) && IsSel(sel)
    ensures Free(name + SelText(sel), {'/'})
    ensures ParseCycle(name + SelText(sel)).Some? && |ParseCycle(name + SelText(sel)).value.0| <= |name|
    ensures ParseCycle(name + SelText(sel)) == Some((name, sel)) <==> EndsThere(name, sel)
    ensures !EndsThere(name, sel) ==> |ParseCycle(name + SelText(sel)).value.0| < |name|
  {
    match sel
    case Some(v) => CycleWithSel(name, v);
    case None => CycleAlone(name);
  }

  lemma CycleWithSel(name: string, v: string)
    requires IsCycle(name) && IsPart(v)
    ensures var s := name + SelText(Some(v)); Free(s, {'/'}) && ParseCycle(s) == Some((name, Some(v)))
  {
    var s := name + SelText(Some(v));
    LastColonHere(name, v);
    assert s == name + [':'] + v;
    assert s[..|name|] == name && s[|name| + 1..] == v;
    hide LastColon;
  }

  lemma CycleAlone(name: string)
    requires IsCycle(name)
    ensures name + SelText(None) == name && Free(name, {'/'})
    ensures ParseCycle(name).Some? && (ParseCycle(name) == Some((name, None)) <==> EndsThere(name, None))
    ensures |ParseCycle(name).value.0| <= |name|
    ensures !EndsThere(name, None) ==> |ParseCycle(name).value.0| < |name|
  {
    var n := LastColon(name);
    hide LastColon;
    if n == |name| - 1 {
      assert name[n + 1..] == "";
    } else if n < |name| {
      ColonInside(name, n);
    }
  }

  lemma ColonInside(name: string, n: nat)
    requires IsCycle(name) && n < |name| - 1 && n == LastColon(name)
    ensures IsCycle(name[..n]) && IsPart(name[n + 1..])
  {
    assert n != 0;
    assert name[..n][0] == name[0];
  }

  lemma JobComplete(w: string, t: Tokens)
    requires JobSpelt(w, t)
    ensures ParseAfterTask(w) == Some(NOTHING.(job := t.job, jobSel := t.jobSel))
    ensures w == "" || w[0] == '/'
  {
    if t.job.Some? {
      PartComplete(t.job.value, t.jobSel);
      assert w[1..] == t.job.value + SelText(t.jobSel);
      hide ParsePart;
    }
  }

  lemma TaskComplete(w: string, t: Tokens)
    requires TaskSpelt(w, t)
    ensures ParseAfterCycle(w) == Some(NOTHING.(task := t.task, taskSel := t.taskSel, job := t.job, jobSel := t.jobSel))
    ensures w == "" || w[0] == '/'
  {
    hide JobSpelt, ParseAfterTask, ParsePart, IsPart;
    if t.task.Some? {
      var v :| w == "/" + t.task.value + SelText(t.taskSel) + v && JobSpelt(v, t);
      var part := t.task.value + SelText(t.taskSel);
      PartComplete(t.task.value, t.taskSel);
      JobComplete(v, t);
      assert w[1..] == part + v;
      CutHere(part, v, {'/'});
      NotAtEnd(t.task.value, w);
      hide Cut;
    }
  }

  lemma NotAtEnd(name: string, w: string)
    requires IsPart(name) && "/" + name <= w
    ensures !AtEnd(w)
  {
  }

  lemma CycleTextComplete(w: string, t: Tokens)
    requires CycleSpelt(w, t)
    ensures ParseRelative(w).Some? && NoLaterCycle(ParseRelative(w).value, t)
    ensures ParseRelative(w) == Some(CycleParts(t)) <==> EndsThere(t.cycle.value, t.cycleSel)
    ensures "//" <= w && w != "//"
  {
    hide TaskSpelt, ParseAfterCycle, ParseCycle, IsPart;
    var v :| w == "//" + t.cycle.value + SelText(t.cycleSel) + v && TaskSpelt(v, t);
    var part := t.cycle.value + SelText(t.cycleSel);
    CycleComplete(t.cycle.value, t.cycleSel);
    TaskComplete(v, t);
    assert w[2..] == part + v;
    CutHere(part, v, {'/'});
    hide Cut, IsCycle, EndsThere;
  }

  lemma {:induction false} CutDoubleHere(a: string, r: string)
    requires forall i: nat :: i < |a| ==> !DoubleAt(a + r, i)
    requires r == "" || "//" <= r
    ensures CutDouble(a + r) == |a|
  {
    if a == "" {
      assert a + r == r;
    } else {
      var s := a + r;
      assert s[1..] == a[1..] + r;
      assert !DoubleAt(s, 0);
      forall i: nat | i < |a[1..]| ensures !DoubleAt(a[1..] + r, i) {
        assert !DoubleAt(s, i + 1);
      }
      CutDoubleHere(a[1..], r);
    }
  }

  // No double slash in a workflow and its selector, nor where the rest begins.
  lemma WorkflowSingles(name: string, sel: Option<string>, v: string)
    requires IsWorkflow(name) && IsSel(sel)
    ensures var a := name + SelText(sel); forall i: nat :: i < |a| ==> !DoubleAt(a + v, i)
  {
    var a := name + SelText(sel);
    forall i: nat | i < |a| ensures !DoubleAt(a + v, i) {
      if i < |name| - 1 {
        assert (a + v)[i] == name[i] && (a + v)[i + 1] == name[i + 1];
      } else if i == |name| - 1 {
        assert (a + v)[i] == name[i];
      } else if i == |name| {
        assert (a + v)[i] == ':';
      } else {
        assert (a + v)[i] == sel.value[i - |name| - 1];
      }
    }
  }

  lemma WorkflowComplete(w: string, t: Tokens)
    requires WorkflowSpelt(w, t)
    ensures ParseWorkflow(w).Some? && NoLaterCycle(ParseWorkflow(w).value, t)
    ensures ParseWorkflow(w) == Some(t.(user := None)) <==>
            (t.cycle.Some? ==> EndsThere(t.cycle.value, t.cycleSel))
    ensures w != "" && w[0] != '/' && w[0] != '~'
  {
    hide CycleSpelt, ParseWorkflow, ParseRelative, EndsThere;
    var name, sel := t.workflow.value, t.workflowSel;
    var v :| w == name + SelText(sel) + v && (((v == "" || v == "//") && NoCycle(t)) || CycleSpelt(v, t));
    if CycleSpelt(v, t) {
      CycleTextComplete(v, t);
      RelativeParts(v);
      HasCycle(v, t);
    }
    WorkflowSplit(name, sel, v);
    assert w[0] == name[0];
    hide IsWorkflow, IsPart;
  }

  lemma HasCycle(v: string, t: Tokens)
    requires CycleSpelt(v, t)
    ensures t.cycle.Some?
  {
  }

  // How a workflow and what follows it are told apart.
  lemma WorkflowSplit(name: string, sel: Option<string>, v: string)
    requires IsWorkflow(name) && IsSel(sel) && (v == "" || "//" <= v)
    ensures var rest := if v == "" || v == "//" then Some(NOTHING) else ParseRelative(v);
            ParseWorkflow(name + SelText(sel) + v) ==
            if rest.None? then None else Some(rest.value.(workflow := Some(name), workflowSel := sel))
  {
    WorkflowCuts(name, sel, v);
    hide Cut, CutDouble, ParseRelative, IsWorkflow, IsPart, SelText;
  }

  lemma WorkflowCuts(name: string, sel: Option<string>, v: string)
    requires IsWorkflow(name) && IsSel(sel) && (v == "" || "//" <= v)
    ensures var w, n := name + SelText(sel) + v, |name + SelText(sel)|;
            && CutDouble(w) == n && Cut(w[..n], {':'}) == |name|
            && w[..|name|] == name && w[n..] == v
            && sel == if |name| == n then None else Some(w[|name| + 1..n])
  {
    var a := name + SelText(sel);
    WorkflowSingles(name, sel, v);
    FreeFewer(name, {':', '\n', '~'}, {':'});
    hide IsWorkflow, IsPart;
    CutDoubleHere(a, v);
    CutHere(name, SelText(sel), {':'});
    hide *;
    assert (a + v)[..|a|] == a && (a + v)[|a|..] == v;
    SelOf(name, sel);
  }

  lemma SelOf(name: string, sel: Option<string>)
    ensures sel == if |name| == |name + SelText(sel)| then None else Some((name + SelText(sel))[|name| + 1..])
    ensures (name + SelText(sel))[..|name|] == name
  {
    assert sel.Some? ==> (name + SelText(sel))[|name| + 1..] == sel.value;
  }

  lemma UserCut(s: string, t: Tokens, w: string)
    requires t.user.Some? && IsUser(t.user.value) && s == "~" + t.user.value + w && (w == "" || w[0] == '/')
    ensures var n := Cut(s[1..], {'/'}); s[1..][..n] == t.user.value && s[1..][n..] == w && s[0] == '~'
  {
    FreeFewer(t.user.value, {'/', ':', '\n', '~'}, {'/'});
    CutHere(t.user.value, w, {'/'});
    assert s[1..] == t.user.value + w;
  }

  // The parser takes just the texts that the grammar spells, and gives back
  // what was spelt exactly when no cycle could have ended at an earlier colon.
  lemma ParseComplete(s: string, t: Tokens)
    requires Spelt(s, t)
    ensures Parse(s).Some? && NoLaterCycle(Parse(s).value, t)
    ensures Parse(s) == Some(t) <==> (t.cycle.Some? ==> EndsThere(t.cycle.value, t.cycleSel))
  {
    hide WorkflowSpelt, CycleSpelt, ParseWorkflow, ParseRelative, EndsThere, Cut, IsUser;
    if t.user.Some? {
      var w :| s == "~" + t.user.value + w
               && ((AtEnd(w) && t == NOTHING.(user := t.user))
                   || (w != "" && w[0] == '/' && WorkflowSpelt(w[1..], t)));
      UserCut(s, t, w);
      if !AtEnd(w) {
        WorkflowComplete(w[1..], t);
        WorkflowParts(w[1..]);
      } else if w == "/" && t != NOTHING.(user := t.user) {
        WorkflowComplete(w[1..], t);
      }
    } else if t.workflow.Some? {
      WorkflowComplete(s, t);
    } else {
      CycleTextComplete(s, t);
      HasCycle(s, t);
      NoWorkflow(s);
    }
  }

  // A workflow does not begin with a slash.
  lemma NoWorkflow(s: string)
    requires "//" <= s
    ensures ParseWorkflow(s).None?
  {
  }
}

module Identifiers {
  import opened IdentifierGrammar
  import opened Wrappers

  // str.strip: the characters that Python takes for space.
  predicate IsSpace(c: char) {
    var n := c as int;
    || 9 <= n <= 13 || 28 <= n <= 32 || n == 0x85 || n == 0xA0 || n == 0x1680
    || 0x2000 <= n <= 0x200A || n == 0x2028 || n == 0x2029 || n == 0x202F || n == 0x205F || n == 0x3000
  }

  function Strip(s: string): (r: string)
    ensures |r| <= |s|
  {
    if s == "" then s
    else if IsSpace(s[0]) then Strip(s[1..])
    else if IsSpace(s[|s| - 1]) then Strip(s[..|s| - 1])
    else s
  }

  predicate Trimmed(s: string) {
    s == "" || (!IsSpace(s[0]) && !IsSpace(s[|s| - 1]))
  }

  lemma {:induction false} StripTrimmed(s: string)
    ensures Trimmed(Strip(s)) && (Trimmed(s) <==> Strip(s) == s)
  {
    if s != "" {
      if IsSpace(s[0]) {
        StripTrimmed(s[1..]);
      } else if IsSpace(s[|s| - 1]) {
        StripTrimmed(s[..|s| - 1]);
      }
    }
  }

  function StripSome(o: Option<string>): Option<string> {
    if o.Some? then Some(Strip(o.value)) else None
  }

  // _dict_strip
  function Stripped(t: Tokens): Tokens {
    Tokens(StripSome(t.user), StripSome(t.workflow), StripSome(t.workflowSel), StripSome(t.cycle), StripSome(t.cycleSel),
           StripSome(t.task), StripSome(t.taskSel), StripSome(t.job), StripSome(t.jobSel))
  }

  // "$" also matches before a newline that ends the text.
  function Chomped(s: string): string {
    if s != "" && s[|s| - 1] == '\n' then s[..|s| - 1] else s
  }

  // None is the ValueError.
  function Tokenise(identifier: string, relative: bool): Option<Tokens> {
    var full := if relative && !("//" <= identifier) then "//" + identifier else identifier;
    var t := Parse(Chomped(full));
    if t.None? then None else Some(Stripped(t.value))
  }

  // Printing.

  predicate Has(o: Option<string>) {
    o.Some? && o.value != ""
  }

  function Value(t: Tokens, level: nat): Option<string> {
    match level
    case 0 => t.user
    case 1 => t.workflow
    case 2 => t.cycle
    case 3 => t.task
    case _ => t.job
  }

  function Sel(t: Tokens, level: nat): Option<string> {
    match level
    case 0 => None
    case 1 => t.workflowSel
    case 2 => t.cycleSel
    case 3 => t.taskSel
    case _ => t.jobSel
  }

  predicate AllDigits(s: string) {
    forall i :: 0 <= i < |s| ==> '0' <= s[i] <= '9'
  }

  function WithoutZeros(s: string): string {
    if |s| > 1 && s[0] == '0' then WithoutZeros(s[1..]) else s
  }

  // A job's submit number with at least two digits, or NN for the latest.
  function JobText(v: string): Option<string> {
    if v == "NN" then Some(v)
    else if v == "" || !AllDigits(v) then None
    else
      var digits := WithoutZeros(v);
      Some(if |digits| == 1 then "0" + digits else digits)
  }

  // What stands for one level of an identifier.
  function LevelText(t: Tokens, level: nat, selectors: bool, partial: bool): Option<string> {
    if level == 0 then Some("~" + if Has(t.user) then t.user.value else "")
    else
      var v := Value(t, level);
      var text := if level == 4 then (if v.Some? then JobText(v.value) else None)
                  else Some(if Has(v) then v.value else "*");
      if text.None? then None
      else
        var sel := if selectors && Has(Sel(t, level)) then SelText(Sel(t, level)) else "";
        Some(text.value + sel + if level == 1 && !partial then "/" else "")
  }

  function LevelTexts(t: Tokens, from: nat, to: nat, selectors: bool, partial: bool): Option<seq<string>>
    decreases to + 1 - from
  {
    if from > to then Some([])
    else
      var rest := LevelTexts(t, from + 1, to, selectors, partial);
      if from == 0 && !Has(t.user) then rest
      else
        var text := LevelText(t, from, selectors, partial);
        if text.None? || rest.None? then None else Some([text.value] + rest.value)
  }

  function Join(parts: seq<string>): string {
    if parts == [] then "" else if |parts| == 1 then parts[0] else parts[0] + "/" + Join(parts[1..])
  }

  predicate IsRelative(t: Tokens) {
    !Has(t.user) && !Has(t.workflow)
  }

  predicate IsPartial(t: Tokens) {
    !Has(t.cycle) && !Has(t.task) && !Has(t.job)
  }

  function Lowest(t: Tokens): nat {
    if Has(t.job) then 4 else if Has(t.task) then 3 else if Has(t.cycle) then 2 else if Has(t.workflow) then 1 else 0
  }

  function Detokenise(t: Tokens, selectors: bool, relative: bool): Option<string> {
    if IsRelative(t) && IsPartial(t) then None
    else
      var parts := LevelTexts(t, if IsRelative(t) then 2 else 0, Lowest(t), selectors, IsPartial(t));
      if parts.None? then None
      else Some(Join((if IsRelative(t) && !relative then ["/"] else []) + parts.value))
  }

  // The loop over the levels.
  method DetokeniseLoop(t: Tokens, selectors: bool, relative: bool) returns (r: Option<string>)
    ensures r == Detokenise(t, selectors, relative)
  {
    var isRelative := IsRelative(t);
    var isPartial := IsPartial(t);
    if isRelative && isPartial {
      return None;
    }
    var lowest := Lowest(t);
    var identifier: seq<string> := [];
    var highest := 0;
    if isRelative {
      highest := 2;
      if !relative {
        identifier := ["/"];
      }
    }
    ghost var first := identifier;
    ghost var all := LevelTexts(t, highest, lowest, selectors, isPartial);
    for level := highest to lowest + 1
      invariant var rest := LevelTexts(t, level, lowest, selectors, isPartial);
                && (all.None? <==> rest.None?)
                && (all.Some? ==> first + all.value == identifier + rest.value)
    {
      if level == 0 && !Has(t.user) {
        continue;
      }
      var text := LevelText(t, level, selectors, isPartial);
      if text.None? {
        return None;
      }
      identifier := identifier + [text.value];
    }
    assert identifier + [] == identifier;
    r := Some(Join(identifier));
  }

  // Round trip.

  predicate Fine(o: Option<string>) {
    o.Some? ==> o.value != "" && Trimmed(o.value)
  }

  // Tokens that say each part down to their lowest, with legal, trimmed values
  // and the job number as it is printed.
  predicate Canonical(t: Tokens) {
    && Fine(t.user) && Fine(t.workflow) && Fine(t.workflowSel) && Fine(t.cycle) && Fine(t.cycleSel)
    && Fine(t.task) && Fine(t.taskSel) && Fine(t.job) && Fine(t.jobSel)
    && (t.user.Some? ==> IsUser(t.user.value))
    && (t.workflow.Some? ==> IsWorkflow(t.workflow.value) && IsSel(t.workflowSel))
    && (t.cycle.Some? ==> IsCycle(t.cycle.value) && IsSel(t.cycleSel))
    && (t.task.Some? ==> IsPart(t.task.value) && IsSel(t.taskSel) && t.cycle.Some?)
    && (t.job.Some? ==> JobText(t.job.value) == t.job && IsSel(t.jobSel) && t.task.Some?)
    && (t.workflow.None? ==> t.workflowSel.None? && (t.user.None? <==> t.cycle.Some?))
    && (t.cycle.None? ==> t.cycleSel.None?)
    && (t.task.None? ==> t.taskSel.None?)
    && (t.job.None? ==> t.jobSel.None?)
  }

  predicate OneLine(s: string) {
    Free(s, {'\n'})
  }

  lemma SelOneLine(sel: Option<string>)
    requires IsSel(sel)
    ensures OneLine(SelText(sel))
  {
  }

  lemma {:induction false} WithoutZerosDigits(v: string)
    requires v != "" && AllDigits(v)
    ensures WithoutZeros(v) != "" && AllDigits(WithoutZeros(v))
  {
    if |v| > 1 && v[0] == '0' {
      WithoutZerosDigits(v[1..]);
    }
  }

  lemma JobIsPart(v: string)
    requires JobText(v).Some?
    ensures IsPart(JobText(v).value) && JobText(JobText(v).value) == JobText(v)
  {
    if v != "NN" {
      WithoutZerosDigits(v);
      var r := JobText(v).value;
      assert AllDigits(r);
      ZerosGone(v);
      if |WithoutZeros(v)| == 1 {
        assert r[1..] == WithoutZeros(v);
      }
      assert Free(r, {'/', ':', '\n'}) by {
        forall i | 0 <= i < |r| ensures r[i] !in {'/', ':', '\n'} {
          assert '0' <= r[i] <= '9';
        }
      }
    }
  }

  lemma {:induction false} ZerosGone(v: string)
    requires v != "" && AllDigits(v)
    ensures var d := WithoutZeros(v); |d| == 1 || (d != "" && d[0] != '0')
    ensures WithoutZeros(WithoutZeros(v)) == WithoutZeros(v)
  {
    if |v| > 1 && v[0] == '0' {
      ZerosGone(v[1..]);
    }
  }

  lemma JoinMore(first: string, rest: seq<string>)
    ensures Join([first] + rest) == if rest == [] then first else first + "/" + Join(rest)
  {
    assert ([first] + rest)[1..] == rest;
  }

  // The text of a level and those below it.
  function Below(t: Tokens, level: nat): Option<seq<string>> {
    LevelTexts(t, level, Lowest(t), true, IsPartial(t))
  }

  lemma JobPrinted(t: Tokens)
    requires Canonical(t) && t.job.Some?
    ensures Below(t, 4) == Some([t.job.value + SelText(t.jobSel)])
    ensures JobSpelt("/" + Join(Below(t, 4).value), t) && OneLine(Join(Below(t, 4).value))
  {
    JobIsPart(t.job.value);
    assert LevelTexts(t, 5, 4, true, false) == Some([]);
    SelOneLine(t.jobSel);
    var text := t.job.value + SelText(t.jobSel);
    assert Has(t.jobSel) <==> t.jobSel.Some?;
    assert LevelText(t, 4, true, false) == Some(text) by {
      assert t.job.value + SelText(t.jobSel) + "" == text;
    }
    assert [text] + [] == [text];
    assert "/" + text == "/" + t.job.value + SelText(t.jobSel);
    FreeFewer(t.job.value, {'/', ':', '\n'}, {'\n'});
    FreeJoin(t.job.value, SelText(t.jobSel), {'\n'});
    hide JobText, IsPart, IsSel;
  }

  lemma Joined(head: string, rest: seq<string>, v: string)
    requires v == if rest == [] then "" else "/" + Join(rest)
    requires OneLine(head) && OneLine(Join(rest))
    ensures Join([head] + rest) == head + v && OneLine(head + v)
  {
    JoinMore(head, rest);
    FreeJoin("/", Join(rest), {'\n'});
    FreeJoin(head, v, {'\n'});
  }

  lemma HeadOneLine(name: string, sel: Option<string>)
    requires IsSel(sel) && (IsPart(name) || IsCycle(name) || IsWorkflow(name))
    ensures OneLine(name + SelText(sel))
  {
    SelOneLine(sel);
    FreeJoin(name, SelText(sel), {'\n'});
  }

  lemma TaskPrinted(t: Tokens)
    requires Canonical(t) && t.task.Some?
    ensures Below(t, 3).Some? && Below(t, 3).value != []
    ensures TaskSpelt("/" + Join(Below(t, 3).value), t) && OneLine(Join(Below(t, 3).value))
  {
    var head := t.task.value + SelText(t.taskSel);
    LevelPrinted(t, 3, head + "");
    assert head + "" == head;
    HeadOneLine(t.task.value, t.taskSel);
    if t.job.Some? {
      JobPrinted(t);
    }
    assert t.job.None? ==> JobSpelt("", t) && Join([]) == "";
    hide *;
    var rest := Below(t, 4).value;
    var v := if rest == [] then "" else "/" + Join(rest);
    Joined(head, rest, v);
    assert "/" + (head + v) == "/" + t.task.value + SelText(t.taskSel) + v;
    TaskMade("/" + (head + v), t, v);
  }

  // A level with something in it is printed as it is, then the ones below.
  lemma LevelPrinted(t: Tokens, level: nat, head: string)
    requires Canonical(t) && 1 <= level <= 3 && Value(t, level).Some?
    requires head == Value(t, level).value + SelText(Sel(t, level)) + if level == 1 && t.cycle.Some? then "/" else ""
    ensures Below(t, level) == if Below(t, level + 1).None? then None else Some([head] + Below(t, level + 1).value)
    ensures Lowest(t) >= level && (Lowest(t) == level ==> Below(t, level + 1) == Some([]))
    ensures Lowest(t) > level <==> Value(t, level + 1).Some?
  {
    assert IsPartial(t) <==> t.cycle.None?;
    assert LevelText(t, level, true, IsPartial(t)) == Some(head);
  }

  lemma CyclePrinted(t: Tokens)
    requires Canonical(t) && t.cycle.Some?
    ensures Below(t, 2).Some? && Below(t, 2).value != []
    ensures CycleSpelt("//" + Join(Below(t, 2).value), t) && OneLine(Join(Below(t, 2).value))
    ensures Join(Below(t, 2).value) != "" && Join(Below(t, 2).value)[0] != '/'
  {
    var head := t.cycle.value + SelText(t.cycleSel);
    LevelPrinted(t, 2, head + "");
    assert head + "" == head && head[0] == t.cycle.value[0];
    HeadOneLine(t.cycle.value, t.cycleSel);
    if t.task.Some? {
      TaskPrinted(t);
    }
    assert t.task.None? ==> TaskSpelt("", t) && Join([]) == "";
    hide *;
    var rest := Below(t, 3).value;
    var v := if rest == [] then "" else "/" + Join(rest);
    Joined(head, rest, v);
    assert "//" + (head + v) == "//" + t.cycle.value + SelText(t.cycleSel) + v;
    CycleMade("//" + (head + v), t, v);
  }

  lemma WorkflowPrinted(t: Tokens)
    requires Canonical(t) && t.workflow.Some?
    ensures Below(t, 1).Some? && Below(t, 1).value != []
    ensures WorkflowSpelt(Join(Below(t, 1).value), t) && OneLine(Join(Below(t, 1).value))
  {
    var name := t.workflow.value + SelText(t.workflowSel);
    var slash := if t.cycle.Some? then "/" else "";
    LevelPrinted(t, 1, name + slash);
    HeadOneLine(t.workflow.value, t.workflowSel);
    FreeJoin(name, slash, {'\n'});
    if t.cycle.Some? {
      CyclePrinted(t);
    }
    assert t.cycle.None? ==> NoCycle(t) && Join([]) == "" && Below(t, 2).value == [];
    hide *;
    var rest := Below(t, 2).value;
    var v := if rest == [] then "" else "/" + Join(rest);
    Joined(name + slash, rest, v);
    assert name + slash + v == t.workflow.value + SelText(t.workflowSel) + (slash + v);
    assert t.cycle.Some? ==> slash + v == "//" + Join(rest);
    WorkflowMade(name + slash + v, t, slash + v);
  }

  lemma AbsolutePrinted(t: Tokens)
    requires Canonical(t) && !IsRelative(t)
    ensures Below(t, 0).Some? && Spelt(Join(Below(t, 0).value), t) && OneLine(Join(Below(t, 0).value))
  {
    hide WorkflowSpelt;
    if t.workflow.Some? {
      WorkflowPrinted(t);
    }
    if t.user.Some? {
      var head := "~" + t.user.value;
      assert LevelText(t, 0, true, IsPartial(t)) == Some(head);
      assert t.workflow.None? ==> Below(t, 1) == Some([]);
      var rest := Below(t, 1).value;
      JoinMore(head, rest);
      FreeFewer(t.user.value, {'/', ':', '\n', '~'}, {'\n'});
      FreeJoin("~", t.user.value, {'\n'});
      var w := if t.workflow.Some? then "/" + Join(rest) else "";
      if t.workflow.Some? {
        FreeJoin("/", Join(rest), {'\n'});
        FreeJoin(head, w, {'\n'});
        assert w[1..] == Join(rest);
      }
      assert Join(Below(t, 0).value) == "~" + t.user.value + w;
    }
  }

  // What is printed is spelt as the grammar says.
  lemma DetokeniseSpelt(t: Tokens, relative: bool)
    requires Canonical(t) && (relative ==> IsRelative(t))
    ensures Detokenise(t, true, relative).Some?
    ensures var text := Detokenise(t, true, relative).value;
            OneLine(text) && (if relative then !("//" <= text) && Spelt("//" + text, t) else Spelt(text, t))
  {
    if IsRelative(t) {
      CyclePrinted(t);
      hide CycleSpelt;
      var parts := Below(t, 2).value;
      JoinMore("/", parts);
      FreeJoin("//", Join(parts), {'\n'});
      assert [] + parts == parts;
      assert "/" + "/" + Join(parts) == "//" + Join(parts);
    } else {
      AbsolutePrinted(t);
      assert [] + Below(t, 0).value == Below(t, 0).value;
    }
  }

  lemma OneLineChomped(s: string)
    requires OneLine(s)
    ensures Chomped(s) == s
  {
  }

  lemma CanonicalStripped(t: Tokens)
    requires Canonical(t)
    ensures Stripped(t) == t
  {
    forall o: Option<string> | Fine(o) ensures StripSome(o) == o {
      if o.Some? {
        StripTrimmed(o.value);
      }
    }
  }

  // Tokens come back from their printed form exactly when the cycle, printed
  // without a selector, has no colon before its last character.
  lemma RoundTrip(t: Tokens, relative: bool)
    requires Canonical(t) && (relative ==> IsRelative(t))
    ensures Detokenise(t, true, relative).Some?
    ensures Tokenise(Detokenise(t, true, relative).value, relative) == Some(t) <==>
            (t.cycle.Some? ==> EndsThere(t.cycle.value, t.cycleSel))
  {
    DetokeniseSpelt(t, relative);
    var text := Detokenise(t, true, relative).value;
    var full := if relative then "//" + text else text;
    FreeJoin("//", text, {'\n'});
    OneLineChomped(full);
    ParseComplete(full, t);
    CanonicalStripped(t);
    hide Canonical, Detokenise, Spelt, EndsThere, Parse, Strip;
  }

  // Printing other tokens.

  function WithoutSels(t: Tokens): Tokens {
    Tokens(t.user, t.workflow, None, t.cycle, None, t.task, None, t.job, None)
  }

  lemma {:induction false} TextsWithoutSels(t: Tokens, from: nat, to: nat, partial: bool)
    ensures LevelTexts(t, from, to, false, partial) == LevelTexts(WithoutSels(t), from, to, true, partial)
    decreases (to + 1 - from)
  {
    if from <= to {
      TextsWithoutSels(t, from + 1, to, partial);
    }
  }

  // Without selectors, tokens are printed as if they had none.
  lemma SelectorsLeftOut(t: Tokens, relative: bool)
    ensures Detokenise(t, false, relative) == Detokenise(WithoutSels(t), true, relative)
  {
    TextsWithoutSels(t, if IsRelative(t) then 2 else 0, Lowest(t), IsPartial(t));
  }

  // An asterisk for each level that is missing above the lowest, from the
  // workflow on, or from the cycle on if neither user nor workflow is there.
  function Starred(t: Tokens): Tokens {
    var star := Some("*");
    var below := !Has(t.user) && !Has(t.workflow);
    t.(workflow := if !below && !Has(t.workflow) && (Has(t.cycle) || Has(t.task) || Has(t.job)) then star else t.workflow,
       cycle := if !Has(t.cycle) && (Has(t.task) || Has(t.job)) then star else t.cycle,
       task := if !Has(t.task) && Has(t.job) then star else t.task)
  }

  lemma {:induction false} TextsStarred(t: Tokens, from: nat, to: nat, selectors: bool, partial: bool)
    requires to == Lowest(t) && (IsRelative(t) ==> from >= 2)
    ensures LevelTexts(t, from, to, selectors, partial) == LevelTexts(Starred(t), from, to, selectors, partial)
    decreases (to + 1 - from)
  {
    if from <= to {
      TextsStarred(t, from + 1, to, selectors, partial);
    }
  }

  // A missing level is printed as an asterisk.
  lemma MissingIsStar(t: Tokens, selectors: bool, relative: bool)
    ensures Detokenise(t, selectors, relative) == Detokenise(Starred(t), selectors, relative)
  {
    TextsStarred(t, if IsRelative(t) then 2 else 0, Lowest(t), selectors, IsPartial(t));
    assert Lowest(Starred(t)) == Lowest(t) && IsRelative(Starred(t)) == IsRelative(t);
  }

  // Only relative tokens can be printed relative, and nothing but the leading
  // slashes is then left out; tokens that say nothing are not printed.
  lemma RelativeForm(t: Tokens, selectors: bool)
    ensures !Has(t.user) && !Has(t.workflow) && !Has(t.cycle) && !Has(t.task) && !Has(t.job) ==>
              Detokenise(t, selectors, false) == Detokenise(t, selectors, true) == None
    ensures Has(t.user) || Has(t.workflow) ==> Detokenise(t, selectors, true) == Detokenise(t, selectors, false)
    ensures !Has(t.user) && !Has(t.workflow) && Detokenise(t, selectors, true).Some? ==>
              Detokenise(t, selectors, false) == Some("//" + Detokenise(t, selectors, true).value)
  {
    if IsRelative(t) && !IsPartial(t) {
      var parts := LevelTexts(t, 2, Lowest(t), selectors, false);
      if parts.Some? {
        var rest := LevelTexts(t, 3, Lowest(t), selectors, false);
        assert parts.value == [LevelText(t, 2, selectors, false).value] + rest.value;
        JoinMore("/", parts.value);
        assert [] + parts.value == parts.value;
        assert "/" + "/" + Join(parts.value) == "//" + Join(parts.value);
      }
    }
  }

  // The number of a job.
  function NumberOf(digits: string): int {
    if digits == "" then 0
    else 10 * NumberOf(digits[..|digits| - 1]) + (digits[|digits| - 1] as int) - ('0' as int)
  }

  lemma {:induction false} LeadingZero(digits: string)
    requires digits != "" && digits[0] == '0'
    ensures NumberOf(digits) == NumberOf(digits[1..])
    decreases |digits|
  {
    if |digits| > 1 {
      LeadingZero(digits[..|digits| - 1]);
      assert digits[1..][..|digits| - 2] == digits[..|digits| - 1][1..];
    }
  }

  lemma {:induction false} SameNumber(v: string)
    ensures NumberOf(WithoutZeros(v)) == NumberOf(v)
  {
    if |v| > 1 && v[0] == '0' {
      LeadingZero(v);
      SameNumber(v[1..]);
    }
  }

  // A job is printed as its number, with two digits or as many as it has, or as NN.
  lemma JobTextIs(v: string)
    requires v != "NN"
    ensures JobText(v).Some? <==> v != "" && forall i :: 0 <= i < |v| ==> '0' <= v[i] <= '9'
    ensures JobText(v).Some? ==>
              var r := JobText(v).value;
              && NumberOf(r) == NumberOf(v) && AllDigits(r)
              && |r| >= 2 && (|r| > 2 ==> r[0] != '0')
    ensures JobText("NN") == Some("NN")
  {
    if v != "" && AllDigits(v) {
      SameNumber(v);
      WithoutZerosDigits(v);
      ZerosGone(v);
      LeadingZero("0" + WithoutZeros(v));
      assert ("0" + WithoutZeros(v))[1..] == WithoutZeros(v);
    }
  }
}
