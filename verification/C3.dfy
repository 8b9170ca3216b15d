// C3 linearisation of the runtime namespaces (c3mro.py) and the family tree
// that config.py builds from it.

module Ordering {
  import opened Wrappers

  function IndexOf<T(==)>(s: seq<T>, x: T): (k: nat)
    requires x in s
    ensures k < |s| && s[k] == x && x !in s[..k]
  {
    if s[0] == x then 0 else 1 + IndexOf(s[1..], x)
  }

  // order lists every element of s, in the order in which s lists them.
  ghost predicate Respects<T>(order: seq<T>, s: seq<T>) {
    && (forall i :: 0 <= i < |s| ==> s[i] in order)
    && (forall i, j :: 0 <= i < j < |s| ==> IndexOf(order, s[i]) < IndexOf(order, s[j]))
  }

  // order is one strict total order that agrees with every list of seqs.
  ghost predicate Consistent<T>(order: seq<T>, seqs: seq<seq<T>>) {
    Distinct(order) && forall k :: 0 <= k < |seqs| ==> Respects(order, seqs[k])
  }

  lemma IndexIsUnique<T>(s: seq<T>, k: nat)
    requires Distinct(s) && k < |s|
    ensures IndexOf(s, s[k]) == k
  {
  }

  lemma IndexInPrefix<T>(p: seq<T>, s: seq<T>, x: T)
    requires p <= s && x in s && x !in p
    ensures |p| <= IndexOf(s, x)
  {
  }

  lemma RespectsTail<T>(order: seq<T>, s: seq<T>)
    requires Respects(order, s) && s != []
    ensures Respects(order, s[1..])
  {
    forall i, j | 0 <= i < j < |s[1..]|
      ensures IndexOf(order, s[1..][i]) < IndexOf(order, s[1..][j])
    {
      assert s[1..][i] == s[i + 1] && s[1..][j] == s[j + 1];
    }
  }
}

module C3 {
  import opened Ordering
  import opened Wrappers

  datatype Outcome =
    | Merged(order: seq<string>)
    | BadHierarchy          // the exception that merge raises
    | UnknownName           // KeyError: a parent that is not in the tree
    | RecursionLimit        // RecursionError: the interpreter's stack is exhausted

  /* ---- merge: the specification ---- */

  predicate InSomeTail(seqs: seq<seq<string>>, x: string) {
    exists k :: 0 <= k < |seqs| && seqs[k] != [] && x in seqs[k][1..]
  }

  // The first head, from list i on, that no list holds further down.
  function FindHead(seqs: seq<seq<string>>, i: nat): (c: Option<string>)
    requires i <= |seqs|
    ensures c.Some? ==>
              exists k :: i <= k < |seqs| && seqs[k] != [] && seqs[k][0] == c.value && !InSomeTail(seqs, c.value)
    ensures c.None? ==>
              forall k :: i <= k < |seqs| && seqs[k] != [] ==> InSomeTail(seqs, seqs[k][0])
    decreases |seqs| - i
  {
    if i == |seqs| then None
    else if seqs[i] != [] && !InSomeTail(seqs, seqs[i][0]) then Some(seqs[i][0])
    else FindHead(seqs, i + 1)
  }

  function DropHead(s: seq<string>, x: string): seq<string> {
    if s != [] && s[0] == x then s[1..] else s
  }

  function DropHeads(seqs: seq<seq<string>>, x: string): (r: seq<seq<string>>)
    ensures |r| == |seqs| && forall k :: 0 <= k < |seqs| ==> r[k] == DropHead(seqs[k], x)
  {
    seq(|seqs|, k requires 0 <= k < |seqs| => DropHead(seqs[k], x))
  }

  function TotalLength(seqs: seq<seq<string>>): nat {
    if seqs == [] then 0 else |seqs[0]| + TotalLength(seqs[1..])
  }

  predicate IsSomeHead(seqs: seq<seq<string>>, x: string) {
    exists k :: 0 <= k < |seqs| && seqs[k] != [] && seqs[k][0] == x
  }

  lemma SomeHeadSplit(seqs: seq<seq<string>>, x: string)
    requires seqs != []
    ensures IsSomeHead(seqs, x) ==> (seqs[0] != [] && seqs[0][0] == x) || IsSomeHead(seqs[1..], x)
  {
    if k :| 0 < k < |seqs| && seqs[k] != [] && seqs[k][0] == x {
      assert seqs[1..][k - 1] == seqs[k];
    }
  }

  lemma {:induction false} DropHeadsShortens(seqs: seq<seq<string>>, x: string)
    ensures TotalLength(DropHeads(seqs, x)) <= TotalLength(seqs)
    ensures IsSomeHead(seqs, x) ==> TotalLength(DropHeads(seqs, x)) < TotalLength(seqs)
  {
    if seqs != [] {
      DropHeadsShortens(seqs[1..], x);
      assert DropHeads(seqs, x)[1..] == DropHeads(seqs[1..], x);
      SomeHeadSplit(seqs, x);
      hide DropHeads, IsSomeHead;
    }
  }

  predicate AllEmpty(seqs: seq<seq<string>>) {
    forall k :: 0 <= k < |seqs| ==> seqs[k] == []
  }

  function MergeFrom(res: seq<string>, seqs: seq<seq<string>>): Outcome
    decreases TotalLength(seqs)
  {
    if AllEmpty(seqs) then Merged(res)
    else
      var cand := FindHead(seqs, 0);
      // "if not cand" also rejects the empty name, which is falsy
      if cand.None? || cand.value == "" then BadHierarchy
      else
        DropHeadsShortens(seqs, cand.value);
        MergeFrom(res + [cand.value], DropHeads(seqs, cand.value))
  }

  /* ---- merge: what the result means ---- */

  ghost predicate InSome(seqs: seq<seq<string>>, x: string) {
    exists k :: 0 <= k < |seqs| && x in seqs[k]
  }

  // Dropping a free head removes that name and nothing else.
  lemma DropHeadsRemoves(seqs: seq<seq<string>>, x: string, y: string)
    requires !InSomeTail(seqs, x)
    ensures InSome(DropHeads(seqs, x), y) <==> InSome(seqs, y) && y != x
  {
    var rest := DropHeads(seqs, x);
    if k :| 0 <= k < |rest| && y in rest[k] {
      assert y in seqs[k];
    }
    if k :| 0 <= k < |seqs| && y in seqs[k] && y != x {
      assert y in rest[k];
    }
  }

  lemma RespectsWithHead(order: seq<string>, res: seq<string>, x: string, s: seq<string>)
    requires Distinct(order) && res + [x] <= order
    requires Respects(order, DropHead(s, x)) && forall y :: y in DropHead(s, x) ==> y !in res + [x]
    ensures Respects(order, s)
  {
    if s != [] && s[0] == x {
      var t := s[1..];
      assert order[|res|] == x;
      IndexIsUnique(order, |res|);
      forall j | 0 <= j < |t| ensures |res| < IndexOf(order, t[j]) {
        IndexInPrefix(res + [x], order, t[j]);
      }
      forall i, j | 0 <= i < j < |s| ensures IndexOf(order, s[i]) < IndexOf(order, s[j]) {
        assert s[j] == t[j - 1];
        if i > 0 { assert s[i] == t[i - 1]; }
      }
      forall i | 0 <= i < |s| ensures s[i] in order {
        if i > 0 { assert s[i] == t[i - 1]; }
      }
    }
  }

  // order lists the names of res first, agrees with all of seqs, and holds no other name.
  ghost predicate Linearises(order: seq<string>, res: seq<string>, seqs: seq<seq<string>>) {
    && res <= order
    && Consistent(order, seqs)
    && "" !in order[|res|..]
    && forall x :: x in order <==> x in res || InSome(seqs, x)
  }

  lemma LinearisesStep(order: seq<string>, res: seq<string>, x: string, seqs: seq<seq<string>>)
    requires x != "" && InSome(seqs, x) && !InSomeTail(seqs, x)
    requires forall y :: y in res ==> !InSome(seqs, y)
    requires Linearises(order, res + [x], DropHeads(seqs, x))
    ensures Linearises(order, res, seqs)
  {
    hide Respects, InSomeTail, InSome;
    var rest := DropHeads(seqs, x);
    forall y ensures InSome(rest, y) <==> InSome(seqs, y) && y != x {
      DropHeadsRemoves(seqs, x, y);
    }
    StepRespects(order, res, x, seqs);
    assert order[|res|..] == [x] + order[|res| + 1..];
  }

  lemma StepRespects(order: seq<string>, res: seq<string>, x: string, seqs: seq<seq<string>>)
    requires !InSomeTail(seqs, x)
    requires forall y :: y in res ==> !InSome(seqs, y)
    requires Consistent(order, DropHeads(seqs, x)) && res + [x] <= order
    ensures forall k :: 0 <= k < |seqs| ==> Respects(order, seqs[k])
  {
    hide Respects, InSomeTail;
    var rest := DropHeads(seqs, x);
    forall k | 0 <= k < |seqs| ensures Respects(order, seqs[k]) {
      forall y | y in rest[k] ensures y !in res + [x] {
        DropHeadsRemoves(seqs, x, y);
        assert InSome(rest, y);
      }
      RespectsWithHead(order, res, x, seqs[k]);
    }
  }

  lemma {:induction false} MergeSound(res: seq<string>, seqs: seq<seq<string>>)
    requires Distinct(res) && forall x :: x in res ==> !InSome(seqs, x)
    requires MergeFrom(res, seqs).Merged?
    ensures Linearises(MergeFrom(res, seqs).order, res, seqs)
    decreases TotalLength(seqs)
  {
    if AllEmpty(seqs) { return; }
    var x := FindHead(seqs, 0).value;
    var rest := DropHeads(seqs, x);
    assert InSome(seqs, x);
    DropHeadsShortens(seqs, x);
    forall y | y in res + [x] ensures !InSome(rest, y) {
      DropHeadsRemoves(seqs, x, y);
    }
    MergeSound(res + [x], rest);
    LinearisesStep(MergeFrom(res + [x], rest).order, res, x, seqs);
  }

  // Among the heads there is one that order places first, and no tail holds it.
  lemma MinimalHead(order: seq<string>, seqs: seq<seq<string>>, n: nat) returns (m: nat)
    requires Consistent(order, seqs) && n <= |seqs|
    requires exists k :: 0 <= k < n && seqs[k] != []
    ensures m < n && seqs[m] != []
    ensures forall j :: 0 <= j < n && seqs[j] != [] ==> IndexOf(order, seqs[m][0]) <= IndexOf(order, seqs[j][0])
  {
    if exists k :: 0 <= k < n - 1 && seqs[k] != [] {
      m := MinimalHead(order, seqs, n - 1);
      if seqs[n - 1] != [] && IndexOf(order, seqs[n - 1][0]) < IndexOf(order, seqs[m][0]) {
        m := n - 1;
      }
    } else {
      m := n - 1;
    }
  }

  lemma SomeHeadIsFree(order: seq<string>, seqs: seq<seq<string>>)
    requires Consistent(order, seqs) && !AllEmpty(seqs)
    ensures FindHead(seqs, 0).Some?
  {
    var m := MinimalHead(order, seqs, |seqs|);
    assert !InSomeTail(seqs, seqs[m][0]);
  }

  lemma {:induction false} MergeComplete(res: seq<string>, seqs: seq<seq<string>>, order: seq<string>)
    requires Consistent(order, seqs) && !InSome(seqs, "")
    ensures MergeFrom(res, seqs).Merged?
    decreases TotalLength(seqs)
  {
    if AllEmpty(seqs) { return; }
    SomeHeadIsFree(order, seqs);
    var x := FindHead(seqs, 0).value;
    assert InSome(seqs, x);
    var rest := DropHeads(seqs, x);
    DropHeadsShortens(seqs, x);
    DropHeadsRemoves(seqs, x, "");
    forall k | 0 <= k < |rest| ensures Respects(order, rest[k]) {
      if seqs[k] != [] { RespectsTail(order, seqs[k]); }
    }
    MergeComplete(res + [x], rest, order);
  }

  // merge succeeds exactly when some total order agrees with all the lists
  // (and none of them holds the empty name); it then returns such an order,
  // over exactly the names given.
  lemma MergeExact(seqs: seq<seq<string>>)
    ensures MergeFrom([], seqs).Merged? <==> !InSome(seqs, "") && exists order :: Consistent(order, seqs)
    ensures MergeFrom([], seqs).Merged? ==>
              var order := MergeFrom([], seqs).order;
              Consistent(order, seqs) && forall x :: x in order <==> InSome(seqs, x)
    ensures MergeFrom([], seqs).Merged? || MergeFrom([], seqs).BadHierarchy?
  {
    if MergeFrom([], seqs).Merged? {
      MergeSound([], seqs);
      var order := MergeFrom([], seqs).order;
      assert order[0..] == order;
    }
    if !InSome(seqs, "") && exists order :: Consistent(order, seqs) {
      var order :| Consistent(order, seqs);
      MergeComplete([], seqs, order);
    }
    MergeOutcomes([], seqs);
  }

  lemma MergeOutcomes(res: seq<string>, seqs: seq<seq<string>>)
    ensures MergeFrom(res, seqs).Merged? || MergeFrom(res, seqs).BadHierarchy?
    decreases TotalLength(seqs)
  {
    if !AllEmpty(seqs) && FindHead(seqs, 0).Some? {
      var x := FindHead(seqs, 0).value;
      DropHeadsShortens(seqs, x);
      MergeOutcomes(res + [x], DropHeads(seqs, x));
    }
  }

  /* ---- merge: the destructive loop ---- */

  // A Python list of names, which merge shortens in place.
  class NameList {
    var items: seq<string>

    constructor (items: seq<string>)
      ensures this.items == items
    {
      this.items := items;
    }
  }

  function Contents(lists: seq<NameList>): (r: seq<seq<string>>)
    reads lists
    ensures |r| == |lists| && forall k :: 0 <= k < |lists| ==> r[k] == lists[k].items
  {
    seq(|lists|, k requires 0 <= k < |lists| reads lists => lists[k].items)
  }

  lemma TailSplit(seqs: seq<seq<string>>, k: nat, x: string)
    requires k < |seqs|
    ensures !InSomeTail(seqs[..0], x)
    ensures InSomeTail(seqs[..k + 1], x) <==> InSomeTail(seqs[..k], x) || (seqs[k] != [] && x in seqs[k][1..])
  {
    assert seqs[..k + 1] == seqs[..k] + [seqs[k]];
    if InSomeTail(seqs[..k], x) {
      var j :| 0 <= j < k && seqs[..k][j] != [] && x in seqs[..k][j][1..];
      assert seqs[..k + 1][j] == seqs[..k][j];
    }
    assert seqs[..k + 1][k] == seqs[k];
  }

  method FindCandidate(lists: seq<NameList>) returns (cand: Option<string>)
    ensures cand == FindHead(Contents(lists), 0)
  {
    hide InSomeTail;
    cand := None;
    ghost var seqs := Contents(lists);
    var i := 0;
    while i < |lists| && cand.None?
      invariant i <= |lists|
      invariant FindHead(seqs, 0) == if cand.Some? then cand else FindHead(seqs, i)
    {
      if lists[i].items != [] {
        var head := lists[i].items[0];
        TailSplit(seqs, i, head);
        var noTail := true;
        for k := 0 to |lists|
          invariant noTail <==> !InSomeTail(seqs[..k], head)
        {
          TailSplit(seqs, k, head);
          if lists[k].items != [] && head in lists[k].items[1..] {
            noTail := false;
          }
        }
        assert seqs[..|lists|] == seqs;
        if noTail {
          cand := Some(head);
        }
      }
      i := i + 1;
    }
  }

  method RemoveCandidate(lists: seq<NameList>, cand: string)
    requires Distinct(lists)
    modifies lists
    ensures Contents(lists) == DropHeads(old(Contents(lists)), cand)
  {
    ghost var seqs := Contents(lists);
    for k := 0 to |lists|
      invariant forall j :: 0 <= j < |lists| ==>
                  lists[j].items == if j < k then DropHead(seqs[j], cand) else seqs[j]
    {
      if lists[k].items != [] && lists[k].items[0] == cand {
        lists[k].items := lists[k].items[1..];
      }
    }
  }

  // The lists are separate objects: merge would otherwise delete a shared head twice.
  method Merge(lists: seq<NameList>) returns (r: Outcome)
    requires Distinct(lists)
    modifies lists
    ensures r == MergeFrom([], old(Contents(lists)))
  {
    var res := [];
    while true
      invariant MergeFrom(res, Contents(lists)) == MergeFrom([], old(Contents(lists)))
      decreases TotalLength(Contents(lists))
    {
      ghost var seqs := Contents(lists);
      if forall k :: 0 <= k < |lists| ==> lists[k].items == [] {
        return Merged(res);
      }
      var cand := FindCandidate(lists);
      if cand.None? || cand.value == "" {
        return BadHierarchy;
      }
      DropHeadsShortens(seqs, cand.value);
      res := res + [cand.value];
      RemoveCandidate(lists, cand.value);
    }
  }

  /* ---- mro ---- */

  type Tree = map<string, seq<string>>

  datatype Lists = Lists(lists: seq<seq<string>>) | Failed(why: Outcome)

  // limit is the depth of calls that the interpreter allows.
  function Mro(tree: Tree, c: string, limit: nat): Outcome
    decreases limit, 0, 0
  {
    if limit == 0 then RecursionLimit
    else if c !in tree then UnknownName
    else match MroAll(tree, tree[c], limit - 1)
      case Failed(why) => why
      case Lists(lists) => MergeFrom([], [[c]] + lists + [tree[c]])
  }

  function MroAll(tree: Tree, cs: seq<string>, limit: nat): Lists
    decreases limit, 1, |cs|
  {
    if cs == [] then Lists([])
    else
      var head := Mro(tree, cs[0], limit);
      if !head.Merged? then Failed(head)
      else match MroAll(tree, cs[1..], limit)
        case Failed(why) => Failed(why)
        case Lists(rest) => Lists([head.order] + rest)
  }

  // All the parents' linearisations, or the failure of one of them.
  ghost predicate IsMroAll(tree: Tree, cs: seq<string>, limit: nat, all: Lists) {
    match all
    case Lists(lists) =>
      |lists| == |cs| && forall i :: 0 <= i < |cs| ==> Mro(tree, cs[i], limit) == Merged(lists[i])
    case Failed(why) =>
      !why.Merged? && exists i :: 0 <= i < |cs| && Mro(tree, cs[i], limit) == why
  }

  lemma {:induction false} MroAllExact(tree: Tree, cs: seq<string>, limit: nat)
    ensures IsMroAll(tree, cs, limit, MroAll(tree, cs, limit))
  {
    if cs != [] {
      MroAllExact(tree, cs[1..], limit);
      var all, rest := MroAll(tree, cs, limit), MroAll(tree, cs[1..], limit);
      if !Mro(tree, cs[0], limit).Merged? {
        assert all == Failed(Mro(tree, cs[0], limit));
      } else if rest.Failed? {
        assert all == rest;
        var i :| 0 <= i < |cs[1..]| && Mro(tree, cs[1..][i], limit) == rest.why;
        assert cs[i + 1] == cs[1..][i];
      } else {
        forall i | 0 <= i < |cs| ensures Mro(tree, cs[i], limit) == Merged(all.lists[i]) {
          if i > 0 { assert cs[i] == cs[1..][i - 1]; }
        }
      }
    }
  }

  // path is a chain of declared parents from c.
  ghost predicate Lineage(tree: Tree, path: seq<string>) {
    |path| > 0 && forall i :: 0 <= i < |path| - 1 ==> path[i] in tree && path[i + 1] in tree[path[i]]
  }

  ghost predicate Inherits(tree: Tree, c: string, x: string) {
    exists path :: Lineage(tree, path) && path[0] == c && path[|path| - 1] == x
  }

  ghost predicate ProperAncestor(tree: Tree, c: string, x: string) {
    exists path :: Lineage(tree, path) && path[0] == c && path[|path| - 1] == x && |path| > 1
  }

  lemma {:induction false} MroOfAncestor(tree: Tree, path: seq<string>, limit: nat)
    requires Lineage(tree, path) && Mro(tree, path[0], limit).Merged?
    ensures |path| <= limit && Mro(tree, path[|path| - 1], limit - |path| + 1).Merged?
  {
    if |path| > 1 {
      var c, rest := path[0], path[1..];
      assert Lineage(tree, rest);
      MroAllExact(tree, tree[c], limit - 1);
      var i :| 0 <= i < |tree[c]| && tree[c][i] == rest[0];
      MroOfAncestor(tree, rest, limit - 1);
    }
  }

  // A name that inherits from itself has no linearisation, whatever the stack allows.
  lemma {:induction false} CircularNeverMerges(tree: Tree, c: string, limit: nat)
    requires ProperAncestor(tree, c, c)
    ensures !Mro(tree, c, limit).Merged?
  {
    if Mro(tree, c, limit).Merged? {
      var path :| Lineage(tree, path) && path[0] == c && path[|path| - 1] == c && |path| > 1;
      MroOfAncestor(tree, path, limit);
      CircularNeverMerges(tree, c, limit - |path| + 1);
    }
  }

  lemma ProperAncestorByParent(tree: Tree, c: string, x: string)
    requires c in tree
    ensures ProperAncestor(tree, c, x) <==> exists p :: p in tree[c] && Inherits(tree, p, x)
  {
    if ProperAncestor(tree, c, x) {
      var path :| Lineage(tree, path) && path[0] == c && path[|path| - 1] == x && |path| > 1;
      assert Lineage(tree, path[1..]);
      assert Inherits(tree, path[1], x);
    }
    if p :| p in tree[c] && Inherits(tree, p, x) {
      var path :| Lineage(tree, path) && path[0] == p && path[|path| - 1] == x;
      assert Lineage(tree, [c] + path);
    }
  }

  lemma InheritsIsSelfOrProper(tree: Tree, c: string, x: string)
    ensures Inherits(tree, c, x) <==> c == x || ProperAncestor(tree, c, x)
  {
    assert Lineage(tree, [c]);
    if path :| Lineage(tree, path) && path[0] == c && path[|path| - 1] == x && |path| == 1 {
      assert c == x;
    }
    assert c == x ==> [c][0] == c && [c][|[c]| - 1] == x;
  }

  // The linearisation of c starts with c, holds exactly c and what it inherits
  // from, once each, and keeps the order of every parent's own linearisation
  // and of the declared parents.
  ghost predicate LinearisesClass(tree: Tree, c: string, order: seq<string>, limit: nat) {
    && c in tree && limit > 0
    && Distinct(order)
    && order != [] && order[0] == c
    && (forall x :: x in order <==> Inherits(tree, c, x))
    && Respects(order, tree[c])
    && (forall p :: p in tree[c] ==>
          Mro(tree, p, limit - 1).Merged? && Respects(order, Mro(tree, p, limit - 1).order))
  }

  // The parents' linearisations hold what the parents inherit from.
  ghost predicate ParentsKnown(tree: Tree, c: string, limit: nat)
    requires limit > 0 && c in tree
  {
    forall p :: p in tree[c] && Mro(tree, p, limit - 1).Merged? ==> NamesInherited(tree, p, Mro(tree, p, limit - 1).order)
  }

  ghost predicate NamesInherited(tree: Tree, c: string, order: seq<string>) {
    forall x :: x in order <==> Inherits(tree, c, x)
  }

  lemma {:induction false} MroSound(tree: Tree, c: string, limit: nat)
    requires Mro(tree, c, limit).Merged?
    ensures LinearisesClass(tree, c, Mro(tree, c, limit).order, limit)
    decreases limit
  {
    hide Mro, MroAll, MergeFrom, LinearisesClass, NamesInherited;
    var lists := MroParts(tree, c, limit);
    forall p | p in tree[c] && Mro(tree, p, limit - 1).Merged?
      ensures NamesInherited(tree, p, Mro(tree, p, limit - 1).order)
    {
      MroSound(tree, p, limit - 1);
      LinearisedNames(tree, p, Mro(tree, p, limit - 1).order, limit - 1);
    }
    SoundStep(tree, c, lists, limit);
  }

  lemma LinearisedNames(tree: Tree, c: string, order: seq<string>, limit: nat)
    requires LinearisesClass(tree, c, order, limit)
    ensures NamesInherited(tree, c, order)
  {
  }

  lemma SoundStep(tree: Tree, c: string, lists: seq<seq<string>>, limit: nat)
    requires Mro(tree, c, limit).Merged? && limit > 0 && c in tree
    requires MroAll(tree, tree[c], limit - 1) == Lists(lists) && IsMroAll(tree, tree[c], limit - 1, Lists(lists))
    requires Mro(tree, c, limit) == MergeFrom([], [[c]] + lists + [tree[c]])
    requires ParentsKnown(tree, c, limit)
    ensures LinearisesClass(tree, c, Mro(tree, c, limit).order, limit)
  {
    hide Mro, MroAll, MergeFrom, Inherits, Respects, InSome, ParentsKnown;
    var seqs, order := [[c]] + lists + [tree[c]], Mro(tree, c, limit).order;
    forall x ensures InSome(seqs, x) <==> Inherits(tree, c, x) {
      MroNames(tree, c, lists, x, limit);
    }
    MergeExact(seqs);
    ClassComesFirst(tree, c, lists, limit);
    RespectsParts(order, c, lists, tree[c]);
    forall p | p in tree[c]
      ensures Mro(tree, p, limit - 1).Merged? && Respects(order, Mro(tree, p, limit - 1).order)
    {
      var i :| 0 <= i < |tree[c]| && tree[c][i] == p;
      assert Mro(tree, tree[c][i], limit - 1) == Merged(lists[i]);
    }
  }

  lemma MroParts(tree: Tree, c: string, limit: nat) returns (lists: seq<seq<string>>)
    requires Mro(tree, c, limit).Merged?
    ensures limit > 0 && c in tree && MroAll(tree, tree[c], limit - 1) == Lists(lists)
    ensures IsMroAll(tree, tree[c], limit - 1, Lists(lists))
    ensures Mro(tree, c, limit) == MergeFrom([], [[c]] + lists + [tree[c]])
  {
    MroAllExact(tree, tree[c], limit - 1);
    lists := MroAll(tree, tree[c], limit - 1).lists;
  }

  lemma RespectsParts(order: seq<string>, c: string, lists: seq<seq<string>>, parents: seq<string>)
    requires Consistent(order, [[c]] + lists + [parents])
    ensures Distinct(order) && Respects(order, parents)
    ensures forall i :: 0 <= i < |lists| ==> Respects(order, lists[i])
  {
    hide Respects;
    var seqs := [[c]] + lists + [parents];
    assert seqs[|seqs| - 1] == parents;
    forall i | 0 <= i < |lists| ensures Respects(order, lists[i]) {
      assert seqs[i + 1] == lists[i];
    }
  }

  lemma MroNames(tree: Tree, c: string, lists: seq<seq<string>>, x: string, limit: nat)
    requires limit > 0 && c in tree && IsMroAll(tree, tree[c], limit - 1, Lists(lists))
    requires ParentsKnown(tree, c, limit)
    ensures InSome([[c]] + lists + [tree[c]], x) <==> Inherits(tree, c, x)
  {
    var parents, seqs := tree[c], [[c]] + lists + [tree[c]];
    InheritsIsSelfOrProper(tree, c, x);
    ProperAncestorByParent(tree, c, x);
    if k :| 0 <= k < |seqs| && x in seqs[k] {
      if k == 0 {
      } else if k <= |lists| {
        assert seqs[k] == lists[k - 1];
        assert Mro(tree, parents[k - 1], limit - 1) == Merged(lists[k - 1]);
        assert parents[k - 1] in parents;
        assert Inherits(tree, parents[k - 1], x);
      } else {
        InheritsIsSelfOrProper(tree, x, x);
      }
    }
    if x == c {
      assert x in seqs[0];
    } else if p :| p in parents && Inherits(tree, p, x) {
      var i :| 0 <= i < |parents| && parents[i] == p;
      assert Mro(tree, p, limit - 1) == Merged(lists[i]);
      assert seqs[i + 1] == lists[i];
    }
  }

  lemma ClassComesFirst(tree: Tree, c: string, lists: seq<seq<string>>, limit: nat)
    requires Mro(tree, c, limit).Merged? && MroAll(tree, tree[c], limit - 1) == Lists(lists)
    requires IsMroAll(tree, tree[c], limit - 1, Lists(lists))
    requires ParentsKnown(tree, c, limit)
    ensures Mro(tree, c, limit).order != [] && Mro(tree, c, limit).order[0] == c
  {
    hide ParentsKnown, IsMroAll, InSomeTail, DropHeads, FindHead;
    NoTailHasClass(tree, c, lists, limit);
    MroAllExact(tree, tree[c], limit - 1);
    HeadComesFirst(c, [[c]] + lists + [tree[c]]);
  }

  lemma NoTailHasClass(tree: Tree, c: string, lists: seq<seq<string>>, limit: nat)
    requires Mro(tree, c, limit).Merged? && MroAll(tree, tree[c], limit - 1) == Lists(lists)
    requires IsMroAll(tree, tree[c], limit - 1, Lists(lists))
    requires ParentsKnown(tree, c, limit)
    ensures !InSomeTail([[c]] + lists + [tree[c]], c)
  {
    var parents, seqs := tree[c], [[c]] + lists + [tree[c]];
    hide MergeFrom, Lineage, ProperAncestor;
    if InSomeTail(seqs, c) {
      var k :| 0 <= k < |seqs| && seqs[k] != [] && c in seqs[k][1..];
      assert c in seqs[k];
      assert k > 0;
      var p := parents[if k <= |lists| then k - 1 else IndexOf(parents, c)];
      InheritsIsSelfOrProper(tree, c, c);
      assert p in parents && Inherits(tree, p, c);
      ProperAncestorByParent(tree, c, c);
      CircularNeverMerges(tree, c, limit);
      assert false;
    }
  }

  // A first list of one name, found in no tail, gives the first of the result.
  lemma HeadComesFirst(c: string, seqs: seq<seq<string>>)
    requires seqs != [] && seqs[0] == [c] && !InSomeTail(seqs, c) && MergeFrom([], seqs).Merged?
    ensures MergeFrom([], seqs).order != [] && MergeFrom([], seqs).order[0] == c
  {
    hide InSomeTail;
    assert FindHead(seqs, 0) == Some(c);
    assert InSome(seqs, c);
    assert IsSomeHead(seqs, c);
    DropHeadsShortens(seqs, c);
    forall y | y in [c] ensures !InSome(DropHeads(seqs, c), y) {
      DropHeadsRemoves(seqs, c, y);
    }
    assert c != "" by { assert MergeFrom([], seqs).Merged?; }
    assert [] + [c] == [c];
    MergeSound([c], DropHeads(seqs, c));
  }

  // With every parent known, no circular inheritance and a deep enough stack,
  // the only possible failure is an inconsistent hierarchy.
  lemma {:induction false} MroTerminates(tree: Tree, c: string, rank: map<string, nat>, limit: nat)
    requires rank.Keys == tree.Keys && c in tree
    requires forall x, p :: x in tree && p in tree[x] ==> p in tree && rank[p] < rank[x]
    requires rank[c] < limit
    ensures Mro(tree, c, limit).Merged? || Mro(tree, c, limit).BadHierarchy?
    decreases limit
  {
    forall p | p in tree[c]
      ensures Mro(tree, p, limit - 1).Merged? || Mro(tree, p, limit - 1).BadHierarchy?
    {
      MroTerminates(tree, p, rank, limit - 1);
    }
    var all := MroAll(tree, tree[c], limit - 1);
    MroAllExact(tree, tree[c], limit - 1);
    if all.Lists? {
      MergeExact([[c]] + all.lists + [tree[c]]);
    }
  }

  /* ---- mro: the method over mutable lists ---- */

  function Values(tree: map<string, NameList>): (t: Tree)
    reads tree.Values
    ensures t.Keys == tree.Keys && forall c :: c in tree ==> t[c] == tree[c].items
  {
    map c | c in tree :: tree[c].items
  }

  function Prepend(done: seq<seq<string>>, all: Lists): Lists {
    match all case Failed(why) => all case Lists(rest) => Lists(done + rest)
  }

  lemma PrependStep(tree: Tree, cs: seq<string>, limit: nat, done: seq<seq<string>>)
    requires cs != [] && Mro(tree, cs[0], limit).Merged?
    ensures Prepend(done, MroAll(tree, cs, limit)) ==
            Prepend(done + [Mro(tree, cs[0], limit).order], MroAll(tree, cs[1..], limit))
  {
    var head, rest := Mro(tree, cs[0], limit).order, MroAll(tree, cs[1..], limit);
    if rest.Lists? {
      assert done + ([head] + rest.lists) == (done + [head]) + rest.lists;
    }
  }

  // [[C]] + lists + [copy(parents)], merged.
  method MergeParents(c: string, lists: seq<NameList>, parents: seq<string>) returns (r: Outcome)
    requires Distinct(lists)
    modifies lists
    ensures r == MergeFrom([], [[c]] + old(Contents(lists)) + [parents])
  {
    var first := new NameList([c]);
    var last := new NameList(parents);
    var all := [first] + lists + [last];
    hide MergeFrom, Contents, Distinct;
    Padded(first, lists, last);
    r := Merge(all);
  }

  lemma Padded(first: NameList, lists: seq<NameList>, last: NameList)
    requires Distinct(lists) && first != last && first !in lists && last !in lists
    ensures Distinct([first] + lists + [last])
    ensures Contents([first] + lists + [last]) == [first.items] + Contents(lists) + [last.items]
  {
  }

  // No modifies clause: merge shortens only lists made here, so the tree's own
  // lists stay as they were.  This is what the copy of tree[c] is for.
  method ComputeMro(tree: map<string, NameList>, c: string, limit: nat) returns (r: Outcome)
    ensures r == Mro(Values(tree), c, limit)
    decreases limit, 0
  {
    if limit == 0 { return RecursionLimit; }
    if c !in tree { return UnknownName; }
    ghost var values := Values(tree);
    var lists, failure := ComputeParents(tree, tree[c].items, limit - 1);
    if failure.Some? { return failure.value; }
    r := MergeParents(c, lists, tree[c].items);
    assert Values(tree) == values;
  }

  method ComputeParents(tree: map<string, NameList>, parents: seq<string>, limit: nat)
    returns (lists: seq<NameList>, failure: Option<Outcome>)
    ensures fresh(lists) && Distinct(lists)
    ensures MroAll(Values(tree), parents, limit) ==
            if failure.Some? then Failed(failure.value) else Lists(Contents(lists))
    decreases limit, 1
  {
    lists, failure := [], None;
    ghost var values := Values(tree);
    ghost var done: seq<seq<string>> := [];
    assert Prepend(done, MroAll(values, parents, limit)) == MroAll(values, parents, limit);
    assert parents[0..] == parents;
    for i := 0 to |parents|
      invariant fresh(lists) && Distinct(lists)
      invariant Contents(lists) == done && Values(tree) == values
      invariant MroAll(values, parents, limit) == Prepend(done, MroAll(values, parents[i..], limit))
    {
      assert parents[i..][1..] == parents[i + 1..];
      var m := ComputeMro(tree, parents[i], limit);
      if !m.Merged? { return lists, Some(m); }
      var l := new NameList(m.order);
      PrependStep(values, parents[i..], limit, done);
      lists, done := lists + [l], done + [m.order];
    }
  }
}

// compute_family_tree (config.py): parents, linearised ancestors, descendants.
module FamilyTree {
  import opened C3
  import opened Ordering
  import opened Wrappers

  datatype Declared = Declared(parents: seq<string>, first: seq<string>) | Invalid

  // inherit holds the names that set "inherit"; the others inherit from root.
  function DeclaredParents(names: set<string>, inherit: map<string, seq<string>>, name: string): Declared {
    if name == "root" then Declared([], [])
    else
      var pts := if name in inherit && inherit[name] != [] then inherit[name] else ["root"];
      if exists p :: p in pts && p != "None" && p !in names then Invalid
      else if pts[0] == "None" then
        if |pts| < 2 then Invalid else Declared(pts[1..], ["root"])
      else Declared(pts, [pts[0]])
  }

  // n is below p: p is in n's linearisation, after n itself.
  ghost predicate IsDescendantMap(descendants: map<string, set<string>>, names: set<string>,
                                  linearised: map<string, seq<string>>)
    requires linearised.Keys == names
  {
    && (forall p :: p in descendants ==> descendants[p] != {})
    && (forall p, n :: p in descendants && n in descendants[p] <==>
          n in names && linearised[n] != [] && p in linearised[n][1..])
  }

  method Descendants(names: seq<string>, linearised: map<string, seq<string>>)
    returns (descendants: map<string, set<string>>)
    requires linearised.Keys == set n | n in names
    ensures IsDescendantMap(descendants, linearised.Keys, linearised)
  {
    descendants := map[];
    for i := 0 to |names|
      invariant forall p :: p in descendants ==> descendants[p] != {}
      invariant forall p, n :: p in descendants && n in descendants[p] <==>
                  n in names[..i] && linearised[n] != [] && p in linearised[n][1..]
    {
      var name := names[i];
      var ancestors := if linearised[name] == [] then [] else linearised[name][1..];
      for j := 0 to |ancestors|
        invariant forall p :: p in descendants ==> descendants[p] != {}
        invariant forall p, n :: p in descendants && n in descendants[p] <==>
                    || (n in names[..i] && linearised[n] != [] && p in linearised[n][1..])
                    || (n == name && p in ancestors[..j])
      {
        var p := ancestors[j];
        descendants := descendants[p := (if p in descendants then descendants[p] else {}) + {name}];
        assert ancestors[..j + 1] == ancestors[..j] + [p];
      }
      assert ancestors[..|ancestors|] == ancestors;
      assert names[..i + 1] == names[..i] + [name];
    }
    assert names[..|names|] == names;
  }

  // The parent tables that the names of the configuration give.
  predicate AllDeclared(names: set<string>, inherit: map<string, seq<string>>) {
    forall n :: n in names ==> DeclaredParents(names, inherit, n).Declared?
  }

  function ParentTree(names: set<string>, inherit: map<string, seq<string>>, first: bool): Tree
    requires AllDeclared(names, inherit)
  {
    map n | n in names ::
      var d := DeclaredParents(names, inherit, n); if first then d.first else d.parents
  }

  // Which inheritances fail, and what the others give: the names inherited, root
  // by default, without a leading "None"; and as the only first parent the first
  // of them, or root after a "None".
  lemma DeclaredIs(names: set<string>, inherit: map<string, seq<string>>, name: string, pts: seq<string>)
    requires name != "root" && pts == if name in inherit && |inherit[name]| > 0 then inherit[name] else ["root"]
    ensures var d := DeclaredParents(names, inherit, name);
            && (d.Invalid? <==> (exists i :: 0 <= i < |pts| && pts[i] != "None" && pts[i] !in names)
                                || (|pts| == 1 && pts[0] == "None"))
            && (d.Declared? ==> d.first == [if pts[0] == "None" then "root" else pts[0]])
            && (d.Declared? ==> d.parents == if pts[0] == "None" then pts[1..] else pts)
    ensures DeclaredParents(names, inherit, "root") == Declared([], [])
  {
  }

  lemma ParentTreeIs(names: set<string>, inherit: map<string, seq<string>>, name: string)
    requires AllDeclared(names, inherit)
    ensures name in ParentTree(names, inherit, true) <==> name in names
    ensures name in ParentTree(names, inherit, false) <==> name in names
    ensures name in names ==>
              DeclaredParents(names, inherit, name) ==
              Declared(ParentTree(names, inherit, false)[name], ParentTree(names, inherit, true)[name])
  {
  }

  ghost predicate AllLinearise(tree: Tree, limit: nat) {
    forall n :: n in tree ==> Mro(tree, n, limit).Merged?
  }

  ghost predicate AreLinearisations(linearised: map<string, seq<string>>, tree: Tree, limit: nat) {
    && linearised.Keys == tree.Keys
    && forall n :: n in tree ==> Mro(tree, n, limit) == Merged(linearised[n])
  }

  // The descendants map is the exact inverse of proper inheritance.
  lemma DescendantsExact(tree: Tree, linearised: map<string, seq<string>>,
                         descendants: map<string, set<string>>, limit: nat)
    requires AreLinearisations(linearised, tree, limit)
    requires IsDescendantMap(descendants, tree.Keys, linearised)
    ensures forall p, n :: p in descendants && n in descendants[p] <==> n in tree && ProperAncestor(tree, n, p)
    ensures forall p :: p in descendants ==> p !in tree || p !in descendants[p]
  {
    forall p, n | n in tree
      ensures linearised[n] != [] && (p in linearised[n][1..] <==> ProperAncestor(tree, n, p))
      ensures !ProperAncestor(tree, n, n)
    {
      var order := linearised[n];
      MroSound(tree, n, limit);
      InheritsIsSelfOrProper(tree, n, p);
      if ProperAncestor(tree, n, n) { CircularNeverMerges(tree, n, limit); }
      assert order == [n] + order[1..];
      assert n !in order[1..];
    }
    forall p, n | ProperAncestor(tree, n, p) ensures n in tree {
      var path :| Lineage(tree, path) && path[0] == n && path[|path| - 1] == p && |path| > 1;
    }
  }

  class Runtime {
    const names: seq<string>                  // cfg['runtime'], in order
    const inherit: map<string, seq<string>>
    var parents: Tree
    var linearised: map<string, seq<string>>
    var firstLinearised: map<string, seq<string>>
    var descendants: map<string, set<string>>
    var firstDescendants: map<string, set<string>>

    constructor (names: seq<string>, inherit: map<string, seq<string>>)
      ensures this.names == names && this.inherit == inherit
    {
      this.names, this.inherit := names, inherit;
      parents, linearised, firstLinearised, descendants, firstDescendants := map[], map[], map[], map[], map[];
    }

    function Names(): set<string> {
      set n | n in names
    }

    static method MakeTree(values: Tree) returns (tree: map<string, NameList>)
      ensures Values(tree) == values && fresh(tree.Values)
    {
      tree := map[];
      var left := values.Keys;
      while left != {}
        invariant left <= values.Keys && tree.Keys == values.Keys - left && fresh(tree.Values)
        invariant forall n :: n in tree ==> tree[n].items == values[n]
        decreases left
      {
        var n :| n in left;
        var l := new NameList(values[n]);
        assert tree[n := l].Values <= tree.Values + {l};
        tree, left := tree[n := l], left - {n};
      }
    }

    static method LineariseAll(names: seq<string>, values: Tree, limit: nat)
      returns (linearised: map<string, seq<string>>, ok: bool)
      requires values.Keys == set n | n in names
      ensures ok <==> AllLinearise(values, limit)
      ensures ok ==> AreLinearisations(linearised, values, limit)
    {
      linearised := map[];
      var tree := MakeTree(values);
      for i := 0 to |names|
        invariant Values(tree) == values
        invariant linearised.Keys == set n | n in names[..i]
        invariant forall n :: n in linearised ==> Mro(values, n, limit) == Merged(linearised[n])
      {
        var m := ComputeMro(tree, names[i], limit);
        if !m.Merged? { return linearised, false; }
        linearised := linearised[names[i] := m.order];
        assert names[..i + 1] == names[..i] + [names[i]];
      }
      assert names[..|names|] == names;
      return linearised, true;
    }

    // False stands for the WorkflowConfigError that every failure becomes.
    method ComputeFamilyTree(limit: nat) returns (ok: bool)
      modifies this
      ensures ok <==>
              && AllDeclared(Names(), inherit)
              && AllLinearise(ParentTree(Names(), inherit, false), limit)
              && AllLinearise(ParentTree(Names(), inherit, true), limit)
      ensures ok ==>
              && parents == ParentTree(Names(), inherit, false)
              && AreLinearisations(linearised, parents, limit)
              && (forall p, n :: p in descendants && n in descendants[p] <==>
                    n in parents && ProperAncestor(parents, n, p))
      ensures ok ==>
              var first := ParentTree(Names(), inherit, true);
              && AreLinearisations(firstLinearised, first, limit)
              && (forall p, n :: p in firstDescendants && n in firstDescendants[p] <==>
                    n in first && ProperAncestor(first, n, p))
    {
      if n :| n in Names() && DeclaredParents(Names(), inherit, n).Invalid? {
        return false;
      }
      hide AreLinearisations, AllLinearise, ProperAncestor, DeclaredParents, IsDescendantMap;
      assert AllDeclared(Names(), inherit);
      parents := ParentTree(Names(), inherit, false);
      var first := ParentTree(Names(), inherit, true);
      assert parents.Keys == Names() && first.Keys == Names();
      hide ParentTree, AllDeclared;
      linearised, ok := LineariseAll(names, parents, limit);
      if !ok { return; }
      firstLinearised, ok := LineariseAll(names, first, limit);
      if !ok { return; }
      descendants := ExactDescendants(names, linearised, parents, limit);
      firstDescendants := ExactDescendants(names, firstLinearised, first, limit);
    }

    static method ExactDescendants(names: seq<string>, linearised: map<string, seq<string>>,
                                   ghost tree: Tree, ghost limit: nat)
      returns (descendants: map<string, set<string>>)
      requires tree.Keys == (set n | n in names) && AreLinearisations(linearised, tree, limit)
      ensures forall p, n :: p in descendants && n in descendants[p] <==> n in tree && ProperAncestor(tree, n, p)
    {
      assert linearised.Keys == tree.Keys;
      descendants := Descendants(names, linearised);
      DescendantsExact(tree, linearised, descendants, limit);
    }
  }
}
