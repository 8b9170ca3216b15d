// Clearing broadcasts, and pruning the branches this leaves empty (broadcast_mgr.py).

module TreePaths {
  import opened Settings
  import opened Wrappers

  predicate IsSection(t: Tree, p: Path) {
    At(t, p).Some? && At(t, p).value.Section?
  }

  // The paths of all the sections, the whole tree's own [] among them.
  function Sections(t: Tree): set<Path> {
    if t.Leaf? then {}
    else {[]} + set k, p | k in t.items && p in Sections(t.items[k]) :: [k] + p
  }

  lemma {:induction false} InSections(t: Tree, p: Path)
    ensures p in Sections(t) <==> IsSection(t, p)
    decreases |p|
  {
    if p != [] && t.Section? && p[0] in t.items {
      InSections(t.items[p[0]], p[1..]);
      assert p == [p[0]] + p[1..];
    }
  }

  lemma {:induction false} AtJoin(t: Tree, p: Path, q: Path)
    ensures At(t, p + q) == if At(t, p).Some? then At(At(t, p).value, q) else None
    decreases |p|
  {
    if p == [] {
      assert p + q == q;
    } else if t.Section? && p[0] in t.items {
      assert (p + q)[1..] == p[1..] + q;
      AtJoin(t.items[p[0]], p[1..], q);
    }
  }

  lemma AtChild(t: Tree, p: Path, k: string)
    ensures At(t, p + [k]) ==
            if IsSection(t, p) && k in At(t, p).value.items then Some(At(t, p).value.items[k]) else None
  {
    AtJoin(t, p, [k]);
    if At(t, p).Some? {
      var x := At(t, p).value;
      if x.Section? && k in x.items {
        assert [k][1..] == [];
      }
    }
  }

  // What is above a section is a section.
  lemma SectionAbove(t: Tree, p: Path, q: Path)
    requires p <= q && IsSection(t, q)
    ensures IsSection(t, p)
  {
    assert q == p + q[|p|..];
    AtJoin(t, p, q[|p|..]);
  }

  // stuff[...] = x
  function PutAt(t: Tree, p: Path, x: Tree): Tree
    requires At(t, p).Some?
  {
    if p == [] then x else Section(t.items[p[0] := PutAt(t.items[p[0]], p[1..], x)])
  }

  // The settings at some paths set to None.
  function Marked(t: Tree, at: Path, marks: set<Path>): Tree {
    if t.Leaf? then (if at in marks then Leaf(None) else t)
    else Section(map k | k in t.items :: Marked(t.items[k], at + [k], marks))
  }

  lemma {:induction false} MarkedAt(t: Tree, at: Path, marks: set<Path>, p: Path)
    ensures At(Marked(t, at, marks), p) ==
            if At(t, p).Some? then Some(Marked(At(t, p).value, at + p, marks)) else None
    decreases |p|
  {
    if p == [] {
      assert at + p == at;
    } else if t.Section? && p[0] in t.items {
      assert at + [p[0]] + p[1..] == at + p;
      MarkedAt(t.items[p[0]], at + [p[0]], marks, p[1..]);
    }
  }

  lemma {:induction false} MarkedAlike(t: Tree, at: Path, marks: set<Path>, more: set<Path>)
    requires forall q :: q in more && at <= q ==> q in marks
    ensures Marked(t, at, marks + more) == Marked(t, at, marks)
    decreases t
  {
    if t.Section? {
      forall k | k in t.items
        ensures Marked(t.items[k], at + [k], marks + more) == Marked(t.items[k], at + [k], marks)
      {
        forall q | q in more && at + [k] <= q ensures q in marks {
          assert at <= at + [k] <= q;
        }
        MarkedAlike(t.items[k], at + [k], marks, more);
      }
      assert Marked(t, at, marks + more).items == Marked(t, at, marks).items;
    }
  }

  lemma OtherBranch(at: Path, j: string, p: Path, q: Path)
    requires p != [] && j != p[0] && at + p <= q
    ensures !(at + [j] <= q)
  {
    assert q[|at|] == (at + p)[|at|] == p[0];
    assert (at + [j])[|at|] == j;
  }

  // Setting a section's own settings to None, when no other path is concerned.
  lemma {:induction false} PutMarked(t: Tree, at: Path, marks: set<Path>, p: Path, more: set<Path>)
    requires IsSection(t, p) && forall q :: q in more ==> at + p <= q
    ensures At(Marked(t, at, marks), p).Some?
    ensures PutAt(Marked(t, at, marks), p, Marked(At(t, p).value, at + p, marks + more)) == Marked(t, at, marks + more)
    decreases |p|
  {
    MarkedAt(t, at, marks, p);
    if p == [] {
      assert at + p == at;
    } else {
      var k := p[0];
      assert at + [k] + p[1..] == at + p;
      PutMarked(t.items[k], at + [k], marks, p[1..], more);
      forall j | j in t.items && j != k
        ensures Marked(t.items[j], at + [j], marks + more) == Marked(t.items[j], at + [j], marks)
      {
        forall q | q in more ensures !(at + [j] <= q) {
          OtherBranch(at, j, p, q);
        }
        MarkedAlike(t.items[j], at + [j], marks, more);
      }
      var after := PutAt(Marked(t, at, marks), p, Marked(At(t, p).value, at + p, marks + more));
      assert after.items == Marked(t, at, marks + more).items;
    }
  }

  // Pruning.

  predicate Live(t: Tree) {
    if t.Leaf? then t.setting.Some? else exists k :: k in t.items && Live(t.items[k])
  }

  // Without what holds no setting.
  function Pruned(t: Tree): Tree {
    if t.Leaf? then t
    else Section(map k | k in t.items && Live(t.items[k]) :: Pruned(t.items[k]))
  }

  lemma EmptyUnlessLive(t: Tree)
    requires t.Section?
    ensures Pruned(t) == Section(map[]) <==> !Live(t)
  {
    if Live(t) {
      var k :| k in t.items && Live(t.items[k]);
      assert k in Pruned(t).items;
    } else {
      assert Pruned(t).items == map[];
    }
  }

  // The settings that are left are the same, and every section has one.
  lemma {:induction false} PrunedLeaves(t: Tree, p: Path)
    requires t.Section?
    ensures LeafAt(Pruned(t), p) == match LeafAt(t, p) case Some(Some(v)) => Some(Some(v)) case _ => None
    ensures p != [] && IsSection(Pruned(t), p) ==> At(Pruned(t), p).value.items != map[]
    decreases |p|
  {
    if p != [] && p[0] in t.items {
      var x := t.items[p[0]];
      LeafBelow(t, p);
      LeafBelow(Pruned(t), p);
      if x.Section? {
        PrunedLeaves(x, p[1..]);
        if !Live(x) {
          if At(x, p[1..]).Some? {
            DeadBelow(x, p[1..]);
          }
        } else if p[1..] == [] {
          EmptyUnlessLive(x);
        }
      }
    }
  }

  lemma {:induction false} DeadBelow(t: Tree, p: Path)
    requires !Live(t) && At(t, p).Some?
    ensures !Live(At(t, p).value)
    decreases |p|
  {
    if p != [] {
      DeadBelow(t.items[p[0]], p[1..]);
    }
  }

  // The tree while some of its sections have been pruned.
  function PrunedBy(t: Tree, at: Path, done: set<Path>): Tree {
    if t.Leaf? then t
    else if at in done then Pruned(t)
    else Section(map k | k in t.items :: PrunedBy(t.items[k], at + [k], done))
  }

  lemma {:induction false} PrunedByAt(t: Tree, at: Path, done: set<Path>, p: Path)
    requires At(t, p).Some? && forall i :: 0 <= i < |p| ==> at + p[..i] !in done
    ensures At(PrunedBy(t, at, done), p) == Some(PrunedBy(At(t, p).value, at + p, done))
    decreases |p|
  {
    if p == [] {
      assert at + p == at;
    } else {
      assert at + p[..0] == at;
      assert at + [p[0]] + p[1..] == at + p;
      forall i | 0 <= i < |p| - 1 ensures at + [p[0]] + p[1..][..i] !in done {
        assert at + [p[0]] + p[1..][..i] == at + p[..i + 1];
      }
      PrunedByAt(t.items[p[0]], at + [p[0]], done, p[1..]);
    }
  }

  lemma {:induction false} PrunedByAlike(t: Tree, at: Path, done: set<Path>, p: Path)
    requires !(at <= p)
    ensures PrunedBy(t, at, done + {p}) == PrunedBy(t, at, done)
    decreases t
  {
    if t.Section? {
      if at !in done {
        forall k | k in t.items
          ensures PrunedBy(t.items[k], at + [k], done + {p}) == PrunedBy(t.items[k], at + [k], done)
        {
          assert at <= at + [k];
          PrunedByAlike(t.items[k], at + [k], done, p);
        }
        assert PrunedBy(t, at, done + {p}).items == PrunedBy(t, at, done).items;
      }
    }
  }

  lemma {:induction false} PutPruned(t: Tree, at: Path, done: set<Path>, p: Path)
    requires IsSection(t, p) && forall i :: 0 <= i < |p| ==> at + p[..i] !in done
    ensures At(PrunedBy(t, at, done), p).Some?
    ensures PutAt(PrunedBy(t, at, done), p, Pruned(At(t, p).value)) == PrunedBy(t, at, done + {at + p})
    decreases |p|
  {
    PrunedByAt(t, at, done, p);
    if p == [] {
      assert at + p == at;
    } else {
      var k := p[0];
      assert at + p[..0] == at;
      assert at + [k] + p[1..] == at + p;
      forall i | 0 <= i < |p| - 1 ensures at + [k] + p[1..][..i] !in done {
        assert at + [k] + p[1..][..i] == at + p[..i + 1];
      }
      PutPruned(t.items[k], at + [k], done, p[1..]);
      forall j | j in t.items && j != k
        ensures PrunedBy(t.items[j], at + [j], done + {at + p}) == PrunedBy(t.items[j], at + [j], done)
      {
        OtherBranch(at, j, p, at + p);
        PrunedByAlike(t.items[j], at + [j], done, at + p);
      }
      assert at != at + p;
      var after := PutAt(PrunedBy(t, at, done), p, Pruned(At(t, p).value));
      assert after.items == PrunedBy(t, at, done + {at + p}).items;
    }
  }
}

// Depth-first walks over the sections of a tree with an explicit stack.
module TreeWalk {
  import opened Settings
  import opened TreePaths
  import opened Wrappers

  ghost predicate Covered(news: set<Path>, s: Path) {
    exists f :: f in news && f <= s
  }

  // Sections waiting to be opened and sections already opened: no waiting
  // section is above another or above an opened one, and each section below
  // the root is opened, or waiting, or below one that is waiting.
  ghost predicate Pending(t: Tree, root: Path, news: set<Path>, begun: set<Path>) {
    && (forall f :: f in news ==> root <= f && IsSection(t, f))
    && (forall f, o :: f in news && o in begun ==> !(f <= o))
    && (forall f, g :: f in news && g in news && f <= g ==> f == g)
    && (forall o :: o in begun ==> root <= o && IsSection(t, o))
    && (forall s :: root <= s && IsSection(t, s) ==> s in begun || Covered(news, s))
  }

  ghost predicate IsChild(t: Tree, f: Path, c: Path) {
    |c| == |f| + 1 && f < c && IsSection(t, c)
  }

  function Children(t: Tree, f: Path): set<Path>
    requires IsSection(t, f)
  {
    set k | k in At(t, f).value.items && At(t, f).value.items[k].Section? :: f + [k]
  }

  lemma ChildrenAre(t: Tree, f: Path, c: Path)
    requires IsSection(t, f)
    ensures c in Children(t, f) <==> IsChild(t, f, c)
  {
    if c in Children(t, f) {
      AtChild(t, f, c[|f|]);
    }
    if |c| == |f| + 1 && f < c {
      assert c == f + [c[|f|]];
      AtChild(t, f, c[|f|]);
    }
  }

  lemma PendingStart(t: Tree, root: Path)
    requires IsSection(t, root)
    ensures Pending(t, root, {root}, {})
  {
  }

  // Opening a section: it makes way for its children.
  lemma PendingStep(t: Tree, root: Path, news: set<Path>, begun: set<Path>, f: Path)
    requires Pending(t, root, news, begun) && f in news
    ensures Pending(t, root, news - {f} + Children(t, f), begun + {f})
    ensures f !in begun && Children(t, f) !! news && f !in Children(t, f)
  {
    hide Children, IsSection;
    var kids := Children(t, f);
    forall c | c in kids ensures IsChild(t, f, c) && root <= c && c !in news {
      ChildrenAre(t, f, c);
    }
    forall g, h | g in news - {f} + kids && h in news - {f} + kids && g <= h ensures g == h {
      assert g in kids ==> f <= h;
      assert g !in kids && h in kids ==> g <= f || g == h;
    }
    forall g, o | g in news - {f} + kids && o in begun + {f} ensures !(g <= o) {
      assert g in kids && g <= o ==> f <= o;
    }
    forall s | root <= s && IsSection(t, s) ensures s in begun + {f} || Covered(news - {f} + kids, s) {
      if s !in begun + {f} {
        var g :| g in news && g <= s;
        if g == f {
          assert |f| == |s| ==> f == s;
          var c := s[..|f| + 1];
          SectionAbove(t, c, s);
          ChildrenAre(t, f, c);
          assert c in news - {f} + kids && c <= s;
        } else {
          assert g in news - {f} + kids;
        }
      }
    }
  }

  lemma PendingEnd(t: Tree, root: Path, begun: set<Path>, s: Path)
    requires Pending(t, root, {}, begun)
    ensures s in begun <==> root <= s && IsSection(t, s)
  {
  }
}

module BroadcastClearing {
  import opened Settings
  import opened TreePaths
  import opened TreeWalk
  import opened Wrappers

  // An element of the stack in _prune: the keys of a section, and whether it is
  // still to be opened or is back to be pruned itself.
  datatype Frame = Frame(path: Path, isNew: bool)

  ghost function News(stack: seq<Frame>): set<Path> {
    set i | 0 <= i < |stack| && stack[i].isNew :: stack[i].path
  }

  ghost predicate Above(stack: seq<Frame>, i: int, p: Path) {
    exists j :: 0 <= j && i < j < |stack| && stack[j].path == p
  }

  // Every section on the stack is there once.
  ghost predicate OncePerPath(stack: seq<Frame>) {
    forall i, j :: 0 <= i < j < |stack| ==> stack[i].path != stack[j].path
  }

  // Those that are back on the stack have been opened and are not done, and
  // there are no others that have.
  ghost predicate HalfDone(stack: seq<Frame>, begun: set<Path>, done: set<Path>) {
    && (forall i :: 0 <= i < |stack| && !stack[i].isNew ==> stack[i].path in begun && stack[i].path !in done)
    && (forall o :: o in begun && o !in done ==> Above(stack, -1, o))
    && done <= begun
  }

  // The children of a section that is back on the stack are done or above it.
  ghost predicate KidsAbove(t: Tree, stack: seq<Frame>, done: set<Path>) {
    forall i, c :: 0 <= i < |stack| && !stack[i].isNew && IsChild(t, stack[i].path, c) ==>
      c in done || Above(stack, i, c)
  }

  ghost predicate KidsDone(t: Tree, done: set<Path>) {
    forall p, c :: p in done && IsChild(t, p, c) ==> c in done
  }

  ghost predicate Stacked(t: Tree, stack: seq<Frame>, begun: set<Path>, done: set<Path>) {
    && Pending(t, [], News(stack), begun)
    && OncePerPath(stack)
    && HalfDone(stack, begun, done)
    && KidsAbove(t, stack, done)
    && KidsDone(t, done)
  }

  // What has been pruned: every section or setting without any live setting in
  // it whose own section is done, with what was pruned from inside it before it.
  predicate DeadAt(t: Tree, q: Path) {
    q != [] && At(t, q).Some? && !Live(At(t, q).value)
  }

  ghost predicate PrunedInOrder(t: Tree, prunes: seq<Path>, done: set<Path>) {
    && (forall q :: q in prunes <==> DeadAt(t, q) && q[..|q| - 1] in done)
    && Distinct(prunes)
    && (forall i, j :: 0 <= i < j < |prunes| ==> !(prunes[i] < prunes[j]))
  }

  lemma {:induction false} DoneDown(t: Tree, done: set<Path>, p: Path, q: Path)
    requires KidsDone(t, done) && p in done && p <= q && IsSection(t, q)
    ensures q in done
    decreases |q|
  {
    if p != q {
      assert q[..|q|] == q;
      var above := q[..|q| - 1];
      assert p <= above;
      SectionAbove(t, above, q);
      DoneDown(t, done, p, above);
      assert IsChild(t, above, q);
    }
  }

  lemma StackedStart(t: Tree)
    requires t.Section?
    ensures Stacked(t, [Frame([], true)], {}, {})
  {
    PendingStart(t, []);
    assert News([Frame([], true)]) == {[]} by {
      assert [Frame([], true)][0].isNew;
    }
  }

  lemma StackedEnd(t: Tree, begun: set<Path>, done: set<Path>, q: Path)
    requires Stacked(t, [], begun, done)
    ensures IsSection(t, q) ==> q in done
  {
    assert News([]) == {};
    PendingEnd(t, [], begun, q);
  }

  lemma InNews(stack: seq<Frame>, p: Path)
    ensures p in News(stack) <==> Frame(p, true) in stack
  {
    if p in News(stack) {
      var i :| 0 <= i < |stack| && stack[i].isNew && stack[i].path == p;
      assert stack[i] == Frame(p, true);
    }
    if Frame(p, true) in stack {
      var i :| 0 <= i < |stack| && stack[i] == Frame(p, true);
    }
  }

  // The children of a section as new frames, each once.
  ghost predicate KidsOf(t: Tree, f: Path, kids: seq<Frame>) {
    && (forall i, j :: 0 <= i < j < |kids| ==> kids[i].path != kids[j].path)
    && (forall i :: 0 <= i < |kids| ==> kids[i].isNew && IsChild(t, f, kids[i].path))
    && (forall c :: IsChild(t, f, c) ==> Above(kids, -1, c))
  }

  lemma NewsOpened(t: Tree, rest: seq<Frame>, f: Path, kids: seq<Frame>)
    requires IsSection(t, f) && KidsOf(t, f, kids)
    requires forall i :: 0 <= i < |rest| ==> rest[i].path != f
    ensures News(rest + [Frame(f, false)] + kids) == News(rest + [Frame(f, true)]) - {f} + Children(t, f)
    ensures f in News(rest + [Frame(f, true)])
  {
    hide IsSection, Children;
    var before, after := rest + [Frame(f, true)], rest + [Frame(f, false)] + kids;
    InNews(before, f);
    assert before[|rest|] == Frame(f, true);
    forall p ensures p in News(after) <==> p in News(before) - {f} + Children(t, f) {
      InNews(before, p);
      InNews(after, p);
      ChildrenAre(t, f, p);
      assert Frame(p, true) in after <==> Frame(p, true) in rest || Frame(p, true) in kids;
      assert Frame(p, true) in before <==> Frame(p, true) in rest || p == f;
      assert IsChild(t, f, p) <==> Frame(p, true) in kids by {
        if IsChild(t, f, p) {
          var i :| 0 <= i < |kids| && kids[i].path == p;
          assert kids[i] == Frame(p, true);
        }
      }
    }
  }

  // The first phase: a section goes back on the stack with its children above it.

  function Reopened(rest: seq<Frame>, f: Path, kids: seq<Frame>): seq<Frame> {
    rest + [Frame(f, false)] + kids
  }

  lemma ReopenedIs(rest: seq<Frame>, f: Path, kids: seq<Frame>)
    ensures Reopened(rest, f, kids) == rest + [Frame(f, false)] + kids
  {
  }

  lemma ReopenedAt(rest: seq<Frame>, f: Path, kids: seq<Frame>)
    ensures var s := Reopened(rest, f, kids);
            && |s| == |rest| + 1 + |kids|
            && (forall i :: 0 <= i < |rest| ==> s[i] == rest[i])
            && s[|rest|] == Frame(f, false)
            && (forall i :: |rest| < i < |s| ==> s[i] == kids[i - |rest| - 1])
  {
  }

  lemma ReopenedAbove(rest: seq<Frame>, f: Path, kids: seq<Frame>, i: int, p: Path)
    ensures Above(rest + [Frame(f, true)], i, p) ==> Above(Reopened(rest, f, kids), i, p)
    ensures Above(kids, -1, p) && i <= |rest| ==> Above(Reopened(rest, f, kids), i, p)
  {
    var s := Reopened(rest, f, kids);
    ReopenedAt(rest, f, kids);
    if Above(rest + [Frame(f, true)], i, p) {
      var j :| 0 <= j && i < j < |rest| + 1 && (rest + [Frame(f, true)])[j].path == p;
      assert s[j].path == p;
    }
    if Above(kids, -1, p) && i <= |rest| {
      var j :| 0 <= j < |kids| && kids[j].path == p;
      assert s[|rest| + 1 + j].path == p;
    }
  }

  lemma ReopenedDistinct(t: Tree, rest: seq<Frame>, f: Path, kids: seq<Frame>, begun: set<Path>, done: set<Path>)
    requires OncePerPath(rest + [Frame(f, true)]) && HalfDone(rest + [Frame(f, true)], begun, done)
    requires KidsOf(t, f, kids)
    requires forall i :: 0 <= i < |kids| ==>
               kids[i].path !in begun && kids[i].path !in News(rest + [Frame(f, true)])
    ensures OncePerPath(Reopened(rest, f, kids))
  {
    hide IsChild;
    var before, s := rest + [Frame(f, true)], Reopened(rest, f, kids);
    ReopenedAt(rest, f, kids);
    assert forall i :: 0 <= i < |rest| ==> before[i] == rest[i];
    assert before[|rest|] == Frame(f, true);
    forall i, j | 0 <= i < |rest| + 1 && 0 <= j < |kids| ensures before[i].path != kids[j].path {
      if before[i].isNew {
        assert before[i].path in News(before);
      }
    }
    forall i, j | 0 <= i < j < |s| ensures s[i].path != s[j].path {
      if i <= |rest| < j {
        assert s[i].path == before[i].path;
      } else if j <= |rest| {
        assert s[i].path == before[i].path && s[j].path == before[j].path;
      }
    }
  }

  lemma ReopenedHalf(rest: seq<Frame>, f: Path, kids: seq<Frame>, begun: set<Path>, done: set<Path>)
    requires HalfDone(rest + [Frame(f, true)], begun, done) && f !in begun
    requires forall i :: 0 <= i < |kids| ==> kids[i].isNew
    ensures HalfDone(Reopened(rest, f, kids), begun + {f}, done)
  {
    var before, s := rest + [Frame(f, true)], Reopened(rest, f, kids);
    ReopenedAt(rest, f, kids);
    assert forall i :: 0 <= i < |rest| ==> before[i] == rest[i];
    forall o | o in begun + {f} && o !in done ensures Above(s, -1, o) {
      ReopenedAbove(rest, f, kids, -1, o);
      if o == f {
        assert s[|rest|].path == f;
      }
    }
  }

  lemma ReopenedKids(t: Tree, rest: seq<Frame>, f: Path, kids: seq<Frame>, done: set<Path>)
    requires KidsAbove(t, rest + [Frame(f, true)], done) && KidsOf(t, f, kids)
    ensures KidsAbove(t, Reopened(rest, f, kids), done)
  {
    hide IsChild;
    var before, s := rest + [Frame(f, true)], Reopened(rest, f, kids);
    ReopenedAt(rest, f, kids);
    forall i, c | 0 <= i < |s| && !s[i].isNew && IsChild(t, s[i].path, c) ensures c in done || Above(s, i, c) {
      ReopenedAbove(rest, f, kids, i, c);
      if i < |rest| {
        assert before[i] == s[i];
      }
    }
  }

  lemma OpenStep(t: Tree, rest: seq<Frame>, f: Path, kids: seq<Frame>, begun: set<Path>, done: set<Path>)
    requires Stacked(t, rest + [Frame(f, true)], begun, done) && IsSection(t, f) && KidsOf(t, f, kids)
    ensures f !in begun
    ensures Stacked(t, Reopened(rest, f, kids), begun + {f}, done)
  {
    hide IsSection, Children, HalfDone, KidsAbove, KidsDone;
    var before := rest + [Frame(f, true)];
    assert forall i :: 0 <= i < |rest| ==> before[i] == rest[i];
    assert before[|rest|].path == f;
    NewsOpened(t, rest, f, kids);
    PendingStep(t, [], News(before), begun, f);
    forall i | 0 <= i < |kids| ensures kids[i].path !in begun && kids[i].path !in News(before) {
      ChildrenAre(t, f, kids[i].path);
      assert kids[i].path <= kids[i].path;
    }
    ReopenedDistinct(t, rest, f, kids, begun, done);
    ReopenedHalf(rest, f, kids, begun, done);
    ReopenedKids(t, rest, f, kids, done);
  }

  // The second phase: a section whose children are all done is done.
  lemma CloseStep(t: Tree, rest: seq<Frame>, f: Path, begun: set<Path>, done: set<Path>)
    requires Stacked(t, rest + [Frame(f, false)], begun, done)
    ensures f in begun && f !in done
    ensures forall c :: IsChild(t, f, c) ==> c in done
    ensures Stacked(t, rest, begun, done + {f})
  {
    hide IsSection, Pending, IsChild;
    var before := rest + [Frame(f, false)];
    assert forall i :: 0 <= i < |rest| ==> before[i] == rest[i];
    assert before[|rest|] == Frame(f, false);
    assert News(rest) == News(before) by {
      forall p ensures p in News(rest) <==> p in News(before) {
        InNews(rest, p);
        InNews(before, p);
      }
    }
    forall o | o in begun && o !in done + {f} ensures Above(rest, -1, o) {
      var j :| 0 <= j < |before| && before[j].path == o;
    }
    forall i, c | 0 <= i < |rest| && !rest[i].isNew && IsChild(t, rest[i].path, c)
      ensures c in done + {f} || Above(rest, i, c)
    {
      if c !in done + {f} {
        var j :| i < j < |before| && before[j].path == c;
      }
    }
  }

  // Pruning one section.

  // Its items once the given keys have been looked at.
  ghost predicate Thinned(x: Tree, f: Path, done: set<Path>, stuff: map<string, Tree>, todo: set<string>) {
    && x.Section?
    && (forall k :: k in stuff <==> k in x.items && (k in todo || Live(x.items[k])))
    && (forall k :: k in stuff ==> stuff[k] == PrunedBy(x.items[k], f + [k], done))
  }

  predicate DeadItem(x: Tree, f: Path, seen: set<string>, q: Path)
    requires x.Section?
  {
    |q| == |f| + 1 && f < q && q[|f|] in seen && q[|f|] in x.items && !Live(x.items[q[|f|]])
  }

  ghost predicate Batch(x: Tree, f: Path, batch: seq<Path>, seen: set<string>) {
    && x.Section?
    && (forall q :: q in batch <==> DeadItem(x, f, seen, q))
    && Distinct(batch)
  }

  ghost predicate ReadyAt(t: Tree, f: Path, done: set<Path>) {
    && IsSection(t, f)
    && (forall i :: 0 <= i <= |f| ==> f[..i] !in done)
    && (forall c :: IsChild(t, f, c) ==> c in done)
  }

  lemma ReadyStart(t: Tree, f: Path, done: set<Path>)
    requires ReadyAt(t, f, done)
    ensures var x := At(t, f).value;
            var now := At(PrunedBy(t, [], done), f);
            now.Some? && now.value.Section? && Thinned(x, f, done, now.value.items, x.items.Keys)
            && now.value.items.Keys == x.items.Keys
    ensures Batch(At(t, f).value, f, [], {})
  {
    assert [] + f == f;
    forall i | 0 <= i < |f| ensures [] + f[..i] !in done {
      assert [] + f[..i] == f[..i];
    }
    PrunedByAt(t, [], done, f);
    assert f[..|f|] == f;
  }

  // A key's value is None or empty just when nothing in it is live.
  lemma ReadyKey(t: Tree, f: Path, done: set<Path>, k: string)
    requires ReadyAt(t, f, done) && k in At(t, f).value.items
    ensures var y := At(t, f).value.items[k];
            var now := PrunedBy(y, f + [k], done);
            && now == Pruned(y)
            && (now == Leaf(None) || now == Section(map[]) <==> !Live(y))
  {
    var y := At(t, f).value.items[k];
    AtChild(t, f, k);
    if y.Section? {
      assert IsChild(t, f, f + [k]);
      EmptyUnlessLive(y);
    }
  }

  lemma NextBatch(x: Tree, f: Path, batch: seq<Path>, seen: set<string>, k: string)
    requires Batch(x, f, batch, seen) && k in x.items && k !in seen
    ensures Batch(x, f, if Live(x.items[k]) then batch else batch + [f + [k]], seen + {k})
  {
    var p := f + [k];
    assert p[|f|] == k && f < p && |p| == |f| + 1;
    forall q ensures DeadItem(x, f, seen + {k}, q) <==>
                     DeadItem(x, f, seen, q) || (!Live(x.items[k]) && q == f + [k])
    {
      if |q| == |f| + 1 && f < q {
        assert q == f + [q[|f|]];
        assert q[|f|] == k ==> q == p;
      }
      assert q in batch + [p] <==> q in batch || q == p;
    }
    assert p !in batch;
  }

  lemma ReadyEnd(t: Tree, f: Path, done: set<Path>, stuff: map<string, Tree>)
    requires ReadyAt(t, f, done) && Thinned(At(t, f).value, f, done, stuff, {})
    ensures At(PrunedBy(t, [], done), f).Some?
    ensures PutAt(PrunedBy(t, [], done), f, Section(stuff)) == PrunedBy(t, [], done + {f})
  {
    var x := At(t, f).value;
    assert Pruned(x) == Section(stuff) by {
      forall k | k in stuff ensures stuff[k] == Pruned(x.items[k]) {
        ReadyKey(t, f, done, k);
      }
      assert Pruned(x).items == stuff;
    }
    assert [] + f == f;
    forall i | 0 <= i < |f| ensures [] + f[..i] !in done {
      assert [] + f[..i] == f[..i];
    }
    PutPruned(t, [], done, f);
  }

  lemma ReadyWhenClosed(t: Tree, stack: seq<Frame>, begun: set<Path>, done: set<Path>, f: Path)
    requires Stacked(t, stack, begun, done) && IsSection(t, f) && f !in done
    requires forall c :: IsChild(t, f, c) ==> c in done
    ensures ReadyAt(t, f, done)
  {
    hide IsSection, Pending, KidsAbove, HalfDone, OncePerPath, KidsDone;
    forall i | 0 <= i <= |f| ensures f[..i] !in done {
      if f[..i] in done {
        DoneDown(t, done, f[..i], f);
      }
    }
  }

  lemma DeadItemIs(t: Tree, f: Path, q: Path)
    requires IsSection(t, f)
    ensures DeadItem(At(t, f).value, f, At(t, f).value.items.Keys, q) <==> DeadAt(t, q) && q[..|q| - 1] == f
  {
    if q != [] && q[..|q| - 1] == f {
      assert q == f + [q[|f|]];
      AtChild(t, f, q[|f|]);
    }
    if |q| == |f| + 1 && f < q {
      assert q == f + [q[|f|]];
      AtChild(t, f, q[|f|]);
      assert q[..|q| - 1] == f;
    }
  }

  lemma NextPrunes(t: Tree, prunes: seq<Path>, batch: seq<Path>, done: set<Path>, f: Path)
    requires PrunedInOrder(t, prunes, done) && ReadyAt(t, f, done) && KidsDone(t, done)
    requires Batch(At(t, f).value, f, batch, At(t, f).value.items.Keys)
    ensures PrunedInOrder(t, prunes + batch, done + {f})
  {
    hide DeadItem, IsSection, KidsDone, IsChild, At, Live;
    assert f !in done by {
      assert f[..|f|] == f;
    }
    var all := prunes + batch;
    forall q ensures q in all <==> DeadAt(t, q) && q[..|q| - 1] in done + {f} {
      DeadItemIs(t, f, q);
      assert q in all <==> q in prunes || q in batch;
    }
    forall q | q in batch ensures q != [] && q[..|q| - 1] == f {
      DeadItemIs(t, f, q);
    }
    forall i, j | 0 <= i < j < |all| ensures all[i] != all[j] && !(all[i] < all[j]) {
      if i < |prunes| <= j {
        NotAbove(t, f, done, all[i], all[j]);
      } else if |prunes| <= i {
        assert all[i] in batch && all[j] in batch;
        assert |all[i]| == |f| + 1 == |all[j]|;
      }
    }
  }

  // What was pruned earlier is not above what is pruned now.
  lemma NotAbove(t: Tree, f: Path, done: set<Path>, p: Path, q: Path)
    requires KidsDone(t, done) && IsSection(t, f) && f !in done
    requires p != [] && p[..|p| - 1] in done && q != [] && q[..|q| - 1] == f
    ensures p != q && !(p < q)
  {
    if p[..|p| - 1] <= f {
      DoneDown(t, done, p[..|p| - 1], f);
    }
    ParentsPrefix(p, q);
  }

  lemma ParentsPrefix(p: Path, q: Path)
    requires p != [] && q != []
    ensures p <= q ==> p[..|p| - 1] <= q[..|q| - 1]
  {
  }

  lemma NotDoneAbove(t: Tree, done: set<Path>, f: Path)
    requires KidsDone(t, done) && IsSection(t, f) && f !in done
    ensures forall i :: 0 <= i <= |f| ==> f[..i] !in done
  {
    hide IsSection, KidsDone;
    forall i | 0 <= i <= |f| ensures f[..i] !in done {
      if f[..i] in done {
        DoneDown(t, done, f[..i], f);
      }
    }
  }

  // A section that is not done still has all its items.
  lemma StillThere(t: Tree, done: set<Path>, f: Path)
    requires KidsDone(t, done) && IsSection(t, f) && f !in done
    ensures var now := At(PrunedBy(t, [], done), f);
            && now.Some? && now.value.Section?
            && now.value.items.Keys == At(t, f).value.items.Keys
            && forall k :: k in now.value.items ==>
                 (now.value.items[k].Section? <==> At(t, f).value.items[k].Section?)
  {
    NotDoneAbove(t, done, f);
    assert f[..|f|] == f && [] + f == f;
    forall i | 0 <= i < |f| ensures [] + f[..i] !in done {
      assert [] + f[..i] == f[..i];
    }
    PrunedByAt(t, [], done, f);
  }

  // The sections found in a section, each once, when some keys are still to come.
  ghost predicate SomeKids(t: Tree, f: Path, kids: seq<Path>, todo: set<string>) {
    && Distinct(kids)
    && (forall c :: c in kids <==> IsChild(t, f, c) && c[|f|] !in todo)
  }

  lemma NoKids(t: Tree, f: Path)
    requires IsSection(t, f)
    ensures SomeKids(t, f, [], At(t, f).value.items.Keys)
  {
    forall c | IsChild(t, f, c) ensures c[|f|] in At(t, f).value.items {
      assert c == f + [c[|f|]];
      AtChild(t, f, c[|f|]);
    }
  }

  lemma NextKid(t: Tree, f: Path, kids: seq<Path>, todo: set<string>, k: string)
    requires IsSection(t, f) && SomeKids(t, f, kids, todo) && k in todo && k in At(t, f).value.items
    ensures SomeKids(t, f, if At(t, f).value.items[k].Section? then kids + [f + [k]] else kids, todo - {k})
  {
    var p := f + [k];
    assert p[|f|] == k && f < p;
    AtChild(t, f, k);
    assert IsChild(t, f, p) <==> At(t, f).value.items[k].Section?;
    var after := if At(t, f).value.items[k].Section? then kids + [p] else kids;
    hide IsSection, At;
    forall c ensures c in after <==> IsChild(t, f, c) && c[|f|] !in todo - {k} {
      assert |c| == |f| + 1 && f < c ==> c == f + [c[|f|]];
      assert c in kids + [p] <==> c in kids || c == p;
    }
  }

  function NewFrames(ps: seq<Path>): seq<Frame> {
    seq(|ps|, i requires 0 <= i < |ps| => Frame(ps[i], true))
  }

  lemma FramesOfKids(t: Tree, f: Path, kids: seq<Path>)
    requires SomeKids(t, f, kids, {})
    ensures KidsOf(t, f, NewFrames(kids))
  {
    var frames := NewFrames(kids);
    forall c | IsChild(t, f, c) ensures Above(frames, -1, c) {
      var i :| 0 <= i < |kids| && kids[i] == c;
      assert frames[i].path == c;
    }
    forall i | 0 <= i < |kids| ensures frames[i].isNew && IsChild(t, f, frames[i].path) {
      assert kids[i] in kids;
    }
  }

  // Cancelling.

  // A reported change: the point, the namespace and the keys, and the old value.
  datatype Change = Change(path: Path, text: string)

  function Text(v: Option<string>): string {
    if v.Some? then v.value else "None"
  }

  predicate IsLeaf(t: Tree, q: Path) {
    LeafAt(t, q).Some?
  }

  // Whether the cancel list names the keys below the namespace.
  predicate Picked(cancel: seq<Path>, q: Path) {
    |q| >= 2 && (cancel == [] || q[2..] in cancel)
  }

  predicate Selected(points: seq<string>, namespaces: seq<string>, cancel: seq<Path>, q: Path) {
    |q| >= 3 && (points == [] || q[0] in points) && (namespaces == [] || q[1] in namespaces) && Picked(cancel, q)
  }

  // A cancel list names a setting by all of its keys below the namespace, in
  // order; an empty list of any kind selects everything.
  lemma SelectedIs(points: seq<string>, namespaces: seq<string>, cancel: seq<Path>, q: Path)
    ensures Selected(points, namespaces, cancel, q) <==>
      && |q| >= 3
      && (|points| == 0 || exists i :: 0 <= i < |points| && points[i] == q[0])
      && (|namespaces| == 0 || exists i :: 0 <= i < |namespaces| && namespaces[i] == q[1])
      && (|cancel| == 0 || exists i :: 0 <= i < |cancel| && |cancel[i]| == |q| - 2
                                       && forall j :: 0 <= j < |cancel[i]| ==> cancel[i][j] == q[j + 2])
  {
    if |q| >= 3 {
      var keys := q[2..];
      if keys in cancel {
        var i :| 0 <= i < |cancel| && cancel[i] == keys;
      }
      forall i | 0 <= i < |cancel| && |cancel[i]| == |q| - 2 && forall j :: 0 <= j < |cancel[i]| ==> cancel[i][j] == q[j + 2]
        ensures keys in cancel
      {
        assert cancel[i] == keys;
      }
    }
  }

  // The changes are the given settings, each once, with their values.
  ghost predicate Lists(t: Tree, changes: seq<Change>, marks: set<Path>) {
    && (forall i, j :: 0 <= i < j < |changes| ==> changes[i].path != changes[j].path)
    && (forall c :: c in changes ==> c.path in marks && IsLeaf(t, c.path) && c.text == Text(LeafAt(t, c.path).value))
    && (forall q :: q in marks ==> exists c :: c in changes && c.path == q)
  }

  lemma ListsMore(t: Tree, changes: seq<Change>, marks: set<Path>, more: seq<Change>, extra: set<Path>)
    requires Lists(t, changes, marks) && Lists(t, more, extra) && marks !! extra
    ensures Lists(t, changes + more, marks + extra)
  {
    hide IsLeaf, LeafAt;
    var all := changes + more;
    forall i, j | 0 <= i < j < |all| ensures all[i].path != all[j].path {
      if i < |changes| <= j {
        assert all[i] in changes && all[j] in more;
      }
    }
    forall q | q in marks + extra ensures exists c :: c in all && c.path == q {
      if q in marks {
        var c :| c in changes && c.path == q;
        assert c in all;
      } else {
        var c :| c in more && c.path == q;
        assert c in all;
      }
    }
  }

  // The settings of one section that are to go.
  ghost predicate Going(x: Tree, f: Path, cancel: seq<Path>, q: Path, todo: set<string>)
    requires x.Section?
  {
    && |q| == |f| + 1 && f < q
    && q[|f|] !in todo && q[|f|] in x.items && x.items[q[|f|]].Leaf?
    && Picked(cancel, q)
  }

  // A section's own settings that are to go.
  ghost predicate TakenIn(t: Tree, f: Path, cancel: seq<Path>, taken: set<Path>) {
    forall q :: q in taken <==> q != [] && q[..|q| - 1] == f && IsLeaf(t, q) && Picked(cancel, q)
  }

  ghost predicate Unmarked(f: Path, marks: set<Path>) {
    forall k :: f + [k] !in marks
  }

  ghost predicate NoneUnder(root: Path, marks: set<Path>) {
    forall q :: q in marks ==> !(root <= q)
  }

  // The section's items, with those that go set to None but for the keys to come.
  ghost predicate Scanned(x: Tree, f: Path, cancel: seq<Path>, marks: set<Path>, more: set<Path>,
                          stuff: map<string, Tree>, todo: set<string>) {
    && x.Section?
    && stuff.Keys == x.items.Keys
    && todo <= stuff.Keys
    && (forall k :: k in stuff ==> stuff[k] == Marked(x.items[k], f + [k], marks + more))
    && (forall q :: q in more <==> Going(x, f, cancel, q, todo))
  }

  lemma ScanStart(t: Tree, f: Path, cancel: seq<Path>, marks: set<Path>)
    requires IsSection(t, f)
    ensures var now := At(Marked(t, [], marks), f);
            now.Some? && now.value.Section? && Scanned(At(t, f).value, f, cancel, marks, {}, now.value.items, now.value.items.Keys)
            && now.value.items.Keys == At(t, f).value.items.Keys
    ensures Lists(t, [], {})
  {
    MarkedAt(t, [], marks, f);
    assert [] + f == f;
    assert marks + {} == marks;
  }

  lemma ScanFacts(t: Tree, f: Path, cancel: seq<Path>, marks: set<Path>, more: set<Path>,
                  stuff: map<string, Tree>, todo: set<string>, key: string)
    requires IsSection(t, f) && f + [key] !in marks
    requires Scanned(At(t, f).value, f, cancel, marks, more, stuff, todo) && key in todo
    ensures var x, q := At(t, f).value, f + [key];
            && key in stuff && key in x.items && |todo - {key}| < |todo|
            && (stuff[key].Section? <==> x.items[key].Section?)
            && q !in more
            && (x.items[key].Leaf? ==> stuff[key] == x.items[key] && LeafAt(t, q) == Some(x.items[key].setting))
  {
    assert (f + [key])[|f|] == key;
    AtChild(t, f, key);
  }

  lemma GoingNext(x: Tree, f: Path, cancel: seq<Path>, todo: set<string>, key: string, q: Path)
    requires x.Section? && key in todo && key in x.items
    ensures Going(x, f, cancel, q, todo - {key}) <==>
            Going(x, f, cancel, q, todo) || (q == f + [key] && x.items[key].Leaf? && Picked(cancel, q))
  {
    assert (f + [key])[|f|] == key;
    if |q| == |f| + 1 && f < q {
      assert q == f + [q[|f|]];
    }
  }

  lemma ScanKept(x: Tree, f: Path, cancel: seq<Path>, marks: set<Path>, more: set<Path>,
                 stuff: map<string, Tree>, todo: set<string>, key: string)
    requires Scanned(x, f, cancel, marks, more, stuff, todo) && key in todo
    requires key in x.items && !(x.items[key].Leaf? && Picked(cancel, f + [key]))
    ensures Scanned(x, f, cancel, marks, more, stuff, todo - {key})
  {
    hide Going, Marked, Picked;
    forall q ensures q in more <==> Going(x, f, cancel, q, todo - {key}) {
      GoingNext(x, f, cancel, todo, key, q);
    }
  }

  lemma ScanGone(x: Tree, f: Path, cancel: seq<Path>, marks: set<Path>, more: set<Path>,
                 stuff: map<string, Tree>, todo: set<string>, key: string)
    requires Scanned(x, f, cancel, marks, more, stuff, todo) && key in todo
    requires key in x.items && x.items[key].Leaf? && Picked(cancel, f + [key])
    ensures Scanned(x, f, cancel, marks, more + {f + [key]}, stuff[key := Leaf(None)], todo - {key})
  {
    hide Going, Picked;
    var q := f + [key];
    forall p ensures p in more + {q} <==> Going(x, f, cancel, p, todo - {key}) {
      GoingNext(x, f, cancel, todo, key, p);
    }
    assert marks + more + {q} == marks + (more + {q});
    forall k | k in stuff && k != key ensures Marked(x.items[k], f + [k], marks + (more + {q})) == stuff[k] {
      assert (f + [k])[|f|] == k && q[|f|] == key;
      MarkedAlike(x.items[k], f + [k], marks + more, {q});
    }
  }

  lemma ScanEnd(t: Tree, f: Path, cancel: seq<Path>, marks: set<Path>, more: set<Path>, stuff: map<string, Tree>)
    requires IsSection(t, f) && Scanned(At(t, f).value, f, cancel, marks, more, stuff, {})
    ensures At(Marked(t, [], marks), f).Some?
    ensures PutAt(Marked(t, [], marks), f, Section(stuff)) == Marked(t, [], marks + more)
    ensures TakenIn(t, f, cancel, more)
  {
    var x := At(t, f).value;
    assert [] + f == f;
    assert Marked(x, f, marks + more).items == stuff;
    forall q ensures Going(x, f, cancel, q, {}) <==>
                     q != [] && q[..|q| - 1] == f && IsLeaf(t, q) && Picked(cancel, q)
    {
      GoingIs(t, f, cancel, q);
    }
    assert forall q :: q in more ==> f <= q;
    hide Going, IsLeaf, Picked;
    PutMarked(t, [], marks, f, more);
  }

  lemma GoingIs(t: Tree, f: Path, cancel: seq<Path>, q: Path)
    requires IsSection(t, f)
    ensures Going(At(t, f).value, f, cancel, q, {}) <==>
            q != [] && q[..|q| - 1] == f && IsLeaf(t, q) && Picked(cancel, q)
  {
    hide Picked;
    if q != [] && q[..|q| - 1] == f {
      assert q == f + [q[|f|]];
      AtChild(t, f, q[|f|]);
    }
    if |q| == |f| + 1 && f < q {
      assert q == f + [q[|f|]];
      AtChild(t, f, q[|f|]);
      assert q[..|q| - 1] == f;
    }
  }

  class BroadcastMgr {
    var broadcasts: Tree

    // Put the sections in a section on the stack.
    method PushChildren(f: Path, ghost t: Tree, ghost done: set<Path>) returns (kids: seq<Path>)
      requires broadcasts == PrunedBy(t, [], done) && KidsDone(t, done) && IsSection(t, f) && f !in done
      ensures SomeKids(t, f, kids, {})
    {
      StillThere(t, done, f);
      NoKids(t, f);
      hide SomeKids, KidsDone, IsSection, PrunedBy;
      var stuff := At(broadcasts, f).value.items;
      var todo := stuff.Keys;
      kids := [];
      while todo != {}
        invariant todo <= stuff.Keys
        invariant SomeKids(t, f, kids, todo)
        decreases |todo|
      {
        var key :| key in todo;
        NextKid(t, f, kids, todo, key);
        if stuff[key].Section? {
          kids := kids + [f + [key]];
        }
        todo := todo - {key};
      }
      assert todo == {};
    }

    // Take what is None or empty out of a section.
    method PruneSection(f: Path, ghost t: Tree, ghost done: set<Path>) returns (batch: seq<Path>)
      requires broadcasts == PrunedBy(t, [], done) && ReadyAt(t, f, done)
      modifies this
      ensures broadcasts == PrunedBy(t, [], done + {f})
      ensures Batch(At(t, f).value, f, batch, At(t, f).value.items.Keys)
    {
      ReadyStart(t, f, done);
      hide Batch, Thinned, ReadyAt, PrunedBy, Live;
      ghost var x := At(t, f).value;
      var stuff := At(broadcasts, f).value.items;
      var todo := stuff.Keys;
      batch := [];
      while todo != {}
        invariant broadcasts == PrunedBy(t, [], done)
        invariant todo <= x.items.Keys && todo <= stuff.Keys
        invariant Thinned(x, f, done, stuff, todo)
        invariant Batch(x, f, batch, x.items.Keys - todo)
        decreases |todo|
      {
        var key :| key in todo;
        ReadyKey(t, f, done, key);
        NextBatch(x, f, batch, x.items.Keys - todo, key);
        NextThinned(x, f, done, stuff, todo, key);
        assert x.items.Keys - todo + {key} == x.items.Keys - (todo - {key});
        if stuff[key] == Leaf(None) || stuff[key] == Section(map[]) {
          stuff := stuff - {key};
          batch := batch + [f + [key]];
        }
        todo := todo - {key};
      }
      assert x.items.Keys - todo == x.items.Keys;
      ReadyEnd(t, f, done, stuff);
      broadcasts := PutAt(broadcasts, f, Section(stuff));
    }

    // Remove cancelled settings, and the sections this leaves empty.
    method Prune() returns (prunes: seq<Path>)
      requires broadcasts.Section?
      modifies this
      ensures broadcasts == Pruned(old(broadcasts))
      ensures forall q :: q in prunes <==> DeadAt(old(broadcasts), q)
      ensures Distinct(prunes) && forall i, j :: 0 <= i < j < |prunes| ==> !(prunes[i] < prunes[j])
    {
      ghost var t := broadcasts;
      prunes := [];
      var stack := [Frame([], true)];
      ghost var begun, done := {}, {};
      StackedStart(t);
      NothingPruned(t, []);
      hide *;
      while stack != []
        invariant Stacked(t, stack, begun, done)
        invariant PrunedInOrder(t, prunes, done)
        invariant broadcasts == PrunedBy(t, [], done)
        decreases Left(t, begun), |stack|
      {
        var frame, rest := stack[|stack| - 1], stack[..|stack| - 1];
        LastFrame(stack);
        StackFacts(t, rest, frame, begun, done);
        if frame.isNew {
          var kids := PushChildren(frame.path, t, done);
          FramesOfKids(t, frame.path, kids);
          OpenStep(t, rest, frame.path, NewFrames(kids), begun, done);
          stack := rest + [Frame(frame.path, false)] + NewFrames(kids);
          ReopenedIs(rest, frame.path, NewFrames(kids));
          FewerLeft(t, begun, frame.path);
          begun := begun + {frame.path};
        } else {
          CloseStep(t, rest, frame.path, begun, done);
          ReadyWhenClosed(t, stack, begun, done, frame.path);
          var batch := PruneSection(frame.path, t, done);
          NextPrunes(t, prunes, batch, done, frame.path);
          prunes := prunes + batch;
          stack := rest;
          done := done + {frame.path};
        }
      }
      AllDone(t, begun, done, prunes);
    }

    // One section: its sections are put on the stack, its chosen settings cancelled.
    method ScanSection(f: Path, cancel: seq<Path>, ghost t: Tree, ghost marks: set<Path>)
      returns (kids: seq<Path>, changes: seq<Change>, ghost more: set<Path>)
      requires broadcasts == Marked(t, [], marks) && IsSection(t, f) && |f| >= 2
      requires Unmarked(f, marks)
      modifies this
      ensures broadcasts == Marked(t, [], marks + more)
      ensures SomeKids(t, f, kids, {})
      ensures Lists(t, changes, more)
      ensures TakenIn(t, f, cancel, more)
    {
      ScanStart(t, f, cancel, marks);
      NoKids(t, f);
      ghost var x := At(t, f).value;
      hide Scanned, SomeKids, Lists, Marked, Picked, IsLeaf;
      var stuff := At(broadcasts, f).value.items;
      var todo := stuff.Keys;
      kids, changes, more := [], [], {};
      while todo != {}
        invariant broadcasts == Marked(t, [], marks)
        invariant Scanned(x, f, cancel, marks, more, stuff, todo)
        invariant SomeKids(t, f, kids, todo)
        invariant Lists(t, changes, more)
        decreases |todo|
      {
        var key :| key in todo;
        ScanFacts(t, f, cancel, marks, more, stuff, todo, key);
        NextKid(t, f, kids, todo, key);
        if stuff[key].Section? {
          ScanKept(x, f, cancel, marks, more, stuff, todo, key);
          kids := kids + [f + [key]];
        } else if !Picked(cancel, f + [key]) {
          ScanKept(x, f, cancel, marks, more, stuff, todo, key);
        } else {
          ScanGone(x, f, cancel, marks, more, stuff, todo, key);
          ListsOne(t, changes, more, f + [key]);
          changes := changes + [Change(f + [key], Text(stuff[key].setting))];
          stuff := stuff[key := Leaf(None)];
          more := more + {f + [key]};
        }
        todo := todo - {key};
      }
      assert todo == {};
      ScanEnd(t, f, cancel, marks, more, stuff);
      broadcasts := PutAt(broadcasts, f, Section(stuff));
    }

    // The settings of one namespace at one point, section by section.
    method ClearNamespace(root: Path, cancel: seq<Path>, ghost t: Tree, ghost marks: set<Path>)
      returns (changes: seq<Change>, ghost more: set<Path>)
      requires broadcasts == Marked(t, [], marks) && IsSection(t, root) && |root| == 2
      requires NoneUnder(root, marks)
      modifies this
      ensures broadcasts == Marked(t, [], marks + more)
      ensures Lists(t, changes, more)
      ensures TakenUnder(t, root, cancel, more)
    {
      PendingStart(t, root);
      NoneTaken(t, cancel, root, marks);
      changes, more := [], {};
      var stack := [root];
      ghost var begun: set<Path> := {};
      hide *;
      while stack != []
        invariant Distinct(stack) && Pending(t, root, Waiting(stack), begun)
        invariant broadcasts == Marked(t, [], marks + more)
        invariant Lists(t, changes, more)
        invariant Taken(t, cancel, begun, more)
        decreases Left(t, begun), |stack|
      {
        var f, rest := stack[|stack| - 1], stack[..|stack| - 1];
        LastOff(stack);
        WaitingFacts(t, root, rest, f, begun, marks, cancel, more);
        var kids, found, taken := ScanSection(f, cancel, t, marks + more);
        stack := rest + kids;
        WaitingStep(t, root, rest, f, kids, begun);
        TakenStep(t, cancel, begun, marks, more, f, taken);
        ListsMore(t, changes, more, found, taken);
        changes, more := changes + found, more + taken;
        FewerLeft(t, begun, f);
        begun := begun + {f};
      }
      AllTaken(t, root, cancel, begun, more);
    }

    // Clear the broadcasts that the three filters choose, an empty one choosing all.
    method ClearBroadcast(points: seq<string>, namespaces: seq<string>, cancel: seq<Path>)
      returns (changes: seq<Change>, prunes: seq<Path>)
      requires Shaped(broadcasts)
      modifies this
      ensures ClearedExactly(old(broadcasts), broadcasts, points, namespaces, cancel)
      ensures ReportsExactly(old(broadcasts), changes, points, namespaces, cancel)
      ensures Distinct(prunes) && forall i, j :: 0 <= i < j < |prunes| ==> !(prunes[i] < prunes[j])
    {
      ghost var t := broadcasts;
      ghost var marks: set<Path>;
      changes, marks := MarkBroadcasts(points, namespaces, cancel);
      MarkedShaped(t, marks);
      prunes := Prune();
      ClearedByPruning(t, points, namespaces, cancel, marks);
      ReportedByListing(t, changes, points, namespaces, cancel, marks);
    }

    // The first part of clear_broadcast: every chosen setting set to None.
    method MarkBroadcasts(points: seq<string>, namespaces: seq<string>, cancel: seq<Path>)
      returns (changes: seq<Change>, ghost marks: set<Path>)
      requires Shaped(broadcasts)
      modifies this
      ensures broadcasts == Marked(old(broadcasts), [], marks)
      ensures Lists(old(broadcasts), changes, marks)
      ensures Cleared(old(broadcasts), points, namespaces, cancel, marks, {}, "", {})
    {
      ghost var t := broadcasts;
      changes, marks := [], {};
      var todo := broadcasts.items.Keys;
      NothingCleared(t, points, namespaces, cancel);
      hide *;
      while todo != {}
        invariant todo <= t.items.Keys && broadcasts == Marked(t, [], marks) && Lists(t, changes, marks)
        invariant Cleared(t, points, namespaces, cancel, marks, todo, "", {})
        decreases |todo|
      {
        var point :| point in todo;
        StartPoint(t, points, namespaces, cancel, marks, todo, point);
        todo := todo - {point};
        if points == [] || point in points {
          var spaces := At(broadcasts, [point]).value.items.Keys;
          while spaces != {}
            invariant spaces <= SpacesAt(t, point) && broadcasts == Marked(t, [], marks) && Lists(t, changes, marks)
            invariant Cleared(t, points, namespaces, cancel, marks, todo, point, spaces)
            decreases |spaces|
          {
            var namespace :| namespace in spaces;
            if namespaces == [] || namespace in namespaces {
              NextSpace(t, points, namespaces, cancel, marks, todo, point, spaces, namespace);
              var found, more := ClearNamespace([point, namespace], cancel, t, marks);
              SpaceCleared(t, points, namespaces, cancel, marks, todo, point, spaces, namespace, more);
              ListsMore(t, changes, marks, found, more);
              changes, marks := changes + found, marks + more;
            } else {
              SpaceSkipped(t, points, namespaces, cancel, marks, todo, point, spaces, namespace);
            }
            spaces := spaces - {namespace};
          }
          EndPoint(t, points, namespaces, cancel, marks, todo, point);
        }
      }
    }
  }

  // Broadcasts are kept by point, then namespace.
  ghost predicate Shaped(t: Tree) {
    && t.Section?
    && (forall p :: p in t.items ==> t.items[p].Section?)
    && (forall p, n :: p in t.items && n in t.items[p].items ==> t.items[p].items[n].Section?)
  }

  // What has been marked when some points, and some namespaces of one point,
  // are still to come.
  ghost predicate Cleared(t: Tree, points: seq<string>, namespaces: seq<string>, cancel: seq<Path>,
                          marks: set<Path>, todo: set<string>, point: string, spaces: set<string>) {
    forall q :: q in marks <==>
      && IsLeaf(t, q) && Selected(points, namespaces, cancel, q)
      && q[0] !in todo && !(q[0] == point && q[1] in spaces)
  }

  function SpacesAt(t: Tree, point: string): set<string> {
    if IsSection(t, [point]) then At(t, [point]).value.items.Keys else {}
  }

  lemma NothingCleared(t: Tree, points: seq<string>, namespaces: seq<string>, cancel: seq<Path>)
    requires t.Section?
    ensures Cleared(t, points, namespaces, cancel, {}, t.items.Keys, "", {})
    ensures Lists(t, [], {}) && Marked(t, [], {}) == t
  {
    NothingMarked(t, []);
  }

  lemma {:induction false} NothingMarked(t: Tree, at: Path)
    ensures Marked(t, at, {}) == t
    decreases t
  {
    if t.Section? {
      forall k | k in t.items ensures Marked(t.items[k], at + [k], {}) == t.items[k] {
        NothingMarked(t.items[k], at + [k]);
      }
      assert Marked(t, at, {}).items == t.items;
    }
  }

  lemma LeafPlace(t: Tree, q: Path)
    requires Shaped(t) && IsLeaf(t, q)
    ensures |q| >= 3 && q[0] in t.items && q[1] in SpacesAt(t, q[0])
  {
    if q != [] && q[0] in t.items {
      assert [q[0]][1..] == [];
      assert At(t, [q[0]]) == Some(t.items[q[0]]);
      LeafBelow(t, q);
      if |q| >= 2 {
        LeafBelow(t.items[q[0]], q[1..]);
      }
    }
  }

  lemma StartPoint(t: Tree, points: seq<string>, namespaces: seq<string>, cancel: seq<Path>,
                   marks: set<Path>, todo: set<string>, point: string)
    requires Shaped(t) && point in todo && point in t.items
    requires Cleared(t, points, namespaces, cancel, marks, todo, "", {})
    ensures points != [] && point !in points ==>
              Cleared(t, points, namespaces, cancel, marks, todo - {point}, "", {})
    ensures Cleared(t, points, namespaces, cancel, marks, todo - {point}, point, SpacesAt(t, point))
    ensures var now := At(Marked(t, [], marks), [point]);
            now.Some? && now.value.Section? && now.value.items.Keys == SpacesAt(t, point)
  {
    assert [point][1..] == [];
    assert At(t, [point]) == Some(t.items[point]);
    MarkedAt(t, [], marks, [point]);
    hide IsLeaf, SpacesAt, Picked;
    forall q | IsLeaf(t, q) ensures |q| >= 3 && q[0] in t.items && q[1] in SpacesAt(t, q[0]) {
      LeafPlace(t, q);
    }
  }

  lemma NextSpace(t: Tree, points: seq<string>, namespaces: seq<string>, cancel: seq<Path>,
                  marks: set<Path>, todo: set<string>, point: string, spaces: set<string>, namespace: string)
    requires Shaped(t) && Cleared(t, points, namespaces, cancel, marks, todo, point, spaces)
    requires namespace in spaces && namespace in SpacesAt(t, point)
    ensures IsSection(t, [point, namespace]) && NoneUnder([point, namespace], marks)
  {
    AtChild(t, [point], namespace);
    assert [point] + [namespace] == [point, namespace];
    assert point in t.items && At(t, [point]) == Some(t.items[point]) by {
      assert [point][1..] == [];
    }
  }

  lemma SpaceCleared(t: Tree, points: seq<string>, namespaces: seq<string>, cancel: seq<Path>, marks: set<Path>,
                     todo: set<string>, point: string, spaces: set<string>, namespace: string, more: set<Path>)
    requires Cleared(t, points, namespaces, cancel, marks, todo, point, spaces)
    requires namespace in spaces && point !in todo
    requires (points == [] || point in points) && (namespaces == [] || namespace in namespaces)
    requires TakenUnder(t, [point, namespace], cancel, more)
    ensures Cleared(t, points, namespaces, cancel, marks + more, todo, point, spaces - {namespace})
    ensures marks !! more
  {
    hide IsLeaf, Picked;
    forall q ensures [point, namespace] < q <==> |q| >= 3 && q[0] == point && q[1] == namespace {
      if |q| >= 3 && q[0] == point && q[1] == namespace {
        assert q[..2] == [point, namespace];
      }
    }
  }

  lemma SpaceSkipped(t: Tree, points: seq<string>, namespaces: seq<string>, cancel: seq<Path>, marks: set<Path>,
                     todo: set<string>, point: string, spaces: set<string>, namespace: string)
    requires Cleared(t, points, namespaces, cancel, marks, todo, point, spaces)
    requires namespaces != [] && namespace !in namespaces
    ensures Cleared(t, points, namespaces, cancel, marks, todo, point, spaces - {namespace})
  {
    hide IsLeaf, Picked;
  }

  lemma EndPoint(t: Tree, points: seq<string>, namespaces: seq<string>, cancel: seq<Path>, marks: set<Path>,
                 todo: set<string>, point: string)
    requires Cleared(t, points, namespaces, cancel, marks, todo, point, {})
    ensures Cleared(t, points, namespaces, cancel, marks, todo, "", {})
  {
  }

  // What clear_broadcast comes to.

  function Remaining(t: Tree, points: seq<string>, namespaces: seq<string>, cancel: seq<Path>, q: Path): Option<Option<string>> {
    if !IsLeaf(t, q) || LeafAt(t, q) == Some(None) || Selected(points, namespaces, cancel, q) then None
    else LeafAt(t, q)
  }

  // The settings that were not selected are left, as they were, and no section is empty.
  ghost predicate ClearedExactly(t: Tree, u: Tree, points: seq<string>, namespaces: seq<string>, cancel: seq<Path>) {
    && (forall q :: LeafAt(u, q) == Remaining(t, points, namespaces, cancel, q))
    && (forall p :: p != [] && IsSection(u, p) ==> At(u, p).value.items != map[])
  }

  // The changes name the settings that were selected, each once, with their values.
  ghost predicate ReportsExactly(t: Tree, changes: seq<Change>, points: seq<string>, namespaces: seq<string>, cancel: seq<Path>) {
    && (forall i, j :: 0 <= i < j < |changes| ==> changes[i].path != changes[j].path)
    && (forall c :: c in changes ==>
         && IsLeaf(t, c.path) && Selected(points, namespaces, cancel, c.path)
         && var was := LeafAt(t, c.path).value; c.text == if was.Some? then was.value else "None")
    && (forall q :: IsLeaf(t, q) && Selected(points, namespaces, cancel, q) ==> exists c :: c in changes && c.path == q)
  }

  lemma MarkedShaped(t: Tree, marks: set<Path>)
    requires t.Section?
    ensures Marked(t, [], marks).Section?
  {
  }

  lemma ClearedByPruning(t: Tree, points: seq<string>, namespaces: seq<string>, cancel: seq<Path>, marks: set<Path>)
    requires t.Section? && Cleared(t, points, namespaces, cancel, marks, {}, "", {})
    ensures ClearedExactly(t, Pruned(Marked(t, [], marks)), points, namespaces, cancel)
  {
    hide Selected, Pruned, Marked;
    var marked := Marked(t, [], marks);
    MarkedShaped(t, marks);
    forall q ensures LeafAt(Pruned(marked), q) == Remaining(t, points, namespaces, cancel, q) {
      PrunedLeaves(marked, q);
      MarkedLeaf(t, marks, q);
    }
    forall p | p != [] && IsSection(Pruned(marked), p) ensures At(Pruned(marked), p).value.items != map[] {
      PrunedLeaves(marked, p);
    }
  }

  lemma MarkedLeaf(t: Tree, marks: set<Path>, q: Path)
    ensures LeafAt(Marked(t, [], marks), q) == if IsLeaf(t, q) && q in marks then Some(None) else LeafAt(t, q)
  {
    MarkedAt(t, [], marks, q);
    assert [] + q == q;
  }

  lemma ReportedByListing(t: Tree, changes: seq<Change>, points: seq<string>, namespaces: seq<string>,
                          cancel: seq<Path>, marks: set<Path>)
    requires Lists(t, changes, marks) && Cleared(t, points, namespaces, cancel, marks, {}, "", {})
    ensures ReportsExactly(t, changes, points, namespaces, cancel)
  {
    hide IsLeaf, Selected;
  }

  lemma ListsOne(t: Tree, changes: seq<Change>, marks: set<Path>, q: Path)
    requires Lists(t, changes, marks) && q !in marks && IsLeaf(t, q)
    ensures Lists(t, changes + [Change(q, Text(LeafAt(t, q).value))], marks + {q})
  {
    var one := [Change(q, Text(LeafAt(t, q).value))];
    assert one[0] in one;
    ListsMore(t, changes, marks, one, {q});
  }

  // The stack of clear_broadcast.

  function Waiting(stack: seq<Path>): set<Path> {
    set f | f in stack
  }

  // The settings in the sections already opened that are to go.
  ghost predicate Taken(t: Tree, cancel: seq<Path>, begun: set<Path>, more: set<Path>) {
    forall q :: q in more <==> q != [] && q[..|q| - 1] in begun && IsLeaf(t, q) && Picked(cancel, q)
  }

  ghost predicate TakenUnder(t: Tree, root: Path, cancel: seq<Path>, more: set<Path>) {
    forall q :: q in more <==> root < q && IsLeaf(t, q) && Picked(cancel, q)
  }

  lemma NoneTaken(t: Tree, cancel: seq<Path>, root: Path, marks: set<Path>)
    ensures Taken(t, cancel, {}, {}) && Distinct([root]) && Lists(t, [], {})
    ensures Waiting([root]) == {root} && marks + {} == marks
  {
  }

  lemma LastOff(stack: seq<Path>)
    requires stack != []
    ensures stack == stack[..|stack| - 1] + [stack[|stack| - 1]]
  {
  }

  lemma WaitingFacts(t: Tree, root: Path, rest: seq<Path>, f: Path, begun: set<Path>, marks: set<Path>,
                     cancel: seq<Path>, more: set<Path>)
    requires Pending(t, root, Waiting(rest + [f]), begun) && Taken(t, cancel, begun, more)
    requires NoneUnder(root, marks)
    ensures IsSection(t, f) && root <= f && f !in begun
    ensures Unmarked(f, marks + more)
  {
    hide IsSection;
    assert f in Waiting(rest + [f]) && f <= f;
    forall k ensures f + [k] !in marks + more {
      assert root <= f + [k] && (f + [k])[..|f|] == f;
    }
  }

  lemma WaitingStep(t: Tree, root: Path, rest: seq<Path>, f: Path, kids: seq<Path>, begun: set<Path>)
    requires Distinct(rest + [f]) && Pending(t, root, Waiting(rest + [f]), begun)
    requires IsSection(t, f) && SomeKids(t, f, kids, {})
    ensures Distinct(rest + kids) && Pending(t, root, Waiting(rest + kids), begun + {f})
  {
    hide IsSection, Pending, IsChild, Children;
    var before := rest + [f];
    assert forall i :: 0 <= i < |rest| ==> before[i] == rest[i];
    assert before[|rest|] == f;
    PendingStep(t, root, Waiting(before), begun, f);
    forall c ensures c in Waiting(rest + kids) <==> c in Waiting(before) - {f} + Children(t, f) {
      ChildrenAre(t, f, c);
      assert c in rest + kids <==> c in rest || c in kids;
      assert c in before <==> c in rest || c == f;
    }
    assert Waiting(rest + kids) == Waiting(before) - {f} + Children(t, f);
    forall i, j | 0 <= i < |rest| && 0 <= j < |kids| ensures rest[i] != kids[j] {
      assert rest[i] == before[i] && rest[i] in Waiting(before);
      ChildrenAre(t, f, kids[j]);
      assert kids[j] in kids && kids[j] in Children(t, f);
    }
  }

  lemma TakenStep(t: Tree, cancel: seq<Path>, begun: set<Path>, marks: set<Path>, more: set<Path>,
                  f: Path, taken: set<Path>)
    requires Taken(t, cancel, begun, more) && f !in begun
    requires TakenIn(t, f, cancel, taken)
    ensures Taken(t, cancel, begun + {f}, more + taken) && more !! taken
    ensures marks + more + taken == marks + (more + taken)
  {
  }

  lemma AllTaken(t: Tree, root: Path, cancel: seq<Path>, begun: set<Path>, more: set<Path>)
    requires Pending(t, root, Waiting([]), begun) && Taken(t, cancel, begun, more)
    ensures TakenUnder(t, root, cancel, more)
  {
    hide IsSection, IsLeaf;
    assert Waiting([]) == {};
    forall q ensures q in more <==> root < q && IsLeaf(t, q) && Picked(cancel, q) {
      if q != [] {
        var above := q[..|q| - 1];
        PendingEnd(t, root, begun, above);
        assert root < q <==> root <= above;
        if IsLeaf(t, q) {
          LeafParent(t, q);
        }
      }
    }
  }

  lemma LeafParent(t: Tree, q: Path)
    requires IsLeaf(t, q) && q != []
    ensures IsSection(t, q[..|q| - 1])
  {
    assert q == q[..|q| - 1] + [q[|q| - 1]];
    AtChild(t, q[..|q| - 1], q[|q| - 1]);
  }

  lemma NextThinned(x: Tree, f: Path, done: set<Path>, stuff: map<string, Tree>, todo: set<string>, key: string)
    requires Thinned(x, f, done, stuff, todo) && key in todo && key in x.items
    ensures key in stuff && stuff[key] == PrunedBy(x.items[key], f + [key], done)
    ensures Thinned(x, f, done, if Live(x.items[key]) then stuff else stuff - {key}, todo - {key})
  {
  }

  lemma {:induction false} NothingPruned(t: Tree, at: Path)
    ensures PrunedBy(t, at, {}) == t
    ensures PrunedInOrder(t, [], {})
    decreases t
  {
    if t.Section? {
      forall k | k in t.items ensures PrunedBy(t.items[k], at + [k], {}) == t.items[k] {
        NothingPruned(t.items[k], at + [k]);
      }
      assert PrunedBy(t, at, {}).items == t.items;
    }
  }

  lemma LastFrame(stack: seq<Frame>)
    requires stack != []
    ensures stack == stack[..|stack| - 1] + [stack[|stack| - 1]]
  {
  }

  lemma StackFacts(t: Tree, rest: seq<Frame>, frame: Frame, begun: set<Path>, done: set<Path>)
    requires Stacked(t, rest + [frame], begun, done)
    ensures IsSection(t, frame.path) && frame.path !in done && KidsDone(t, done)
    ensures frame.isNew ==> frame == Frame(frame.path, true) && frame.path !in begun
    ensures !frame.isNew ==> frame == Frame(frame.path, false)
  {
    hide IsSection, KidsDone, IsChild;
    var stack := rest + [frame];
    assert stack[|rest|] == frame;
    if frame.isNew {
      assert frame.path in News(stack) && frame.path <= frame.path;
    }
  }

  // How many sections have not been opened yet.
  ghost function Left(t: Tree, begun: set<Path>): nat {
    |Sections(t) - begun|
  }

  lemma FewerLeft(t: Tree, begun: set<Path>, f: Path)
    requires IsSection(t, f) && f !in begun
    ensures Left(t, begun + {f}) < Left(t, begun)
  {
    InSections(t, f);
    assert Sections(t) - (begun + {f}) == Sections(t) - begun - {f};
  }

  lemma AllDone(t: Tree, begun: set<Path>, done: set<Path>, prunes: seq<Path>)
    requires t.Section? && Stacked(t, [], begun, done) && PrunedInOrder(t, prunes, done)
    ensures PrunedBy(t, [], done) == Pruned(t)
    ensures forall q :: q in prunes <==> DeadAt(t, q)
    ensures Distinct(prunes) && forall i, j :: 0 <= i < j < |prunes| ==> !(prunes[i] < prunes[j])
  {
    StackedEnd(t, begun, done, []);
    forall q | DeadAt(t, q) ensures q[..|q| - 1] in done {
      var above := q[..|q| - 1];
      assert q == above + [q[|q| - 1]];
      AtChild(t, above, q[|q| - 1]);
      StackedEnd(t, begun, done, above);
    }
  }
}
