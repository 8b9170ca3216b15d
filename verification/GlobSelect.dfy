// Choosing what to clean among the matches of a pattern (clean.py).

module GlobSelect {

  // A path below the run directory, as its parts; [] is the run directory.
  type Path = seq<string>

  // What the file system and the workflow say about paths.
  datatype Files = Files(symlinks: set<Path>, standard: set<Path>, present: set<Path>)

  predicate Foreign(fs: Files, p: Path) {
    p in fs.symlinks && p !in fs.standard
  }

  predicate Above(a: Path, p: Path) {
    a < p
  }

  // Something between the run directory and the path is a symlink of the user's own.
  predicate BelowForeign(fs: Files, p: Path) {
    exists k :: 0 <= k < |p| && Foreign(fs, p[..k])
  }

  predicate HasMatchAbove(matches: seq<Path>, p: Path) {
    exists k :: 0 <= k < |p| && p[..k] in matches
  }

  // Whether a match is kept: it is not reached through a foreign symlink, and
  // nothing else that is removed holds it.  Where there are standard symlink
  // directories, which are removed by themselves, only a matched parent counts.
  predicate Kept(fs: Files, matches: seq<Path>, p: Path) {
    && !BelowForeign(fs, p)
    && if fs.standard == {} then !HasMatchAbove(matches, p)
       else p == [] || p[..|p| - 1] !in matches || p in fs.standard
  }

  function AllKept(fs: Files, matches: seq<Path>, ps: seq<Path>): seq<Path> {
    if ps == [] then []
    else
      AllKept(fs, matches, ps[..|ps| - 1])
      + if Kept(fs, matches, ps[|ps| - 1]) then [ps[|ps| - 1]] else []
  }

  lemma {:induction false} AllKeptIn(fs: Files, matches: seq<Path>, ps: seq<Path>, p: Path)
    ensures p in AllKept(fs, matches, ps) <==> p in ps && Kept(fs, matches, p)
  {
    if ps != [] {
      AllKeptIn(fs, matches, ps[..|ps| - 1], p);
      assert ps == ps[..|ps| - 1] + [ps[|ps| - 1]];
    }
  }

  // Sorting.

  predicate NameLess(a: string, b: string) {
    b != [] && (a == [] || a[0] < b[0] || (a[0] == b[0] && NameLess(a[1..], b[1..])))
  }

  predicate PathLess(a: Path, b: Path) {
    b != [] && (a == [] || NameLess(a[0], b[0]) || (a[0] == b[0] && PathLess(a[1..], b[1..])))
  }

  ghost predicate Sorted(ps: seq<Path>) {
    forall i, j :: 0 <= i < j < |ps| ==> !PathLess(ps[j], ps[i])
  }

  ghost predicate ParentsFirst(ps: seq<Path>) {
    forall i, j :: 0 <= i < j < |ps| ==> !Above(ps[j], ps[i])
  }

  lemma {:induction false} PrefixLess(a: Path, b: Path)
    requires Above(a, b)
    ensures PathLess(a, b)
  {
    if a != [] {
      assert a == [b[0]] + a[1..] && b == [b[0]] + b[1..];
      assert a[1..] == b[1..][..|a| - 1];
      PrefixLess(a[1..], b[1..]);
    }
  }

  // Sorted paths have parents before their children.
  lemma SortedParentsFirst(ps: seq<Path>)
    requires Sorted(ps)
    ensures ParentsFirst(ps)
  {
    forall i, j | 0 <= i < j < |ps| ensures !Above(ps[j], ps[i]) {
      if Above(ps[j], ps[i]) {
        PrefixLess(ps[j], ps[i]);
      }
    }
  }

  // The topmost match above a path.
  lemma {:induction false} TopMatch(fs: Files, matches: seq<Path>, p: Path, k: nat) returns (top: nat)
    requires k < |p| && p[..k] in matches && !BelowForeign(fs, p) && fs.standard == {}
    ensures top < |p| && Kept(fs, matches, p[..top]) && p[..top] in matches
  {
    if j :| 0 <= j < k && p[..j] in matches {
      top := TopMatch(fs, matches, p, j);
    } else {
      top := k;
      forall j | 0 <= j < k ensures !Foreign(fs, p[..k][..j]) && p[..k][..j] !in matches {
        assert p[..k][..j] == p[..j];
      }
    }
  }

  lemma EarlierKept(fs: Files, matches: seq<Path>, i: nat, k: nat)
    requires i < |matches| && k < |matches[i]| && ParentsFirst(matches)
    requires matches[i][..k] in matches && !BelowForeign(fs, matches[i]) && fs.standard == {}
    ensures exists j :: 0 <= j < |matches[i]| && matches[i][..j] in AllKept(fs, matches, matches[..i])
  {
    var top := TopMatch(fs, matches, matches[i], k);
    var above := matches[i][..top];
    var at :| 0 <= at < |matches| && matches[at] == above;
    assert Above(above, matches[i]);
    assert at < i;
    assert above == matches[..i][at];
    AllKeptIn(fs, matches, matches[..i], above);
  }

  lemma ForeignIs(fs: Files, p: Path)
    ensures Foreign(fs, p) <==> p in fs.symlinks && p !in fs.standard
  {
  }

  lemma NoneKept(fs: Files, matches: seq<Path>)
    ensures AllKept(fs, matches, matches[..0]) == []
  {
  }

  lemma NextKept(fs: Files, matches: seq<Path>, i: nat)
    requires i < |matches|
    ensures AllKept(fs, matches, matches[..i + 1]) ==
            AllKept(fs, matches, matches[..i]) + if Kept(fs, matches, matches[i]) then [matches[i]] else []
  {
    assert matches[..i + 1][..i] == matches[..i];
  }

  method GlobInRunDir(fs: Files, matches: seq<Path>) returns (results: seq<Path>)
    requires Sorted(matches)
    ensures |matches| == 1 && matches[0] !in fs.present ==> results == []
    ensures !(|matches| == 1 && matches[0] !in fs.present) ==> results == AllKept(fs, matches, matches)
  {
    hide Sorted, PathLess, AllKept, Foreign;
    SortedParentsFirst(matches);
    if |matches| == 1 && matches[0] !in fs.present {
      return [];
    }
    results := [];
    NoneKept(fs, matches);
    var excludes: set<Path> := {};
    for i := 0 to |matches|
      invariant results == AllKept(fs, matches, matches[..i])
      invariant forall p :: p in excludes ==> Foreign(fs, p) || (fs.standard == {} && p in results)
    {
      var path := matches[i];
      var redundant := false;
      for k := 0 to |path|
        invariant !redundant
        invariant forall j :: 0 <= j < k ==> !Foreign(fs, path[..j])
        invariant fs.standard == {} ==> forall j :: 0 <= j < k ==> path[..j] !in results
        invariant k == |path| && k > 0 ==> !(path[..k - 1] in matches && path !in fs.standard)
        invariant forall p :: p in excludes ==> Foreign(fs, p) || (fs.standard == {} && p in results)
      {
        var ancestor := path[..k];
        AllKeptIn(fs, matches, matches[..i], ancestor);
        ForeignIs(fs, ancestor);
        if ancestor in excludes {
          redundant := true;
          break;
        }
        if ancestor in fs.symlinks && ancestor !in fs.standard {
          excludes := excludes + {ancestor};
          redundant := true;
          break;
        }
        if fs.standard == {} && ancestor in results {
          excludes := excludes + {ancestor};
          redundant := true;
          break;
        }
        if k == |path| - 1 {
          if ancestor in matches && path !in fs.standard {
            redundant := true;
            break;
          }
        }
      }
      if !redundant && fs.standard == {} && HasMatchAbove(matches, path) {
        var k :| 0 <= k < |path| && path[..k] in matches;
        EarlierKept(fs, matches, i, k);
      }
      assert redundant <==> !Kept(fs, matches, path);
      NextKept(fs, matches, i);
      if !redundant {
        results := results + [path];
      }
    }
    assert matches[..|matches|] == matches;
  }

  // What the documentation promises, of the kept matches.

  // Nothing kept lies beneath a foreign symlink.
  lemma NothingThroughSymlinks(fs: Files, matches: seq<Path>, p: Path, link: Path)
    requires p in AllKept(fs, matches, matches) && Above(link, p)
    ensures !Foreign(fs, link)
  {
    AllKeptIn(fs, matches, matches, p);
    assert link == p[..|link|];
  }

  // Every other match is removed: it, or something above it, is kept.
  lemma {:induction false} EveryMatchCovered(fs: Files, matches: seq<Path>, p: Path)
    requires p in matches && !BelowForeign(fs, p)
    ensures exists k :: 0 <= k <= |p| && p[..k] in AllKept(fs, matches, matches)
    decreases |p|
  {
    AllKeptIn(fs, matches, matches, p);
    if Kept(fs, matches, p) {
      assert p[..|p|] == p;
    } else if fs.standard == {} {
      var k :| 0 <= k < |p| && p[..k] in matches;
      var top := TopMatch(fs, matches, p, k);
      AllKeptIn(fs, matches, matches, p[..top]);
    } else {
      var parent := p[..|p| - 1];
      forall k | 0 <= k < |parent| ensures !Foreign(fs, parent[..k]) {
        assert parent[..k] == p[..k];
      }
      EveryMatchCovered(fs, matches, parent);
      var k :| 0 <= k <= |parent| && parent[..k] in AllKept(fs, matches, matches);
      assert parent[..k] == p[..k];
    }
  }

  // With no standard symlink directories, nothing kept holds anything kept.
  lemma NothingTwice(fs: Files, matches: seq<Path>, p: Path, q: Path)
    requires fs.standard == {}
    requires p in AllKept(fs, matches, matches) && q in AllKept(fs, matches, matches)
    ensures !Above(p, q)
  {
    AllKeptIn(fs, matches, matches, p);
    AllKeptIn(fs, matches, matches, q);
    if |p| < |q| {
      assert q[..|p|] != p;
    }
  }

  // Where there are standard symlink directories, they are all kept if matched,
  // even under a match, and nothing else is kept right under a match.
  lemma StandardKept(fs: Files, matches: seq<Path>, p: Path)
    requires fs.standard != {} && p in matches && forall k :: 0 <= k < |p| ==> p[..k] !in fs.symlinks || p[..k] in fs.standard
    ensures p in fs.standard ==> p in AllKept(fs, matches, matches)
    ensures p !in fs.standard && |p| > 0 ==>
              (p in AllKept(fs, matches, matches) <==> p[..|p| - 1] !in matches)
  {
    AllKeptIn(fs, matches, matches, p);
  }
}
