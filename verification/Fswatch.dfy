/** Which directories the download watcher registers: a walk of every root that prunes system
    trees, skips what is already registered and stops at a cap. */
module Fswatch {
  import opened Text

  const MAX_WATCHED_DIRS: nat := 20000

  /** A directory entry as the walk meets it. `path` is the lower-cased, cleaned path, the key
      the watcher de-duplicates by; an unreadable directory has no children. */
  datatype Entry = File(path: string) | Dir(path: string, children: seq<Entry>)

  // --- excluded trees -----------------------------------------------------------------------

  const FRAGMENTS := [
    "\\appdata\\", "\\$recycle.bin", "\\node_modules\\", "\\windows\\", "\\windows.old\\", "\\program files\\",
    "\\program files (x86)\\", "\\programdata\\", "\\system volume information", "\\$windows.~bt", "\\$windows.~ws"]

  const ENDINGS := ["\\appdata", "\\windows", "\\program files", "\\program files (x86)", "\\programdata"]

  predicate Excluded(path: string) {
    || (exists i | 0 <= i < |FRAGMENTS| :: Contains(path, FRAGMENTS[i]))
    || (exists i | 0 <= i < |ENDINGS| :: HasSuffix(path, ENDINGS[i]))
  }

  /** excludeDir: the fragments in turn, then the endings. */
  method ExcludeDir(path: string) returns (r: bool)
    ensures r <==> Excluded(path)
  {
    for i := 0 to |FRAGMENTS|
      invariant forall j | 0 <= j < i :: !Contains(path, FRAGMENTS[j])
    {
      if Contains(path, FRAGMENTS[i]) {
        return true;
      }
    }
    r := exists i | 0 <= i < |ENDINGS| :: HasSuffix(path, ENDINGS[i]);
  }

  /** filepath.Join of a walked directory and an entry name. */
  function Join(dir: string, name: string): string {
    if HasSuffix(dir, "\\") then dir + name else dir + "\\" + name
  }

  lemma {:induction false} ContainsExtends(s: string, part: string, more: string)
    requires Contains(s, part)
    ensures Contains(s + more, part)
  {
    if part <= s {
    } else {
      ContainsExtends(s[1..], part, more);
      assert (s + more)[1..] == s[1..] + more;
    }
  }

  lemma {:induction false} ContainsAfter(before: string, part: string, more: string)
    ensures Contains(before + part + more, part)
  {
    if before == [] {
      assert before + part + more == part + more;
    } else {
      ContainsAfter(before[1..], part, more);
      assert (before + part + more)[1..] == before[1..] + part + more;
    }
  }

  /** Every ending is a fragment once a separator follows. */
  lemma EndingIsFragment(i: nat) returns (j: nat)
    requires i < |ENDINGS|
    ensures j < |FRAGMENTS| && FRAGMENTS[j] == ENDINGS[i] + "\\"
    ensures |ENDINGS[i]| > 0 && ENDINGS[i][|ENDINGS[i]| - 1] != '\\'
  {
    j := [0, 3, 5, 6, 7][i];
    assert FRAGMENTS[[0, 3, 5, 6, 7][i]] == ENDINGS[i] + "\\";
  }

  lemma FragmentExcludes(path: string, i: nat)
    requires i < |FRAGMENTS| && Contains(path, FRAGMENTS[i])
    ensures Excluded(path)
  {
  }

  lemma FragmentGoesDown(dir: string, part: string, name: string)
    requires Contains(dir, part)
    ensures Contains(Join(dir, name), part)
  {
    ContainsExtends(dir, part, name);
    ContainsExtends(dir, part, "\\" + name);
    assert dir + "\\" + name == dir + ("\\" + name);
  }

  lemma NoSeparatorAtEnd(dir: string)
    requires dir != [] && dir[|dir| - 1] != '\\'
    ensures !HasSuffix(dir, "\\")
  {
    assert dir[|dir| - 1..][0] == dir[|dir| - 1];
  }

  lemma EndingGoesDown(before: string, end: string, name: string)
    requires end != [] && end[|end| - 1] != '\\'
    ensures Contains(Join(before + end, name), end + "\\")
  {
    NoSeparatorAtEnd(before + end);
    ContainsAfter(before, end + "\\", name);
    assert before + end + "\\" == before + (end + "\\");
  }

  /** Everything below an excluded directory is excluded, so skipping its whole tree skips
      nothing that should have been watched. */
  lemma ExclusionGoesDown(dir: string, name: string)
    requires Excluded(dir)
    ensures Excluded(Join(dir, name))
  {
    if i :| 0 <= i < |FRAGMENTS| && Contains(dir, FRAGMENTS[i]) {
      FragmentGoesDown(dir, FRAGMENTS[i], name);
      FragmentExcludes(Join(dir, name), i);
    } else {
      var i :| 0 <= i < |ENDINGS| && HasSuffix(dir, ENDINGS[i]);
      var j := EndingIsFragment(i);
      assert dir == dir[..|dir| - |ENDINGS[i]|] + ENDINGS[i];
      EndingGoesDown(dir[..|dir| - |ENDINGS[i]|], ENDINGS[i], name);
      FragmentExcludes(Join(dir, name), j);
    }
  }

  // --- the tree -----------------------------------------------------------------------------

  /** Every entry's path is its parent's path joined with a name, at every depth. */
  ghost predicate PathsJoined(e: Entry) {
    e.Dir? ==> forall c | c in e.children :: (exists name :: c.path == Join(e.path, name)) && PathsJoined(c)
  }

  /** All directories of a tree in walk order, excluded or not. */
  function AllDirs(e: Entry): seq<string>
    decreases e, 1
  {
    if e.File? then [] else [e.path] + AllDirsOf(e.children)
  }

  function AllDirsOf(es: seq<Entry>): seq<string>
    decreases es, 0
  {
    if es == [] then [] else AllDirs(es[0]) + AllDirsOf(es[1..])
  }

  /** The directories met when excluded trees are pruned, in walk order. */
  function Eligible(e: Entry): seq<string>
    decreases e, 1
  {
    if e.File? || Excluded(e.path) then [] else [e.path] + EligibleOf(e.children)
  }

  function EligibleOf(es: seq<Entry>): seq<string>
    decreases es, 0
  {
    if es == [] then [] else Eligible(es[0]) + EligibleOf(es[1..])
  }

  function NotExcluded(paths: seq<string>): seq<string> {
    if paths == [] then []
    else (if Excluded(paths[0]) then [] else [paths[0]]) + NotExcluded(paths[1..])
  }

  lemma {:induction false} NotExcludedAppend(a: seq<string>, b: seq<string>)
    ensures NotExcluded(a + b) == NotExcluded(a) + NotExcluded(b)
  {
    if a == [] {
      assert a + b == b;
    } else {
      NotExcludedAppend(a[1..], b);
      assert (a + b)[1..] == a[1..] + b && (a + b)[0] == a[0];
      var first := if Excluded(a[0]) then [] else [a[0]];
      assert first + (NotExcluded(a[1..]) + NotExcluded(b)) == (first + NotExcluded(a[1..])) + NotExcluded(b);
    }
  }

  lemma {:induction false} BelowExcluded(e: Entry)
    requires PathsJoined(e) && e.Dir? && Excluded(e.path)
    ensures NotExcluded(AllDirs(e)) == []
    decreases e, 1
  {
    forall c | c in e.children ensures PathsJoined(c) && Excluded(c.path) {
      var name :| c.path == Join(e.path, name);
      ExclusionGoesDown(e.path, name);
    }
    BelowExcludedOf(e.children);
    assert AllDirs(e)[1..] == AllDirsOf(e.children);
  }

  lemma {:induction false} BelowExcludedOf(es: seq<Entry>)
    requires forall c | c in es :: PathsJoined(c) && Excluded(c.path)
    ensures NotExcluded(AllDirsOf(es)) == []
    decreases es, 0
  {
    if es == [] {
    } else {
      if es[0].Dir? { BelowExcluded(es[0]); }
      BelowExcludedOf(es[1..]);
      NotExcludedAppend(AllDirs(es[0]), AllDirsOf(es[1..]));
    }
  }

  /** Pruning excluded trees leaves exactly the directories that are not excluded themselves. */
  lemma {:induction false} PruningIsFiltering(e: Entry)
    requires PathsJoined(e)
    ensures Eligible(e) == NotExcluded(AllDirs(e))
    decreases e, 1
  {
    if e.File? {
    } else if Excluded(e.path) {
      BelowExcluded(e);
    } else {
      PruningIsFilteringOf(e.children);
      assert AllDirs(e)[1..] == AllDirsOf(e.children);
    }
  }

  lemma {:induction false} PruningIsFilteringOf(es: seq<Entry>)
    requires forall c | c in es :: PathsJoined(c)
    ensures EligibleOf(es) == NotExcluded(AllDirsOf(es))
    decreases es, 0
  {
    if es == [] {
    } else {
      PruningIsFiltering(es[0]);
      PruningIsFilteringOf(es[1..]);
      NotExcludedAppend(AllDirs(es[0]), AllDirsOf(es[1..]));
    }
  }

  function Nodes(e: Entry): set<Entry>
    decreases e, 1
  {
    {e} + if e.File? then {} else NodesOf(e.children)
  }

  function NodesOf(es: seq<Entry>): set<Entry>
    decreases es, 0
  {
    if es == [] then {} else Nodes(es[0]) + NodesOf(es[1..])
  }

  /** One file system: a directory path stands for one directory, wherever it is met. */
  ghost predicate OneTree(nodes: set<Entry>) {
    forall a, b | a in nodes && b in nodes && a.Dir? && b.Dir? && a.path == b.path :: a == b
  }

  function Size(e: Entry): nat
    decreases e, 1
  {
    if e.File? then 1 else 1 + SizeOf(e.children)
  }

  function SizeOf(es: seq<Entry>): nat
    decreases es, 0
  {
    if es == [] then 0 else Size(es[0]) + SizeOf(es[1..])
  }

  lemma {:induction false} NodesAreSmaller(e: Entry)
    ensures forall d | d in Nodes(e) :: Size(d) <= Size(e)
    decreases e, 1
  {
    if e.Dir? { NodesOfAreSmaller(e.children); }
  }

  lemma {:induction false} NodesOfAreSmaller(es: seq<Entry>)
    ensures forall d | d in NodesOf(es) :: Size(d) <= SizeOf(es)
    decreases es, 0
  {
    if es == [] {
    } else {
      NodesAreSmaller(es[0]);
      NodesOfAreSmaller(es[1..]);
    }
  }

  /** An eligible path is the path of a directory whose own eligible paths all belong too. */
  lemma {:induction false} EligibleNode(e: Entry, p: string) returns (d: Entry)
    requires p in Eligible(e)
    ensures d in Nodes(e) && d.Dir? && d.path == p && forall q | q in Eligible(d) :: q in Eligible(e)
    decreases e, 1
  {
    if p == e.path {
      d := e;
    } else {
      d := EligibleNodeOf(e.children, p);
    }
  }

  lemma {:induction false} EligibleNodeOf(es: seq<Entry>, p: string) returns (d: Entry)
    requires p in EligibleOf(es)
    ensures d in NodesOf(es) && d.Dir? && d.path == p && forall q | q in Eligible(d) :: q in EligibleOf(es)
    decreases es, 0
  {
    if p in Eligible(es[0]) {
      d := EligibleNode(es[0], p);
    } else {
      d := EligibleNodeOf(es[1..], p);
    }
  }

  // --- the registration of one path, and of a list of paths ----------------------------------

  /** Registers a path unless it is known, the cap is reached or the watcher refuses it. */
  function Offer(watched: seq<string>, p: string, refused: set<string>): seq<string> {
    if p in watched || |watched| >= MAX_WATCHED_DIRS || p in refused then watched else watched + [p]
  }

  function OfferAll(watched: seq<string>, paths: seq<string>, refused: set<string>): seq<string> {
    if paths == [] then watched
    else Offer(OfferAll(watched, paths[..|paths| - 1], refused), paths[|paths| - 1], refused)
  }

  /** Nothing in the list would be registered any more. */
  ghost predicate Absorbed(watched: seq<string>, paths: seq<string>, refused: set<string>) {
    |watched| >= MAX_WATCHED_DIRS || forall p | p in paths :: p in watched || p in refused
  }

  lemma {:induction false} OfferAllExtends(watched: seq<string>, paths: seq<string>, refused: set<string>)
    ensures watched <= OfferAll(watched, paths, refused)
    ensures forall p | p in OfferAll(watched, paths, refused) :: p in watched || p in paths
    ensures Absorbed(OfferAll(watched, paths, refused), paths, refused)
    ensures Absorbed(watched, paths, refused) ==> OfferAll(watched, paths, refused) == watched
  {
    if paths == [] {
    } else {
      assert paths == paths[..|paths| - 1] + [paths[|paths| - 1]];
      OfferAllExtends(watched, paths[..|paths| - 1], refused);
    }
  }

  lemma {:induction false} OfferAllAppend(watched: seq<string>, a: seq<string>, b: seq<string>, refused: set<string>)
    ensures OfferAll(watched, a + b, refused) == OfferAll(OfferAll(watched, a, refused), b, refused)
  {
    if b == [] {
      assert a + b == a;
    } else {
      assert (a + b)[..|a + b| - 1] == a + b[..|b| - 1];
      OfferAllAppend(watched, a, b[..|b| - 1], refused);
    }
  }

  // --- the walk as the watcher does it --------------------------------------------------------

  /** addTree: known directories, excluded ones and everything past the cap are skipped with
      their whole tree; a refused directory is still descended into. */
  function Walked(e: Entry, watched: seq<string>, refused: set<string>): seq<string>
    decreases e, 1
  {
    if e.File? || Excluded(e.path) || e.path in watched || |watched| >= MAX_WATCHED_DIRS then watched
    else WalkedOf(e.children, if e.path in refused then watched else watched + [e.path], refused)
  }

  function WalkedOf(es: seq<Entry>, watched: seq<string>, refused: set<string>): seq<string>
    decreases es, 0
  {
    if es == [] then watched else WalkedOf(es[1..], Walked(es[0], watched, refused), refused)
  }

  /** Whatever is registered among these nodes has its whole eligible tree dealt with. */
  ghost predicate Complete(watched: seq<string>, nodes: set<Entry>, refused: set<string>) {
    forall d | d in nodes && d.Dir? && d.path in watched :: Absorbed(watched, Eligible(d), refused)
  }

  lemma CompleteAfterOffers(e: Entry, watched: seq<string>, nodes: set<Entry>, refused: set<string>)
    requires OneTree(nodes) && Nodes(e) <= nodes && Complete(watched, nodes, refused)
    ensures Complete(OfferAll(watched, Eligible(e), refused), nodes, refused)
  {
    var after := OfferAll(watched, Eligible(e), refused);
    OfferAllExtends(watched, Eligible(e), refused);
    forall d | d in nodes && d.Dir? && d.path in after ensures Absorbed(after, Eligible(d), refused) {
      if d.path !in watched {
        var same := EligibleNode(e, d.path);
        assert same == d;
      }
    }
  }

  /** The walk with its shortcuts registers what offering every eligible path would. */
  lemma {:induction false} WalkOffersEligible(e: Entry, watched: seq<string>, nodes: set<Entry>, refused: set<string>)
    requires OneTree(nodes) && Nodes(e) <= nodes && Complete(watched, Nodes(e), refused)
    ensures Walked(e, watched, refused) == OfferAll(watched, Eligible(e), refused)
    decreases e, 1
  {
    OfferAllExtends(watched, Eligible(e), refused);
    if e.File? || Excluded(e.path) || e.path in watched || |watched| >= MAX_WATCHED_DIRS {
      assert e.Dir? && !Excluded(e.path) && e.path in watched ==> e in Nodes(e);
    } else {
      var next := Offer(watched, e.path, refused);
      assert Offer(watched, e.path, refused) == OfferAll(watched, [e.path], refused) by {
        assert [e.path][..0] == [];
      }
      forall d | d in NodesOf(e.children) && d.Dir? && d.path in next
        ensures Absorbed(next, Eligible(d), refused)
      {
        NodesOfAreSmaller(e.children);
        assert d != e;
        assert d.path in watched;
      }
      WalkOffersEligibleOf(e.children, next, nodes, refused);
      OfferAllAppend(watched, [e.path], EligibleOf(e.children), refused);
    }
  }

  lemma {:induction false} WalkOffersEligibleOf(es: seq<Entry>, watched: seq<string>,
                                                nodes: set<Entry>, refused: set<string>)
    requires OneTree(nodes) && NodesOf(es) <= nodes && Complete(watched, NodesOf(es), refused)
    ensures WalkedOf(es, watched, refused) == OfferAll(watched, EligibleOf(es), refused)
    decreases es, 0
  {
    if es == [] {
    } else {
      WalkOffersEligible(es[0], watched, nodes, refused);
      CompleteAfterOffers(es[0], watched, NodesOf(es), refused);
      WalkOffersEligibleOf(es[1..], Walked(es[0], watched, refused), nodes, refused);
      OfferAllAppend(watched, Eligible(es[0]), EligibleOf(es[1..]), refused);
    }
  }

  // --- what is watched in the end ---------------------------------------------------------------

  /** First occurrences, in order, without the refused. */
  function Wanted(paths: seq<string>, refused: set<string>): seq<string> {
    if paths == [] then []
    else
      var init, p := Wanted(paths[..|paths| - 1], refused), paths[|paths| - 1];
      if p in init || p in refused then init else init + [p]
  }

  lemma {:induction false} OffersAreFirstWanted(paths: seq<string>, refused: set<string>)
    ensures OfferAll([], paths, refused) ==
            if |Wanted(paths, refused)| <= MAX_WATCHED_DIRS then Wanted(paths, refused)
            else Wanted(paths, refused)[..MAX_WATCHED_DIRS]
  {
    if paths == [] {
    } else {
      OffersAreFirstWanted(paths[..|paths| - 1], refused);
    }
  }

  lemma {:induction false} WantedIsDuplicateFree(paths: seq<string>, refused: set<string>)
    ensures forall i, j | 0 <= i < j < |Wanted(paths, refused)| ::
      Wanted(paths, refused)[i] != Wanted(paths, refused)[j]
    ensures forall p :: p in Wanted(paths, refused) <==> p in paths && p !in refused
  {
    if paths == [] {
    } else {
      WantedIsDuplicateFree(paths[..|paths| - 1], refused);
      assert paths == paths[..|paths| - 1] + [paths[|paths| - 1]];
    }
  }

  /** For one fixed file system and any list of overlapping roots, the watched list is exactly
      the first 20000 registrable entries of the de-duplicated walk of all directories that are
      not excluded. */
  lemma WatchedIsFirstOfWalk(roots: seq<Entry>, refused: set<string>)
    requires OneTree(NodesOf(roots)) && forall r | r in roots :: PathsJoined(r)
    ensures var wanted := Wanted(NotExcluded(AllDirsOf(roots)), refused);
      WalkedOf(roots, [], refused) == if |wanted| <= MAX_WATCHED_DIRS then wanted else wanted[..MAX_WATCHED_DIRS]
  {
    WalkOffersEligibleOf(roots, [], NodesOf(roots), refused);
    PruningIsFilteringOf(roots);
    OffersAreFirstWanted(EligibleOf(roots), refused);
  }

  lemma {:induction false} WantedAppend(a: seq<string>, b: seq<string>, refused: set<string>)
    ensures Wanted(a, refused) <= Wanted(a + b, refused)
  {
    if b == [] {
      assert a + b == a;
    } else {
      assert (a + b)[..|a + b| - 1] == a + b[..|b| - 1];
      WantedAppend(a, b[..|b| - 1], refused);
    }
  }

  /** The first root is watched completely, whatever roots follow it, exactly when it has at
      most 20000 registrable directories. */
  lemma FirstRootIsWatchedIff(roots: seq<Entry>, refused: set<string>)
    requires roots != [] && OneTree(NodesOf(roots)) && forall r | r in roots :: PathsJoined(r)
    ensures var watched := WalkedOf(roots, [], refused);
      (forall p | p in AllDirs(roots[0]) && !Excluded(p) && p !in refused :: p in watched)
      <==> |Wanted(NotExcluded(AllDirs(roots[0])), refused)| <= MAX_WATCHED_DIRS
  {
    var watched, all := WalkedOf(roots, [], refused), EligibleOf(roots);
    var first := Wanted(Eligible(roots[0]), refused);
    WatchedIsFirstOfWalk(roots, refused);
    PruningIsFilteringOf(roots);
    PruningIsFiltering(roots[0]);
    WantedIsDuplicateFree(Eligible(roots[0]), refused);
    WantedIsDuplicateFree(all, refused);
    WantedAppend(Eligible(roots[0]), EligibleOf(roots[1..]), refused);
    assert first <= Wanted(all, refused);
    if |first| <= MAX_WATCHED_DIRS {
      forall p | p in AllDirs(roots[0]) && !Excluded(p) && p !in refused ensures p in watched {
        NotExcludedKeeps(AllDirs(roots[0]), p);
        var i :| 0 <= i < |first| && first[i] == p;
        assert watched[i] == p;
      }
    } else {
      var p := first[MAX_WATCHED_DIRS];
      assert p in first && p in NotExcluded(AllDirs(roots[0]));
      NotExcludedOnlyKeeps(AllDirs(roots[0]), p);
      assert Wanted(all, refused)[MAX_WATCHED_DIRS] == p;
      assert p !in watched;
    }
  }

  lemma {:induction false} NotExcludedOnlyKeeps(paths: seq<string>, p: string)
    requires p in NotExcluded(paths)
    ensures p in paths && !Excluded(p)
  {
    if Excluded(paths[0]) || p != paths[0] {
      NotExcludedOnlyKeeps(paths[1..], p);
    }
  }

  lemma {:induction false} NotExcludedKeeps(paths: seq<string>, p: string)
    requires p in paths && !Excluded(p)
    ensures p in NotExcluded(paths)
  {
    if p == paths[0] {
    } else {
      NotExcludedKeeps(paths[1..], p);
    }
  }

  // --- a root that is too large ---------------------------------------------------------------------

  function EmptyDirs(paths: seq<string>): (es: seq<Entry>)
    ensures |es| == |paths| && forall i | 0 <= i < |es| :: es[i] == Dir(paths[i], [])
  {
    seq(|paths|, i requires 0 <= i < |paths| => Dir(paths[i], []))
  }

  ghost predicate Below(root: string, p: string) { exists name :: p == Join(root, name) }

  /** Names of sub-directories of a root that are all different and not excluded. */
  ghost predicate Plain(root: string, paths: seq<string>) {
    && (forall p | p in paths :: !Excluded(p) && p != root && Below(root, p))
    && (forall i, j | 0 <= i < j < |paths| :: paths[i] != paths[j])
    && !Excluded(root)
  }

  lemma {:induction false} EmptyDirsAre(paths: seq<string>)
    ensures AllDirsOf(EmptyDirs(paths)) == paths
    ensures forall d | d in NodesOf(EmptyDirs(paths)) :: d.path in paths && d == Dir(d.path, [])
  {
    var es := EmptyDirs(paths);
    if paths == [] {
    } else {
      EmptyDirsAre(paths[1..]);
      assert es[0] == Dir(paths[0], []) && es[1..] == EmptyDirs(paths[1..]);
      assert AllDirs(es[0]) == [paths[0]] && Nodes(es[0]) == {es[0]};
      assert paths == [paths[0]] + paths[1..];
    }
  }

  lemma PlainTree(root: string, paths: seq<string>)
    requires Plain(root, paths)
    ensures var e := Dir(root, EmptyDirs(paths)); PathsJoined(e) && OneTree(NodesOf([e]))
  {
    var e := Dir(root, EmptyDirs(paths));
    EmptyDirsAre(paths);
    forall c | c in e.children ensures (exists name :: c.path == Join(root, name)) && PathsJoined(c) {
      var i :| 0 <= i < |paths| && e.children[i] == c;
      assert c.path in paths && c.children == [];
    }
    var none: seq<Entry> := [];
    assert [e][1..] == none && NodesOf([e]) == Nodes(e) + NodesOf(none);
  }

  lemma PlainIsWanted(root: string, paths: seq<string>)
    requires Plain(root, paths)
    ensures var all := [root] + paths; NotExcluded(all) == all && Wanted(all, {}) == all
  {
    var all := [root] + paths;
    forall i, j | 0 <= i < j < |all| ensures all[i] != all[j] {
      assert all[j] == paths[j - 1] && paths[j - 1] in paths;
    }
    NothingExcluded(all);
    AllWanted(all);
  }

  lemma AllWatchedIff(roots: seq<Entry>, all: seq<string>)
    requires roots != [] && OneTree(NodesOf(roots)) && forall r | r in roots :: PathsJoined(r)
    requires all == AllDirs(roots[0]) && NotExcluded(all) == all && Wanted(all, {}) == all
    ensures (forall p | p in all :: p in WalkedOf(roots, [], {})) <==> |all| <= MAX_WATCHED_DIRS
  {
    forall p | p in all ensures !Excluded(p) {
      NotExcludedOnlyKeeps(all, p);
    }
    FirstRootIsWatchedIff(roots, {});
  }

  lemma PlainRoot(root: Entry, path: string, paths: seq<string>)
    requires Plain(path, paths) && root == Dir(path, EmptyDirs(paths))
    ensures PathsJoined(root) && OneTree(NodesOf([root]))
    ensures var all := AllDirs(root); all == [path] + paths && NotExcluded(all) == all && Wanted(all, {}) == all
  {
    EmptyDirsAre(paths);
    PlainTree(path, paths);
    PlainIsWanted(path, paths);
  }

  /** A root with n plain sub-directories is watched completely exactly when n < 20000. */
  lemma PlainRootIsWatchedIff(root: Entry, path: string, paths: seq<string>)
    requires Plain(path, paths) && root == Dir(path, EmptyDirs(paths))
    ensures (forall p | p in AllDirs(root) :: p in WalkedOf([root], [], {})) <==> |paths| < MAX_WATCHED_DIRS
  {
    PlainRoot(root, path, paths);
    AllWatchedIff([root], AllDirs(root));
  }

  lemma {:induction false} MissingFromAll(s: string, part: string, c: char)
    requires c in part && c !in s
    ensures !Contains(s, part)
  {
    if s == [] {
    } else {
      MissingFromAll(s[1..], part, c);
    }
  }

  lemma MissingFromEnd(s: string, part: string, i: nat)
    requires i < |part| && part[i] !in s
    ensures !HasSuffix(s, part)
  {
    if |part| <= |s| {
      var end := s[|s| - |part|..];
      assert end[i] == s[|s| - |part| + i] && end[i] in s;
    }
  }

  /** Every fragment and every ending has some other letter after its separator. */
  lemma OtherLetter(i: nat)
    ensures i < |FRAGMENTS| ==> |FRAGMENTS[i]| > 1 && FRAGMENTS[i][1] in "a$nwps"
    ensures i < |ENDINGS| ==> |ENDINGS[i]| > 1 && ENDINGS[i][1] in "awp"
  {
    assert "awp"[0] == 'a' && "awp"[1] == 'w' && "awp"[2] == 'p';
    var all := "a$nwps";
    assert all[0] == 'a' && all[1] == '$' && all[2] == 'n' && all[3] == 'w' && all[4] == 'p' && all[5] == 's';
  }

  lemma PlainIsNotExcluded(path: string)
    requires forall c | c in path :: c == 'x' || c == '\\'
    ensures !Excluded(path)
  {
    forall i | 0 <= i < |FRAGMENTS| ensures !Contains(path, FRAGMENTS[i]) {
      OtherLetter(i);
      MissingFromAll(path, FRAGMENTS[i], FRAGMENTS[i][1]);
    }
    forall i | 0 <= i < |ENDINGS| ensures !HasSuffix(path, ENDINGS[i]) {
      OtherLetter(i);
      MissingFromEnd(path, ENDINGS[i], 1);
    }
  }

  lemma {:induction false} NothingExcluded(paths: seq<string>)
    requires forall p | p in paths :: !Excluded(p)
    ensures NotExcluded(paths) == paths
  {
    if paths == [] {
    } else {
      assert paths[0] in paths && forall p | p in paths[1..] :: p in paths;
      NothingExcluded(paths[1..]);
      assert paths == [paths[0]] + paths[1..];
    }
  }

  lemma {:induction false} AllWanted(paths: seq<string>)
    requires forall i, j | 0 <= i < j < |paths| :: paths[i] != paths[j]
    ensures Wanted(paths, {}) == paths
  {
    if paths == [] {
    } else {
      AllWanted(paths[..|paths| - 1]);
      assert paths == paths[..|paths| - 1] + [paths[|paths| - 1]];
    }
  }

  function Xs(n: nat): string { seq(n, _ => 'x') }

  /** "x\\x", "x\\xx", "x\\xxx" and so on. */
  function XPaths(n: nat): (ps: seq<string>)
    ensures |ps| == n && forall i | 0 <= i < n :: ps[i] == "x\\" + Xs(i + 1)
  {
    seq(n, i requires 0 <= i < n => "x\\" + Xs(i + 1))
  }

  lemma XPathIsPlain(p: string, xs: string)
    requires p == "x\\" + xs && (forall c | c in xs :: c == 'x')
    ensures !Excluded(p)
  {
    forall c | c in p ensures c == 'x' || c == '\\' {
      var k :| 0 <= k < |p| && p[k] == c;
      if k >= 2 { assert p[k] == xs[k - 2] && xs[k - 2] in xs; }
    }
    PlainIsNotExcluded(p);
  }

  lemma XPathIsJoined(xs: string)
    ensures "x\\" + xs == Join("x", xs)
  {
    NoSeparatorAtEnd("x");
  }

  lemma XPathsArePlain(n: nat)
    ensures Plain("x", XPaths(n))
  {
    var ps := XPaths(n);
    PlainIsNotExcluded("x");
    forall i | 0 <= i < n ensures |ps[i]| == i + 3 {}
    forall i | 0 <= i < n ensures !Excluded(ps[i]) && Below("x", ps[i]) {
      XPathIsPlain(ps[i], Xs(i + 1));
      XPathIsJoined(Xs(i + 1));
    }
    AllPlain("x", ps);
  }

  lemma AllPlain(root: string, ps: seq<string>)
    requires !Excluded(root) && forall i | 0 <= i < |ps| :: |ps[i]| == i + 3 > |root|
    requires forall i | 0 <= i < |ps| :: !Excluded(ps[i]) && Below(root, ps[i])
    ensures Plain(root, ps)
  {
    forall i, j | 0 <= i < j < |ps| ensures ps[i] != ps[j] {
      assert |ps[i]| != |ps[j]|;
    }
  }

  /** It takes 20000 sub-directories: such a profile, watched first, is not watched completely. */
  lemma LargeRootIsStarved() returns (root: Entry, missed: string)
    ensures root.Dir? && |root.children| == MAX_WATCHED_DIRS && PathsJoined(root) && OneTree(NodesOf([root]))
    ensures missed in AllDirs(root) && !Excluded(missed) && missed !in WalkedOf([root], [], {})
  {
    var paths := XPaths(MAX_WATCHED_DIRS);
    root := Dir("x", EmptyDirs(paths));
    XPathsArePlain(MAX_WATCHED_DIRS);
    missed := OneIsMissed(root, "x", paths);
  }

  lemma OneIsMissed(root: Entry, path: string, paths: seq<string>) returns (missed: string)
    requires Plain(path, paths) && root == Dir(path, EmptyDirs(paths)) && |paths| >= MAX_WATCHED_DIRS
    ensures PathsJoined(root) && OneTree(NodesOf([root]))
    ensures missed in AllDirs(root) && !Excluded(missed) && missed !in WalkedOf([root], [], {})
  {
    PlainRoot(root, path, paths);
    PlainRootIsWatchedIff(root, path, paths);
    missed :| missed in AllDirs(root) && missed !in WalkedOf([root], [], {});
    NotExcludedOnlyKeeps(AllDirs(root), missed);
  }

  // --- the watcher --------------------------------------------------------------------------------

  class DirCounter {
    var n: nat
    var seen: set<string>
    var watched: seq<string>  // what the watcher has been asked to report, in order

    /** n counts what is seen, and both describe the watched list. */
    ghost predicate Valid()
      reads this
    {
      && n == |watched| == |seen|
      && (forall p :: p in seen <==> p in watched)
      && n <= MAX_WATCHED_DIRS
    }

    constructor ()
      ensures Valid() && watched == []
    {
      n, seen, watched := 0, {}, [];
    }

    /** The callback and the walk around it, for one entry. */
    method AddTree(e: Entry, refused: set<string>)
      requires Valid()
      modifies this
      ensures Valid() && watched == Walked(e, old(watched), refused)
      decreases e, 1
    {
      if e.File? {
        return;
      }
      var excluded := ExcludeDir(e.path);
      if excluded || e.path in seen || n >= MAX_WATCHED_DIRS {
        return;
      }
      if e.path !in refused {
        seen, watched := seen + {e.path}, watched + [e.path];
        n := n + 1;
      }
      AddTrees(e.children, refused);
    }

    /** The children of a directory in turn. */
    method AddTrees(es: seq<Entry>, refused: set<string>)
      requires Valid()
      modifies this
      ensures Valid() && watched == WalkedOf(es, old(watched), refused)
      decreases es, 0
    {
      if es == [] {
        return;
      }
      AddTree(es[0], refused);
      AddTrees(es[1..], refused);
    }

    /** The roots in turn, as Start does before it waits for changes. */
    method WatchRoots(roots: seq<Entry>, refused: set<string>)
      requires Valid()
      modifies this
      ensures Valid() && watched == WalkedOf(roots, old(watched), refused)
    {
      for i := 0 to |roots|
        invariant Valid() && WalkedOf(roots[i..], watched, refused) == WalkedOf(roots, old(watched), refused)
      {
        assert roots[i..][1..] == roots[i + 1..];
        AddTree(roots[i], refused);
      }
    }
  }
}
