/** A directory tree as a map from paths, the walk over it, and removing what the walk found, last first. */
module FileTrees {
  type Path = seq<string>

  datatype Kind = Dir | File | Link | Special

  type Files = map<Path, Kind>

  predicate Below(root: Path, p: Path) {
    |root| <= |p| && p[..|root|] == root
  }

  predicate StrictlyBelow(root: Path, p: Path) {
    |root| < |p| && p[..|root|] == root
  }

  function Parent(p: Path): Path
    requires p != []
  {
    p[..|p| - 1]
  }

  /** Everything but the top lies in a directory that is there. */
  ghost predicate WellFormed(files: Files) {
    forall p :: p in files ==> p != [] && (|p| > 1 ==> Parent(p) in files && files[Parent(p)].Dir?)
  }

  predicate HasEntries(files: Files, p: Path) {
    exists q :: q in files && StrictlyBelow(p, q)
  }

  function Under(files: Files, root: Path): set<Path> {
    set p | p in files && Below(root, p)
  }

  ghost predicate Gone(files: Files, root: Path) {
    forall p :: p in files ==> !Below(root, p)
  }

  function Entries(files: Files, dir: Path): set<Path> {
    set p | p in files && |p| == |dir| + 1 && Below(dir, p)
  }

  // ------------------------------------------------------------------- the walk

  /** A list of paths in which nothing comes after what lies below it. */
  ghost predicate TopDown(paths: seq<Path>) {
    && (forall i, j :: 0 <= i < j < |paths| ==> !Below(paths[j], paths[i]))
  }

  ghost predicate Lists(paths: seq<Path>, files: Files, root: Path) {
    && TopDown(paths)
    && (forall p :: p in paths <==> p in files && Below(root, p))
  }

  lemma Downwards(files: Files, dir: Path, p: Path)
    requires WellFormed(files) && dir != [] && p in files && StrictlyBelow(dir, p)
    ensures dir in files && files[dir].Dir?
    ensures p[..|dir| + 1] in Entries(files, dir)
    decreases |p|
  {
    if |p| == |dir| + 1 {
      assert Parent(p) == dir;
      assert p[..|dir| + 1] == p;
    } else {
      var up := Parent(p);
      assert up[..|dir|] == p[..|dir|] && up[..|dir| + 1] == p[..|dir| + 1];
      Downwards(files, dir, up);
    }
  }

  lemma EntryIsSmaller(files: Files, dir: Path, entry: Path)
    requires dir in files && entry in Entries(files, dir)
    ensures Under(files, entry) < Under(files, dir)
  {
    forall p | p in Under(files, entry)
      ensures p in Under(files, dir)
    {
      assert p[..|dir|] == p[..|entry|][..|dir|];
    }
    assert dir in Under(files, dir) && dir !in Under(files, entry);
  }

  lemma BelowBelow(a: Path, b: Path, c: Path)
    requires Below(a, b) && Below(b, c)
    ensures Below(a, c)
  {
    assert c[..|a|] == c[..|b|][..|a|];
  }

  lemma SameAncestor(a: Path, b: Path, p: Path)
    requires Below(a, p) && Below(b, p) && |a| == |b|
    ensures a == b
  {
  }

  /** The root, and what lies below the entries visited. */
  ghost predicate Reached(files: Files, root: Path, done: set<Path>, p: Path) {
    p == root || (p in files && exists e :: e in done && Below(e, p))
  }

  /** Visits a path, then each entry in turn, in any order among the entries. */
  method Walk(files: Files, root: Path) returns (paths: seq<Path>)
    requires WellFormed(files) && root in files && root != []
    ensures Lists(paths, files, root) && |paths| > 0
    decreases Under(files, root)
  {
    hide Below, WellFormed, Under, Entries, TopDown, Lists, Reached;
    paths := [root];
    if !files[root].Dir? {
      OnlyRoot(files, root);
      return;
    }
    var entries := Entries(files, root);
    ghost var done: set<Path> := {};
    NothingVisited(files, root);
    while entries != {}
      invariant entries !! done && entries + done == Entries(files, root)
      invariant TopDown(paths) && |paths| > 0
      invariant forall p :: p in paths <==> Reached(files, root, done, p)
      decreases |entries|
    {
      var entry :| entry in entries;
      EntryIsSmaller(files, root, entry);
      EntryIsThere(files, root, entry);
      var more := Walk(files, entry);
      Append(files, root, paths, more, done, entry);
      paths := paths + more;
      entries, done := entries - {entry}, done + {entry};
    }
    AllVisited(files, root, paths, done);
  }

  lemma OnlyRoot(files: Files, root: Path)
    requires WellFormed(files) && root in files && root != [] && !files[root].Dir?
    ensures Lists([root], files, root)
  {
    forall p | p in files && Below(root, p)
      ensures p == root
    {
      if StrictlyBelow(root, p) {
        Downwards(files, root, p);
        assert false;
      }
    }
  }

  lemma EntryIsThere(files: Files, root: Path, entry: Path)
    requires entry in Entries(files, root)
    ensures entry in files && entry != []
  {
  }

  lemma NothingVisited(files: Files, root: Path)
    ensures TopDown([root])
    ensures forall p :: p in [root] <==> Reached(files, root, {}, p)
  {
  }

  lemma AllVisited(files: Files, root: Path, paths: seq<Path>, done: set<Path>)
    requires WellFormed(files) && root in files && root != [] && done == Entries(files, root)
    requires TopDown(paths) && forall p :: p in paths <==> Reached(files, root, done, p)
    ensures Lists(paths, files, root)
  {
    forall p | p in files && Below(root, p)
      ensures Reached(files, root, done, p)
    {
      if p != root {
        assert StrictlyBelow(root, p);
        Downwards(files, root, p);
        assert Below(p[..|root| + 1], p);
      }
    }
    forall p | Reached(files, root, done, p)
      ensures p in files && Below(root, p)
    {
      if p != root {
        var e :| e in done && Below(e, p);
        BelowBelow(root, e, p);
      }
    }
  }

  lemma Append(files: Files, root: Path, paths: seq<Path>, more: seq<Path>, done: set<Path>, entry: Path)
    requires entry in Entries(files, root) && done <= Entries(files, root) && entry !in done
    requires TopDown(paths) && Lists(more, files, entry)
    requires forall p :: p in paths <==> Reached(files, root, done, p)
    ensures TopDown(paths + more)
    ensures forall p :: p in paths + more <==> Reached(files, root, done + {entry}, p)
  {
    hide Below;
    var all := paths + more;
    forall i, j | 0 <= i < j < |all|
      ensures !Below(all[j], all[i])
    {
      if i < |paths| <= j {
        assert paths[i] in paths && more[j - |paths|] in more;
        NotAbove(files, root, done, entry, paths[i], more[j - |paths|]);
      } else if |paths| <= i {
        assert all[i] == more[i - |paths|] && all[j] == more[j - |paths|];
      }
    }
  }

  lemma NotAbove(files: Files, root: Path, done: set<Path>, entry: Path, p: Path, q: Path)
    requires entry in Entries(files, root) && done <= Entries(files, root) && entry !in done
    requires Reached(files, root, done, p) && Below(entry, q)
    ensures !Below(q, p)
  {
    if p != root {
      var e :| e in done && Below(e, p);
      if Below(q, p) {
        BelowBelow(entry, q, p);
        SameAncestor(e, entry, p);
        assert false;
      }
    }
  }

  // ------------------------------------------------------------- removing it again

  lemma RemoveLeaf(files: Files, p: Path)
    requires WellFormed(files) && !HasEntries(files, p)
    ensures WellFormed(files - {p})
  {
    forall q | q in files - {p} && |q| > 1
      ensures Parent(q) in files - {p}
    {
      assert StrictlyBelow(Parent(q), q);
    }
  }

  /** From the back of a top-down list, what is removed next has nothing left below it. */
  lemma LastIsEmpty(files: Files, root: Path, paths: seq<Path>, i: nat)
    requires Lists(paths, files, root) && i < |paths|
    ensures !HasEntries(files - Tail(paths, i + 1), paths[i])
    ensures files - Tail(paths, i) == files - Tail(paths, i + 1) - {paths[i]}
  {
    var left := files - Tail(paths, i + 1);
    assert paths[i] in paths;
    forall q | q in left && q in paths
      ensures !StrictlyBelow(paths[i], q)
    {
      var j := NotInTail(paths, i + 1, q);
      assert j < i ==> !Below(paths[i], paths[j]);
    }
    forall q | q in left && q !in paths
      ensures !StrictlyBelow(paths[i], q)
    {
      NotBelow(root, paths[i], q);
    }
    TailStep(paths, i);
  }

  lemma NotInTail(paths: seq<Path>, i: nat, q: Path) returns (j: nat)
    requires i <= |paths| && q in paths && q !in Tail(paths, i)
    ensures j < i && paths[j] == q
  {
    j :| 0 <= j < |paths| && paths[j] == q;
  }

  lemma NotBelow(root: Path, middle: Path, q: Path)
    requires Below(root, middle) && !Below(root, q)
    ensures !Below(middle, q)
  {
    if |middle| <= |q| {
      assert q[..|middle|][..|root|] == q[..|root|];
    }
  }

  function Tail(paths: seq<Path>, i: nat): set<Path>
    requires i <= |paths|
  {
    set k | i <= k < |paths| :: paths[k]
  }

  lemma TailStep(paths: seq<Path>, i: nat)
    requires i < |paths|
    ensures Tail(paths, i) == Tail(paths, i + 1) + {paths[i]}
  {
  }

  /** Once the whole list is gone nothing is left at or below the root, and nothing else is missing. */
  lemma AllGone(files: Files, root: Path, paths: seq<Path>)
    requires Lists(paths, files, root)
    ensures Gone(files - Tail(paths, 0), root)
    ensures forall p :: p in files && !Below(root, p) ==> p in files - Tail(paths, 0)
  {
    forall p | p in files && Below(root, p)
      ensures p in Tail(paths, 0)
    {
      var i :| 0 <= i < |paths| && paths[i] == p;
    }
    forall p | p in Tail(paths, 0)
      ensures p in paths
    {
    }
  }
}
