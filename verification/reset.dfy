/**
 * Carrying out a reset: the document is made durable as an intent, everything it
 * declares is removed, every filesystem is flushed, and only then is the intent
 * cleared. A start that finds the intent does the same again.
 */
module Reset {
  import opened Durable
  import opened FileTrees
  import opened ResetPlan

  /** One filesystem: its files, and on the primary one the intent and its temporary. */
  datatype Volume = Volume(files: Files, intent: Option<Document>, temporary: bool)

  type Volumes = map<string, Cell<Volume>>

  /** One attempt at a reset: the cards it finds, and whether power is lost after it. */
  datatype Attempt = Attempt(inventory: seq<Card>, powerLost: bool)

  // ------------------------------------------------------ what removal may change

  /** Only what lies at or below one of the roots is missing, and the rest is as it was. */
  ghost predicate FilesShrunk(roots: set<Path>, before: Files, after: Files) {
    && (forall p :: p in after ==> p in before && after[p] == before[p])
    && (forall p :: p in before ==> p in after || exists r :: r in roots && Below(r, p))
    && (WellFormed(before) ==> WellFormed(after))
  }

  /** The two trees agree at and below a path. */
  ghost predicate SameBelow(top: Path, a: Files, b: Files) {
    forall p :: Below(top, p) ==> (p in a <==> p in b) && (p in a ==> a[p] == b[p])
  }

  lemma ShrunkAgain(roots: set<Path>, a: Files, b: Files, c: Files)
    requires FilesShrunk(roots, a, b) && FilesShrunk(roots, b, c)
    ensures FilesShrunk(roots, a, c)
  {
  }

  lemma NotShrunk(roots: set<Path>, a: Files)
    ensures FilesShrunk(roots, a, a)
  {
  }

  lemma ShrunkMore(roots: set<Path>, more: set<Path>, a: Files, b: Files)
    requires FilesShrunk(roots, a, b) && roots <= more
    ensures FilesShrunk(more, a, b)
  {
  }

  /** Whatever a power loss leaves of after was possible before or is before's visible state with something removed. */
  ghost predicate CellShrunk(roots: set<Path>, before: Cell<Volume>, after: Cell<Volume>) {
    && ShrunkTo(roots, before.current, after.current)
    && forall d :: after.Possible(d) ==> before.Possible(d) || ShrunkTo(roots, before.current, d)
  }

  ghost predicate ShrunkTo(roots: set<Path>, before: Volume, after: Volume) {
    && FilesShrunk(roots, before.files, after.files)
    && after.intent == before.intent && after.temporary == before.temporary
  }

  lemma CellShrunkAgain(roots: set<Path>, a: Cell<Volume>, b: Cell<Volume>, c: Cell<Volume>)
    requires CellShrunk(roots, a, b) && CellShrunk(roots, b, c)
    ensures CellShrunk(roots, a, c)
  {
    hide FilesShrunk;
    ShrunkAgain(roots, a.current.files, b.current.files, c.current.files);
    forall d | c.Possible(d) && !a.Possible(d)
      ensures ShrunkTo(roots, a.current, d)
    {
      if !b.Possible(d) {
        ShrunkAgain(roots, a.current.files, b.current.files, d.files);
      }
    }
  }

  lemma CellUnchanged(roots: set<Path>, a: Cell<Volume>)
    ensures CellShrunk(roots, a, a) && CellShrunk(roots, a, a.Flushed())
  {
    NotShrunk(roots, a.current.files);
  }

  predicate Removable(files: Files, p: Path) {
    p !in files || files[p].Dir? || files[p].File?
  }

  /** Every state still possible is a well-formed tree. */
  ghost predicate Sound(vs: Volumes) {
    forall dev, v :: dev in vs && vs[dev].Possible(v) ==> WellFormed(v.files)
  }

  lemma SoundNow(vs: Volumes, dev: string)
    requires Sound(vs) && dev in vs
    ensures WellFormed(vs[dev].current.files)
  {
    assert vs[dev].Possible(vs[dev].current);
  }

  // ------------------------------------------------------------------ the storage

  class Storage {
    /** The filesystem each directory is on. */
    const device: Path -> string
    const config: Config
    var volumes: Volumes

    constructor (device: Path -> string, config: Config, volumes: Volumes)
      ensures this.device == device && this.config == config && this.volumes == volumes
    {
      this.device, this.config, this.volumes := device, config, volumes;
    }

    method Write(dev: string, v: Volume, uncut: bool) returns (ok: bool)
      requires dev in volumes
      modifies this
      ensures volumes == old(volumes)[dev := if ok then old(volumes)[dev].Write(v) else old(volumes)[dev]]
      ensures uncut ==> ok
    {
      ok := *;
      ok := ok || uncut;
      volumes := volumes[dev := if ok then volumes[dev].Write(v) else volumes[dev]];
    }

    method Sync(dev: string, uncut: bool) returns (ok: bool)
      requires dev in volumes
      modifies this
      ensures volumes == old(volumes)[dev := if ok then old(volumes)[dev].Flushed() else old(volumes)[dev]]
      ensures uncut ==> ok
    {
      ok := *;
      ok := ok || uncut;
      volumes := volumes[dev := if ok then volumes[dev].Flushed() else volumes[dev]];
    }

    /** Removing one path: an absent one is fine, a directory with entries is refused. */
    method Remove(dev: string, p: Path, ghost root: Path, uncut: bool) returns (ok: bool)
      requires dev in volumes && WellFormed(volumes[dev].current.files) && Below(root, p)
      modifies this
      ensures volumes.Keys == old(volumes).Keys && forall d :: d in volumes && d != dev ==> volumes[d] == old(volumes)[d]
      ensures CellShrunk({root}, old(volumes)[dev], volumes[dev])
      ensures ok ==> volumes[dev].current.files == old(volumes)[dev].current.files - {p}
      ensures uncut && !HasEntries(old(volumes)[dev].current.files, p) ==> ok
    {
      hide WellFormed, HasEntries, Below, CellShrunk;
      var v := volumes[dev].current;
      CellUnchanged({root}, volumes[dev]);
      assert v.files - {p} == v.files || p in v.files;
      if p !in v.files {
        return true;
      }
      if HasEntries(v.files, p) {
        return false;
      }
      RemovedOne(root, volumes[dev], p);
      ok := Write(dev, v.(files := v.files - {p}), uncut);
    }

    /**
     * Removes a declared root: a file at once, a directory by walking it and
     * removing what was found from the last to the first.
     */
    method RemoveDeclaredPath(dev: string, root: Path, uncut: bool) returns (ok: bool)
      requires dev in volumes && WellFormed(volumes[dev].current.files) && root != []
      modifies this
      ensures volumes.Keys == old(volumes).Keys && forall d :: d in volumes && d != dev ==> volumes[d] == old(volumes)[d]
      ensures CellShrunk({root}, old(volumes)[dev], volumes[dev])
      ensures ok ==> Gone(volumes[dev].current.files, root)
      ensures !Removable(old(volumes)[dev].current.files, root) ==> !ok && volumes == old(volumes)
      ensures uncut && Removable(old(volumes)[dev].current.files, root) ==> ok
    {
      hide WellFormed, HasEntries, Below, CellShrunk, Gone, Lists;
      ghost var start := volumes[dev];
      var files := volumes[dev].current.files;
      CellUnchanged({root}, start);
      if root !in files {
        AbsentIsGone(files, root);
        return true;
      }
      if files[root].Link? || files[root].Special? {
        return false;
      }
      BelowItself(root);
      var paths := [root];
      if files[root].Dir? {
        paths := Walk(files, root);
      } else {
        OnlyRoot(files, root);
      }
      ok := true;
      var index := |paths|;
      NoTail(paths, files);
      while index > 0
        invariant 0 <= index <= |paths| && ok
        invariant volumes.Keys == old(volumes).Keys && dev in volumes
        invariant forall d :: d in volumes && d != dev ==> volumes[d] == old(volumes)[d]
        invariant CellShrunk({root}, start, volumes[dev])
        invariant volumes[dev].current.files == files - Tail(paths, index)
        invariant WellFormed(volumes[dev].current.files)
      {
        ghost var before := volumes[dev];
        LastIsEmpty(files, root, paths, index - 1);
        ListedBelow(paths, files, root, index - 1);
        RemoveLeaf(before.current.files, paths[index - 1]);
        ok := Remove(dev, paths[index - 1], root, uncut);
        CellShrunkAgain({root}, start, before, volumes[dev]);
        if !ok {
          return;
        }
        index := index - 1;
      }
      AllGone(files, root, paths);
    }

    // ------------------------------------------------------------- all the roots

    function RootDevice(r: Root): string {
      device(r.filesystem)
    }

    function Home(): string {
      device(config.userdata)
    }

    ghost predicate Mounted(d: Document, vs: Volumes) {
      && Home() in vs
      && forall i :: 0 <= i < |d.roots| ==> RootDevice(d.roots[i]) in vs && d.roots[i].path != []
    }

    /** The declared roots on one filesystem. */
    function RootsOn(d: Document, dev: string): set<Path> {
      set i | 0 <= i < |d.roots| && RootDevice(d.roots[i]) == dev :: d.roots[i].path
    }

    /** From before to after only declared roots lost anything, on every filesystem and in every state still possible. */
    ghost predicate Shrunk(d: Document, before: Volumes, after: Volumes) {
      before.Keys == after.Keys && forall dev :: dev in before ==> CellShrunk(RootsOn(d, dev), before[dev], after[dev])
    }

    ghost predicate GoneIn(d: Document, vs: Volumes, i: nat)
      requires i < |d.roots|
    {
      RootDevice(d.roots[i]) in vs && Gone(vs[RootDevice(d.roots[i])].current.files, d.roots[i].path)
    }

    /** No state any filesystem may come back in has anything left at a declared root. */
    ghost predicate Released(d: Document, vs: Volumes) {
      forall i, v :: 0 <= i < |d.roots| && RootDevice(d.roots[i]) in vs && vs[RootDevice(d.roots[i])].Possible(v) ==>
        Gone(v.files, d.roots[i].path)
    }

    /** The intent is there in every state the primary filesystem may come back in. */
    ghost predicate Armed(d: Document, vs: Volumes) {
      Home() in vs && forall v :: vs[Home()].Possible(v) ==> v.intent == Some(d)
    }

    /** No state the primary filesystem may come back in has an intent. */
    ghost predicate Forgotten(vs: Volumes) {
      Home() in vs && forall v :: vs[Home()].Possible(v) ==> v.intent == None
    }

    /** Whatever may come back is something that might have come back before, less what is declared. */
    ghost predicate Confined(d: Document, before: Volumes, after: Volumes) {
      before.Keys == after.Keys && forall dev :: dev in before ==> CellConfined(RootsOn(d, dev), before[dev], after[dev])
    }

    /** The primary filesystem has the intent, or had no more of it before, or needs it no more. */
    ghost predicate NeverClearedEarly(d: Document, before: Volumes, after: Volumes) {
      Home() in before && Home() in after &&
      forall v :: after[Home()].Possible(v) ==>
        before[Home()].Possible(v) || v.intent == Some(d) || (v.intent == None && Released(d, after))
    }

    ghost predicate AllRemovable(d: Document, vs: Volumes) {
      forall i :: 0 <= i < |d.roots| && RootDevice(d.roots[i]) in vs ==>
        Removable(vs[RootDevice(d.roots[i])].current.files, d.roots[i].path)
    }

    lemma ShrunkStep(d: Document, before: Volumes, middle: Volumes, after: Volumes, dev: string, root: Path)
      requires Shrunk(d, before, middle) && middle.Keys == after.Keys && dev in middle && root in RootsOn(d, dev)
      requires forall k :: k in middle && k != dev ==> after[k] == middle[k]
      requires CellShrunk({root}, middle[dev], after[dev])
      ensures Shrunk(d, before, after)
    {
      hide CellShrunk;
      forall k | k in before
        ensures CellShrunk(RootsOn(d, k), before[k], after[k])
      {
        if k == dev {
          CellShrunkMore({root}, RootsOn(d, dev), middle[dev], after[dev]);
        } else {
          CellUnchanged(RootsOn(d, k), middle[k]);
        }
        CellShrunkAgain(RootsOn(d, k), before[k], middle[k], after[k]);
      }
    }

    lemma ShrunkNothing(d: Document, volumes: Volumes)
      ensures Shrunk(d, volumes, volumes)
    {
      hide CellShrunk;
      forall k | k in volumes
        ensures CellShrunk(RootsOn(d, k), volumes[k], volumes[k])
      {
        CellUnchanged(RootsOn(d, k), volumes[k]);
      }
    }

    lemma SoundAfter(d: Document, before: Volumes, after: Volumes)
      requires Shrunk(d, before, after)
      requires Sound(before)
      ensures Sound(after) && before.Keys == after.Keys
    {
      hide FilesShrunk, WellFormed;
      forall dev, v | dev in after && after[dev].Possible(v)
        ensures WellFormed(v.files)
      {
        if !before[dev].Possible(v) {
          ShrunkIsSound(RootsOn(d, dev), before[dev].current.files, v.files);
          assert before[dev].Possible(before[dev].current);
        }
      }
    }

    /** Removes every declared root in turn. */
    method RemoveRoots(d: Document, uncut: bool) returns (ok: bool)
      requires Mounted(d, volumes) && Sound(volumes)
      modifies this
      ensures volumes.Keys == old(volumes).Keys && Shrunk(d, old(volumes), volumes) && Sound(volumes)
      ensures ok ==> forall i :: 0 <= i < |d.roots| ==> GoneIn(d, volumes, i)
      ensures uncut && AllRemovable(d, old(volumes)) ==> ok
    {
      hide CellShrunk, WellFormed, Shrunk, FilesShrunk, Sound, GoneIn, Gone, AllRemovable, Removable, RootsOn, Mounted;
      ghost var start := volumes;
      ShrunkNothing(d, start);
      for index := 0 to |d.roots|
        invariant volumes.Keys == start.Keys && Mounted(d, volumes) && Shrunk(d, start, volumes) && Sound(volumes)
        invariant forall i :: 0 <= i < index ==> GoneIn(d, volumes, i)
        invariant AllRemovable(d, start) ==> AllRemovable(d, volumes)
      {
        ghost var before := volumes;
        var dev, root := RootDevice(d.roots[index]), d.roots[index].path;
        OneRootOn(d, before, index);
        SoundNow(before, dev);
        OneRemovable(d, before, index);
        ok := RemoveDeclaredPath(dev, root, uncut);
        ShrunkStep(d, start, before, volumes, dev, root);
        SoundAfter(d, start, volumes);
        StillGone(d, before, volumes, dev, root);
        if !ok {
          return;
        }
      }
      ok := true;
    }

    lemma OneRootOn(d: Document, vs: Volumes, i: nat)
      requires i < |d.roots| && Mounted(d, vs)
      ensures RootDevice(d.roots[i]) in vs && d.roots[i].path != []
      ensures forall after: Volumes :: after.Keys == vs.Keys ==> Mounted(d, after)
      ensures d.roots[i].path in RootsOn(d, RootDevice(d.roots[i]))
    {
    }

    lemma OneRemovable(d: Document, vs: Volumes, i: nat)
      requires i < |d.roots| && RootDevice(d.roots[i]) in vs
      ensures AllRemovable(d, vs) ==> Removable(vs[RootDevice(d.roots[i])].current.files, d.roots[i].path)
    {
    }

    /** Removing more brings nothing back and makes nothing unremovable. */
    lemma StillGone(d: Document, before: Volumes, after: Volumes, dev: string, root: Path)
      requires before.Keys == after.Keys && dev in before && forall k :: k in before && k != dev ==> after[k] == before[k]
      requires CellShrunk({root}, before[dev], after[dev])
      ensures forall i :: 0 <= i < |d.roots| && GoneIn(d, before, i) ==> GoneIn(d, after, i)
      ensures AllRemovable(d, before) ==> AllRemovable(d, after)
      ensures Gone(after[dev].current.files, root) ==>
                forall i :: 0 <= i < |d.roots| && RootDevice(d.roots[i]) == dev && d.roots[i].path == root ==> GoneIn(d, after, i)
    {
    }

    /** Flushes each filesystem that holds a root. */
    method SyncRoots(d: Document, uncut: bool) returns (ok: bool)
      requires Mounted(d, volumes)
      modifies this
      ensures volumes.Keys == old(volumes).Keys
      ensures forall k :: k in volumes ==> volumes[k] == old(volumes)[k] || volumes[k] == old(volumes)[k].Flushed()
      ensures ok ==> forall i :: 0 <= i < |d.roots| ==> volumes[RootDevice(d.roots[i])].Settled()
      ensures uncut ==> ok
    {
      for index := 0 to |d.roots|
        invariant volumes.Keys == old(volumes).Keys
        invariant forall k :: k in volumes ==> volumes[k] == old(volumes)[k] || volumes[k] == old(volumes)[k].Flushed()
        invariant forall i :: 0 <= i < index ==> volumes[RootDevice(d.roots[i])].Settled()
      {
        if exists i :: 0 <= i < index && d.roots[i].filesystem == d.roots[index].filesystem {
          continue;
        }
        ok := Sync(RootDevice(d.roots[index]), uncut);
        if !ok {
          return;
        }
      }
      ok := true;
    }

    // -------------------------------------------------------- what the steps give

    lemma ShrunkIsConfined(d: Document, before: Volumes, after: Volumes)
      requires Shrunk(d, before, after)
      ensures Confined(d, before, after)
    {
      hide CellShrunk, CellConfined, RootsOn;
      forall dev | dev in before
        ensures CellConfined(RootsOn(d, dev), before[dev], after[dev])
      {
        ShrunkCellIsConfined(RootsOn(d, dev), before[dev], after[dev]);
      }
    }

    lemma ConfinedAgain(d: Document, a: Volumes, b: Volumes, c: Volumes)
      requires Confined(d, a, b) && Confined(d, b, c)
      ensures Confined(d, a, c)
    {
      hide CellConfined, RootsOn;
      forall dev | dev in a
        ensures CellConfined(RootsOn(d, dev), a[dev], c[dev])
      {
        CellConfinedAgain(RootsOn(d, dev), a[dev], b[dev], c[dev]);
      }
    }

    /** States with the same files as ones possible before. */
    lemma SameFilesConfined(d: Document, before: Volumes, after: Volumes)
      requires before.Keys == after.Keys && forall dev :: dev in before ==> SameFiles(before[dev], after[dev])
      ensures Confined(d, before, after)
    {
      hide CellConfined, RootsOn, SameFiles;
      forall dev | dev in before
        ensures CellConfined(RootsOn(d, dev), before[dev], after[dev])
      {
        SameFilesCellConfined(RootsOn(d, dev), before[dev], after[dev]);
      }
    }

    /** A confined change keeps trees well-formed, roots removable, and what is gone gone. */
    lemma ConfinedKeeps(d: Document, before: Volumes, after: Volumes)
      requires Confined(d, before, after)
      ensures Sound(before) ==> Sound(after)
      ensures Released(d, before) ==> Released(d, after)
      ensures EverRemovable(d, before) ==> EverRemovable(d, after)
    {
      hide RootsOn, WellFormed, CellConfined, Gone, Removable;
      forall dev, v | dev in after && after[dev].Possible(v) && Sound(before)
        ensures WellFormed(v.files)
      {
        ConfinedState(RootsOn(d, dev), before[dev], after[dev], v, []);
      }
      forall i, v | 0 <= i < |d.roots| && RootDevice(d.roots[i]) in after && after[RootDevice(d.roots[i])].Possible(v)
        ensures Released(d, before) ==> Gone(v.files, d.roots[i].path)
        ensures EverRemovable(d, before) ==> Removable(v.files, d.roots[i].path)
      {
        var dev := RootDevice(d.roots[i]);
        ConfinedState(RootsOn(d, dev), before[dev], after[dev], v, d.roots[i].path);
      }
    }

    /** An attempt, cut or not, leaves the intent everywhere or nothing it declares. */
    lemma ArmedOrReleased(d: Document, before: Volumes, after: Volumes)
      requires NeverClearedEarly(d, before, after) && Confined(d, before, after)
      requires Armed(d, before) || Released(d, before)
      ensures Armed(d, after) || Released(d, after)
    {
      hide Released, Confined;
      ConfinedKeeps(d, before, after);
    }

    lemma FlushedIsConfined(d: Document, before: Volumes, after: Volumes)
      requires before.Keys == after.Keys
      requires forall k :: k in after ==> after[k] == before[k] || after[k] == before[k].Flushed()
      ensures Confined(d, before, after)
      ensures forall dev, v :: dev in after && after[dev].Possible(v) ==> before[dev].Possible(v)
    {
      hide Confined, SameFiles;
      forall dev | dev in before
        ensures SameFiles(before[dev], after[dev])
      {
        KeptFiles(before[dev]);
      }
      SameFilesConfined(d, before, after);
    }

    /** Removing touches no intent. */
    lemma IntentsKept(d: Document, before: Volumes, after: Volumes)
      requires Shrunk(d, before, after) && Home() in before && before[Home()].current.intent == Some(d)
      ensures Home() in after && after[Home()].current.intent == Some(d)
      ensures forall v :: after[Home()].Possible(v) ==> before[Home()].Possible(v) || v.intent == Some(d)
    {
      hide RootsOn, FilesShrunk;
      assert CellShrunk(RootsOn(d, Home()), before[Home()], after[Home()]);
    }

    lemma StillGoneFlushed(d: Document, before: Volumes, after: Volumes)
      requires before.Keys == after.Keys && forall i :: 0 <= i < |d.roots| ==> GoneIn(d, before, i)
      requires forall k :: k in after ==> after[k] == before[k] || after[k] == before[k].Flushed()
      ensures forall i :: 0 <= i < |d.roots| ==> GoneIn(d, after, i)
    {
      hide Gone;
      forall i | 0 <= i < |d.roots|
        ensures GoneIn(d, after, i)
      {
        assert GoneIn(d, before, i);
      }
    }

    /** Content apart from every declared root is in every state that may come back what it may have been before. */
    lemma ApartContentStays(d: Document, before: Volumes, after: Volumes, dev: string, live: Path, v: Volume)
      requires Confined(d, before, after) && Apart(d, live) && dev in after && after[dev].Possible(v)
      ensures exists w :: before[dev].Possible(w) && SameBelow(live, w.files, v.files)
    {
      assert From(RootsOn(d, dev), before[dev], v);
      var w :| before[dev].Possible(w) && FilesShrunk(RootsOn(d, dev), w.files, v.files);
      ApartIsExact(d, live);
      assert SameBelow(live, w.files, v.files);
    }

    /** The check after the flush never finds anything. */
    lemma NothingRemains(d: Document, before: Volumes, after: Volumes)
      requires before.Keys == after.Keys && forall i :: 0 <= i < |d.roots| ==> GoneIn(d, before, i)
      requires forall k :: k in after ==> after[k] == before[k] || after[k] == before[k].Flushed()
      ensures forall i :: 0 <= i < |d.roots| && RootDevice(d.roots[i]) in after ==>
                d.roots[i].path !in after[RootDevice(d.roots[i])].current.files
    {
      forall i | 0 <= i < |d.roots| && RootDevice(d.roots[i]) in after
        ensures d.roots[i].path !in after[RootDevice(d.roots[i])].current.files
      {
        assert GoneIn(d, before, i);
        BelowItself(d.roots[i].path);
      }
    }

    lemma ClearedIsConfined(d: Document, before: Volumes, after: Volumes)
      requires Home() in before && Home() in after && after == before[Home() := after[Home()]]
      requires after[Home()] == before[Home()] || after[Home()] == before[Home()].Write(before[Home()].current.(intent := None))
      ensures Confined(d, before, after)
      ensures forall v :: after[Home()].Possible(v) ==> before[Home()].Possible(v) || v.intent == None
    {
      hide Confined;
      forall dev | dev in before
        ensures SameFiles(before[dev], after[dev])
      {
        KeptFiles(before[dev]);
        if dev == Home() && after[dev] != before[dev] {
          assert before[dev].Possible(before[dev].current);
          forall v | after[dev].Possible(v)
            ensures HasFiles(before[dev], v)
          {
            WritePossible(before[dev], before[dev].current.(intent := None), v);
          }
        }
      }
      SameFilesConfined(d, before, after);
    }

    /** Every root is removable in every state that may come back. */
    ghost predicate EverRemovable(d: Document, vs: Volumes) {
      forall i, v :: 0 <= i < |d.roots| && RootDevice(d.roots[i]) in vs && vs[RootDevice(d.roots[i])].Possible(v) ==>
        Removable(v.files, d.roots[i].path)
    }

    lemma EverIsNow(d: Document, vs: Volumes)
      requires EverRemovable(d, vs)
      ensures AllRemovable(d, vs)
    {
      forall i | 0 <= i < |d.roots| && RootDevice(d.roots[i]) in vs
        ensures Removable(vs[RootDevice(d.roots[i])].current.files, d.roots[i].path)
      {
        assert vs[RootDevice(d.roots[i])].Possible(vs[RootDevice(d.roots[i])].current);
      }
    }

    /** Flushed and gone everywhere, nothing can come back. */
    lemma GoneIsReleased(d: Document, vs: Volumes)
      requires forall i :: 0 <= i < |d.roots| ==> GoneIn(d, vs, i) && vs[RootDevice(d.roots[i])].Settled()
      ensures Released(d, vs)
    {
      hide Gone;
      forall i, v | 0 <= i < |d.roots| && RootDevice(d.roots[i]) in vs && vs[RootDevice(d.roots[i])].Possible(v)
        ensures Gone(v.files, d.roots[i].path)
      {
        assert GoneIn(d, vs, i);
      }
    }

    // --------------------------------------------------------------- the intent

    /** Makes the intent durable: a fresh temporary, a rename, a flush. Nothing declared is touched yet. */
    method WriteIntent(d: Document, uncut: bool) returns (ok: bool)
      requires Home() in volumes && volumes[Home()].current.intent == None
      modifies this
      ensures Home() in volumes
      ensures Confined(d, old(volumes), volumes)
      ensures forall v :: volumes[Home()].Possible(v) ==> old(volumes)[Home()].Possible(v) || v.intent in {None, Some(d)}
      ensures AllRemovable(d, old(volumes)) ==> AllRemovable(d, volumes)
      ensures ok ==> Armed(d, volumes) && volumes[Home()].Settled()
      ensures uncut ==> ok
    {
      hide Confined, Prepared, AllRemovable;
      ghost var start := volumes;
      var home := Home();
      PreparedStart(d, start[home]);
      if volumes[home].current.temporary {
        ok := WritePrepared(d, start, volumes[home].current.(temporary := false), uncut);
        if !ok {
          return;
        }
      }
      ok := WritePrepared(d, start, volumes[home].current.(temporary := true), uncut);
      if !ok {
        return;
      }
      ok := WritePrepared(d, start, volumes[home].current.(temporary := false, intent := Some(d)), uncut);
      if !ok {
        return;
      }
      PreparedFlush(d, start[home], volumes[home]);
      ok := Sync(home, uncut);
      PreparedVolumes(d, start, volumes);
    }

    // ------------------------------------------------------------------ the runs

    /** Every filesystem the configuration names is there. */
    ghost predicate AllMounted(vs: Volumes) {
      Home() in vs && forall p :: BaseOf(config, p, |config.sources|).Some? ==> device(p) in vs
    }

    lemma ValidIsMounted(d: Document, vs: Volumes)
      requires ValidDocument(config, d) && AllMounted(vs)
      ensures Mounted(d, vs)
    {
      forall i | 0 <= i < |d.roots|
        ensures RootDevice(d.roots[i]) in vs && d.roots[i].path != []
      {
        assert ValidRoot(config, d, d.roots[i]);
      }
    }

    /** Each required card is in its slot, enrolled, and there once. */
    ghost predicate CardsPresent(d: Document, inventory: seq<Card>) {
      forall i :: 0 <= i < |d.required| ==> HasCard(d.required[i], inventory)
    }

    static ghost predicate HasCard(wanted: ResetCard, inventory: seq<Card>) {
      exists k :: 0 <= k < |inventory| && Answers(wanted, inventory[k])
    }

    static ghost predicate Answers(wanted: ResetCard, card: Card) {
      && card.id == wanted.id && card.source.id == wanted.source && Usable(card)
      && card.source.root == wanted.root && card.source.userdata == wanted.userdata
    }

    method VerifyRequiredCards(d: Document, inventory: seq<Card>) returns (ok: bool)
      ensures ok <==> CardsPresent(d, inventory)
    {
      for i := 0 to |d.required|
        invariant forall n :: 0 <= n < i ==> HasCard(d.required[n], inventory)
      {
        var found := false;
        for k := 0 to |inventory|
          invariant found <==> exists l :: 0 <= l < k && Answers(d.required[i], inventory[l])
        {
          var wanted, card := d.required[i], inventory[k];
          if card.id == wanted.id && card.source.id == wanted.source && card.enrolled && card.present && !card.duplicate
             && card.source.root == wanted.root && card.source.userdata == wanted.userdata {
            found := true;
          }
        }
        assert found <==> HasCard(d.required[i], inventory);
        if !found {
          return false;
        }
      }
      ok := true;
    }

    /** A whole run, from nothing or from the intent found. */
    method RunResetIntent(d: Document, inventory: seq<Card>, uncut: bool) returns (ok: bool)
      requires AllMounted(volumes) && Sound(volumes)
      requires volumes[Home()].current.intent in {None, Some(d)}
      modifies this
      ensures AllMounted(volumes) && Confined(d, old(volumes), volumes)
      ensures old(volumes)[Home()].current.intent == Some(d) ==> NeverClearedEarly(d, old(volumes), volumes)
      ensures ok ==> Released(d, volumes) && volumes[Home()].Settled() && volumes[Home()].current.intent == None
      ensures old(volumes)[Home()].current.intent == Some(d) && volumes[Home()].current.intent == None ==>
                (ok <==> Forgotten(volumes))
      ensures !ValidDocument(config, d) || !CardsPresent(d, inventory) ==> !ok && volumes == old(volumes)
      ensures uncut && ValidDocument(config, d) && CardsPresent(d, inventory) && AllRemovable(d, old(volumes)) ==> ok
    {
      hide Confined, Released, Sound, AllRemovable, CardsPresent, ValidDocument, Mounted;
      ghost var start := volumes;
      NothingConfined(d, start);
      ok := ValidateResetDocument(config, d);
      if !ok {
        return;
      }
      ok := VerifyRequiredCards(d, inventory);
      if !ok {
        return;
      }
      if volumes[Home()].current.intent == None {
        ok := WriteIntent(d, uncut);
        ConfinedKeys(d, start, volumes);
        ConfinedKeeps(d, start, volumes);
        if !ok {
          return;
        }
        assert volumes[Home()].Possible(volumes[Home()].current);
      }
      ValidIsMounted(d, volumes);
      ghost var middle := volumes;
      ok := Finish(d, uncut);
      ConfinedAgain(d, start, middle, volumes);
      ConfinedKeys(d, start, volumes);
    }

    lemma NothingConfined(d: Document, vs: Volumes)
      ensures Confined(d, vs, vs)
      ensures Home() in vs ==> NeverClearedEarly(d, vs, vs)
    {
      hide Released;
      FlushedIsConfined(d, vs, vs);
    }

    lemma ConfinedKeys(d: Document, before: Volumes, after: Volumes)
      requires Confined(d, before, after)
      ensures before.Keys == after.Keys && (AllMounted(before) ==> AllMounted(after))
    {
    }

    /**
     * What every entry point does first: with no intent it drops a leftover
     * temporary, otherwise it carries the intent out. It flushes only in the second
     * case, so an intent that an earlier attempt removed without a completed flush
     * stays one that may come back.
     */
    method RecoverReset(inventory: seq<Card>, uncut: bool, ghost d: Document) returns (pending: bool, ok: bool)
      requires AllMounted(volumes) && Sound(volumes)
      requires volumes[Home()].current.intent in {None, Some(d)}
      modifies this
      ensures AllMounted(volumes) && Confined(d, old(volumes), volumes)
      ensures pending <==> old(volumes)[Home()].current.intent.Some?
      ensures pending ==> NeverClearedEarly(d, old(volumes), volumes)
      ensures pending && ok ==> Released(d, volumes) && volumes[Home()].current.intent == None && volumes[Home()].Settled()
      ensures pending && uncut && ValidDocument(config, d) && CardsPresent(d, inventory) && AllRemovable(d, old(volumes)) ==> ok
      ensures pending && volumes[Home()].current.intent == None ==> (ok <==> Forgotten(volumes))
      ensures !pending ==> (Forgotten(volumes) <==> Forgotten(old(volumes)))
      ensures !pending ==> forall v :: volumes[Home()].Possible(v) ==> old(volumes)[Home()].Possible(v) || v.intent == None
      ensures !pending ==> volumes[Home()].current.intent == None && (uncut ==> ok)
      ensures !pending && ok ==> volumes[Home()].current == old(volumes)[Home()].current.(temporary := false)
      ensures !pending && !old(volumes)[Home()].current.temporary ==> ok && volumes == old(volumes)
    {
      hide Confined, Released, Sound, AllRemovable, CardsPresent, ValidDocument;
      var v := volumes[Home()].current;
      pending := v.intent.Some?;
      if pending {
        ok := RunResetIntent(v.intent.value, inventory, uncut);
        return;
      }
      ok := true;
      NothingConfined(d, volumes);
      if v.temporary {
        ghost var start := volumes;
        ok := Write(Home(), v.(temporary := false), uncut);
        TemporaryDropped(d, start, volumes);
        ConfinedKeys(d, start, volumes);
      }
    }

    lemma TemporaryDropped(d: Document, before: Volumes, after: Volumes)
      requires Home() in before && Home() in after && after == before[Home() := after[Home()]]
      requires before[Home()].current.intent == None
      requires after[Home()] == before[Home()] || after[Home()] == before[Home()].Write(before[Home()].current.(temporary := false))
      ensures Confined(d, before, after)
      ensures forall v :: after[Home()].Possible(v) ==> before[Home()].Possible(v) || v.intent == None
    {
      hide Confined;
      forall dev | dev in before
        ensures SameFiles(before[dev], after[dev])
      {
        KeptFiles(before[dev]);
        if dev == Home() && after[dev] != before[dev] {
          assert before[dev].Possible(before[dev].current);
          forall v | after[dev].Possible(v)
            ensures HasFiles(before[dev], v)
          {
            WritePossible(before[dev], before[dev].current.(temporary := false), v);
          }
        }
      }
      SameFilesConfined(d, before, after);
    }

    /** With the intent visible: remove, flush, look again, and clear it last. */
    method Finish(d: Document, uncut: bool) returns (ok: bool)
      requires Mounted(d, volumes) && Sound(volumes) && volumes[Home()].current.intent == Some(d)
      modifies this
      ensures Mounted(d, volumes) && Confined(d, old(volumes), volumes)
      ensures NeverClearedEarly(d, old(volumes), volumes)
      ensures ok ==> Released(d, volumes) && volumes[Home()].Settled() && volumes[Home()].current.intent == None
      ensures volumes[Home()].current.intent == None ==> (ok <==> Forgotten(volumes))
      ensures uncut && AllRemovable(d, old(volumes)) ==> ok
    {
      hide Shrunk, Confined, Released, Sound, AllRemovable, Gone;
      ghost var start := volumes;
      ok := RemoveRoots(d, uncut);
      ghost var removed := volumes;
      ShrunkIsConfined(d, start, removed);
      IntentsKept(d, start, removed);
      if !ok {
        return;
      }
      ok := SyncRoots(d, uncut);
      ghost var flushed := volumes;
      FlushedIsConfined(d, removed, flushed);
      ConfinedAgain(d, start, removed, flushed);
      if !ok {
        return;
      }
      if exists i :: 0 <= i < |d.roots| && d.roots[i].path in volumes[RootDevice(d.roots[i])].current.files {
        NothingRemains(d, removed, flushed);
        return false;
      }
      StillGoneFlushed(d, removed, flushed);
      GoneIsReleased(d, flushed);
      ok := Write(Home(), volumes[Home()].current.(intent := None), uncut);
      ClearedIsConfined(d, flushed, volumes);
      ConfinedAgain(d, start, flushed, volumes);
      ConfinedKeeps(d, flushed, volumes);
      if !ok {
        return;
      }
      ghost var cleared := volumes;
      assert cleared[Home()].Possible(flushed[Home()].current);
      ok := Sync(Home(), uncut);
      FlushedIsConfined(d, cleared, volumes);
      ConfinedAgain(d, start, cleared, volumes);
      ConfinedKeeps(d, cleared, volumes);
    }

    // ------------------------------------------------------------ cuts and restarts

    /** Power goes away and comes back: every filesystem shows one of its possible states. */
    method PowerLoss()
      modifies this
      ensures volumes.Keys == old(volumes).Keys
      ensures forall dev :: dev in volumes ==> old(volumes)[dev].Survives(volumes[dev])
    {
      var before := volumes;
      var devices := before.Keys;
      while devices != {}
        invariant devices <= before.Keys && volumes.Keys == before.Keys
        invariant forall dev :: dev in devices ==> volumes[dev] == before[dev]
        invariant forall dev :: dev in before && dev !in devices ==> before[dev].Survives(volumes[dev])
        decreases |devices|
      {
        var dev :| dev in devices;
        devices := devices - {dev};
        var k: nat :| k <= |before[dev].older|;
        volumes := volumes[dev := Cell([], (before[dev].older + [before[dev].current])[k])];
      }
    }

    ghost predicate OnlyIntent(d: Document, vs: Volumes) {
      Home() in vs && forall v :: vs[Home()].Possible(v) ==> v.intent in {None, Some(d)}
    }

    lemma PowerLossKeeps(d: Document, before: Volumes, after: Volumes)
      requires before.Keys == after.Keys && forall dev :: dev in before ==> before[dev].Survives(after[dev])
      ensures Confined(d, before, after)
      ensures Armed(d, before) ==> Armed(d, after)
      ensures OnlyIntent(d, before) ==> OnlyIntent(d, after)
    {
      hide Confined;
      forall dev | dev in before
        ensures SameFiles(before[dev], after[dev])
      {
        SurvivorFiles(before[dev], after[dev]);
      }
      SameFilesConfined(d, before, after);
      if Home() in before {
        SurvivorStates(before[Home()], after[Home()]);
      }
    }

    lemma AttemptKeeps(d: Document, before: Volumes, after: Volumes, pending: bool)
      requires Confined(d, before, after) && Sound(before) && EverRemovable(d, before) && OnlyIntent(d, before)
      requires Armed(d, before) || Released(d, before)
      requires pending ==> NeverClearedEarly(d, before, after)
      requires !pending ==> Home() in before && Home() in after && before[Home()].current.intent == None
      requires !pending ==> forall v :: after[Home()].Possible(v) ==> before[Home()].Possible(v) || v.intent == None
      ensures Sound(after) && EverRemovable(d, after) && OnlyIntent(d, after)
      ensures Armed(d, after) || Released(d, after)
    {
      hide Confined, Released, Sound, EverRemovable;
      ConfinedKeeps(d, before, after);
      if pending {
        ArmedOrReleased(d, before, after);
      } else {
        assert before[Home()].Possible(before[Home()].current);
      }
    }

    /**
     * With the intent durable, any number of attempts cut anywhere, with whatever
     * cards, and power lost after some of them; then one that is not cut and has the
     * cards. Nothing declared can come back, and the intent is not there. It cannot
     * come back either if the last attempt still found it, or power was lost just
     * before; otherwise exactly if it could not before the last attempt, which
     * RecoverReset says.
     */
    method AnyAttempts(d: Document, attempts: seq<Attempt>, last: seq<Card>) returns (pending: bool, ok: bool)
      requires AllMounted(volumes) && Sound(volumes) && Armed(d, volumes)
      requires ValidDocument(config, d) && EverRemovable(d, volumes) && CardsPresent(d, last)
      modifies this
      ensures ok && Confined(d, old(volumes), volumes)
      ensures Released(d, volumes) && Home() in volumes && volumes[Home()].current.intent == None
      ensures attempts == [] ==> pending
      ensures pending || attempts[|attempts| - 1].powerLost ==> Forgotten(volumes)
    {
      hide Confined, Released, Sound, AllRemovable, EverRemovable, CardsPresent, ValidDocument, Armed, OnlyIntent, AllMounted;
      hide Forgotten;
      ghost var start := volumes;
      NothingConfined(d, start);
      ArmedIsOnly(d, start);
      ArmedIsPending(d, start);
      for n := 0 to |attempts|
        invariant AllMounted(volumes) && Sound(volumes) && EverRemovable(d, volumes) && OnlyIntent(d, volumes)
        invariant Armed(d, volumes) || Released(d, volumes)
        invariant Confined(d, start, volumes)
        invariant n == 0 ==> Home() in volumes && volumes[Home()].current.intent.Some?
        invariant n > 0 && attempts[n - 1].powerLost ==> Home() in volumes && volumes[Home()].Settled()
      {
        ghost var before := volumes;
        IntentNow(d, before);
        var found, done := RecoverReset(attempts[n].inventory, false, d);
        ConfinedKeys(d, before, volumes);
        AttemptKeeps(d, before, volumes, found);
        ConfinedAgain(d, start, before, volumes);
        if attempts[n].powerLost {
          ghost var after := volumes;
          IntentNow(d, after);
          PowerLoss();
          PowerLossKeeps(d, after, volumes);
          ConfinedAgain(d, start, after, volumes);
          ConfinedKeys(d, after, volumes);
          ConfinedKeeps(d, after, volumes);
        }
      }
      ghost var before := volumes;
      IntentNow(d, before);
      EverIsNow(d, before);
      pending, ok := RecoverReset(last, true, d);
      ConfinedKeys(d, before, volumes);
      AttemptKeeps(d, before, volumes, pending);
      ConfinedAgain(d, start, before, volumes);
      IntentNow(d, volumes);
      if !pending && attempts[|attempts| - 1].powerLost {
        SettledIsForgotten(before);
      }
    }

    lemma ArmedIsPending(d: Document, vs: Volumes)
      requires Armed(d, vs)
      ensures Home() in vs && vs[Home()].current.intent == Some(d)
    {
      assert vs[Home()].Possible(vs[Home()].current);
    }

    lemma SettledIsForgotten(vs: Volumes)
      requires Home() in vs && vs[Home()].Settled() && vs[Home()].current.intent == None
      ensures Forgotten(vs)
    {
    }

    lemma ArmedIsOnly(d: Document, vs: Volumes)
      requires Armed(d, vs)
      ensures OnlyIntent(d, vs)
    {
    }

    lemma IntentNow(d: Document, vs: Volumes)
      requires OnlyIntent(d, vs)
      ensures Home() in vs && vs[Home()].current.intent in {None, Some(d)}
      ensures vs[Home()].current.intent == None ==> !Armed(d, vs)
    {
      assert vs[Home()].Possible(vs[Home()].current);
    }

    /** The plan is, but for its action id, the one these cards give on a console that is well set up. */
    ghost predicate Confirms(d: Document, actionId: string, inventory: seq<Card>) {
      && WellSetUp(config, inventory) && !d.action.IndexOnly? && HexAnyCase(actionId) && Complete(d.action, inventory)
      && d == PlanFor(config, inventory, d.action).(actionId := actionId)
    }

    /** The confirmed plan is carried out only if the cards still give the same plan. */
    method ExecuteResetPlan(plan: Option<Document>, actionId: string, inventory: seq<Card>, index: seq<string>, uncut: bool)
      returns (ok: bool)
      requires AllMounted(volumes) && Sound(volumes) && volumes[Home()].current.intent in {None, plan}
      modifies this
      ensures plan.None? || plan.value.actionId != actionId ==> !ok && volumes == old(volumes)
      ensures plan.Some? ==> Confined(plan.value, old(volumes), volumes)
      ensures ok ==>
                && Released(plan.value, volumes) && Home() in volumes && volumes[Home()].current.intent == None
                && ValidDocument(config, plan.value) && CardsPresent(plan.value, inventory)
                && (plan.value.action.Full? ==> forall i :: 0 <= i < |inventory| && Known(inventory[i]) ==> Usable(inventory[i]))
      ensures uncut && plan.Some? && Confirms(plan.value, actionId, inventory) && AllRemovable(plan.value, old(volumes)) ==> ok
    {
      hide Confined, Released, Sound, CardsPresent, ValidDocument, AllRemovable, WellSetUp, PlanFor, HexAnyCase;
      ok := false;
      if plan.None? {
        return;
      }
      NothingConfined(plan.value, volumes);
      if plan.value.actionId != actionId {
        return;
      }
      var rebuilt := BuildResetDocument(config, inventory, plan.value.action, index);
      if rebuilt.None? || rebuilt.value.(actionId := plan.value.actionId) != plan.value {
        return;
      }
      if WellSetUp(config, inventory) && !plan.value.action.IndexOnly? && HexAnyCase(actionId) {
        StillValid(rebuilt.value, actionId);
        PlanParts(config, inventory, plan.value.action);
        PlannedCardsPresent(plan.value, inventory);
      }
      ok := RunResetIntent(plan.value, inventory, uncut);
    }

    lemma StillValid(d: Document, actionId: string)
      requires ValidDocument(config, d) && HexAnyCase(actionId)
      ensures ValidDocument(config, d.(actionId := actionId))
    {
      hide HexAnyCase, CardMatches, BaseOf, IsLive, IndexName;
      var e := d.(actionId := actionId);
      forall i | 0 <= i < |d.roots|
        ensures ValidRoot(config, e, e.roots[i])
      {
        assert ValidRoot(config, d, d.roots[i]);
      }
      forall i | 0 <= i < |d.retained|
        ensures AllowedRetained(config, e, e.retained[i])
      {
        assert AllowedRetained(config, d, d.retained[i]);
      }
    }

    lemma PlannedCardsPresent(d: Document, inventory: seq<Card>)
      requires WellSetUp(config, inventory)
      requires d.required == RequiredOf(inventory)
      ensures CardsPresent(d, inventory)
    {
      hide RequiredOf, Known, Usable, WellSetUp;
      SetUpCards(config, inventory);
      RequiredCards(inventory);
      forall i | 0 <= i < |d.required|
        ensures HasCard(d.required[i], inventory)
      {
        assert d.required[i] in RequiredOf(inventory);
        var k :| RequiredFrom(inventory, k, d.required[i]);
        assert Answers(d.required[i], inventory[k]);
      }
    }

    /** One step of preparing the intent. */
    method WritePrepared(d: Document, ghost start: Volumes, v: Volume, uncut: bool) returns (ok: bool)
      requires Home() in start && Home() in volumes && volumes == start[Home() := volumes[Home()]]
      requires Prepared(d, start[Home()], volumes[Home()])
      requires v.files == volumes[Home()].current.files && v.intent in {None, Some(d)}
      modifies this
      ensures Home() in volumes && volumes == start[Home() := volumes[Home()]]
      ensures Prepared(d, start[Home()], volumes[Home()])
      ensures ok ==> volumes[Home()].current == v
      ensures Confined(d, start, volumes) && (AllRemovable(d, start) ==> AllRemovable(d, volumes))
      ensures forall w :: volumes[Home()].Possible(w) ==> start[Home()].Possible(w) || w.intent in {None, Some(d)}
      ensures uncut ==> ok
    {
      hide Confined, Prepared, AllRemovable;
      PreparedWrite(d, start[Home()], volumes[Home()], v);
      ok := Write(Home(), v, uncut);
      PreparedVolumes(d, start, volumes);
    }

    lemma PreparedVolumes(d: Document, before: Volumes, after: Volumes)
      requires Home() in before && Home() in after && after == before[Home() := after[Home()]]
      requires Prepared(d, before[Home()], after[Home()])
      ensures Confined(d, before, after) && (AllRemovable(d, before) ==> AllRemovable(d, after))
      ensures forall v :: after[Home()].Possible(v) ==> before[Home()].Possible(v) || v.intent in {None, Some(d)}
    {
      hide SameFiles, Confined, Removable;
      forall dev | dev in before
        ensures SameFiles(before[dev], after[dev])
      {
        KeptFiles(before[dev]);
      }
      SameFilesConfined(d, before, after);
    }
  }

  /** The filesystem while the intent is being written: its files are untouched. */
  ghost predicate Prepared(d: Document, before: Cell<Volume>, after: Cell<Volume>) {
    && SameFiles(before, after) && after.current.files == before.current.files
    && forall v :: after.Possible(v) ==> before.Possible(v) || v.intent in {None, Some(d)}
  }

  lemma PreparedStart(d: Document, c: Cell<Volume>)
    ensures Prepared(d, c, c)
  {
    hide SameFiles;
    KeptFiles(c);
  }

  lemma PreparedWrite(d: Document, before: Cell<Volume>, c: Cell<Volume>, v: Volume)
    requires Prepared(d, before, c) && v.files == c.current.files && v.intent in {None, Some(d)}
    ensures Prepared(d, before, c.Write(v))
  {
    assert before.Possible(before.current);
    forall w | c.Write(v).Possible(w)
      ensures HasFiles(before, w) && (before.Possible(w) || w.intent in {None, Some(d)})
    {
      WritePossible(c, v, w);
    }
  }

  lemma PreparedFlush(d: Document, before: Cell<Volume>, c: Cell<Volume>)
    requires Prepared(d, before, c)
    ensures Prepared(d, before, c.Flushed())
  {
    forall w | c.Flushed().Possible(w)
      ensures HasFiles(before, w) && (before.Possible(w) || w.intent in {None, Some(d)})
    {
      assert c.Possible(w);
    }
  }

  // ------------------------------------------- what may come back, one filesystem

  ghost predicate From(roots: set<Path>, before: Cell<Volume>, v: Volume) {
    exists w :: before.Possible(w) && FilesShrunk(roots, w.files, v.files)
  }

  /** Whatever may come back is something that might have come back before, less what is declared. */
  ghost predicate CellConfined(roots: set<Path>, before: Cell<Volume>, after: Cell<Volume>) {
    forall v :: after.Possible(v) ==> From(roots, before, v)
  }

  /** Every state that may come back has the files of one that might have come back before. */
  ghost predicate SameFiles(before: Cell<Volume>, after: Cell<Volume>) {
    forall v :: after.Possible(v) ==> HasFiles(before, v)
  }

  ghost predicate HasFiles(before: Cell<Volume>, v: Volume) {
    exists w :: before.Possible(w) && w.files == v.files
  }

  lemma SurvivorStates(before: Cell<Volume>, after: Cell<Volume>)
    requires before.Survives(after)
    ensures forall v :: after.Possible(v) ==> before.Possible(v)
  {
  }

  lemma SurvivorFiles(before: Cell<Volume>, after: Cell<Volume>)
    requires before.Survives(after)
    ensures SameFiles(before, after)
  {
    SurvivorStates(before, after);
  }

  lemma ShrunkCellIsConfined(roots: set<Path>, before: Cell<Volume>, after: Cell<Volume>)
    requires CellShrunk(roots, before, after)
    ensures CellConfined(roots, before, after)
  {
    hide FilesShrunk;
    forall v | after.Possible(v)
      ensures From(roots, before, v)
    {
      NotShrunk(roots, v.files);
      assert before.Possible(before.current);
    }
  }

  lemma CellConfinedAgain(roots: set<Path>, a: Cell<Volume>, b: Cell<Volume>, c: Cell<Volume>)
    requires CellConfined(roots, a, b) && CellConfined(roots, b, c)
    ensures CellConfined(roots, a, c)
  {
    hide FilesShrunk;
    forall v | c.Possible(v)
      ensures From(roots, a, v)
    {
      var u :| b.Possible(u) && FilesShrunk(roots, u.files, v.files);
      var w :| a.Possible(w) && FilesShrunk(roots, w.files, u.files);
      ShrunkAgain(roots, w.files, u.files, v.files);
    }
  }

  lemma SameFilesCellConfined(roots: set<Path>, before: Cell<Volume>, after: Cell<Volume>)
    requires SameFiles(before, after)
    ensures CellConfined(roots, before, after)
  {
    hide FilesShrunk;
    forall v | after.Possible(v)
      ensures From(roots, before, v)
    {
      var w :| before.Possible(w) && w.files == v.files;
      NotShrunk(roots, v.files);
    }
  }

  lemma KeptFiles(c: Cell<Volume>)
    ensures SameFiles(c, c) && SameFiles(c, c.Flushed())
  {
    forall v | c.Possible(v)
      ensures HasFiles(c, v)
    {
    }
  }

  /** What one state coming back inherits from those it may have come from. */
  lemma ConfinedState(roots: set<Path>, before: Cell<Volume>, after: Cell<Volume>, v: Volume, p: Path)
    requires CellConfined(roots, before, after) && after.Possible(v)
    ensures (forall w :: before.Possible(w) ==> WellFormed(w.files)) ==> WellFormed(v.files)
    ensures (forall w :: before.Possible(w) ==> Gone(w.files, p)) ==> Gone(v.files, p)
    ensures (forall w :: before.Possible(w) ==> Removable(w.files, p)) ==> Removable(v.files, p)
  {
    hide WellFormed;
    var w :| before.Possible(w) && FilesShrunk(roots, w.files, v.files);
  }

  lemma CellShrunkMore(roots: set<Path>, more: set<Path>, a: Cell<Volume>, b: Cell<Volume>)
    requires CellShrunk(roots, a, b) && roots <= more
    ensures CellShrunk(more, a, b)
  {
    hide FilesShrunk;
    ShrunkMore(roots, more, a.current.files, b.current.files);
    forall d | b.Possible(d) && !a.Possible(d)
      ensures ShrunkTo(more, a.current, d)
    {
      ShrunkMore(roots, more, a.current.files, d.files);
    }
  }

  lemma ShrunkIsSound(roots: set<Path>, a: Files, b: Files)
    requires FilesShrunk(roots, a, b) && WellFormed(a)
    ensures WellFormed(b)
  {
    hide WellFormed;
  }

  lemma RemovedOne(root: Path, cell: Cell<Volume>, p: Path)
    requires WellFormed(cell.current.files) && Below(root, p) && !HasEntries(cell.current.files, p)
    ensures CellShrunk({root}, cell, cell.Write(cell.current.(files := cell.current.files - {p})))
  {
    hide WellFormed, HasEntries, Below;
    RemoveLeaf(cell.current.files, p);
    var after := cell.current.(files := cell.current.files - {p});
    assert root in {root};
    forall d | cell.Write(after).Possible(d)
      ensures cell.Possible(d) || d == after
    {
      WritePossible(cell, after, d);
    }
  }

  lemma AbsentIsGone(files: Files, root: Path)
    requires WellFormed(files) && root !in files && root != []
    ensures Gone(files, root)
  {
    forall p | p in files
      ensures !Below(root, p)
    {
      assert p[..|p|] == p;
      if StrictlyBelow(root, p) {
        Downwards(files, root, p);
        assert false;
      }
    }
  }

  lemma BelowItself(root: Path)
    ensures Below(root, root)
  {
  }

  lemma NoTail(paths: seq<Path>, files: Files)
    ensures files - Tail(paths, |paths|) == files
  {
  }

  lemma ListedBelow(paths: seq<Path>, files: Files, root: Path, i: nat)
    requires Lists(paths, files, root) && i < |paths|
    ensures Below(root, paths[i])
  {
    assert paths[i] in paths;
  }
}
