/**
 * The first-sync epoch protocol of one managed folder, as the set of runs its
 * durable steps allow. The controller may stop after any step, every step may
 * be the last one before a power loss, and the card and the primary filesystem
 * lose their unsynced writes independently.
 */
module FirstSyncProtocol {
  import opened Durable
  import opened ControlTypes

  // ---------------------------------------------------------------- documents

  datatype Entry = Entry(path: string, isDirectory: bool, data: seq<int>)

  function FileCount(entries: seq<Entry>): (n: nat) {
    if entries == [] then 0
    else (if entries[0].isDirectory then 0 else 1) + FileCount(entries[1..])
  }

  function DirectoryCount(entries: seq<Entry>): (n: nat) {
    if entries == [] then 0
    else (if entries[0].isDirectory then 1 else 0) + DirectoryCount(entries[1..])
  }

  function ByteCount(entries: seq<Entry>): (n: nat) {
    if entries == [] then 0
    else (if entries[0].isDirectory then 0 else |entries[0].data|) + ByteCount(entries[1..])
  }

  /** The totals as the walk adds them up: each entry is a directory or a file, and a file adds its bytes. */
  lemma {:induction false} CountsAppend(entries: seq<Entry>, e: Entry)
    ensures DirectoryCount(entries + [e]) == DirectoryCount(entries) + (if e.isDirectory then 1 else 0)
    ensures FileCount(entries + [e]) + DirectoryCount(entries + [e]) == FileCount(entries) + DirectoryCount(entries) + 1
    ensures ByteCount(entries + [e]) == ByteCount(entries) + (if e.isDirectory then 0 else |e.data|)
  {
    if entries == [] {
      assert entries + [e] == [e];
    } else {
      assert (entries + [e])[1..] == entries[1..] + [e];
      CountsAppend(entries[1..], e);
    }
  }

  /** What a snapshot directory holds: the copied files and, once flushed, the manifest naming them. */
  datatype Content = Content(copied: seq<Entry>, manifest: Option<seq<Entry>>)

  datatype Header = Header(
    ready: bool, epoch: nat, folder: string, card: string, source: string, kind: Kind,
    name: string, files: nat, directories: nat, bytes: nat)

  datatype Mode = Seed | FromSnapshot(name: string)

  datatype Marker = Marker(
    complete: bool, epoch: nat, folder: string, card: string, kind: Kind,
    folderType: FolderType, mode: Mode, acknowledged: bool, explicitStart: bool)

  datatype Place = Absent | Partial | Final

  datatype Snapshot = Snapshot(place: Cell<Place>, header: Cell<Option<Header>>, content: Cell<Content>) {
    function Flushed(): Snapshot {
      Snapshot(place.Flushed(), header.Flushed(), content.Flushed())
    }

    ghost predicate Survives(after: Snapshot) {
      place.Survives(after.place) && header.Survives(after.header) && content.Survives(after.content)
    }
  }

  function FlushAll(snapshots: map<string, Snapshot>): map<string, Snapshot> {
    map n | n in snapshots :: snapshots[n].Flushed()
  }

  datatype Upstream = Upstream(folderType: FolderType, paused: bool)

  /** The durable identity of a managed folder: it never changes while the record exists. */
  datatype Binding = Binding(folder: string, card: string, kind: Kind)

  /**
   * Everything the protocol of one folder depends on. gap and diverged are
   * history: an invalidation removed the marker and its epoch bump is not yet
   * durable; a persist failed and the controller went on with changed memory.
   */
  datatype View = View(
    control: Cell<Record>, memory: Record,
    marker: Cell<Option<Marker>>, snapshots: map<string, Snapshot>,
    upstream: Cell<Upstream>,
    running: bool, booted: bool, gap: bool, diverged: bool)

  // -------------------------------------------------------------- predicates

  /** The header counts describe the copied content and the manifest lists exactly that content. */
  predicate Whole(h: Header, c: Content) {
    && c.manifest == Some(c.copied)
    && h.files == FileCount(c.copied)
    && h.directories == DirectoryCount(c.copied)
    && h.bytes == ByteCount(c.copied)
  }

  lemma WholeWhenReady(h: Header, c: Content)
    ensures Whole(h.(ready := true), c) == Whole(h, c)
  {
  }

  predicate MarkerFor(b: Binding, m: Option<Marker>, epoch: nat) {
    && m.Some?
    && m.value.complete && m.value.epoch == epoch && epoch != 0
    && m.value.folder == b.folder && m.value.card == b.card && m.value.kind == b.kind
    && m.value.acknowledged && m.value.explicitStart
    && (m.value.mode.Seed? <==> m.value.folderType.SendOnly?)
  }

  predicate MarkerDurable(b: Binding, v: View, epoch: nat) {
    v.marker.Settled() && MarkerFor(b, v.marker.current, epoch)
  }

  predicate TypeMatches(m: Option<Marker>, t: FolderType) {
    m.Some? && SameClass(m.value.folderType, t)
  }

  ghost predicate TypesMatch(v: View) {
    forall u :: v.upstream.Possible(u) ==> TypeMatches(v.marker.current, u.folderType)
  }

  /** Everything readSnapshotHeader compares except the slot the card sits in. */
  predicate HeaderFor(b: Binding, h: Header, name: string, epoch: nat) {
    && h.ready && h.epoch == epoch && epoch != 0 && h.name == name
    && h.folder == b.folder && h.card == b.card && h.kind == b.kind
  }

  /** The snapshot is certainly on the card under its final name, ready and whole. */
  ghost predicate SnapshotDurable(b: Binding, s: Snapshot, name: string, epoch: nat) {
    && s.place == Cell([], Final)
    && s.header.Settled() && s.header.current.Some?
    && HeaderFor(b, s.header.current.value, name, epoch)
    && s.content.Settled() && Whole(s.header.current.value, s.content.current)
  }

  ghost predicate Backed(b: Binding, v: View, m: Marker) {
    m.mode.FromSnapshot? ==>
      m.mode.name in v.snapshots && SnapshotDurable(b, v.snapshots[m.mode.name], m.mode.name, m.epoch)
  }

  /** The protection a running folder relies on: nothing a power loss does can take it away. */
  ghost predicate Protected(b: Binding, v: View, epoch: nat) {
    && MarkerDurable(b, v, epoch)
    && Backed(b, v, v.marker.current.value)
  }

  // ------------------------------------------------------------------- steps

  /** A successful persist up to its rename: memory and the visible record change together. */
  ghost predicate StoreWrite(b: Binding, v: View, w: View) {
    && v.booted
    && w == v.(memory := w.memory, control := v.control.Write(w.memory))
    && MemoryStep(b, v, w)
  }

  /** A persist that failed before its rename; SetFirstSync and RequireFirstSync keep the changed memory. */
  ghost predicate StoreFail(b: Binding, v: View, w: View) {
    && v.booted
    && w == v.(memory := w.memory, diverged := true)
    && MemoryStep(b, v, w)
    && (v.gap || !w.memory.firstSync || v.memory.firstSync)
  }

  /** What the store may do to the record: nothing, bump the epoch, or clear the pause reason. */
  ghost predicate MemoryStep(b: Binding, v: View, w: View) {
    || (w.memory.epoch == v.memory.epoch && w.memory.firstSync == v.memory.firstSync)
    || (w.memory.epoch == v.memory.epoch + 1 && w.memory.firstSync && (!v.running || v.upstream.current.paused))
    || (w.memory.epoch == v.memory.epoch && !w.memory.firstSync
        && MarkerDurable(b, v, v.memory.epoch) && TypesMatch(v))
  }

  /** syncfs on the primary filesystem: the control record and the upstream config become durable. */
  ghost predicate SyncPrimary(v: View, w: View) {
    w == v.(control := v.control.Flushed(), upstream := v.upstream.Flushed(),
            gap := v.gap && !(v.control.current.firstSync && v.memory.firstSync))
  }

  /** syncfs on the card. */
  ghost predicate SyncCard(v: View, w: View) {
    w == v.(marker := v.marker.Flushed(),
            snapshots := FlushAll(v.snapshots))
  }

  /** Invalidate removes the marker, only while the folder cannot sync. */
  ghost predicate RemoveMarker(v: View, w: View) {
    && (!v.running || v.upstream.current.paused)
    && w == v.(marker := v.marker.Write(None), gap := true)
  }

  /** Recovery discards a marker whose two-phase write did not finish. */
  ghost predicate DiscardPending(v: View, w: View) {
    && v.marker.current.Some? && !v.marker.current.value.complete
    && w == v.(marker := v.marker.Write(None))
  }

  ghost predicate WriteMarker(b: Binding, v: View, w: View) {
    && w.marker.current.Some?
    && w == v.(marker := v.marker.Write(w.marker.current))
    && v.booted && v.memory.firstSync
    && v.control.Settled() && (v.gap || v.control.current.firstSync)
    && w.marker.current.value.folder == b.folder
    && w.marker.current.value.epoch == v.memory.epoch
    && Backed(b, v, w.marker.current.value)
  }

  function NewPartial(): Snapshot {
    Snapshot(Cell([Absent], Partial), Cell([], None), Cell([], Content([], None)))
  }

  ghost predicate CreatePartial(v: View, w: View, n: string) {
    && n !in v.snapshots
    && w == v.(snapshots := v.snapshots[n := NewPartial()])
  }

  ghost predicate WriteContent(v: View, w: View, n: string, c: Content) {
    && n in v.snapshots
    && v.snapshots[n].header == Cell([], None)
    && w == v.(snapshots := v.snapshots[n := v.snapshots[n].(content := v.snapshots[n].content.Write(c))])
  }

  ghost predicate WriteHeader(b: Binding, v: View, w: View, n: string, h: Header) {
    && n in v.snapshots
    && h.name == n && h.folder == b.folder && h.card == b.card && h.kind == b.kind
    && h.epoch == v.memory.epoch && v.booted && v.control.Settled()
    && !v.snapshots[n].place.Possible(Final)
    && (h.ready ==> v.snapshots[n].content.Settled() && Whole(h, v.snapshots[n].content.current))
    && w == v.(snapshots := v.snapshots[n := v.snapshots[n].(header := v.snapshots[n].header.Write(Some(h)))])
  }

  ghost predicate Promote(v: View, w: View, n: string) {
    && n in v.snapshots
    && v.snapshots[n].place.current.Partial?
    && v.snapshots[n].header.Settled()
    && v.snapshots[n].header.current.Some? && v.snapshots[n].header.current.value.ready
    && w == v.(snapshots := v.snapshots[n := v.snapshots[n].(place := v.snapshots[n].place.Write(Final))])
  }

  /** Recovery removes what is still under a partial name. */
  ghost predicate DiscardPartial(v: View, w: View, n: string) {
    && n in v.snapshots
    && v.snapshots[n].place.current.Partial?
    && w == v.(snapshots := v.snapshots[n := v.snapshots[n].(place := v.snapshots[n].place.Write(Absent))])
  }

  ghost predicate SetUpstream(v: View, w: View) {
    && w == v.(upstream := v.upstream.Write(w.upstream.current))
    && (w.upstream.current.folderType == v.upstream.current.folderType || w.upstream.current.paused)
    && (SameClass(v.upstream.current.folderType, w.upstream.current.folderType)
        || (v.memory.firstSync && forall r :: v.control.Possible(r) ==> r.firstSync))
    && (w.upstream.current.paused || v.upstream.current.paused == w.upstream.current.paused
        || (v.booted && !v.memory.firstSync))
  }

  /** Recovery, or completion, has seen a valid durable marker for the durable record: the gap is closed. */
  ghost predicate Confirm(b: Binding, v: View, w: View) {
    && v.booted && !v.memory.firstSync
    && v.control.Settled() && v.control.current.firstSync == v.memory.firstSync
    && v.control.current.epoch == v.memory.epoch
    && MarkerDurable(b, v, v.memory.epoch) && TypesMatch(v)
    && w == v.(gap := false)
  }

  ghost predicate StartUpstream(v: View, w: View) {
    && v.booted
    && (v.upstream.current.paused || !v.memory.firstSync)
    && w == v.(running := true)
  }

  /** The controller process ends; everything written so far stays visible. */
  ghost predicate Die(v: View, w: View) {
    w == v.(running := false, booted := false, memory := v.control.current)
  }

  ghost predicate Boot(v: View, w: View) {
    w == v.(booted := true, memory := v.control.current) && !v.booted && !v.running
  }

  /** Power loss: every cell falls back to one of its possible values, each on its own. */
  ghost predicate PowerLoss(v: View, w: View) {
    && v.control.Survives(w.control)
    && v.marker.Survives(w.marker)
    && v.upstream.Survives(w.upstream)
    && w.snapshots.Keys == v.snapshots.Keys
    && (forall n :: n in v.snapshots ==> v.snapshots[n].Survives(w.snapshots[n]))
    && w.memory == w.control.current && !w.running && !w.booted
    && w.gap == v.gap && w.diverged == v.diverged
  }

  ghost predicate SnapshotStep(b: Binding, v: View, w: View) {
    || (exists n :: CreatePartial(v, w, n))
    || (exists n, c :: WriteContent(v, w, n, c))
    || (exists n, h :: WriteHeader(b, v, w, n, h))
    || (exists n :: Promote(v, w, n))
    || (exists n :: DiscardPartial(v, w, n))
  }

  ghost predicate MarkerStep(b: Binding, v: View, w: View) {
    SyncCard(v, w) || RemoveMarker(v, w) || DiscardPending(v, w) || WriteMarker(b, v, w)
  }

  ghost predicate StoreStep(b: Binding, v: View, w: View) {
    StoreWrite(b, v, w) || StoreFail(b, v, w)
  }

  ghost predicate PrimaryStep(b: Binding, v: View, w: View) {
    SyncPrimary(v, w) || SetUpstream(v, w) || Confirm(b, v, w) || StartUpstream(v, w)
  }

  ghost predicate RestartStep(v: View, w: View) {
    Die(v, w) || Boot(v, w)
  }

  ghost predicate Next(b: Binding, v: View, w: View) {
    || w == v
    || StoreStep(b, v, w) || PrimaryStep(b, v, w)
    || MarkerStep(b, v, w) || SnapshotStep(b, v, w)
    || RestartStep(v, w) || PowerLoss(v, w)
  }

  // --------------------------------------------------------------- invariant

  ghost predicate SnapshotSound(n: string, s: Snapshot) {
    && (forall h :: s.header.Possible(Some(h)) ==> h.name == n)
    && (forall h :: s.header.Possible(Some(h)) && h.ready ==> s.content.Settled() && Whole(h, s.content.current))
    && (s.place.Possible(Final) ==>
          s.header.Settled() && s.header.current.Some? && s.header.current.value.ready
          && s.content.Settled() && s.place.current.Final?)
  }

  ghost predicate SnapshotsSound(v: View) {
    forall n :: n in v.snapshots ==> SnapshotSound(n, v.snapshots[n])
  }

  /** Every marker that may be on the card names a snapshot that is certainly there. */
  ghost predicate MarkersBacked(b: Binding, v: View) {
    forall m: Marker :: v.marker.Possible(Some(m)) && m.folder == b.folder ==> Backed(b, v, m)
  }

  /** A record that may be on disk with first-sync cleared has a certain marker. */
  ghost predicate ClearedBacked(b: Binding, v: View) {
    forall r :: v.control.Possible(r) && !r.firstSync && !v.gap ==> MarkerDurable(b, v, r.epoch) && TypesMatch(v)
  }

  ghost predicate MemoryBacked(b: Binding, v: View) {
    !v.memory.firstSync && !v.gap ==> MarkerDurable(b, v, v.memory.epoch) && TypesMatch(v)
  }

  ghost predicate RanksSorted(v: View) {
    && (forall i, j :: 0 <= i < j < |v.control.older| ==> Rank(v.control.older[i]) <= Rank(v.control.older[j]))
    && (forall i :: 0 <= i < |v.control.older| ==> Rank(v.control.older[i]) <= Rank(v.control.current))
    && Rank(v.control.current) <= Rank(v.memory)
  }

  ghost predicate Inv(b: Binding, v: View) {
    && SnapshotsSound(v)
    && MarkersBacked(b, v)
    && ClearedBacked(b, v)
    && MemoryBacked(b, v)
    && RanksSorted(v)
    && (v.running ==> v.booted)
    && (v.running && !v.upstream.current.paused ==> !v.memory.firstSync)
    && (v.memory.firstSync && !v.control.current.firstSync ==> v.gap)
    && MarkersMatch(b, v)
  }

  /** r speaks of a first sync that is over, so a marker for its epoch is one the completion has flushed. */
  ghost predicate MarkerMatches(b: Binding, v: View, r: Record) {
    && (!r.firstSync && MarkerFor(b, v.marker.current, r.epoch) ==> v.marker.Settled())
    && (forall m, u :: !r.firstSync && v.marker.Possible(m) && MarkerFor(b, m, r.epoch) && v.upstream.Possible(u) ==>
          TypeMatches(m, u.folderType))
  }

  ghost predicate MarkersMatch(b: Binding, v: View) {
    MarkerMatches(b, v, v.memory) && forall r :: v.control.Possible(r) ==> MarkerMatches(b, v, r)
  }

  /** Without a continued failed persist, no artifact of the folder is newer than the durable epoch. */
  ghost predicate Fresh(b: Binding, v: View) {
    !v.diverged ==>
      && (forall m: Marker :: v.marker.Possible(Some(m)) && m.folder == b.folder ==>
            m.epoch <= v.control.Oldest().epoch)
      && (forall n, h :: n in v.snapshots && v.snapshots[n].header.Possible(Some(h)) && h.folder == b.folder ==>
            h.epoch <= v.control.Oldest().epoch)
      && v.memory.epoch == v.control.current.epoch && v.memory.firstSync == v.control.current.firstSync
  }

  /** A binding lifetime: a new record, and nothing on the card carries the folder's name. */
  ghost predicate Init(b: Binding, v: View) {
    && v.control.Settled() && v.memory == v.control.current
    && v.memory.firstSync && v.memory.epoch == 1
    && v.upstream.current.paused && (v.running ==> v.booted)
    && !v.gap && !v.diverged
    && SnapshotsSound(v)
    && (forall m: Marker :: v.marker.Possible(Some(m)) ==> m.folder != b.folder)
    && (forall n, h :: n in v.snapshots && v.snapshots[n].header.Possible(Some(h)) ==> h.folder != b.folder)
  }

  // ------------------------------------------------------ one step preserves

  /** A step that replaces one snapshot no marker depends on. */
  lemma OneSnapshotKeepsInv(b: Binding, v: View, w: View, n: string)
    requires Inv(b, v)
    requires n in w.snapshots && w == v.(snapshots := v.snapshots[n := w.snapshots[n]])
    requires SnapshotSound(n, w.snapshots[n])
    requires n in v.snapshots ==> v.snapshots[n].place != Cell([], Final)
    ensures Inv(b, w)
  {
    forall k | k in w.snapshots
      ensures SnapshotSound(k, w.snapshots[k])
    {
      assert k != n ==> SnapshotSound(k, v.snapshots[k]);
    }
    forall m: Marker | w.marker.Possible(Some(m)) && m.folder == b.folder
      ensures Backed(b, w, m)
    {
      assert Backed(b, v, m);
    }
    assert MarkersBacked(b, w) && SnapshotsSound(w);
    assert ClearedBacked(b, w) && MemoryBacked(b, w) && RanksSorted(w);
  }

  lemma ContentWriteKeepsInv(b: Binding, v: View, w: View, n: string, c: Content)
    requires Inv(b, v) && WriteContent(v, w, n, c)
    ensures Inv(b, w)
  {
    assert SnapshotSound(n, v.snapshots[n]);
    assert SnapshotSound(n, w.snapshots[n]);
    OneSnapshotKeepsInv(b, v, w, n);
  }

  lemma HeaderWriteKeepsInv(b: Binding, v: View, w: View, n: string, h: Header)
    requires Inv(b, v) && WriteHeader(b, v, w, n, h)
    ensures Inv(b, w)
  {
    var s, s' := v.snapshots[n], w.snapshots[n];
    assert SnapshotSound(n, s);
    forall k | s'.header.Possible(Some(k))
      ensures k.name == n
      ensures k.ready ==> s'.content.Settled() && Whole(k, s'.content.current)
    {
      WritePossible(s.header, Some(h), Some(k));
    }
    assert SnapshotSound(n, s');
    OneSnapshotKeepsInv(b, v, w, n);
  }

  lemma PlaceWriteKeepsInv(b: Binding, v: View, w: View, n: string)
    requires Inv(b, v) && (CreatePartial(v, w, n) || Promote(v, w, n) || DiscardPartial(v, w, n))
    ensures Inv(b, w)
  {
    if n in v.snapshots {
      var s, s' := v.snapshots[n], w.snapshots[n];
      assert SnapshotSound(n, s);
      WritePossible(s.place, s'.place.current, Final);
      assert s.header.current.Some? ==> s.header.Possible(Some(s.header.current.value));
      assert SnapshotSound(n, s');
    }
    OneSnapshotKeepsInv(b, v, w, n);
  }

  lemma SnapshotStepKeepsInv(b: Binding, v: View, w: View)
    requires Inv(b, v) && SnapshotStep(b, v, w)
    ensures Inv(b, w)
  {
    if n, c :| WriteContent(v, w, n, c) {
      ContentWriteKeepsInv(b, v, w, n, c);
    } else if n, h :| WriteHeader(b, v, w, n, h) {
      HeaderWriteKeepsInv(b, v, w, n, h);
    } else {
      var n :| CreatePartial(v, w, n) || Promote(v, w, n) || DiscardPartial(v, w, n);
      PlaceWriteKeepsInv(b, v, w, n);
    }
  }

  lemma SyncCardKeepsInv(b: Binding, v: View, w: View)
    requires Inv(b, v) && SyncCard(v, w)
    ensures Inv(b, w)
  {
    forall n | n in w.snapshots
      ensures SnapshotSound(n, w.snapshots[n])
    {
      assert SnapshotSound(n, v.snapshots[n]);
    }
    forall m: Marker | w.marker.Possible(Some(m)) && m.folder == b.folder
      ensures Backed(b, w, m)
    {
      assert Backed(b, v, m);
    }
  }

  lemma MarkerWriteBacked(b: Binding, v: View, w: View)
    requires MarkersBacked(b, v)
    requires RemoveMarker(v, w) || DiscardPending(v, w) || WriteMarker(b, v, w)
    ensures MarkersBacked(b, w)
  {
    hide SnapshotDurable;
    forall m: Marker | w.marker.Possible(Some(m)) && m.folder == b.folder
      ensures Backed(b, w, m)
    {
      WritePossible(v.marker, w.marker.current, Some(m));
      assert v.marker.Possible(Some(m)) ==> Backed(b, v, m);
    }
  }

  /** Only an invalidation, or a marker for a pending first sync, touches what a cleared record relies on. */
  lemma MarkerWriteCleared(b: Binding, v: View, w: View)
    requires ClearedBacked(b, v) && MemoryBacked(b, v) && RanksSorted(v)
    requires RemoveMarker(v, w) || DiscardPending(v, w) || WriteMarker(b, v, w)
    ensures ClearedBacked(b, w) && MemoryBacked(b, w) && RanksSorted(w)
  {
    hide Backed, TypesMatch;
  }

  lemma MarkerWriteKeepsInv(b: Binding, v: View, w: View)
    requires Inv(b, v)
    requires RemoveMarker(v, w) || DiscardPending(v, w) || WriteMarker(b, v, w)
    ensures Inv(b, w)
  {
    MarkerWriteBacked(b, v, w);
    MarkerWriteCleared(b, v, w);
    MarkerWriteMatches(b, v, w);
    hide SnapshotSound, Backed, MarkersBacked, ClearedBacked, MemoryBacked, RanksSorted, MarkersMatch;
  }

  /** A new marker carries the pending epoch, which no record with first-sync cleared has. */
  lemma MarkerWriteMatches(b: Binding, v: View, w: View)
    requires MarkersMatch(b, v) && RanksSorted(v)
    requires RemoveMarker(v, w) || DiscardPending(v, w) || WriteMarker(b, v, w)
    ensures MarkersMatch(b, w)
  {
    hide Backed, TypeMatches;
    forall r | r == w.memory || w.control.Possible(r)
      ensures MarkerMatches(b, w, r)
    {
      assert MarkerMatches(b, v, r);
    }
  }

  lemma MarkerStepKeepsInv(b: Binding, v: View, w: View)
    requires Inv(b, v) && MarkerStep(b, v, w)
    ensures Inv(b, w)
  {
    if SyncCard(v, w) {
      SyncCardKeepsInv(b, v, w);
    } else {
      MarkerWriteKeepsInv(b, v, w);
    }
  }

  /** A successful persist: clearing needs a durable marker, and a bump is no cleared record. */
  lemma StoreWriteKeepsInv(b: Binding, v: View, w: View)
    requires Inv(b, v) && StoreWrite(b, v, w)
    ensures Inv(b, w)
  {
    hide SnapshotSound, SnapshotDurable, HeaderFor;
    forall r | w.control.Possible(r) && !r.firstSync && !w.gap
      ensures MarkerDurable(b, w, r.epoch) && TypesMatch(w)
    {
      WritePossible(v.control, w.memory, r);
    }
    assert RanksSorted(w) by {
      hide MarkerDurable, MarkersBacked, ClearedBacked, MemoryBacked, SnapshotsSound;
    }
    assert ClearedBacked(b, w) && MemoryBacked(b, w);
    MemoryStepMatches(b, v, w);
  }

  /** What the store may make of the record fits the marker on the card. */
  lemma MemoryStepMatches(b: Binding, v: View, w: View)
    requires MarkersMatch(b, v) && MemoryStep(b, v, w)
    requires w.marker == v.marker && w.upstream == v.upstream
    requires w.control == v.control || w.control == v.control.Write(w.memory)
    ensures MarkersMatch(b, w)
  {
    hide MarkerFor;
    assert MarkerMatches(b, v, v.memory);
    assert MarkerMatches(b, w, w.memory);
    forall r | w.control.Possible(r)
      ensures MarkerMatches(b, w, r)
    {
      WritePossible(v.control, w.memory, r);
      assert v.control.Possible(r) ==> MarkerMatches(b, v, r);
    }
  }

  lemma StoreFailKeepsInv(b: Binding, v: View, w: View)
    requires Inv(b, v) && StoreFail(b, v, w)
    ensures Inv(b, w)
  {
    hide SnapshotSound, SnapshotDurable, HeaderFor, MarkerFor;
    MemoryStepMatches(b, v, w);
  }

  lemma StoreStepKeepsInv(b: Binding, v: View, w: View)
    requires Inv(b, v) && StoreStep(b, v, w)
    ensures Inv(b, w)
  {
    hide Inv, StoreWrite, StoreFail;
    if StoreWrite(b, v, w) {
      StoreWriteKeepsInv(b, v, w);
    } else {
      StoreFailKeepsInv(b, v, w);
    }
  }

  lemma SyncPrimaryKeepsInv(b: Binding, v: View, w: View)
    requires Inv(b, v) && SyncPrimary(v, w)
    ensures Inv(b, w)
  {
    hide SnapshotSound, SnapshotDurable;
  }

  lemma UpstreamStepKeepsInv(b: Binding, v: View, w: View)
    requires Inv(b, v)
    requires SetUpstream(v, w) || StartUpstream(v, w)
    ensures Inv(b, w)
  {
    hide SnapshotSound, SnapshotDurable;
  }

  lemma PrimaryStepKeepsInv(b: Binding, v: View, w: View)
    requires Inv(b, v) && PrimaryStep(b, v, w)
    ensures Inv(b, w)
  {
    hide SnapshotSound, SnapshotDurable;
    if SyncPrimary(v, w) {
      SyncPrimaryKeepsInv(b, v, w);
    } else if Confirm(b, v, w) {
      assert MarkersBacked(b, w) && SnapshotsSound(w) && RanksSorted(w);
    } else {
      UpstreamStepKeepsInv(b, v, w);
    }
  }

  lemma RestartStepKeepsInv(b: Binding, v: View, w: View)
    requires Inv(b, v)
    requires RestartStep(v, w)
    ensures Inv(b, w)
  {
    assert MarkerMatches(b, v, v.control.current);
    assert MarkersMatch(b, w) by {
      hide MarkerFor, TypeMatches;
    }
  }

  lemma PowerLossMatches(b: Binding, v: View, w: View)
    requires MarkersMatch(b, v) && PowerLoss(v, w)
    ensures MarkersMatch(b, w)
  {
    hide MarkerFor, TypeMatches;
    assert MarkerMatches(b, v, w.control.current);
  }

  lemma PowerLossCards(b: Binding, v: View, w: View)
    requires SnapshotsSound(v) && MarkersBacked(b, v) && PowerLoss(v, w)
    ensures SnapshotsSound(w) && MarkersBacked(b, w)
  {
    forall n | n in w.snapshots
      ensures SnapshotSound(n, w.snapshots[n])
    {
      assert SnapshotSound(n, v.snapshots[n]) && v.snapshots[n].Survives(w.snapshots[n]);
    }
    forall m: Marker | w.marker.Possible(Some(m)) && m.folder == b.folder
      ensures Backed(b, w, m)
    {
      assert Backed(b, v, m);
    }
  }

  lemma PowerLossKeepsInv(b: Binding, v: View, w: View)
    requires Inv(b, v) && PowerLoss(v, w)
    ensures Inv(b, w)
  {
    PowerLossMatches(b, v, w);
    PowerLossCards(b, v, w);
    hide MarkersMatch, SnapshotsSound, MarkersBacked, MarkerFor;
  }

  lemma NextKeepsInv(b: Binding, v: View, w: View)
    requires Inv(b, v) && Next(b, v, w)
    ensures Inv(b, w)
  {
    if SnapshotStep(b, v, w) {
      SnapshotStepKeepsInv(b, v, w);
    } else if MarkerStep(b, v, w) {
      MarkerStepKeepsInv(b, v, w);
    } else if StoreStep(b, v, w) {
      StoreStepKeepsInv(b, v, w);
    } else if RestartStep(v, w) {
      RestartStepKeepsInv(b, v, w);
    } else if PowerLoss(v, w) {
      PowerLossKeepsInv(b, v, w);
    } else if PrimaryStep(b, v, w) {
      PrimaryStepKeepsInv(b, v, w);
    }
  }

  /** The oldest possible record has the least epoch, so a power loss never goes below it. */
  lemma OldestIsLeast(v: View, r: Record)
    requires RanksSorted(v) && v.control.Possible(r)
    ensures v.control.Oldest().epoch <= r.epoch
  {
    if r in v.control.older {
      var i :| 0 <= i < |v.control.older| && v.control.older[i] == r;
      assert i > 0 ==> Rank(v.control.older[0]) <= Rank(v.control.older[i]);
    }
  }

  // --------------------------------------------------- one step keeps freshness

  lemma SnapshotStepFrame(b: Binding, v: View, w: View)
    requires SnapshotStep(b, v, w)
    ensures w == v.(snapshots := w.snapshots)
  {
    if n :| CreatePartial(v, w, n) {
    } else if n, c :| WriteContent(v, w, n, c) {
    } else if n, h :| WriteHeader(b, v, w, n, h) {
    } else if n :| Promote(v, w, n) {
    } else {
      var n :| DiscardPartial(v, w, n);
    }
  }

  lemma CardStepFrame(b: Binding, v: View, w: View)
    requires SnapshotStep(b, v, w) || MarkerStep(b, v, w)
    ensures w.control == v.control && w.memory == v.memory && w.diverged == v.diverged
    ensures SnapshotStep(b, v, w) ==> w.marker == v.marker
  {
    hide SnapshotStep;
    if SnapshotStep(b, v, w) {
      SnapshotStepFrame(b, v, w);
    }
  }

  /** Only PowerLoss and syncfs change which records may come back; both only drop candidates. */
  lemma NextRaisesOldest(b: Binding, v: View, w: View)
    requires RanksSorted(v) && Next(b, v, w)
    ensures v.control.Oldest().epoch <= w.control.Oldest().epoch
  {
    hide SnapshotStep, MarkerStep, PrimaryStep, StoreStep, PowerLoss, RanksSorted;
    if SnapshotStep(b, v, w) || MarkerStep(b, v, w) {
      CardStepFrame(b, v, w);
    } else if PowerLoss(v, w) {
      PowerLossRaisesOldest(v, w);
    } else if w != v {
      PrimaryRaisesOldest(b, v, w);
    }
  }

  lemma PowerLossRaisesOldest(v: View, w: View)
    requires RanksSorted(v) && PowerLoss(v, w)
    ensures v.control.Oldest().epoch <= w.control.Oldest().epoch
  {
    OldestIsLeast(v, w.control.current);
  }

  lemma PrimaryFrame(b: Binding, v: View, w: View)
    requires StoreStep(b, v, w) || PrimaryStep(b, v, w) || RestartStep(v, w)
    ensures w.marker == v.marker && w.snapshots == v.snapshots
  {
    hide MarkerDurable;
  }

  lemma PrimaryRaisesOldest(b: Binding, v: View, w: View)
    requires RanksSorted(v)
    requires StoreStep(b, v, w) || PrimaryStep(b, v, w) || RestartStep(v, w)
    ensures v.control.Oldest().epoch <= w.control.Oldest().epoch
    ensures w.marker == v.marker && w.snapshots == v.snapshots && (v.diverged ==> w.diverged)
  {
    hide MarkerDurable, RanksSorted;
    OldestIsLeast(v, v.control.current);
  }

  lemma SnapshotHeaders(b: Binding, v: View, w: View, n: string, h: Header)
    requires SnapshotStep(b, v, w)
    requires n in w.snapshots && w.snapshots[n].header.Possible(Some(h))
    ensures (n in v.snapshots && v.snapshots[n].header.Possible(Some(h)))
         || (v.booted && v.control.Settled() && h.epoch == v.memory.epoch)
  {
    if k, h' :| WriteHeader(b, v, w, k, h') {
      if k == n {
        WritePossible(v.snapshots[n].header, Some(h'), Some(h));
      }
    } else {
      OtherHeadersStay(b, v, w, n, h);
    }
  }

  lemma OtherHeadersStay(b: Binding, v: View, w: View, n: string, h: Header)
    requires SnapshotStep(b, v, w) && !exists k, g :: WriteHeader(b, v, w, k, g)
    requires n in w.snapshots && w.snapshots[n].header.Possible(Some(h))
    ensures n in v.snapshots && v.snapshots[n].header.Possible(Some(h))
  {
    if k :| CreatePartial(v, w, k) {
    } else if k, c :| WriteContent(v, w, k, c) {
    } else if k :| Promote(v, w, k) {
    } else {
      var k :| DiscardPartial(v, w, k);
    }
  }

  lemma SnapshotStepKeepsFresh(b: Binding, v: View, w: View)
    requires Fresh(b, v) && SnapshotStep(b, v, w)
    ensures Fresh(b, w)
  {
    CardStepFrame(b, v, w);
    forall n, h | !w.diverged && n in w.snapshots && w.snapshots[n].header.Possible(Some(h)) && h.folder == b.folder
      ensures h.epoch <= w.control.Oldest().epoch
    {
      SnapshotHeaders(b, v, w, n, h);
    }
  }

  lemma MarkerStepKeepsFresh(b: Binding, v: View, w: View)
    requires Fresh(b, v) && MarkerStep(b, v, w)
    ensures Fresh(b, w)
  {
    CardStepFrame(b, v, w);
    forall n, h | n in w.snapshots && w.snapshots[n].header.Possible(Some(h))
      ensures n in v.snapshots && v.snapshots[n].header.Possible(Some(h))
    {
    }
  }

  lemma PowerLossKeepsFresh(b: Binding, v: View, w: View)
    requires RanksSorted(v) && Fresh(b, v) && PowerLoss(v, w)
    ensures Fresh(b, w)
  {
    OldestIsLeast(v, w.control.current);
    forall n, h | n in w.snapshots && w.snapshots[n].header.Possible(Some(h))
      ensures v.snapshots[n].header.Possible(Some(h))
    {
      assert v.snapshots[n].Survives(w.snapshots[n]);
    }
  }

  lemma OtherStepKeepsFresh(b: Binding, v: View, w: View)
    requires RanksSorted(v) && Fresh(b, v)
    requires StoreStep(b, v, w) || PrimaryStep(b, v, w) || RestartStep(v, w)
    ensures Fresh(b, w)
  {
    hide MarkerDurable;
    PrimaryRaisesOldest(b, v, w);
    assert w.diverged || (w.memory.epoch == w.control.current.epoch && w.memory.firstSync == w.control.current.firstSync) by {
      hide RanksSorted;
    }
  }

  lemma NextKeepsFresh(b: Binding, v: View, w: View)
    requires Inv(b, v) && Fresh(b, v) && Next(b, v, w)
    ensures Fresh(b, w)
  {
    if SnapshotStep(b, v, w) {
      SnapshotStepKeepsFresh(b, v, w);
    } else if MarkerStep(b, v, w) {
      MarkerStepKeepsFresh(b, v, w);
    } else if PowerLoss(v, w) {
      PowerLossKeepsFresh(b, v, w);
    } else if w != v {
      OtherStepKeepsFresh(b, v, w);
    }
  }

  // The steps by the names their callers use.

  lemma SyncPrimaryIsNext(b: Binding, v: View, w: View)
    requires SyncPrimary(v, w)
    ensures Next(b, v, w)
  {
  }

  lemma SetUpstreamIsNext(b: Binding, v: View, w: View)
    requires SetUpstream(v, w)
    ensures Next(b, v, w)
  {
  }

  lemma StartUpstreamIsNext(b: Binding, v: View, w: View)
    requires StartUpstream(v, w)
    ensures Next(b, v, w)
  {
  }

  lemma ConfirmIsNext(b: Binding, v: View, w: View)
    requires Confirm(b, v, w)
    ensures Next(b, v, w)
  {
  }

  lemma SyncCardIsNext(b: Binding, v: View, w: View)
    requires SyncCard(v, w)
    ensures Next(b, v, w)
  {
  }

  lemma MarkerStepIsNext(b: Binding, v: View, w: View)
    requires MarkerStep(b, v, w)
    ensures Next(b, v, w)
  {
  }

  lemma SnapshotStepIsNext(b: Binding, v: View, w: View)
    requires SnapshotStep(b, v, w)
    ensures Next(b, v, w)
  {
  }

  lemma WriteMarkerIsStep(b: Binding, v: View, m: Marker)
    requires WriteMarker(b, v, v.(marker := v.marker.Write(Some(m))))
    ensures MarkerStep(b, v, v.(marker := v.marker.Write(Some(m))))
  {
  }

  lemma BackedIgnoresPhase(b: Binding, v: View, m: Marker)
    requires Backed(b, v, m)
    ensures Backed(b, v, m.(complete := true))
  {
  }

  lemma BackedSurvivesFlush(b: Binding, v: View, w: View, m: Marker)
    requires SyncCard(v, w) && Backed(b, v, m)
    ensures Backed(b, w, m)
  {
  }

  lemma CreatePartialIsStep(b: Binding, v: View, n: string)
    requires n !in v.snapshots
    ensures SnapshotStep(b, v, v.(snapshots := v.snapshots[n := NewPartial()]))
  {
    assert CreatePartial(v, v.(snapshots := v.snapshots[n := NewPartial()]), n);
  }

  lemma WriteContentIsStep(b: Binding, v: View, n: string, c: Content)
    requires n in v.snapshots && v.snapshots[n].header == Cell([], None)
    ensures SnapshotStep(b, v, v.(snapshots := v.snapshots[n :=
              v.snapshots[n].(content := v.snapshots[n].content.Write(c))]))
  {
    assert WriteContent(v, v.(snapshots := v.snapshots[n :=
              v.snapshots[n].(content := v.snapshots[n].content.Write(c))]), n, c);
  }

  lemma WriteHeaderIsStep(b: Binding, v: View, n: string, h: Header)
    requires n in v.snapshots
    requires WriteHeader(b, v, v.(snapshots := v.snapshots[n :=
              v.snapshots[n].(header := v.snapshots[n].header.Write(Some(h)))]), n, h)
    ensures SnapshotStep(b, v, v.(snapshots := v.snapshots[n :=
              v.snapshots[n].(header := v.snapshots[n].header.Write(Some(h)))]))
  {
  }

  lemma PromoteIsStep(b: Binding, v: View, n: string)
    requires n in v.snapshots
    requires Promote(v, v.(snapshots := v.snapshots[n :=
              v.snapshots[n].(place := v.snapshots[n].place.Write(Final))]), n)
    ensures SnapshotStep(b, v, v.(snapshots := v.snapshots[n :=
              v.snapshots[n].(place := v.snapshots[n].place.Write(Final))]))
  {
  }

  lemma DiscardPartialIsStep(b: Binding, v: View, n: string)
    requires n in v.snapshots && v.snapshots[n].place.current.Partial?
    ensures SnapshotStep(b, v, v.(snapshots := v.snapshots[n :=
              v.snapshots[n].(place := v.snapshots[n].place.Write(Absent))]))
  {
    assert DiscardPartial(v, v.(snapshots := v.snapshots[n :=
              v.snapshots[n].(place := v.snapshots[n].place.Write(Absent))]), n);
  }

  lemma StoreWriteIsNext(b: Binding, v: View, w: View)
    requires StoreWrite(b, v, w)
    ensures Next(b, v, w)
  {
  }

  lemma StoreFailIsNext(b: Binding, v: View, w: View)
    requires StoreFail(b, v, w)
    ensures Next(b, v, w)
  {
  }

  lemma RestartIsNext(b: Binding, v: View, w: View)
    requires RestartStep(v, w)
    ensures Next(b, v, w)
  {
  }

  lemma PowerLossIsNext(b: Binding, v: View, w: View)
    requires PowerLoss(v, w)
    ensures Next(b, v, w)
  {
  }

  lemma StutterIsNext(b: Binding, v: View)
    ensures Next(b, v, v)
  {
  }

  // -------------------------------------------------------------------- runs

  ghost predicate LegalRun(b: Binding, run: seq<View>) {
    && run != []
    && Init(b, run[0])
    && forall i :: 0 <= i < |run| - 1 ==> Next(b, run[i], run[i + 1])
  }

  lemma {:induction false} RunKeepsInv(b: Binding, run: seq<View>, i: nat)
    requires LegalRun(b, run) && i < |run|
    ensures Inv(b, run[i]) && Fresh(b, run[i])
  {
    if i > 0 {
      RunKeepsInv(b, run, i - 1);
      assert Next(b, run[i - 1], run[i - 1 + 1]);
      NextKeepsInv(b, run[i - 1], run[i]);
      NextKeepsFresh(b, run[i - 1], run[i]);
    }
  }

  /** Protected, by a marker and a snapshot that fit what upstream does with the folder. */
  ghost predicate SafeToRun(b: Binding, v: View, epoch: nat) {
    && Protected(b, v, epoch)
    && TypesMatch(v)
    && (!v.upstream.current.folderType.SendOnly? ==> v.marker.current.value.mode.FromSnapshot?)
  }

  /**
   * The exact condition: once first sync is no longer pending, a folder is safe to
   * run if and only if the marker a reader sees is complete and for its epoch.
   * Nothing on the card but that marker has to be looked at.
   */
  lemma MarkerDecides(b: Binding, run: seq<View>, i: nat, r: Record)
    requires LegalRun(b, run) && i < |run|
    requires (r == run[i].memory || run[i].control.Possible(r)) && !r.firstSync
    ensures SafeToRun(b, run[i], r.epoch) <==> MarkerFor(b, run[i].marker.current, r.epoch)
    ensures Protected(b, run[i], r.epoch) <==> MarkerFor(b, run[i].marker.current, r.epoch)
    ensures !run[i].gap ==> MarkerFor(b, run[i].marker.current, r.epoch)
  {
    RunKeepsInv(b, run, i);
    var v := run[i];
    assert MarkerMatches(b, v, r);
    if MarkerFor(b, v.marker.current, r.epoch) {
      assert v.marker.Possible(Some(v.marker.current.value));
      assert Backed(b, v, v.marker.current.value);
      assert v.upstream.Possible(v.upstream.current);
    }
  }

  /**
   * At every point of every run, a folder upstream may sync is safe, with a marker
   * and, unless it only sends, a snapshot that no power loss can take away, exactly
   * if its marker is complete and for its epoch. It is, except after an invalidation
   * that was interrupted.
   */
  lemma RunningFolderIsProtected(b: Binding, run: seq<View>, i: nat)
    requires LegalRun(b, run) && i < |run|
    requires run[i].running && !run[i].upstream.current.paused
    ensures SafeToRun(b, run[i], run[i].memory.epoch) <==> MarkerFor(b, run[i].marker.current, run[i].memory.epoch)
    ensures !run[i].gap ==> SafeToRun(b, run[i], run[i].memory.epoch)
  {
    RunKeepsInv(b, run, i);
    MarkerDecides(b, run, i, run[i].memory);
  }

  /**
   * What a caller has to ask before it unpauses a folder: the call leaves it
   * running safely if and only if the marker now on the card is complete and for
   * its epoch.
   */
  lemma UnpausingIsSafeExactly(b: Binding, run: seq<View>, w: View)
    requires LegalRun(b, run) && SetUpstream(run[|run| - 1], w)
    requires w.running && !w.upstream.current.paused
    ensures SafeToRun(b, w, w.memory.epoch) <==>
              MarkerFor(b, run[|run| - 1].marker.current, run[|run| - 1].memory.epoch)
  {
    hide Next, Init, SafeToRun;
    SetUpstreamIsNext(b, run[|run| - 1], w);
    Extend(b, run, w);
    RunningFolderIsProtected(b, run + [w], |run|);
  }

  /** Whatever a power loss leaves: a control record with first-sync cleared comes with its marker and snapshot. */
  lemma ClearedRecordIsProtected(b: Binding, run: seq<View>, i: nat, r: Record)
    requires LegalRun(b, run) && i < |run|
    requires run[i].control.Possible(r) && !r.firstSync && !run[i].gap
    ensures Protected(b, run[i], r.epoch)
  {
    RunKeepsInv(b, run, i);
    assert Backed(b, run[i], run[i].marker.current.value);
  }

  /** The same for what the controller remembers, which is what it acts on. */
  lemma ClearedMemoryIsProtected(b: Binding, run: seq<View>, i: nat)
    requires LegalRun(b, run) && i < |run|
    requires !run[i].memory.firstSync && !run[i].gap
    ensures Protected(b, run[i], run[i].memory.epoch)
  {
    RunKeepsInv(b, run, i);
    assert Backed(b, run[i], run[i].marker.current.value);
  }

  /** The epoch on disk never decreases: not by any step, and not by losing power. */
  lemma {:induction false} DurableEpochNeverDecreases(b: Binding, run: seq<View>, i: nat, j: nat)
    requires LegalRun(b, run) && i <= j < |run|
    ensures run[i].control.Oldest().epoch <= run[j].control.Oldest().epoch <= run[j].memory.epoch
  {
    hide Next;
    RunKeepsInv(b, run, j);
    OldestIsLeast(run[j], run[j].control.current);
    if i < j {
      DurableEpochNeverDecreases(b, run, i, j - 1);
      RunKeepsInv(b, run, j - 1);
      assert Next(b, run[j - 1], run[j - 1 + 1]);
      NextRaisesOldest(b, run[j - 1], run[j]);
    }
  }

  /** An invalidation whose persist completed has moved the durable epoch. */
  lemma InvalidationMovesDurableEpoch(b: Binding, v: View, w: View, x: View)
    requires Inv(b, v)
    requires StoreWrite(b, v, w) && w.memory.epoch == v.memory.epoch + 1
    requires SyncPrimary(w, x)
    ensures v.control.Oldest().epoch < x.control.Oldest().epoch
  {
    OldestIsLeast(v, v.control.current);
  }

  /**
   * Once the durable epoch has moved, no marker and no snapshot that existed
   * before is ever accepted again.
   */
  lemma NothingStaleIsAccepted(b: Binding, run: seq<View>, i: nat, k: nat, j: nat)
    requires LegalRun(b, run) && i <= k <= j < |run|
    requires !run[j].diverged
    requires run[i].control.Oldest().epoch < run[k].control.Oldest().epoch
    ensures forall m :: run[i].marker.Possible(m) ==> !MarkerFor(b, m, run[j].memory.epoch)
    ensures forall n, h :: n in run[i].snapshots && run[i].snapshots[n].header.Possible(Some(h)) ==>
              !HeaderFor(b, h, n, run[j].memory.epoch)
  {
    RunKeepsInv(b, run, i);
    DivergenceIsForever(b, run, i, j);
    DurableEpochNeverDecreases(b, run, k, j);
  }

  /** v is a state from which a marker or a snapshot header of epoch e may be written. */
  ghost predicate Issues(v: View, e: nat) {
    v.booted && v.control.Settled() && v.memory.epoch == e
  }

  ghost predicate IssuedBy(run: seq<View>, i: nat, e: nat)
    requires i < |run|
  {
    exists k :: 0 <= k <= i && Issues(run[k], e)
  }

  lemma StepIssues(b: Binding, v: View, w: View)
    requires Next(b, v, w)
    ensures forall m: Marker :: w.marker.Possible(Some(m)) && m.folder == b.folder ==>
              v.marker.Possible(Some(m)) || Issues(v, m.epoch)
    ensures forall n, h :: n in w.snapshots && w.snapshots[n].header.Possible(Some(h)) ==>
              (n in v.snapshots && v.snapshots[n].header.Possible(Some(h))) || Issues(v, h.epoch)
  {
    hide SnapshotStep, StoreStep, PrimaryStep, RestartStep;
    if SnapshotStep(b, v, w) {
      CardStepFrame(b, v, w);
      forall n, h | n in w.snapshots && w.snapshots[n].header.Possible(Some(h))
        ensures (n in v.snapshots && v.snapshots[n].header.Possible(Some(h))) || Issues(v, h.epoch)
      {
        SnapshotHeaders(b, v, w, n, h);
      }
    } else if !MarkerStep(b, v, w) && !PowerLoss(v, w) && w != v {
      PrimaryFrame(b, v, w);
    }
  }

  /** Whatever of this folder is on the card carries an epoch that was the controller's own at some earlier point. */
  lemma {:induction false} ArtifactsWereIssued(b: Binding, run: seq<View>, i: nat)
    requires LegalRun(b, run) && i < |run|
    ensures forall m: Marker :: run[i].marker.Possible(Some(m)) && m.folder == b.folder ==> IssuedBy(run, i, m.epoch)
    ensures forall n, h :: n in run[i].snapshots && run[i].snapshots[n].header.Possible(Some(h)) && h.folder == b.folder ==>
              IssuedBy(run, i, h.epoch)
  {
    hide Next, Issues;
    if i > 0 {
      ArtifactsWereIssued(b, run, i - 1);
      assert Next(b, run[i - 1], run[i - 1 + 1]);
      StepIssues(b, run[i - 1], run[i]);
      forall e: nat | IssuedBy(run, i - 1, e) || Issues(run[i - 1], e)
        ensures IssuedBy(run, i, e)
      {
        if !Issues(run[i - 1], e) {
          var k :| 0 <= k <= i - 1 && Issues(run[k], e);
        }
      }
    }
  }

  /**
   * The same without any condition on how the controller behaved: what was on the
   * card at i is accepted later only under an epoch that had already been in use
   * by then. DivergenceCanRevive is a run in which that happens.
   */
  lemma StaleNeedsAnEpochInUse(b: Binding, run: seq<View>, i: nat, j: nat)
    requires LegalRun(b, run) && i <= j < |run| && !IssuedBy(run, i, run[j].memory.epoch)
    ensures forall m :: run[i].marker.Possible(m) ==> !MarkerFor(b, m, run[j].memory.epoch)
    ensures forall n, h :: n in run[i].snapshots && run[i].snapshots[n].header.Possible(Some(h)) ==>
              !HeaderFor(b, h, n, run[j].memory.epoch)
  {
    hide Next, IssuedBy;
    ArtifactsWereIssued(b, run, i);
  }

  lemma NextKeepsDivergence(b: Binding, v: View, w: View)
    requires Next(b, v, w)
    ensures v.diverged ==> w.diverged
  {
  }

  lemma {:induction false} DivergenceIsForever(b: Binding, run: seq<View>, i: nat, j: nat)
    requires LegalRun(b, run) && i <= j < |run|
    ensures run[i].diverged ==> run[j].diverged
  {
    hide Next;
    if i < j {
      DivergenceIsForever(b, run, i, j - 1);
      assert Next(b, run[j - 1], run[j - 1 + 1]);
      NextKeepsDivergence(b, run[j - 1], run[j]);
    }
  }

  // ------------------------------------------------ the two exceptions are real

  lemma Extend(b: Binding, run: seq<View>, w: View)
    requires LegalRun(b, run) && Next(b, run[|run| - 1], w)
    ensures LegalRun(b, run + [w])
  {
    hide Next, Init;
  }

  /**
   * An invalidation that fails after removing the marker leaves the pause reason
   * unset. A later change between the two receiving types then unpauses the
   * folder without a marker: the condition of RunningFolderIsProtected can fail.
   */
  lemma GapCanRunUnprotected(b: Binding, run: seq<View>) returns (longer: seq<View>)
    requires run != [] && LegalRun(b, run)
    requires var v := run[|run| - 1];
             v.running && !v.gap && v.upstream.current == Upstream(SendReceive, false)
    ensures LegalRun(b, longer) && run <= longer
    ensures var w := longer[|longer| - 1];
            && w.running && w.upstream.current == Upstream(ReceiveOnly, false)
            && !MarkerFor(b, w.marker.current, w.memory.epoch) && !Protected(b, w, w.memory.epoch)
  {
    hide Next, LegalRun;
    var v := run[|run| - 1];
    RunKeepsInv(b, run, |run| - 1);
    var v1 := v.(upstream := v.upstream.Write(Upstream(SendReceive, true)));
    SetUpstreamIsNext(b, v, v1);
    Extend(b, run, v1);
    var v2 := v1.(marker := v1.marker.Write(None), gap := true);
    assert RemoveMarker(v1, v2);
    MarkerStepIsNext(b, v1, v2);
    Extend(b, run + [v1], v2);
    var v3 := v2.(upstream := v2.upstream.Write(Upstream(ReceiveOnly, true)));
    SetUpstreamIsNext(b, v2, v3);
    Extend(b, run + [v1] + [v2], v3);
    var v4 := v3.(upstream := v3.upstream.Write(Upstream(ReceiveOnly, false)));
    SetUpstreamIsNext(b, v3, v4);
    Extend(b, run + [v1] + [v2] + [v3], v4);
    longer := run + [v1] + [v2] + [v3] + [v4];
  }

  /**
   * A persist that fails inside an invalidation while the controller goes on:
   * the next marker carries the epoch that only memory knows, and recovery later
   * hands that same epoch out again. NothingStaleIsAccepted cannot drop its guard.
   */
  lemma DivergenceCanRevive(b: Binding, run: seq<View>) returns (longer: seq<View>, i: nat)
    requires run != [] && LegalRun(b, run)
    requires var v := run[|run| - 1];
             && v.booted && !v.running && !v.gap && !v.diverged && !v.memory.firstSync
             && v.control == Cell([], v.memory) && v.upstream.current == Upstream(SendOnly, true)
    ensures LegalRun(b, longer) && run <= longer && i < |longer|
    ensures var w := longer[|longer| - 1];
            && longer[i].control.Oldest().epoch < w.control.Oldest().epoch
            && MarkerFor(b, longer[i].marker.current, w.memory.epoch)
            && w.marker == longer[i].marker
  {
    hide Next, LegalRun;
    var v := run[|run| - 1];
    RunKeepsInv(b, run, |run| - 1);
    var v1 := v.(marker := v.marker.Write(None), gap := true);
    assert RemoveMarker(v, v1);
    MarkerStepIsNext(b, v, v1);
    Extend(b, run, v1);
    var bumped := v.memory.(firstSync := true, epoch := v.memory.epoch + 1);
    var v2 := v1.(memory := bumped, diverged := true);
    StoreFailIsNext(b, v1, v2);
    Extend(b, run + [v1], v2);
    var m := Marker(false, bumped.epoch, b.folder, b.card, b.kind, SendOnly, Seed, true, true);
    var run2 := run + [v1] + [v2];
    var v3, v4 := PhaseWritten(b, run2, v2, m);
    var v5, v6 := PhaseWritten(b, run2 + [v3] + [v4], v4, m.(complete := true));
    var run6 := run2 + [v3] + [v4] + [v5] + [v6];
    var v7 := v6.(booted := false, memory := v6.control.current);
    RestartIsNext(b, v6, v7);
    Extend(b, run6, v7);
    var v8 := v7.(booted := true);
    RestartIsNext(b, v7, v8);
    Extend(b, run6 + [v7], v8);
    var v9 := v8.(memory := bumped, control := v8.control.Write(bumped));
    StoreWriteIsNext(b, v8, v9);
    Extend(b, run6 + [v7] + [v8], v9);
    var v10 := v9.(control := v9.control.Flushed(), upstream := v9.upstream.Flushed(), gap := false);
    SyncPrimaryIsNext(b, v9, v10);
    Extend(b, run6 + [v7] + [v8] + [v9], v10);
    longer := run6 + [v7] + [v8] + [v9] + [v10];
    i := |run| + 5;
    assert longer[i] == v6;
  }

  /** One phase of a send-only marker and its barrier. */
  lemma PhaseWritten(b: Binding, run: seq<View>, v: View, m: Marker) returns (w: View, x: View)
    requires run != [] && LegalRun(b, run) && run[|run| - 1] == v
    requires v.booted && v.memory.firstSync && v.control.Settled() && v.gap
    requires m.folder == b.folder && m.epoch == v.memory.epoch && m.mode == Seed
    ensures LegalRun(b, run + [w] + [x])
    ensures x == v.(marker := Cell([], Some(m)), snapshots := FlushAll(v.snapshots))
  {
    hide Next, LegalRun;
    w := v.(marker := v.marker.Write(Some(m)));
    assert WriteMarker(b, v, w);
    MarkerStepIsNext(b, v, w);
    Extend(b, run, w);
    x := w.(marker := w.marker.Flushed(), snapshots := FlushAll(w.snapshots));
    SyncCardIsNext(b, w, x);
    Extend(b, run + [w], x);
  }
}
