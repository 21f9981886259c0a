/**
 * The controller's first-sync code: it prepares safety snapshots, completes and
 * invalidates first sync, and recovers both after any interruption.
 *
 * Every durable step may fail, and a failed step is also how a run that is cut
 * at that step looks. The class logs the protocol state of one arbitrary folder
 * (focus) after every step, and its invariant says that the log is a legal run
 * of the protocol; what the protocol guarantees therefore holds at every step
 * of every method, for every folder.
 */
module FirstSync {
  import opened Durable
  import opened ControlTypes
  import opened Folders
  import P = FirstSyncProtocol

  const MAX_SNAPSHOT_ENTRIES := 250000
  const MAX_EPOCH := 0xFFFF_FFFF_FFFF_FFFF

  type Spot = (string, Kind)

  // --------------------------------------------------------- reading documents

  datatype HeaderRead = HeaderError | NoHeader | HeaderOk(header: P.Header)

  datatype MarkerRead = MarkerError | NoMarker | MarkerOk(marker: P.Marker)

  function ReadSnapshotHeader(s: P.Snapshot, name: string, f: Folder, c: Card, epoch: nat): (r: HeaderRead)
    ensures r.HeaderOk? ==> s.header.current == Some(r.header)
    ensures r.HeaderOk? <==>
              && s.header.current.Some? && s.content.current.manifest.Some? && s.header.current.value.source == c.source
              && P.HeaderFor(P.Binding(f.id, c.id, f.kind), s.header.current.value, name, epoch)
    ensures r.HeaderError? <==> s.header.current.Some? && s.content.current.manifest.None?
  {
    if s.header.current.None? then NoHeader
    else if s.content.current.manifest.None? then HeaderError
    else
      var h := s.header.current.value;
      if h.ready && h.epoch == epoch && epoch != 0 && h.folder == f.id && h.card == c.id
         && h.source == c.source && h.kind == f.kind && h.name == name
      then HeaderOk(h) else NoHeader
  }

  /** Reading the directory of that name; a directory entry has a name. */
  function ReadNamed(snapshots: map<string, P.Snapshot>, name: string, f: Folder, c: Card, epoch: nat): HeaderRead {
    if name in snapshots && name != "" && snapshots[name].place.current.Final?
    then ReadSnapshotHeader(snapshots[name], name, f, c, epoch)
    else NoHeader
  }

  /** A complete marker of this epoch for this folder on this card; a receive folder's names a readable snapshot. */
  function ReadFirstSyncMarker(marker: Option<P.Marker>, snapshots: map<string, P.Snapshot>, f: Folder, c: Card, epoch: nat):
    (r: MarkerRead)
    ensures r.MarkerOk? ==> marker == Some(r.marker)
    ensures r.MarkerOk? <==>
              && P.MarkerFor(P.Binding(f.id, c.id, f.kind), marker, epoch) && P.TypeMatches(marker, f.folderType)
              && (f.folderType != SendOnly ==>
                    && marker.value.mode.FromSnapshot? && !marker.value.folderType.Unsupported?
                    && ReadNamed(snapshots, marker.value.mode.name, f, c, epoch).HeaderOk?)
    ensures r.MarkerError? ==>
              && P.MarkerFor(P.Binding(f.id, c.id, f.kind), marker, epoch) && marker.value.mode.FromSnapshot?
              && ReadNamed(snapshots, marker.value.mode.name, f, c, epoch).HeaderError?
  {
    if marker.None? then NoMarker
    else
      var m := marker.value;
      if !m.complete || m.epoch != epoch || epoch == 0 || m.folder != f.id || m.card != c.id || m.kind != f.kind
         || !m.acknowledged || !m.explicitStart
      then NoMarker
      else match m.mode
           case Seed =>
             if f.folderType != SendOnly || m.folderType != SendOnly then NoMarker else MarkerOk(m)
           case FromSnapshot(name) =>
             if f.folderType == SendOnly || (m.folderType != SendReceive && m.folderType != ReceiveOnly) || name == ""
             then NoMarker
             else match ReadNamed(snapshots, name, f, c, epoch)
                  case HeaderError => MarkerError
                  case NoHeader => NoMarker
                  case HeaderOk(_) => MarkerOk(m)
  }

  /** What Prepare and Complete insist on before they touch the card. */
  ghost predicate BindingValid(f: Folder, c: Card, r: Record) {
    && r.cardId == c.id && r.kind == f.kind && r.markerName == f.markerName
    && f.path == c.Content(f.kind).path
    && Marked(c.Content(f.kind), f.markerName)
    && (f.folderType != SendOnly ==>
          f.versioning == "simple" && f.versioningFsType == "basic" && f.versioningPath == c.Versions(f.kind))
  }

  // ------------------------------------------------------------- name order

  /** Byte-wise string order. */
  predicate Less(a: string, b: string) {
    b != [] && (a == [] || a[0] < b[0] || (a[0] == b[0] && Less(a[1..], b[1..])))
  }

  lemma {:induction false} LessIsTotal(a: string, b: string)
    ensures Less(a, b) || a == b || Less(b, a)
  {
    if a != [] && b != [] && a[0] == b[0] {
      LessIsTotal(a[1..], b[1..]);
      assert a == [a[0]] + a[1..] && b == [b[0]] + b[1..];
    }
  }

  lemma {:induction false} LessIsTransitive(a: string, b: string, c: string)
    requires Less(a, b) && Less(b, c)
    ensures Less(a, c)
  {
    if a != [] && a[0] == b[0] && b[0] == c[0] {
      LessIsTransitive(a[1..], b[1..], c[1..]);
    }
  }

  /** The first difference decides, and a proper beginning comes first: later times are greater names. */
  lemma {:induction false} LessMeans(a: string, b: string)
    ensures Less(a, b) <==> exists i :: FirstDifference(a, b, i) && (i == |a| || a[i] < b[i])
  {
    if a == [] {
      assert b != [] ==> FirstDifference(a, b, 0);
    } else if b != [] && a[0] == b[0] {
      LessMeans(a[1..], b[1..]);
      forall i
        ensures FirstDifference(a[1..], b[1..], i) <==> FirstDifference(a, b, i + 1) && i >= 0
      {
        ShiftedDifference(a, b, i);
      }
      if i :| FirstDifference(a, b, i) && (i == |a| || a[i] < b[i]) {
        assert FirstDifference(a[1..], b[1..], i - 1);
      }
      if Less(a[1..], b[1..]) {
        var i :| FirstDifference(a[1..], b[1..], i) && (i == |a[1..]| || a[1..][i] < b[1..][i]);
        assert FirstDifference(a, b, i + 1);
      }
    } else if b != [] {
      assert FirstDifference(a, b, 0);
      forall i | FirstDifference(a, b, i)
        ensures i == 0
      {
        if i > 0 {
          SameHeads(a, b, i);
        }
      }
    }
  }

  lemma ShiftedDifference(a: string, b: string, i: int)
    requires a != [] && b != [] && a[0] == b[0]
    ensures FirstDifference(a[1..], b[1..], i) <==> FirstDifference(a, b, i + 1) && i >= 0
  {
    if 0 <= i < |b| - 1 && i <= |a| - 1 {
      assert a[..i + 1] == [a[0]] + a[1..][..i] && b[..i + 1] == [b[0]] + b[1..][..i];
      assert a[1..][..i] == a[..i + 1][1..] && b[1..][..i] == b[..i + 1][1..];
    }
  }

  lemma SameHeads(a: string, b: string, i: int)
    requires FirstDifference(a, b, i) && i > 0
    ensures a[0] == b[0]
  {
    assert a[..i][0] == a[0] && b[..i][0] == b[0];
  }

  ghost predicate FirstDifference(a: string, b: string, i: int) {
    0 <= i <= |a| && i < |b| && a[..i] == b[..i] && (i < |a| ==> a[i] != b[i])
  }

  ghost predicate Greatest(n: string, names: set<string>) {
    n in names && forall m :: m in names ==> m == n || Less(m, n)
  }

  lemma {:induction false} GreatestExists(names: set<string>)
    requires names != {}
    ensures exists n :: Greatest(n, names)
    decreases |names|
  {
    var a :| a in names;
    if names == {a} {
      assert Greatest(a, names);
    } else {
      GreatestExists(names - {a});
      var b :| Greatest(b, names - {a});
      LessIsTotal(a, b);
      forall m | m in names - {a} && Less(b, a)
        ensures Less(m, a)
      {
        if m != b {
          LessIsTransitive(m, b, a);
        }
      }
      assert Greatest(if Less(b, a) then a else b, names);
    }
  }

  /** The last name in order under which there is anything to read. */
  ghost predicate Newest(area: map<string, P.Snapshot>, n: string, f: Folder, c: Card, epoch: nat) {
    !ReadNamed(area, n, f, c, epoch).NoHeader? && forall m :: Less(n, m) ==> ReadNamed(area, m, f, c, epoch).NoHeader?
  }

  lemma OneNewest(area: map<string, P.Snapshot>, n: string, f: Folder, c: Card, epoch: nat)
    requires Newest(area, n, f, c, epoch)
    ensures forall m :: Newest(area, m, f, c, epoch) ==> m == n
  {
    forall m | Newest(area, m, f, c, epoch)
      ensures m == n
    {
      LessIsTotal(m, n);
    }
  }

  lemma NewestExists(area: map<string, P.Snapshot>, n: string, f: Folder, c: Card, epoch: nat)
    requires !ReadNamed(area, n, f, c, epoch).NoHeader?
    ensures exists m :: Newest(area, m, f, c, epoch)
  {
    var names := set m | m in area && !ReadNamed(area, m, f, c, epoch).NoHeader?;
    assert n in names;
    GreatestExists(names);
    var g :| Greatest(g, names);
    forall m | Less(g, m)
      ensures ReadNamed(area, m, f, c, epoch).NoHeader?
    {
      if m in names {
        NotBoth(g, m);
      }
    }
    assert Newest(area, g, f, c, epoch);
  }

  lemma {:induction false} NotBoth(a: string, b: string)
    requires Less(a, b)
    ensures a != b && !Less(b, a)
  {
    if a != [] && a[0] == b[0] {
      NotBoth(a[1..], b[1..]);
    }
  }

  /** No damaged snapshot comes after this name and before every readable one. */
  ghost predicate NoDamageAfter(area: map<string, P.Snapshot>, name: string, f: Folder, c: Card, epoch: nat) {
    forall n :: Newest(area, n, f, c, epoch) && Less(name, n) ==> !ReadNamed(area, n, f, c, epoch).HeaderError?
  }

  /** The newest snapshot of this epoch is acceptable. */
  ghost predicate Prepared(area: map<string, P.Snapshot>, f: Folder, c: Card, epoch: nat) {
    exists n :: Newest(area, n, f, c, epoch) && ReadNamed(area, n, f, c, epoch).HeaderOk?
  }

  /** The newest snapshot has lost its manifest. */
  ghost predicate Broken(area: map<string, P.Snapshot>, f: Folder, c: Card, epoch: nat) {
    exists n :: Newest(area, n, f, c, epoch) && ReadNamed(area, n, f, c, epoch).HeaderError?
  }

  // ------------------------------------------------------------- stored files

  /**
   * Everything outside the controller's memory: folder-control.json and the
   * upstream config on the primary filesystem, and per card and kind the marker
   * and the snapshot area. gaps is history, see FirstSyncProtocol.View.
   */
  datatype Files = Files(
    disk: map<string, Cell<Record>>,
    upstream: map<string, Cell<P.Upstream>>,
    markers: map<Spot, Cell<Option<P.Marker>>>,
    snapshots: map<Spot, map<string, P.Snapshot>>,
    gaps: set<string>)

  function SpotOf(b: P.Binding): Spot {
    (b.card, b.kind)
  }

  ghost predicate Shaped(b: P.Binding, fs: Files, records: map<string, Record>) {
    && b.folder in records && records.Keys == fs.disk.Keys && records.Keys == fs.upstream.Keys
    && SpotOf(b) in fs.markers && fs.markers.Keys == fs.snapshots.Keys
  }

  /** The protocol state of one folder. */
  ghost function ViewOf(b: P.Binding, fs: Files, records: map<string, Record>, running: bool, booted: bool, diverged: bool):
    P.View
    requires Shaped(b, fs, records)
  {
    P.View(fs.disk[b.folder], records[b.folder], fs.markers[SpotOf(b)], fs.snapshots[SpotOf(b)],
           fs.upstream[b.folder], running, booted, b.folder in fs.gaps, diverged)
  }

  function FlushPrimary(fs: Files, records: map<string, Record>): Files
    requires records.Keys == fs.disk.Keys
  {
    fs.(disk := map id | id in fs.disk :: fs.disk[id].Flushed(),
        upstream := map id | id in fs.upstream :: fs.upstream[id].Flushed(),
        gaps := set id | id in fs.gaps && !(id in records && fs.disk[id].current.firstSync && records[id].firstSync))
  }

  function FlushCard(fs: Files, card: string): Files {
    fs.(markers := map spot | spot in fs.markers ::
          if spot.0 == card then fs.markers[spot].Flushed() else fs.markers[spot],
        snapshots := map spot | spot in fs.snapshots ::
          if spot.0 == card then P.FlushAll(fs.snapshots[spot]) else fs.snapshots[spot])
  }

  /** The primary filesystem is flushed and holds what the controller remembers. */
  ghost predicate Quiet(fs: Files, records: map<string, Record>) {
    && records.Keys == fs.disk.Keys
    && (forall id :: id in fs.disk ==> fs.disk[id] == Cell([], records[id]))
    && (forall id :: id in fs.upstream ==> fs.upstream[id].Settled())
  }

  lemma StoredIsQuiet(fs: Files, records: map<string, Record>)
    requires records.Keys == fs.disk.Keys
    ensures Quiet(FlushPrimary(WriteRecords(fs, records), records), records)
    ensures SameUpstream(fs, FlushPrimary(WriteRecords(fs, records), records))
    ensures SameUpstream(fs, WriteRecords(fs, records)) && SameUpstream(fs, fs)
  {
  }

  /** Upstream reads the same configuration. */
  ghost predicate SameUpstream(fs: Files, after: Files) {
    && after.upstream.Keys == fs.upstream.Keys
    && forall id :: id in fs.upstream ==> after.upstream[id].current == fs.upstream[id].current
  }

  /** Only the contents of the cards changed. */
  ghost predicate CardOnly(fs: Files, after: Files) {
    && after.disk == fs.disk && after.upstream == fs.upstream && after.gaps == fs.gaps
    && after.markers.Keys == fs.markers.Keys && after.snapshots.Keys == fs.snapshots.Keys
  }

  lemma CardOnlyRefl(a: Files)
    ensures CardOnly(a, a)
  {
  }

  lemma CardOnlyTransitive(a: Files, b: Files, c: Files)
    requires CardOnly(a, b) && CardOnly(b, c)
    ensures CardOnly(a, c)
  {
  }

  lemma GapsOnly(a: Files, b: Files, c: Files, records: map<string, Record>)
    requires c == b.(gaps := c.gaps) && SameUpstream(a, b)
    ensures SameUpstream(a, c) && (Quiet(b, records) ==> Quiet(c, records))
  {
  }

  lemma SameUpstreamAt(a: Files, b: Files, id: string)
    requires SameUpstream(a, b) && id in a.upstream
    ensures id in b.upstream && b.upstream[id].current == a.upstream[id].current
  {
  }

  lemma SameUpstreamFields(a: Files, b: Files)
    requires a.upstream == b.upstream
    ensures SameUpstream(a, b)
  {
  }

  lemma SameUpstreamTransitive(a: Files, b: Files, c: Files)
    requires SameUpstream(a, b) && SameUpstream(b, c)
    ensures SameUpstream(a, c)
  {
  }

  lemma SameUpstreamRefl(a: Files)
    ensures SameUpstream(a, a)
  {
  }

  lemma CardsKeepUpstream(a: Files, b: Files)
    requires CardOnly(a, b)
    ensures SameUpstream(a, b)
  {
  }

  lemma SameUpstreamAfterCard(a: Files, b: Files, c: Files)
    requires CardOnly(a, b) && SameUpstream(b, c)
    ensures SameUpstream(a, c) && SameUpstream(a, b)
  {
  }

  lemma FlushCardIsCardOnly(fs: Files, card: string)
    ensures CardOnly(fs, FlushCard(fs, card))
  {
  }

  function WriteRecords(fs: Files, records: map<string, Record>): Files
    requires records.Keys == fs.disk.Keys
  {
    fs.(disk := map id | id in fs.disk :: fs.disk[id].Write(records[id]))
  }

  function Reload(fs: Files): map<string, Record> {
    map id | id in fs.disk :: fs.disk[id].current
  }

  ghost predicate AfterPowerLoss(fs: Files, after: Files) {
    && after.disk.Keys == fs.disk.Keys && (forall k :: k in fs.disk ==> fs.disk[k].Survives(after.disk[k]))
    && after.upstream.Keys == fs.upstream.Keys
    && (forall k :: k in fs.upstream ==> fs.upstream[k].Survives(after.upstream[k]))
    && after.markers.Keys == fs.markers.Keys
    && (forall k :: k in fs.markers ==> fs.markers[k].Survives(after.markers[k]))
    && after.snapshots.Keys == fs.snapshots.Keys
    && (forall k :: k in fs.snapshots ==> after.snapshots[k].Keys == fs.snapshots[k].Keys)
    && (forall k, n :: k in fs.snapshots && n in fs.snapshots[k] ==>
          fs.snapshots[k][n].Survives(after.snapshots[k][n]))
    && after.gaps == fs.gaps
  }

  lemma FlushPrimaryIsStep(b: P.Binding, fs: Files, records: map<string, Record>, running: bool, booted: bool, diverged: bool)
    requires Shaped(b, fs, records)
    ensures Shaped(b, FlushPrimary(fs, records), records)
    ensures P.Next(b, ViewOf(b, fs, records, running, booted, diverged),
                   ViewOf(b, FlushPrimary(fs, records), records, running, booted, diverged))
  {
    hide P.Next;
    P.SyncPrimaryIsNext(b, ViewOf(b, fs, records, running, booted, diverged),
                        ViewOf(b, FlushPrimary(fs, records), records, running, booted, diverged));
  }

  lemma FlushCardIsStep(b: P.Binding, fs: Files, card: string, records: map<string, Record>,
                        running: bool, booted: bool, diverged: bool)
    requires Shaped(b, fs, records)
    ensures Shaped(b, FlushCard(fs, card), records)
    ensures P.Next(b, ViewOf(b, fs, records, running, booted, diverged),
                   ViewOf(b, FlushCard(fs, card), records, running, booted, diverged))
  {
    hide P.Next;
    var v := ViewOf(b, fs, records, running, booted, diverged);
    var w := ViewOf(b, FlushCard(fs, card), records, running, booted, diverged);
    if b.card == card {
      P.SyncCardIsNext(b, v, w);
    } else {
      assert v == w;
      P.StutterIsNext(b, v);
    }
  }

  lemma WriteRecordsIsStep(b: P.Binding, fs: Files, old_: map<string, Record>, new_: map<string, Record>,
                           running: bool, diverged: bool)
    requires Shaped(b, fs, old_) && old_.Keys == new_.Keys
    requires P.MemoryStep(b, ViewOf(b, fs, old_, running, true, diverged), ViewOf(b, fs, new_, running, true, diverged))
    ensures Shaped(b, WriteRecords(fs, new_), new_)
    ensures P.Next(b, ViewOf(b, fs, old_, running, true, diverged),
                   ViewOf(b, WriteRecords(fs, new_), new_, running, true, diverged))
  {
    hide P.Next;
    P.StoreWriteIsNext(b, ViewOf(b, fs, old_, running, true, diverged),
                       ViewOf(b, WriteRecords(fs, new_), new_, running, true, diverged));
  }

  lemma FailedStoreIsStep(b: P.Binding, fs: Files, old_: map<string, Record>, new_: map<string, Record>,
                          running: bool, diverged: bool)
    requires Shaped(b, fs, old_) && old_.Keys == new_.Keys
    requires P.MemoryStep(b, ViewOf(b, fs, old_, running, true, diverged), ViewOf(b, fs, new_, running, true, diverged))
    requires MayFail(b, fs, old_[b.folder], new_[b.folder])
    ensures Shaped(b, fs, new_)
    ensures P.Next(b, ViewOf(b, fs, old_, running, true, diverged), ViewOf(b, fs, new_, running, true, true))
  {
    hide P.Next;
    P.StoreFailIsNext(b, ViewOf(b, fs, old_, running, true, diverged), ViewOf(b, fs, new_, running, true, true));
  }

  /** A failed bump is harmless only while the marker is already gone. */
  predicate MayFail(b: P.Binding, fs: Files, r: Record, r': Record) {
    b.folder in fs.gaps || !r'.firstSync || r.firstSync
  }

  lemma ReloadIsStep(b: P.Binding, fs: Files, records: map<string, Record>, running: bool, booted: bool, diverged: bool)
    requires Shaped(b, fs, records)
    ensures Shaped(b, fs, Reload(fs))
    ensures P.Next(b, ViewOf(b, fs, records, running, booted, diverged),
                   ViewOf(b, fs, Reload(fs), false, false, diverged))
    ensures P.Next(b, ViewOf(b, fs, records, false, false, diverged), ViewOf(b, fs, Reload(fs), false, true, diverged))
  {
    hide P.Next;
    P.RestartIsNext(b, ViewOf(b, fs, records, running, booted, diverged),
                    ViewOf(b, fs, Reload(fs), false, false, diverged));
    P.RestartIsNext(b, ViewOf(b, fs, records, false, false, diverged),
                    ViewOf(b, fs, Reload(fs), false, true, diverged));
  }

  lemma PowerLossIsStep(b: P.Binding, fs: Files, after: Files, records: map<string, Record>,
                        running: bool, booted: bool, diverged: bool)
    requires Shaped(b, fs, records) && AfterPowerLoss(fs, after)
    ensures Shaped(b, after, Reload(after)) && Reload(after).Keys == records.Keys
    ensures P.Next(b, ViewOf(b, fs, records, running, booted, diverged),
                   ViewOf(b, after, Reload(after), false, false, diverged))
  {
    hide P.Next;
    P.PowerLossIsNext(b, ViewOf(b, fs, records, running, booted, diverged),
                      ViewOf(b, after, Reload(after), false, false, diverged));
  }

  // ------------------------------------------------------------------ recovery

  /** Readers of the cards see the same documents. */
  ghost predicate SameCards(fs: Files, after: Files) {
    && after.markers.Keys == fs.markers.Keys && after.snapshots.Keys == fs.snapshots.Keys
    && (forall s :: s in fs.markers ==> after.markers[s].current == fs.markers[s].current)
    && (forall s :: s in fs.snapshots ==> SameArea(fs.snapshots[s], after.snapshots[s]))
  }

  ghost predicate SameArea(area: map<string, P.Snapshot>, after: map<string, P.Snapshot>) {
    && after.Keys == area.Keys
    && forall n :: n in area ==>
         && after[n].place.current == area[n].place.current
         && after[n].header.current == area[n].header.current
         && after[n].content.current == area[n].content.current
  }

  /** Apart from one snapshot, readers of the cards see the same documents. */
  ghost predicate SameBut(spot: Spot, name: string, fs: Files, after: Files) {
    && after.markers.Keys == fs.markers.Keys && after.snapshots.Keys == fs.snapshots.Keys
    && (forall s :: s in fs.markers ==> after.markers[s].current == fs.markers[s].current)
    && (forall s :: s in fs.snapshots && s != spot ==> SameArea(fs.snapshots[s], after.snapshots[s]))
    && (spot in fs.snapshots ==> SameArea(fs.snapshots[spot] - {name}, after.snapshots[spot] - {name}))
  }

  lemma SameButItself(spot: Spot, name: string, fs: Files)
    ensures SameBut(spot, name, fs, fs)
  {
  }

  lemma WriteIsSameBut(spot: Spot, name: string, fs: Files, s: P.Snapshot)
    requires spot in fs.snapshots && fs.markers.Keys == fs.snapshots.Keys
    ensures SameBut(spot, name, fs, fs.(snapshots := fs.snapshots[spot := fs.snapshots[spot][name := s]]))
  {
    assert fs.snapshots[spot][name := s] - {name} == fs.snapshots[spot] - {name};
  }

  lemma FlushIsSameBut(spot: Spot, name: string, fs: Files, card: string)
    ensures SameBut(spot, name, fs, FlushCard(fs, card))
  {
    FlushCardSameCards(fs, card);
    if spot in fs.snapshots {
      assert SameArea(fs.snapshots[spot], FlushCard(fs, card).snapshots[spot]);
    }
  }

  lemma SameButThen(spot: Spot, name: string, a: Files, b: Files, c: Files)
    requires SameBut(spot, name, a, b) && SameBut(spot, name, b, c)
    ensures SameBut(spot, name, a, c)
  {
    forall s | s in a.snapshots && s != spot
      ensures SameArea(a.snapshots[s], c.snapshots[s])
    {
      assert SameArea(a.snapshots[s], b.snapshots[s]) && SameArea(b.snapshots[s], c.snapshots[s]);
    }
  }

  /** Another snapshot reads as before. */
  lemma OtherReadsSame(spot: Spot, name: string, fs: Files, after: Files, n: string, f: Folder, c: Card, epoch: nat)
    requires SameBut(spot, name, fs, after) && spot in fs.snapshots && n != name
    ensures ReadNamed(fs.snapshots[spot], n, f, c, epoch) == ReadNamed(after.snapshots[spot], n, f, c, epoch)
  {
    var a, b := fs.snapshots[spot] - {name}, after.snapshots[spot] - {name};
    assert n in fs.snapshots[spot] <==> n in a;
    assert n in after.snapshots[spot] <==> n in b;
    if n in a {
      assert a[n] == fs.snapshots[spot][n] && b[n] == after.snapshots[spot][n];
    }
  }

  /** With one more acceptable snapshot, it or an older newer one is the newest. */
  lemma NewestOfMore(spot: Spot, name: string, fs: Files, after: Files, f: Folder, c: Card, epoch: nat)
    requires SameBut(spot, name, fs, after) && spot in fs.snapshots && spot in after.snapshots
    requires name !in fs.snapshots[spot] && ReadNamed(after.snapshots[spot], name, f, c, epoch).HeaderOk?
    ensures Prepared(after.snapshots[spot], f, c, epoch) <==> NoDamageAfter(fs.snapshots[spot], name, f, c, epoch)
  {
    hide SameBut, ReadSnapshotHeader;
    var area, more := fs.snapshots[spot], after.snapshots[spot];
    forall n | n != name
      ensures ReadNamed(area, n, f, c, epoch) == ReadNamed(more, n, f, c, epoch)
    {
      OtherReadsSame(spot, name, fs, after, n, f, c, epoch);
    }
    NewestExists(more, name, f, c, epoch);
    var n :| Newest(more, n, f, c, epoch);
    OneNewest(more, n, f, c, epoch);
    LessIsTotal(n, name);
    if n == name {
      forall m | Newest(area, m, f, c, epoch)
        ensures !Less(name, m)
      {
      }
    } else {
      assert Less(name, n);
      assert Newest(area, n, f, c, epoch);
      OneNewest(area, n, f, c, epoch);
    }
  }

  /** Apart from one marker, readers of the cards see the same documents. */
  ghost predicate SameButMarker(spot: Spot, fs: Files, after: Files) {
    && after.markers.Keys == fs.markers.Keys && after.snapshots.Keys == fs.snapshots.Keys
    && (forall s :: s in fs.markers && s != spot ==> after.markers[s].current == fs.markers[s].current)
    && (forall s :: s in fs.snapshots ==> SameArea(fs.snapshots[s], after.snapshots[s]))
  }

  lemma SameCardsBut(spot: Spot, name: string, a: Files, b: Files)
    requires SameCards(a, b)
    ensures SameBut(spot, name, a, b)
  {
    if spot in a.snapshots {
      assert SameArea(a.snapshots[spot], b.snapshots[spot]);
    }
  }

  lemma SameCardsButMarker(spot: Spot, a: Files, b: Files)
    requires SameCards(a, b)
    ensures SameButMarker(spot, a, b)
  {
  }

  lemma SameButMarkerThen(spot: Spot, a: Files, b: Files, c: Files)
    requires SameButMarker(spot, a, b) && SameButMarker(spot, b, c)
    ensures SameButMarker(spot, a, c)
  {
    forall s | s in a.snapshots
      ensures SameArea(a.snapshots[s], c.snapshots[s])
    {
      assert SameArea(a.snapshots[s], b.snapshots[s]) && SameArea(b.snapshots[s], c.snapshots[s]);
    }
  }

  lemma NothingMoved(spot: Spot, fs: Files)
    ensures SameButMarker(spot, fs, fs) && SameCards(fs, fs)
  {
  }

  /** Writing a marker, and then flushing the card or not. */
  lemma WriteIsSameButMarker(spot: Spot, fs: Files, m: Option<P.Marker>, card: string)
    requires spot in fs.markers
    ensures var after := fs.(markers := fs.markers[spot := fs.markers[spot].Write(m)]);
            && SameButMarker(spot, fs, after) && SameButMarker(spot, fs, FlushCard(after, card))
  {
    var after := fs.(markers := fs.markers[spot := fs.markers[spot].Write(m)]);
    FlushCardSameCards(after, card);
    forall s | s in fs.snapshots
      ensures SameArea(fs.snapshots[s], FlushCard(after, card).snapshots[s])
    {
      assert SameArea(after.snapshots[s], FlushCard(after, card).snapshots[s]);
    }
  }

  /** The same marker read for the card in another slot: only a seed marker is still accepted. */
  lemma OtherSlot(m: P.Marker, area: map<string, P.Snapshot>, later: map<string, P.Snapshot>, f: Folder, c: Card, d: Card, epoch: nat)
    requires ReadFirstSyncMarker(Some(m), area, f, c, epoch).MarkerOk? && d.id == c.id
    requires m.mode.FromSnapshot? ==>
               && m.mode.name in area && m.mode.name in later && later[m.mode.name] == area[m.mode.name]
    ensures var read := ReadFirstSyncMarker(Some(m), later, f, d, epoch);
            && (read.MarkerOk? <==> f.folderType.SendOnly? || d.source == c.source)
            && !read.MarkerError?
  {
  }

  /** The two walks over the source found as much. */
  predicate SameTotals(scanned: seq<P.Entry>, walked: seq<P.Entry>) {
    && P.FileCount(walked) == P.FileCount(scanned) && P.DirectoryCount(walked) == P.DirectoryCount(scanned)
    && P.ByteCount(walked) == P.ByteCount(scanned)
  }

  lemma FlushCardSameCards(fs: Files, card: string)
    ensures SameCards(fs, FlushCard(fs, card))
  {
  }

  lemma SameCardsTransitive(a: Files, b: Files, c: Files)
    requires SameCards(a, b) && SameCards(b, c)
    ensures SameCards(a, c)
  {
    forall s | s in a.snapshots
      ensures SameArea(a.snapshots[s], c.snapshots[s])
    {
      assert SameArea(a.snapshots[s], b.snapshots[s]) && SameArea(b.snapshots[s], c.snapshots[s]);
    }
  }

  lemma SameCardsFields(a: Files, b: Files)
    requires a.markers == b.markers && a.snapshots == b.snapshots
    ensures SameCards(a, b)
  {
  }

  /** Nothing unfinished is visible in one place on a card: no partial snapshot, no pending marker. */
  ghost predicate Tidy(spot: Spot, fs: Files) {
    && (spot in fs.snapshots ==> NoPartial(fs.snapshots[spot]))
    && (spot in fs.markers ==> !Unfinished(fs.markers[spot].current))
  }

  predicate Unfinished(marker: Option<P.Marker>) {
    marker.Some? && !marker.value.complete
  }

  ghost predicate NoPartial(area: map<string, P.Snapshot>) {
    forall n :: n in area ==> !area[n].place.current.Partial?
  }

  /** Discarding what is unfinished in one place: everything else stays, the finished snapshots there too. */
  ghost predicate Discarded(spot: Spot, fs: Files, after: Files) {
    && after.markers.Keys == fs.markers.Keys && after.snapshots.Keys == fs.snapshots.Keys
    && (forall s :: s in fs.markers && s != spot ==> after.markers[s] == fs.markers[s])
    && (forall s :: s in fs.snapshots && s != spot ==> after.snapshots[s] == fs.snapshots[s])
    && (spot in fs.markers ==>
          || after.markers[spot] == fs.markers[spot]
          || (Unfinished(fs.markers[spot].current) && after.markers[spot].current.None?))
    && (spot in fs.snapshots ==> FinishedKept(fs.snapshots[spot], after.snapshots[spot]))
  }

  ghost predicate FinishedKept(area: map<string, P.Snapshot>, after: map<string, P.Snapshot>) {
    && after.Keys == area.Keys
    && (forall n :: n in area && !area[n].place.current.Partial? ==> after[n] == area[n])
    && forall n :: n in area && area[n].place.current.Partial? ==> !after[n].place.current.Final?
  }

  /** Every finished snapshot and every complete marker is still there and reads the same, and none is new. */
  ghost predicate Cleaned(fs: Files, after: Files) {
    && after.markers.Keys == fs.markers.Keys && after.snapshots.Keys == fs.snapshots.Keys
    && (forall s :: s in fs.markers ==>
          || after.markers[s].current == fs.markers[s].current
          || (Unfinished(fs.markers[s].current) && after.markers[s].current.None?))
    && (forall s :: s in fs.snapshots ==> CleanedArea(fs.snapshots[s], after.snapshots[s]))
  }

  ghost predicate CleanedArea(area: map<string, P.Snapshot>, after: map<string, P.Snapshot>) {
    && after.Keys == area.Keys
    && (forall n :: n in area && !area[n].place.current.Partial? ==>
          && after[n].place.current == area[n].place.current
          && after[n].header.current == area[n].header.current
          && after[n].content.current == area[n].content.current)
    && forall n :: n in area && area[n].place.current.Partial? ==> !after[n].place.current.Final?
  }

  /** Some usable row of the inventory is this card. */
  ghost predicate Served(inventory: seq<Card>, card: string) {
    exists i :: 0 <= i < |inventory| && Usable(inventory[i]) && inventory[i].id == card
  }

  /** Cards without a usable row read the same. */
  ghost predicate OthersKept(inventory: seq<Card>, fs: Files, after: Files) {
    && after.markers.Keys == fs.markers.Keys && after.snapshots.Keys == fs.snapshots.Keys
    && (forall s :: s in fs.markers && !Served(inventory, s.0) ==> after.markers[s].current == fs.markers[s].current)
    && (forall s :: s in fs.snapshots && !Served(inventory, s.0) ==> SameArea(fs.snapshots[s], after.snapshots[s]))
  }

  lemma SameKeepsOthers(inventory: seq<Card>, fs: Files, after: Files)
    requires SameCards(fs, after)
    ensures OthersKept(inventory, fs, after)
  {
  }

  lemma OthersKeptThen(inventory: seq<Card>, a: Files, b: Files, c: Files)
    requires OthersKept(inventory, a, b) && OthersKept(inventory, b, c)
    ensures OthersKept(inventory, a, c)
  {
    forall s | s in a.snapshots && !Served(inventory, s.0)
      ensures SameArea(a.snapshots[s], c.snapshots[s])
    {
      assert SameArea(a.snapshots[s], b.snapshots[s]) && SameArea(b.snapshots[s], c.snapshots[s]);
    }
  }

  lemma DiscardedKeepsOthers(inventory: seq<Card>, i: nat, kind: Kind, fs: Files, after: Files)
    requires i < |inventory| && Usable(inventory[i]) && Discarded((inventory[i].id, kind), fs, after)
    ensures OthersKept(inventory, fs, after)
  {
    assert Served(inventory, inventory[i].id);
    forall s | s in fs.snapshots && !Served(inventory, s.0)
      ensures SameArea(fs.snapshots[s], after.snapshots[s])
    {
    }
  }

  lemma SameIsCleaned(fs: Files, after: Files)
    requires SameCards(fs, after)
    ensures Cleaned(fs, after)
  {
    forall s | s in fs.snapshots
      ensures CleanedArea(fs.snapshots[s], after.snapshots[s])
    {
      assert SameArea(fs.snapshots[s], after.snapshots[s]);
    }
  }

  lemma DiscardedIsCleaned(spot: Spot, fs: Files, after: Files)
    requires Discarded(spot, fs, after)
    ensures Cleaned(fs, after)
  {
    forall s | s in fs.snapshots
      ensures CleanedArea(fs.snapshots[s], after.snapshots[s])
    {
    }
  }

  lemma CleanedThen(a: Files, b: Files, c: Files)
    requires Cleaned(a, b) && Cleaned(b, c)
    ensures Cleaned(a, c)
  {
    forall s | s in a.snapshots
      ensures CleanedArea(a.snapshots[s], c.snapshots[s])
    {
      assert CleanedArea(a.snapshots[s], b.snapshots[s]) && CleanedArea(b.snapshots[s], c.snapshots[s]);
    }
  }

  /** What recovery discards no reader has ever accepted. */
  lemma CleanedReadsSame(fs: Files, after: Files, spot: Spot, f: Folder, c: Card, epoch: nat)
    requires Cleaned(fs, after) && spot in fs.markers && spot in fs.snapshots
    ensures forall n :: ReadNamed(fs.snapshots[spot], n, f, c, epoch) == ReadNamed(after.snapshots[spot], n, f, c, epoch)
    ensures ReadFirstSyncMarker(fs.markers[spot].current, fs.snapshots[spot], f, c, epoch)
              == ReadFirstSyncMarker(after.markers[spot].current, after.snapshots[spot], f, c, epoch)
    ensures Broken(fs.snapshots[spot], f, c, epoch) <==> Broken(after.snapshots[spot], f, c, epoch)
  {
    hide P.HeaderFor, P.MarkerFor;
    var a, b := fs.snapshots[spot], after.snapshots[spot];
    assert CleanedArea(a, b);
    forall n
      ensures ReadNamed(a, n, f, c, epoch) == ReadNamed(b, n, f, c, epoch)
    {
    }
    forall n
      ensures Newest(a, n, f, c, epoch) <==> Newest(b, n, f, c, epoch)
    {
    }
  }

  lemma DiscardedNothing(spot: Spot, fs: Files)
    ensures Discarded(spot, fs, fs)
  {
  }

  lemma DiscardedMore(spot: Spot, a: Files, b: Files, c: Files)
    requires Discarded(spot, a, b) && Discarded(spot, b, c)
    ensures Discarded(spot, a, c)
  {
  }

  lemma TidyElsewhere(spot: Spot, other: Spot, fs: Files, after: Files)
    requires Discarded(spot, fs, after) && Tidy(other, fs)
    ensures Tidy(other, after)
  {
  }

  /** Readers of the cards see the same, so what was tidy stays so. */
  lemma TidySurvives(spot: Spot, fs: Files, after: Files)
    requires Tidy(spot, fs) && SameCards(fs, after)
    ensures Tidy(spot, after)
  {
    if spot in fs.snapshots {
      assert SameArea(fs.snapshots[spot], after.snapshots[spot]);
    }
  }

  ghost predicate CardsTidy(inventory: seq<Card>, n: nat, fs: Files)
    requires n <= |inventory|
  {
    forall i :: 0 <= i < n && Usable(inventory[i]) ==>
      Tidy((inventory[i].id, Saves), fs) && Tidy((inventory[i].id, States), fs)
  }

  lemma CardsTidySurvive(inventory: seq<Card>, fs: Files, after: Files)
    requires CardsTidy(inventory, |inventory|, fs) && SameCards(fs, after)
    ensures CardsTidy(inventory, |inventory|, after)
  {
    hide Tidy, SameCards;
    forall i | 0 <= i < |inventory| && Usable(inventory[i])
      ensures Tidy((inventory[i].id, Saves), after) && Tidy((inventory[i].id, States), after)
    {
      TidySurvives((inventory[i].id, Saves), fs, after);
      TidySurvives((inventory[i].id, States), fs, after);
    }
  }

  /** One more card is tidy once both its places are. */
  lemma OneCardTidied(inventory: seq<Card>, i: nat, a: Files, b: Files, c: Files)
    requires i < |inventory| && CardsTidy(inventory, i, a)
    requires Discarded((inventory[i].id, Saves), a, b) && Tidy((inventory[i].id, Saves), b)
    requires Discarded((inventory[i].id, States), b, c) && Tidy((inventory[i].id, States), c)
    ensures CardsTidy(inventory, i + 1, c)
  {
    hide Tidy, Discarded;
    forall k | 0 <= k <= i && Usable(inventory[k])
      ensures Tidy((inventory[k].id, Saves), c) && Tidy((inventory[k].id, States), c)
    {
      if k < i {
        TidyElsewhere((inventory[i].id, Saves), (inventory[k].id, Saves), a, b);
        TidyElsewhere((inventory[i].id, Saves), (inventory[k].id, States), a, b);
        TidyElsewhere((inventory[i].id, States), (inventory[k].id, States), b, c);
      }
      TidyElsewhere((inventory[i].id, States), (inventory[k].id, Saves), b, c);
    }
  }

  /** The one inventory row that is the card of a completely bound record. */
  ghost predicate CardFor(inventory: seq<Card>, i: int, r: Record) {
    CompleteBinding(r) && OnlyCard(inventory, i, r.cardId)
  }

  /** The usable card a record names. */
  ghost predicate HasCard(inventory: seq<Card>, r: Record, c: Card) {
    Usable(c) && exists i :: CardFor(inventory, i, r) && inventory[i] == c
  }

  lemma OneCard(inventory: seq<Card>, r: Record, c: Card)
    requires HasCard(inventory, r, c)
    ensures forall d :: HasCard(inventory, r, d) ==> d == c
    ensures c in inventory && c.id == r.cardId && Usable(c)
  {
  }

  /** What a folder and its card must be for a safety snapshot to be made. */
  ghost predicate Preparable(f: Folder, c: Card, r: Record) {
    f.folderType != SendOnly && Usable(c) && r.firstSync && r.epoch != 0 && BindingValid(f, c, r)
  }

  /** What completing first sync needs; a folder that receives needs an acceptable newest snapshot. */
  ghost predicate Completable(f: Folder, c: Card, r: Record, fs: Files) {
    && Usable(c) && r.firstSync && r.epoch != 0 && BindingValid(f, c, r) && (c.id, f.kind) in fs.snapshots
    && (f.folderType.SendOnly? || Prepared(fs.snapshots[(c.id, f.kind)], f, c, r.epoch))
  }

  /** What recovery leaves for one folder whose card is usable: protection pending, or a marker it has read. */
  ghost predicate Recovered(b: P.Binding, f: Folder, inventory: seq<Card>, fs: Files, r: Record) {
    forall i :: CardFor(inventory, i, r) && Usable(inventory[i]) ==>
      r.firstSync || MarkerAccepted(b, f, inventory[i], fs, r.epoch)
  }

  ghost predicate MarkerAccepted(b: P.Binding, f: Folder, c: Card, fs: Files, epoch: nat) {
    && f.id !in fs.gaps
    && SpotOf(b) in fs.markers && SpotOf(b) in fs.snapshots
    && ReadFirstSyncMarker(fs.markers[SpotOf(b)].current, fs.snapshots[SpotOf(b)], f, c, epoch).MarkerOk?
  }

  /** What recovery makes of a record whose card it could read: the marker found decides. */
  ghost predicate DecidedOn(b: P.Binding, f: Folder, c: Card, fs: Files, r: Record, after: Record) {
    && SpotOf(b) in fs.markers && SpotOf(b) in fs.snapshots
    && Verdict(ReadFirstSyncMarker(fs.markers[SpotOf(b)].current, fs.snapshots[SpotOf(b)], f, c, r.epoch), r, after)
  }

  /** An accepted marker clears first-sync; without one it is pending, under a new epoch if it was not before. */
  ghost predicate Verdict(read: MarkerRead, r: Record, after: Record) {
    match read
    case MarkerError => false
    case MarkerOk(_) => after == r.(firstSync := false)
    case NoMarker => after == if r.firstSync then r else r.(firstSync := true, epoch := r.epoch + 1)
  }

  /** A record without a usable card is left alone. */
  ghost predicate Decided(b: P.Binding, f: Folder, inventory: seq<Card>, fs: Files, r: Record, after: Record) {
    && (forall i :: CardFor(inventory, i, r) && Usable(inventory[i]) ==> DecidedOn(b, f, inventory[i], fs, r, after))
    && ((forall i :: CardFor(inventory, i, r) ==> !Usable(inventory[i])) ==> after == r)
  }

  /** What the card of a record must read as for recovery not to give up. */
  ghost predicate RecoverableOn(b: P.Binding, f: Folder, c: Card, fs: Files, r: Record) {
    && SpotOf(b) in fs.markers && SpotOf(b) in fs.snapshots
    && match ReadFirstSyncMarker(fs.markers[SpotOf(b)].current, fs.snapshots[SpotOf(b)], f, c, r.epoch)
       case MarkerError => false
       case MarkerOk(_) => true
       case NoMarker => if r.firstSync then !Broken(fs.snapshots[SpotOf(b)], f, c, r.epoch) else r.epoch < MAX_EPOCH
  }

  ghost predicate Recoverable(b: P.Binding, f: Folder, inventory: seq<Card>, fs: Files, r: Record) {
    forall i :: CardFor(inventory, i, r) && Usable(inventory[i]) ==> RecoverableOn(b, f, inventory[i], fs, r)
  }

  lemma RecoverableOnOne(b: P.Binding, f: Folder, inventory: seq<Card>, fs: Files, r: Record)
    ensures var cs := Candidates(inventory, r.cardId, |inventory|);
            Recoverable(b, f, inventory, fs, r) <==>
              (CompleteBinding(r) && |cs| == 1 && Usable(cs[0]) ==> RecoverableOn(b, f, cs[0], fs, r))
  {
    hide RecoverableOn;
    OneCandidate(inventory, r.cardId, |inventory|);
    if |Candidates(inventory, r.cardId, |inventory|)| == 1 {
      var i :| 0 <= i < |inventory| && inventory[i].id == r.cardId && r.cardId != ""
        && forall j :: 0 <= j < |inventory| && inventory[j].id == r.cardId ==> j == i;
      assert OnlyCard(inventory, i, r.cardId);
    }
  }

  /** Recovery judges by what is finished, so cleaning up changes no verdict. */
  lemma CleanedDecidesSame(b: P.Binding, f: Folder, inventory: seq<Card>, fs: Files, after: Files, r: Record, r': Record)
    requires Cleaned(fs, after) && SpotOf(b) in fs.markers && SpotOf(b) in fs.snapshots
    ensures Recoverable(b, f, inventory, fs, r) <==> Recoverable(b, f, inventory, after, r)
    ensures Decided(b, f, inventory, fs, r, r') <==> Decided(b, f, inventory, after, r, r')
  {
    hide ReadFirstSyncMarker, Broken, Verdict, Cleaned;
    forall c: Card
      ensures RecoverableOn(b, f, c, fs, r) <==> RecoverableOn(b, f, c, after, r)
      ensures DecidedOn(b, f, c, fs, r, r') <==> DecidedOn(b, f, c, after, r, r')
    {
      CleanedReadsSame(fs, after, SpotOf(b), f, c, r.epoch);
      CleanedKeys(fs, after);
    }
  }

  lemma CleanedKeys(fs: Files, after: Files)
    requires Cleaned(fs, after)
    ensures after.markers.Keys == fs.markers.Keys && after.snapshots.Keys == fs.snapshots.Keys
  {
  }

  lemma NothingToDecide(b: P.Binding, f: Folder, inventory: seq<Card>, fs: Files, r: Record)
    requires var cs := Candidates(inventory, r.cardId, |inventory|); !CompleteBinding(r) || |cs| != 1 || !Usable(cs[0])
    ensures Decided(b, f, inventory, fs, r, r)
  {
    OneCandidate(inventory, r.cardId, |inventory|);
  }

  lemma DecidedOnOne(b: P.Binding, f: Folder, inventory: seq<Card>, fs: Files, r: Record, after: Record)
    requires |Candidates(inventory, r.cardId, |inventory|)| == 1 && Usable(Candidates(inventory, r.cardId, |inventory|)[0])
    requires CompleteBinding(r)
    requires DecidedOn(b, f, Candidates(inventory, r.cardId, |inventory|)[0], fs, r, after)
    ensures Decided(b, f, inventory, fs, r, after)
  {
    hide DecidedOn;
    OneCandidate(inventory, r.cardId, |inventory|);
    var i :| 0 <= i < |inventory| && inventory[i].id == r.cardId && r.cardId != ""
      && forall j :: 0 <= j < |inventory| && inventory[j].id == r.cardId ==> j == i;
    assert CardFor(inventory, i, r) && Usable(inventory[i]);
  }

  /** Cards that read the same decide the same. */
  lemma DecidedSurvives(b: P.Binding, f: Folder, inventory: seq<Card>, fs: Files, later: Files, r: Record, after: Record)
    requires Decided(b, f, inventory, fs, r, after) && SameCards(fs, later)
    ensures Decided(b, f, inventory, later, r, after)
  {
    hide Verdict;
    forall i | CardFor(inventory, i, r) && Usable(inventory[i])
      ensures DecidedOn(b, f, inventory[i], later, r, after)
    {
      assert DecidedOn(b, f, inventory[i], fs, r, after);
      assert SameArea(fs.snapshots[SpotOf(b)], later.snapshots[SpotOf(b)]);
      SameRead(fs.markers[SpotOf(b)].current, fs.snapshots[SpotOf(b)], later.snapshots[SpotOf(b)], f, inventory[i], r.epoch);
    }
  }

  lemma SameRead(marker: Option<P.Marker>, area: map<string, P.Snapshot>, after: map<string, P.Snapshot>,
                 f: Folder, c: Card, epoch: nat)
    requires SameArea(area, after)
    ensures ReadFirstSyncMarker(marker, area, f, c, epoch) == ReadFirstSyncMarker(marker, after, f, c, epoch)
  {
  }

  lemma NothingToRecover(b: P.Binding, f: Folder, inventory: seq<Card>, fs: Files, r: Record)
    requires var cs := Candidates(inventory, r.cardId, |inventory|); !CompleteBinding(r) || |cs| != 1 || !Usable(cs[0])
    ensures Recovered(b, f, inventory, fs, r)
  {
    OneCandidate(inventory, r.cardId, |inventory|);
  }

  lemma RecoveredOnOne(b: P.Binding, f: Folder, inventory: seq<Card>, fs: Files, r: Record)
    requires |Candidates(inventory, r.cardId, |inventory|)| == 1
    requires r.firstSync || MarkerAccepted(b, f, Candidates(inventory, r.cardId, |inventory|)[0], fs, r.epoch)
    ensures Recovered(b, f, inventory, fs, r)
  {
    OneCandidate(inventory, r.cardId, |inventory|);
  }

  lemma CandidateIsCard(inventory: seq<Card>, id: string)
    requires |Candidates(inventory, id, |inventory|)| == 1
    ensures Candidates(inventory, id, |inventory|)[0] in inventory
    ensures Candidates(inventory, id, |inventory|)[0].id == id
  {
    CandidatesAreMatches(inventory, id, |inventory|);
    assert Candidates(inventory, id, |inventory|)[0] in Candidates(inventory, id, |inventory|);
  }

  /** The marker was accepted before; the cards read the same and the gap is closed. */
  lemma AcceptedAfter(b: P.Binding, f: Folder, c: Card, before: Files, after: Files, epoch: nat)
    requires SpotOf(b) in before.markers && SpotOf(b) in before.snapshots
    requires ReadFirstSyncMarker(before.markers[SpotOf(b)].current, before.snapshots[SpotOf(b)], f, c, epoch).MarkerOk?
    requires SameCards(before, after) && f.id !in after.gaps
    ensures MarkerAccepted(b, f, c, after, epoch)
  {
    MarkerReadSurvives(b, f, c, before.(gaps := after.gaps), after, epoch);
  }

  /** Only the first-sync fields of the record moved. */
  predicate SameBinding(r: Record, after: Record) {
    after == r.(firstSync := after.firstSync, epoch := after.epoch)
  }

  lemma RecoveredSurvives(b: P.Binding, f: Folder, inventory: seq<Card>, fs: Files, after: Files, r: Record)
    requires Recovered(b, f, inventory, fs, r) && SameCards(fs, after) && after.gaps <= fs.gaps
    ensures Recovered(b, f, inventory, after, r)
  {
    forall i | CardFor(inventory, i, r) && Usable(inventory[i]) && !r.firstSync
      ensures MarkerAccepted(b, f, inventory[i], after, r.epoch)
    {
      assert MarkerAccepted(b, f, inventory[i], fs, r.epoch);
      MarkerReadSurvives(b, f, inventory[i], fs, after, r.epoch);
    }
  }

  lemma MarkerReadSurvives(b: P.Binding, f: Folder, c: Card, fs: Files, after: Files, epoch: nat)
    requires MarkerAccepted(b, f, c, fs, epoch) && SameCards(fs, after) && after.gaps <= fs.gaps
    ensures MarkerAccepted(b, f, c, after, epoch)
  {
    assert SameArea(fs.snapshots[SpotOf(b)], after.snapshots[SpotOf(b)]);
  }

  /** The folder with another type: paused, and with versioning on its card unless it only sends. */
  function Retyped(f: Folder, folderType: FolderType, c: Card): (r: Folder)
    ensures r == f.(folderType := folderType, paused := true, versioning := r.versioning,
                    versioningFsType := r.versioningFsType, versioningPath := r.versioningPath)
    ensures folderType != SendOnly && c.writable ==> ReceiveGuarded(r, c)
  {
    var target := f.(folderType := folderType, paused := true);
    if folderType == SendOnly then target
    else target.(versioning := "simple", versioningFsType := "basic", versioningPath := c.Versions(f.kind))
  }

  // ---------------------------------------------------------------- the state

  class Controller {
    var records: map<string, Record>
    var files: Files
    var running: bool
    var booted: bool
    /** A run that is not cut: every step succeeds. */
    var uncut: bool
    const bindings: map<string, P.Binding>
    ghost const focus: P.Binding
    ghost var diverged: bool
    ghost var run: seq<P.View>

    /** Any state in which the focus folder has just been bound. */
    constructor (bindings: map<string, P.Binding>, ghost focus: P.Binding, files: Files, records: map<string, Record>,
                 running: bool, booted: bool, uncut: bool)
      requires focus.folder in bindings && bindings[focus.folder] == focus && records.Keys == bindings.Keys
      requires forall id :: id in bindings ==> bindings[id].folder == id
      requires forall id :: id in bindings && id != focus.folder ==> SpotOf(bindings[id]) != SpotOf(focus)
      requires Shaped(focus, files, records)
      requires P.Init(focus, ViewOf(focus, files, records, running, booted, false))
      ensures Valid()
      ensures this.files == files && this.records == records && this.running == running && this.booted == booted
      ensures this.bindings == bindings && this.focus == focus && this.uncut == uncut
    {
      hide P.Next, P.Init;
      this.bindings, this.focus, this.files, this.records := bindings, focus, files, records;
      this.running, this.booted, this.diverged, this.uncut := running, booted, false, uncut;
      this.run := [ViewOf(focus, files, records, running, booted, false)];
    }

    /** No other folder shares the focus folder's place on its card. */
    ghost predicate FocusAlone() {
      && focus.folder in bindings && bindings[focus.folder] == focus
      && (forall id :: id in bindings ==> bindings[id].folder == id)
      && (forall id :: id in bindings && id != focus.folder ==> SpotOf(bindings[id]) != SpotOf(focus))
    }

    /** The protocol state of the focus folder. */
    ghost function Now(): P.View
      requires Shaped(focus, files, records)
      reads this
    {
      ViewOf(focus, files, records, running, booted, diverged)
    }

    ghost predicate Valid()
      reads this
    {
      && FocusAlone() && records.Keys == bindings.Keys
      && Shaped(focus, files, records)
      && run != [] && P.LegalRun(focus, run)
      && run[|run| - 1] == Now()
    }

    /** Appends the state reached by one protocol step. */
    ghost method Log()
      requires FocusAlone() && records.Keys == bindings.Keys && Shaped(focus, files, records)
      requires run != [] && P.LegalRun(focus, run)
      requires P.Next(focus, run[|run| - 1], Now())
      modifies this`run
      ensures Valid()
      ensures run == old(run) + [Now()]
    {
      hide P.Next, P.Init;
      run := run + [Now()];
    }

    lemma Holds()
      requires Valid()
      ensures P.Inv(focus, Now())
    {
      hide P.Next, P.Init, P.Inv;
      P.RunKeepsInv(focus, run, |run| - 1);
    }

    // ------------------------------------------------------ filesystem barriers

    method SyncPrimary() returns (ok: bool)
      requires Valid()
      modifies this`files, this`run
      ensures Valid() && old(run) <= run
      ensures files == if ok then FlushPrimary(old(files), records) else old(files)
      ensures uncut ==> ok
    {
      hide P.Next, P.LegalRun;
      ok := *;
      ok := ok || uncut;
      if ok {
        FlushPrimaryIsStep(focus, files, records, running, booted, diverged);
        files := FlushPrimary(files, records);
        Log();
      }
    }

    method SyncCard(card: string) returns (ok: bool)
      requires Valid()
      modifies this`files, this`run
      ensures Valid() && old(run) <= run
      ensures files == if ok then FlushCard(old(files), card) else old(files)
      ensures CardOnly(old(files), files)
      ensures forall spot, name :: SameBut(spot, name, old(files), files)
      ensures uncut ==> ok
    {
      hide P.Next, P.LegalRun, SameBut;
      forall spot: Spot, name: string
        ensures SameBut(spot, name, files, files) && SameBut(spot, name, files, FlushCard(files, card))
      {
        SameButItself(spot, name, files);
        FlushIsSameBut(spot, name, files, card);
      }
      ok := *;
      ok := ok || uncut;
      if ok {
        FlushCardIsCardOnly(files, card);
        FlushCardIsStep(focus, files, card, records, running, booted, diverged);
        files := FlushCard(files, card);
        Log();
      }
    }

    /**
     * Loading the cards reconciles the registry, and a registry that knows an
     * enrolled card confirms the primary filesystem before it is used.
     */
    method LoadCards(inventory: seq<Card>) returns (ok: bool)
      requires Valid()
      modifies this`files, this`run
      ensures Valid() && old(run) <= run
      ensures files == old(files) || files == FlushPrimary(old(files), records)
      ensures ok && (exists c :: c in inventory && Usable(c)) ==> files == FlushPrimary(old(files), records)
      ensures uncut ==> ok
    {
      var confirm := exists c :: c in inventory && Usable(c);
      var also := *;
      if confirm || also {
        ok := SyncPrimary();
      } else {
        ok := *;
        ok := ok || uncut;
      }
    }

    // --------------------------------------------------------- durable writes

    static lemma UnchangedMayFail(b: P.Binding, fs: Files, r: Record)
      ensures MayFail(b, fs, r, r)
    {
    }

    static lemma StoreNothing(v: P.View)
      ensures forall b :: P.MemoryStep(b, v, v)
    {
    }

    /** May the record of id become r now, given what a failed persist leaves behind? */
    ghost predicate MayStore(id: string, r: Record, fatal: bool)
      requires Shaped(focus, files, records)
      reads this
    {
      && id in bindings
      && (id == focus.folder ==>
            && P.MemoryStep(focus, Now(), Now().(memory := r))
            && (fatal || MayFail(focus, files, records[id], r)))
    }

    /** A persist that failed before its rename at run time: only memory changed. */
    method KeepInMemory(id: string, r: Record)
      requires Valid() && booted && MayStore(id, r, false)
      modifies this`records, this`diverged, this`run
      ensures Valid() && old(run) <= run
      ensures records == old(records)[id := r]
    {
      hide P.Next, P.LegalRun, P.MemoryStep, MayFail;
      ghost var before := records;
      records := records[id := r];
      StoreNothing(Now());
      UnchangedMayFail(focus, files, records[focus.folder]);
      FailedStoreIsStep(focus, files, before, records, running, diverged);
      diverged := true;
      Log();
    }

    /** The rename that makes the whole document visible with one record changed. */
    method RenameDocument(id: string, r: Record)
      requires Valid() && booted && MayStore(id, r, true)
      modifies this`records, this`files, this`run
      ensures Valid() && old(run) <= run
      ensures records == old(records)[id := r]
      ensures files == WriteRecords(old(files), records)
    {
      hide P.Next, P.LegalRun, P.MemoryStep;
      ghost var before := records;
      records := records[id := r];
      StoreNothing(Now());
      WriteRecordsIsStep(focus, files, before, records, running, diverged);
      files := WriteRecords(files, records);
      Log();
    }

    /** persistLocked: the rename, then the barrier on the primary filesystem. */
    method Persist(id: string, r: Record) returns (renamed: bool, flushed: bool)
      requires Valid() && booted && MayStore(id, r, true)
      modifies this`records, this`files, this`run
      ensures Valid() && old(run) <= run
      ensures records == if renamed then old(records)[id := r] else old(records)
      ensures !renamed ==> files == old(files) && !flushed
      ensures flushed ==> Quiet(files, records)
      ensures uncut ==> renamed && flushed
      ensures files.markers == old(files).markers && files.snapshots == old(files).snapshots
      ensures SameUpstream(old(files), files) && files.gaps <= old(files).gaps
    {
      hide P.Next, P.LegalRun, P.MemoryStep, Quiet, SameUpstream;
      StoredIsQuiet(files, records[id := r]);
      renamed, flushed := *, false;
      renamed := renamed || uncut;
      if renamed {
        RenameDocument(id, r);
        flushed := SyncPrimary();
      }
    }

    /**
     * Sets one record in memory and persists the whole document. A failure keeps
     * the changed memory. During startup (fatal) any failure ends the process.
     */
    method Store(id: string, r: Record, fatal: bool) returns (ok: bool)
      requires Valid() && booted && MayStore(id, r, fatal)
      requires fatal ==> !running
      modifies this`records, this`files, this`booted, this`diverged, this`running, this`run
      ensures Valid() && old(run) <= run
      ensures booted == (ok || !fatal)
      ensures running == (old(running) && booted)
      ensures ok || !fatal ==> records == old(records)[id := r]
      ensures ok ==> Quiet(files, records)
      ensures uncut ==> ok
      ensures files.markers == old(files).markers && files.snapshots == old(files).snapshots
      ensures SameUpstream(old(files), files) && files.gaps <= old(files).gaps
    {
      hide P.Next, P.LegalRun, P.MemoryStep, Quiet, SameUpstream, MayFail;
      var renamed;
      renamed, ok := Persist(id, r);
      if !ok && fatal {
        EndProcess();
      } else if !renamed {
        KeepInMemory(id, r);
      }
    }

    /** The controller process ends; memory is gone and the files stay as they are. */
    method EndProcess()
      requires Valid()
      modifies this`records, this`running, this`booted, this`run
      ensures Valid() && old(run) <= run
      ensures !booted && !running && records == Reload(files)
    {
      hide P.Next, P.LegalRun;
      ReloadIsStep(focus, files, records, running, booted, diverged);
      records := Reload(files);
      running, booted := false, false;
      Log();
    }

    /** Power loss: every stored object falls back to one of its possible values. */
    method LosePower(after: Files)
      requires Valid() && AfterPowerLoss(files, after)
      modifies this`records, this`files, this`running, this`booted, this`run
      ensures Valid() && old(run) <= run
      ensures !booted && !running && files == after && records == Reload(after)
    {
      hide P.Next, P.LegalRun, AfterPowerLoss;
      PowerLossIsStep(focus, files, after, records, running, booted, diverged);
      files := after;
      records := Reload(files);
      running, booted := false, false;
      Log();
    }

    /** One call to the upstream config API; an error means nothing changed. */
    method CallUpstream(id: string, u: P.Upstream) returns (ok: bool)
      requires Valid() && id in bindings
      requires id == focus.folder ==> P.SetUpstream(Now(), Now().(upstream := Now().upstream.Write(u)))
      modifies this`files, this`run
      ensures Valid() && old(run) <= run
      ensures files == if ok then old(files).(upstream := old(files.upstream)[id := old(files.upstream)[id].Write(u)])
                       else old(files)
      ensures uncut ==> ok
    {
      hide P.Next, P.LegalRun;
      ok := *;
      ok := ok || uncut;
      if ok {
        files := files.(upstream := files.upstream[id := files.upstream[id].Write(u)]);
        if id == focus.folder {
          P.SetUpstreamIsNext(focus, run[|run| - 1], Now());
        } else {
          P.StutterIsNext(focus, Now());
        }
        Log();
      }
    }

    /** Replaces the marker document by way of a temporary and a rename, or removes it. */
    method ReplaceMarker(spot: Spot, m: Option<P.Marker>, invalidated: set<string>) returns (ok: bool)
      requires Valid() && spot in files.markers
      requires spot == SpotOf(focus) ==>
                 P.MarkerStep(focus, Now(), Now().(marker := Now().marker.Write(m),
                                                   gap := Now().gap || focus.folder in invalidated))
      requires spot != SpotOf(focus) ==> focus.folder !in invalidated
      modifies this`files, this`run
      ensures Valid() && old(run) <= run
      ensures files == if ok then old(files).(markers := old(files.markers)[spot := old(files.markers)[spot].Write(m)],
                                              gaps := old(files.gaps) + invalidated)
                       else old(files)
      ensures uncut ==> ok
    {
      hide P.Next, P.LegalRun, P.MarkerStep;
      ok := *;
      ok := ok || uncut;
      if ok {
        files := files.(markers := files.markers[spot := files.markers[spot].Write(m)],
                        gaps := files.gaps + invalidated);
        if spot == SpotOf(focus) {
          P.MarkerStepIsNext(focus, run[|run| - 1], Now());
        } else {
          P.StutterIsNext(focus, Now());
        }
        Log();
      }
    }

    /** One write inside the snapshot area of a card. */
    method WriteSnapshot(spot: Spot, name: string, s: P.Snapshot) returns (ok: bool)
      requires Valid() && spot in files.snapshots
      requires spot == SpotOf(focus) ==>
                 P.SnapshotStep(focus, Now(), Now().(snapshots := Now().snapshots[name := s]))
      modifies this`files, this`run
      ensures Valid() && old(run) <= run
      ensures files == if ok then old(files).(snapshots := old(files.snapshots)[spot := old(files.snapshots)[spot][name := s]])
                       else old(files)
      ensures SameBut(spot, name, old(files), files)
      ensures uncut ==> ok
    {
      hide P.Next, P.LegalRun, P.SnapshotStep, SameBut;
      SameButItself(spot, name, files);
      ok := *;
      ok := ok || uncut;
      if ok {
        assert files.markers.Keys == files.snapshots.Keys;
        WriteIsSameBut(spot, name, files, s);
        files := files.(snapshots := files.snapshots[spot := files.snapshots[spot][name := s]]);
        if spot == SpotOf(focus) {
          P.SnapshotStepIsNext(focus, run[|run| - 1], Now());
        } else {
          P.StutterIsNext(focus, Now());
        }
        Log();
      }
    }

    // ---------------------------------------------------------------- Prepare

    /** The record carries the binding it was created with; no operation here changes it. */
    ghost predicate Carries(id: string)
      requires id in bindings && id in records
      reads this
    {
      records[id].cardId == bindings[id].card && records[id].kind == bindings[id].kind
    }

    /**
     * Copies the folder into a partial directory, makes the copy durable, marks
     * it ready, makes that durable, promotes the directory, makes that durable and
     * reads it back. scanned and walked are the two passes over the source tree.
     */
    method Prepare(f: Folder, c: Card, scanned: seq<P.Entry>, walked: seq<P.Entry>, enoughSpace: bool, name: string)
      returns (ok: bool)
      requires Valid() && booted && name != ""
      requires f.id in bindings && Carries(f.id)
      requires (c.id, f.kind) in files.markers && files.markers.Keys == files.snapshots.Keys
      requires files.disk[f.id].Settled()
      modifies this`files, this`run
      ensures Valid() && old(run) <= run
      ensures CardOnly(old(files), files) && SameBut((c.id, f.kind), name, old(files), files)
      ensures ok ==> name !in old(files.snapshots[(c.id, f.kind)])
      ensures ok ==> name in files.snapshots[(c.id, f.kind)]
      ensures ok ==> P.SnapshotDurable(bindings[f.id], files.snapshots[(c.id, f.kind)][name], name, records[f.id].epoch)
      ensures ok ==> files.snapshots[(c.id, f.kind)][name].content.current.copied == walked
      ensures ok ==> ReadNamed(files.snapshots[(c.id, f.kind)], name, f, c, records[f.id].epoch).HeaderOk?
      ensures ok ==> Preparable(f, c, records[f.id])
      ensures uncut ==> (ok <==>
                && Preparable(f, c, records[f.id]) && enoughSpace && name !in old(files.snapshots[(c.id, f.kind)])
                && |walked| <= 250_000 && SameTotals(scanned, walked))
    {
      hide P.Next, P.LegalRun, P.SnapshotStep, P.Whole, P.SnapshotDurable, SameBut;
      var r := records[f.id];
      SameButItself((c.id, f.kind), name, files);
      var valid := BindingNamesCard(f, c, r);
      if f.folderType == SendOnly || !Usable(c) || !r.firstSync || r.epoch == 0 || !valid || !enoughSpace {
        return false;
      }
      var spot := (c.id, f.kind);
      assert bindings[f.id].folder == f.id && SpotOf(bindings[f.id]) == spot;
      if name in files.snapshots[spot] || |walked| > MAX_SNAPSHOT_ENTRIES {
        return false;
      }
      ghost var start := files;
      ok := CopySource(spot, name, walked);
      if !ok || P.FileCount(walked) != P.FileCount(scanned) || P.DirectoryCount(walked) != P.DirectoryCount(scanned)
         || P.ByteCount(walked) != P.ByteCount(scanned) {
        return false;
      }
      WholeByCounts(walked, r.epoch, f, c, name);
      ghost var copied := files;
      ok := Seal(f.id, name, P.Header(false, r.epoch, f.id, c.id, c.source, f.kind, name,
                                      P.FileCount(walked), P.DirectoryCount(walked), P.ByteCount(walked)));
      SameButThen(spot, name, start, copied, files);
      if ok {
        ok := Readable(f, c, name, r.epoch);
      }
    }

    /** The promoted snapshot is read back before it is reported. */
    method Readable(f: Folder, c: Card, name: string, epoch: nat) returns (ok: bool)
      requires (c.id, f.kind) in files.snapshots
      ensures ok <==> ReadNamed(files.snapshots[(c.id, f.kind)], name, f, c, epoch).HeaderOk?
    {
      ok := ReadNamed(files.snapshots[(c.id, f.kind)], name, f, c, epoch).HeaderOk?;
    }

    static lemma WholeByCounts(walked: seq<P.Entry>, epoch: nat, f: Folder, c: Card, name: string)
      ensures P.Whole(P.Header(false, epoch, f.id, c.id, c.source, f.kind, name,
                               P.FileCount(walked), P.DirectoryCount(walked), P.ByteCount(walked)),
                      P.Content(walked, Some(walked)))
    {
    }

    /** The two-phase header and the promotion, with a card barrier after each write. */
    method Seal(id: string, name: string, pending: P.Header) returns (ok: bool)
      requires Valid() && booted && HasSnapshot(id, name) && files.disk[id].Settled()
      requires files.snapshots.Keys == files.markers.Keys
      requires SnapshotNamed(id, name).(content := P.NewPartial().content) == P.NewPartial()
      requires P.Whole(pending, SnapshotNamed(id, name).content.current)
      requires pending.name == name && P.Binding(pending.folder, pending.card, pending.kind) == bindings[id]
      requires !pending.ready && pending.epoch == records[id].epoch != 0
      modifies this`files, this`run
      ensures Valid() && old(run) <= run
      ensures CardOnly(old(files), files) && SameBut(SpotOf(bindings[id]), name, old(files), files)
      ensures HasSnapshot(id, name)
      ensures SnapshotNamed(id, name).content.current == old(SnapshotNamed(id, name)).content.current
      ensures ok ==> P.SnapshotDurable(bindings[id], SnapshotNamed(id, name), name, records[id].epoch)
      ensures ok ==> SnapshotNamed(id, name).header.current == Some(pending.(ready := true))
      ensures ok ==> SnapshotNamed(id, name).place.current.Final?
      ensures uncut ==> ok
    {
      hide P.Next, P.LegalRun, P.Whole, SameBut;
      ghost var start := files;
      ok := WriteHeaderDurably(id, name, pending);
      if ok {
        P.WholeWhenReady(pending, SnapshotNamed(id, name).content.current);
        ghost var before := files;
        ok := WriteHeaderDurably(id, name, pending.(ready := true));
        SameButThen(SpotOf(bindings[id]), name, start, before, files);
      }
      if ok {
        ghost var before := files;
        ok := PromoteDurably(id, name, pending.card);
        SameButThen(SpotOf(bindings[id]), name, start, before, files);
      }
    }

    method PromoteDurably(id: string, name: string, card: string) returns (ok: bool)
      requires Valid() && HasSnapshot(id, name) && card == bindings[id].card
      requires var s := SnapshotNamed(id, name);
               s.place.current.Partial? && s.header.Settled() && s.header.current.Some? && s.header.current.value.ready
      modifies this`files, this`run
      ensures Valid() && old(run) <= run
      ensures CardOnly(old(files), files) && HasSnapshot(id, name)
      ensures SameBut(SpotOf(bindings[id]), name, old(files), files)
      ensures SnapshotNamed(id, name).content.current == old(SnapshotNamed(id, name)).content.current
      ensures ok ==> SnapshotNamed(id, name) == old(SnapshotNamed(id, name)).(place := Cell([], P.Final)).Flushed()
      ensures uncut ==> ok
    {
      hide P.Next, P.LegalRun, SameBut;
      ghost var start := files;
      ok := Promote(id, name);
      if ok {
        ghost var before := files;
        ok := SyncCard(card);
        SameButThen(SpotOf(bindings[id]), name, start, before, files);
      }
    }

    ghost predicate HasSnapshot(id: string, name: string)
      reads this
    {
      id in bindings && id in records && id in files.disk
      && SpotOf(bindings[id]) in files.snapshots && name in files.snapshots[SpotOf(bindings[id])]
    }

    ghost function SnapshotNamed(id: string, name: string): P.Snapshot
      requires HasSnapshot(id, name)
      reads this
    {
      files.snapshots[SpotOf(bindings[id])][name]
    }

    method WriteHeaderDurably(id: string, name: string, h: P.Header) returns (ok: bool)
      requires Valid() && booted && HasSnapshot(id, name) && files.disk[id].Settled()
      requires files.snapshots.Keys == files.markers.Keys
      requires h.name == name && P.Binding(h.folder, h.card, h.kind) == bindings[id] && h.epoch == records[id].epoch
      requires !SnapshotNamed(id, name).place.Possible(P.Final)
      requires h.ready ==>
                 SnapshotNamed(id, name).content.Settled() && P.Whole(h, SnapshotNamed(id, name).content.current)
      modifies this`files, this`run
      ensures Valid() && old(run) <= run
      ensures CardOnly(old(files), files) && SameBut(SpotOf(bindings[id]), name, old(files), files)
      ensures HasSnapshot(id, name)
      ensures SnapshotNamed(id, name).content.current == old(SnapshotNamed(id, name)).content.current
      ensures ok ==> SnapshotNamed(id, name) == old(SnapshotNamed(id, name)).(header := Cell([], Some(h))).Flushed()
      ensures uncut ==> ok
    {
      hide P.Next, P.LegalRun, P.Whole, SameBut;
      ghost var start := files;
      ok := WriteHeader(id, name, h);
      if ok {
        ghost var before := files;
        ok := SyncCard(h.card);
        SameButThen(SpotOf(bindings[id]), name, start, before, files);
      }
    }

    method CopySource(spot: Spot, name: string, walked: seq<P.Entry>) returns (ok: bool)
      requires Valid() && spot in files.snapshots && name !in files.snapshots[spot]
      modifies this`files, this`run
      ensures Valid() && old(run) <= run
      ensures CardOnly(old(files), files) && files.markers == old(files.markers)
      ensures SameBut(spot, name, old(files), files)
      ensures uncut ==> ok
      ensures ok ==> name in files.snapshots[spot]
      ensures ok ==> files.snapshots[spot][name].(content := P.NewPartial().content) == P.NewPartial()
      ensures ok ==> files.snapshots[spot][name].content.current == P.Content(walked, Some(walked))
    {
      hide P.Next, P.LegalRun, P.SnapshotStep, SameBut;
      ghost var start := files;
      if spot == SpotOf(focus) {
        P.CreatePartialIsStep(focus, Now(), name);
      }
      ok := WriteSnapshot(spot, name, P.NewPartial());
      if !ok {
        return;
      }
      for i := 0 to |walked|
        invariant Valid() && old(run) <= run
        invariant files == old(files).(snapshots := files.snapshots)
        invariant files.snapshots.Keys == old(files.snapshots).Keys && SameBut(spot, name, old(files), files)
        invariant name in files.snapshots[spot]
        invariant files.snapshots[spot][name].(content := P.NewPartial().content) == P.NewPartial()
        invariant files.snapshots[spot][name].content.current == P.Content(walked[..i], None)
      {
        ghost var before := files;
        ok := WriteContent(spot, name, P.Content(walked[..i + 1], None));
        SameButThen(spot, name, start, before, files);
        if !ok {
          return;
        }
      }
      assert walked[..|walked|] == walked;
      ghost var before := files;
      ok := WriteContent(spot, name, P.Content(walked, Some(walked)));
      SameButThen(spot, name, start, before, files);
    }

    method WriteContent(spot: Spot, name: string, content: P.Content) returns (ok: bool)
      requires Valid() && spot in files.snapshots && name in files.snapshots[spot]
      requires files.snapshots[spot][name].header == Cell([], None)
      modifies this`files, this`run
      ensures Valid() && old(run) <= run
      ensures files == if ok then old(files).(snapshots := old(files.snapshots)[spot := old(files.snapshots)[spot][name :=
                         old(files.snapshots)[spot][name].(content := old(files.snapshots)[spot][name].content.Write(content))]])
                       else old(files)
      ensures SameBut(spot, name, old(files), files)
      ensures uncut ==> ok
    {
      hide P.Next, P.LegalRun, P.SnapshotStep;
      if spot == SpotOf(focus) {
        P.WriteContentIsStep(focus, Now(), name, content);
      }
      var s := files.snapshots[spot][name];
      ok := WriteSnapshot(spot, name, s.(content := s.content.Write(content)));
    }

    method WriteHeader(id: string, name: string, h: P.Header) returns (ok: bool)
      requires Valid() && booted && id in bindings && SpotOf(bindings[id]) in files.snapshots
      requires name in files.snapshots[SpotOf(bindings[id])] && files.disk[id].Settled()
      requires h.name == name && P.Binding(h.folder, h.card, h.kind) == bindings[id] && h.epoch == records[id].epoch
      requires !files.snapshots[SpotOf(bindings[id])][name].place.Possible(P.Final)
      requires h.ready ==>
                 && files.snapshots[SpotOf(bindings[id])][name].content.Settled()
                 && P.Whole(h, files.snapshots[SpotOf(bindings[id])][name].content.current)
      modifies this`files, this`run
      ensures Valid() && old(run) <= run
      ensures var spot := SpotOf(bindings[id]);
              files == if ok then old(files).(snapshots := old(files.snapshots)[spot := old(files.snapshots)[spot][name :=
                         old(files.snapshots)[spot][name].(header := old(files.snapshots)[spot][name].header.Write(Some(h)))]])
                       else old(files)
      ensures SameBut(SpotOf(bindings[id]), name, old(files), files)
      ensures uncut ==> ok
    {
      hide P.Next, P.LegalRun, P.SnapshotStep, P.Whole;
      var spot := SpotOf(bindings[id]);
      if spot == SpotOf(focus) {
        P.WriteHeaderIsStep(focus, Now(), name, h);
      }
      var s := files.snapshots[spot][name];
      ok := WriteSnapshot(spot, name, s.(header := s.header.Write(Some(h))));
    }

    method Promote(id: string, name: string) returns (ok: bool)
      requires Valid() && id in bindings && SpotOf(bindings[id]) in files.snapshots
      requires name in files.snapshots[SpotOf(bindings[id])]
      requires var s := files.snapshots[SpotOf(bindings[id])][name];
               s.place.current.Partial? && s.header.Settled() && s.header.current.Some? && s.header.current.value.ready
      modifies this`files, this`run
      ensures Valid() && old(run) <= run
      ensures var spot := SpotOf(bindings[id]);
              files == if ok then old(files).(snapshots := old(files.snapshots)[spot := old(files.snapshots)[spot][name :=
                         old(files.snapshots)[spot][name].(place := old(files.snapshots)[spot][name].place.Write(P.Final))]])
                       else old(files)
      ensures SameBut(SpotOf(bindings[id]), name, old(files), files)
      ensures uncut ==> ok
    {
      hide P.Next, P.LegalRun, P.SnapshotStep;
      var spot := SpotOf(bindings[id]);
      if spot == SpotOf(focus) {
        P.PromoteIsStep(focus, Now(), name);
      }
      var s := files.snapshots[spot][name];
      ok := WriteSnapshot(spot, name, s.(place := s.place.Write(P.Final)));
    }

    // --------------------------------------------------------------- Complete

    /** The newest snapshot of this epoch: names carry their creation time, and the walk is in reverse name order. */
    method LatestPreparedSnapshot(f: Folder, c: Card, epoch: nat) returns (r: HeaderRead)
      requires (c.id, f.kind) in files.snapshots
      ensures r.HeaderOk? ==> ReadNamed(files.snapshots[(c.id, f.kind)], r.header.name, f, c, epoch) == r
      ensures r.HeaderOk? ==> forall n :: Less(r.header.name, n) ==>
                !ReadNamed(files.snapshots[(c.id, f.kind)], n, f, c, epoch).HeaderOk?
      ensures r.NoHeader? ==> forall n :: ReadNamed(files.snapshots[(c.id, f.kind)], n, f, c, epoch).NoHeader?
      ensures r.HeaderOk? <==> Prepared(files.snapshots[(c.id, f.kind)], f, c, epoch)
      ensures r.HeaderError? <==> Broken(files.snapshots[(c.id, f.kind)], f, c, epoch)
    {
      var area := files.snapshots[(c.id, f.kind)];
      var rest := set n | n in area && n != "" && area[n].place.current.Final?;
      while rest != {}
        invariant forall n :: n in rest ==> n in area && n != "" && area[n].place.current.Final?
        invariant forall n :: n !in rest ==> ReadNamed(area, n, f, c, epoch).NoHeader?
        decreases |rest|
      {
        GreatestExists(rest);
        var n: string :| n in rest && forall m :: m in rest ==> m == n || Less(m, n);
        r := ReadSnapshotHeader(area[n], n, f, c, epoch);
        if !r.NoHeader? {
          forall k | Less(n, k)
            ensures k !in rest
          {
            if k in rest && Less(k, n) {
              LessIsTransitive(n, k, n);
              LessIsIrreflexive(n);
            } else if k == n {
              LessIsIrreflexive(n);
            }
          }
          assert Newest(area, n, f, c, epoch);
          OneNewest(area, n, f, c, epoch);
          return r;
        }
        rest := rest - {n};
      }
      return NoHeader;
    }

    static lemma {:induction false} LessIsIrreflexive(a: string)
      ensures !Less(a, a)
    {
      if a != [] {
        LessIsIrreflexive(a[1..]);
      }
    }

    /** A valid marker was seen for the durable record: an interrupted invalidation is over. */
    method CloseGap(id: string)
      requires Valid() && id in bindings
      requires id == focus.folder ==> P.Confirm(focus, Now(), Now().(gap := false))
      modifies this`files, this`run
      ensures Valid() && old(run) <= run
      ensures files == old(files).(gaps := old(files.gaps) - {id})
    {
      hide P.Next, P.LegalRun, P.Confirm;
      files := files.(gaps := files.gaps - {id});
      if id == focus.folder {
        P.ConfirmIsNext(focus, run[|run| - 1], Now());
      } else {
        P.StutterIsNext(focus, Now());
      }
      Log();
    }

    /** Writes one phase of the completion marker and makes it durable. */
    method WriteMarkerDurably(f: Folder, m: P.Marker) returns (ok: bool)
      requires Valid() && booted && f.id in bindings && SpotOf(bindings[f.id]) in files.markers
      requires files.disk[f.id].Settled() && records[f.id].firstSync
      requires m.folder == f.id && m.card == bindings[f.id].card && m.epoch == records[f.id].epoch
      requires f.id == focus.folder ==> P.Backed(focus, Now(), m)
      modifies this`files, this`run
      ensures Valid() && old(run) <= run && CardOnly(old(files), files)
      ensures f.id == focus.folder ==> P.Backed(focus, Now(), m)
      ensures ok ==> files.markers[SpotOf(bindings[f.id])] == Cell([], Some(m))
      ensures SameButMarker(SpotOf(bindings[f.id]), old(files), files)
      ensures uncut ==> ok
    {
      hide P.Next, P.LegalRun, P.Inv, P.SnapshotDurable, P.MarkerStep, P.Backed, SameButMarker, SameBut;
      ghost var v := Now();
      WriteIsSameButMarker(SpotOf(bindings[f.id]), files, Some(m), m.card);
      NothingMoved(SpotOf(bindings[f.id]), files);
      MayWriteMarker(f, m);
      ok := ReplaceMarker(SpotOf(bindings[f.id]), Some(m), {});
      if f.id == focus.folder {
        StillBacked(v, Now(), m);
      }
      if ok {
        ok := FlushMarker(f, m);
      }
    }

    lemma StillBacked(v: P.View, w: P.View, m: P.Marker)
      requires P.Backed(focus, v, m) && w.snapshots == v.snapshots
      ensures P.Backed(focus, w, m)
    {
    }

    lemma MayWriteMarker(f: Folder, m: P.Marker)
      requires Valid() && booted && f.id in bindings && f.id in files.disk && SpotOf(bindings[f.id]) in files.markers
      requires files.disk[f.id].Settled() && records[f.id].firstSync
      requires m.folder == f.id && m.card == bindings[f.id].card && m.epoch == records[f.id].epoch
      requires f.id == focus.folder ==> P.Backed(focus, Now(), m)
      ensures SpotOf(bindings[f.id]) == SpotOf(focus) <==> f.id == focus.folder
      ensures f.id == focus.folder ==>
                P.MarkerStep(focus, Now(), Now().(marker := Now().marker.Write(Some(m)), gap := Now().gap || focus.folder in {}))
    {
      hide P.Next, P.LegalRun, P.Inv;
      if f.id == focus.folder {
        Holds();
        MemoryPendingMeansGap();
        P.WriteMarkerIsStep(focus, Now(), m);
      }
    }

    method FlushMarker(f: Folder, m: P.Marker) returns (ok: bool)
      requires Valid() && f.id in bindings && SpotOf(bindings[f.id]) in files.markers && m.card == bindings[f.id].card
      requires f.id == focus.folder ==> P.Backed(focus, Now(), m)
      modifies this`files, this`run
      ensures Valid() && old(run) <= run
      ensures files == if ok then FlushCard(old(files), m.card) else old(files)
      ensures f.id == focus.folder ==> P.Backed(focus, Now(), m)
      ensures uncut ==> ok
    {
      hide P.Next, P.LegalRun, P.Inv, P.SnapshotDurable, SameBut;
      ghost var v := Now();
      ok := SyncCard(m.card);
      if ok && f.id == focus.folder {
        P.BackedSurvivesFlush(focus, v, Now(), m);
      }
    }

    lemma MemoryPendingMeansGap()
      requires Valid() && P.Inv(focus, Now()) && Now().memory.firstSync
      ensures Now().gap || Now().control.current.firstSync
    {
    }

    /** The folder as upstream has it, on a quiet primary filesystem: what loadCards has just confirmed. */
    ghost predicate Confirmed(f: Folder)
      reads this
    {
      f.id in bindings && f.id in records && Carries(f.id) && ConfirmedIn(f, files)
    }

    ghost predicate ConfirmedIn(f: Folder, fs: Files) {
      && f.id in bindings && f.id in fs.disk && f.id in fs.upstream
      && fs.disk[f.id].Settled() && fs.upstream[f.id].Settled()
      && fs.upstream[f.id].current.folderType == f.folderType
      && SpotOf(bindings[f.id]) in fs.markers && fs.markers.Keys == fs.snapshots.Keys
    }

    lemma ConfirmedAfterCards(f: Folder, before: Files)
      requires ConfirmedIn(f, before) && CardOnly(before, files)
      ensures ConfirmedIn(f, files) && SpotOf(bindings[f.id]) in files.markers
      ensures files.markers.Keys == before.markers.Keys
    {
    }

    lemma ConfirmedFiles(f: Folder)
      requires ConfirmedIn(f, files)
      ensures f.id in files.disk && files.disk[f.id].Settled() && SpotOf(bindings[f.id]) in files.markers
      ensures files.snapshots.Keys == files.markers.Keys
    {
    }

    /** An accepted snapshot, once the card is flushed, is certainly there. */
    lemma AcceptedSnapshotIsDurable(f: Folder, c: Card, name: string, epoch: nat)
      requires Valid() && f.id == focus.folder && focus == P.Binding(f.id, c.id, f.kind)
      requires ReadNamed(Now().snapshots, name, f, c, epoch).HeaderOk?
      requires Now().snapshots[name].Flushed() == Now().snapshots[name]
      ensures name in Now().snapshots && P.SnapshotDurable(focus, Now().snapshots[name], name, epoch)
    {
      hide P.Next, P.LegalRun;
      Holds();
      assert P.SnapshotSound(name, Now().snapshots[name]);
    }

    lemma FocusIsProtected()
      requires Valid() && Quiet(files, records)
      requires !records[focus.folder].firstSync && focus.folder !in files.gaps
      ensures P.Protected(focus, Now(), records[focus.folder].epoch)
    {
      hide P.Next, P.LegalRun, P.Protected;
      P.ClearedRecordIsProtected(focus, run, |run| - 1, Now().memory);
    }

    lemma MayClear(f: Folder, m: P.Marker, fatal: bool)
      requires Valid() && Confirmed(f)
      requires files.markers[SpotOf(bindings[f.id])] == Cell([], Some(m))
      requires P.MarkerFor(bindings[f.id], Some(m), records[f.id].epoch) && SameClass(m.folderType, f.folderType)
      ensures MayStore(f.id, records[f.id].(firstSync := false), fatal)
    {
      hide P.Next, P.LegalRun, P.MarkerFor;
    }

    lemma MayConfirm(f: Folder, m: P.Marker)
      requires Valid() && f.id in bindings && booted && !records[f.id].firstSync
      requires files.upstream[f.id].current.folderType == f.folderType && SpotOf(bindings[f.id]) in files.markers
      requires Quiet(files, records)
      requires files.markers[SpotOf(bindings[f.id])] == Cell([], Some(m))
      requires P.MarkerFor(bindings[f.id], Some(m), records[f.id].epoch) && SameClass(m.folderType, f.folderType)
      ensures f.id == focus.folder ==> P.Confirm(focus, Now(), Now().(gap := false))
    {
      hide P.Next, P.LegalRun, P.MarkerFor;
    }

    /** A complete marker is certainly on the card: clear the pause reason, durably. */
    method ClearFirstSync(f: Folder, m: P.Marker, fatal: bool) returns (ok: bool)
      requires Valid() && booted && Confirmed(f) && (fatal ==> !running)
      requires records[f.id].firstSync
      requires files.markers[SpotOf(bindings[f.id])] == Cell([], Some(m))
      requires P.MarkerFor(bindings[f.id], Some(m), records[f.id].epoch) && SameClass(m.folderType, f.folderType)
      modifies this`records, this`files, this`booted, this`diverged, this`running, this`run
      ensures Valid() && old(run) <= run
      ensures booted == (ok || !fatal) && running == (old(running) && booted)
      ensures ok || !fatal ==> records == old(records)[f.id := old(records)[f.id].(firstSync := false)]
      ensures ok ==> f.id !in files.gaps && files.gaps <= old(files).gaps
      ensures ok ==> Quiet(files, records)
      ensures files.markers == old(files).markers && files.snapshots == old(files).snapshots
      ensures SameUpstream(old(files), files)
      ensures uncut ==> ok
    {
      hide P.Next, P.LegalRun, P.MarkerFor, P.MemoryStep, P.Confirm, MayFail, SameUpstream, Quiet;
      MayClear(f, m, fatal);
      ok := Store(f.id, records[f.id].(firstSync := false), fatal);
      if ok {
        ghost var stored := files;
        SameUpstreamAt(old(files), stored, f.id);
        MayConfirm(f, m);
        CloseGap(f.id);
        GapsOnly(old(files), stored, files, records);
      }
    }

    /** Chooses the mode of the marker; a receive folder needs a snapshot, made durable again here. */
    method ChooseMode(f: Folder, c: Card) returns (ok: bool, mode: P.Mode)
      requires Valid() && booted && Confirmed(f) && c.id == bindings[f.id].card && f.kind == bindings[f.id].kind
      modifies this`files, this`run
      ensures Valid() && old(run) <= run && CardOnly(old(files), files)
      ensures ok ==> (mode.Seed? <==> f.folderType.SendOnly?)
      ensures ok && f.id == focus.folder ==>
                forall m: P.Marker :: m.mode == mode && m.epoch == records[f.id].epoch ==> P.Backed(focus, Now(), m)
      ensures SameCards(old(files), files)
      ensures ok && f.folderType != SendOnly ==>
                ReadNamed(files.snapshots[(c.id, f.kind)], mode.name, f, c, records[f.id].epoch).HeaderOk?
      ensures uncut ==>
                (ok <==> f.folderType.SendOnly? || Prepared(old(files).snapshots[(c.id, f.kind)], f, c, records[f.id].epoch))
    {
      hide P.Next, P.LegalRun, P.SnapshotDurable, SameBut, Prepared, Broken;
      NothingMoved((c.id, f.kind), files);
      FlushCardSameCards(files, c.id);
      mode := P.Seed;
      if f.folderType == SendOnly {
        return true, P.Seed;
      }
      var newest := LatestPreparedSnapshot(f, c, records[f.id].epoch);
      if !newest.HeaderOk? {
        return false, P.Seed;
      }
      mode := P.FromSnapshot(newest.header.name);
      assert SameArea(files.snapshots[(c.id, f.kind)], FlushCard(files, c.id).snapshots[(c.id, f.kind)]);
      ok := SyncCard(c.id);
      if ok && f.id == focus.folder {
        AcceptedSnapshotIsDurable(f, c, newest.header.name, records[f.id].epoch);
      }
    }

    /** Pending first, durably; only then complete, durably. */
    method WriteBothPhases(f: Folder, pending: P.Marker) returns (ok: bool)
      requires Valid() && booted && f.id in bindings && SpotOf(bindings[f.id]) in files.markers
      requires files.disk[f.id].Settled() && records[f.id].firstSync
      requires pending.folder == f.id && pending.card == bindings[f.id].card && pending.epoch == records[f.id].epoch
      requires f.id == focus.folder ==> P.Backed(focus, Now(), pending)
      modifies this`files, this`run
      ensures Valid() && old(run) <= run && CardOnly(old(files), files)
      ensures ok ==> files.markers[SpotOf(bindings[f.id])] == Cell([], Some(pending.(complete := true)))
      ensures SameButMarker(SpotOf(bindings[f.id]), old(files), files)
      ensures uncut ==> ok
    {
      hide P.Next, P.LegalRun, P.Backed, SameButMarker;
      ok := WriteMarkerDurably(f, pending);
      if !ok {
        return;
      }
      if f.id == focus.folder {
        P.BackedIgnoresPhase(focus, Now(), pending);
      }
      ghost var between := files;
      ok := WriteMarkerDurably(f, pending.(complete := true));
      SameButMarkerThen(SpotOf(bindings[f.id]), old(files), between, files);
    }

    method Complete(f: Folder, c: Card, hubAcknowledged: bool) returns (ok: bool)
      requires Valid() && booted && Confirmed(f)
      modifies this`records, this`files, this`booted, this`diverged, this`running, this`run
      ensures Valid() && old(run) <= run
      ensures booted && running == old(running)
      ensures files.markers.Keys == old(files).markers.Keys
      ensures records == old(records) || records == old(records)[f.id := old(records)[f.id].(firstSync := false)]
      ensures SameUpstream(old(files), files)
      ensures ok ==> hubAcknowledged && Usable(c) && old(records)[f.id].firstSync && BindingValid(f, c, old(records)[f.id])
      ensures ok ==> !records[f.id].firstSync && f.id !in files.gaps
      ensures ok && f.id == focus.folder ==> P.Protected(focus, Now(), records[f.id].epoch)
      ensures SameButMarker(SpotOf(bindings[f.id]), old(files), files)
      ensures ok ==> (MarkerAccepted(bindings[f.id], f, c, files, records[f.id].epoch) <==> !f.folderType.Unsupported?)
      ensures ok ==> Quiet(files, records)
      ensures uncut ==> (ok <==> hubAcknowledged && Completable(f, c, old(records)[f.id], old(files)))
    {
      hide P.Next, P.LegalRun, P.Protected, P.Backed, BindingValid, SameButMarker, Prepared, ReadFirstSyncMarker, SameUpstream;
      hide Valid, CardOnly, ConfirmedIn, MarkerAccepted, SameCards, Usable, Quiet;
      ConfirmedFiles(f);
      ghost var spot := SpotOf(bindings[f.id]);
      NothingMoved(spot, files);
      SameUpstreamRefl(files);
      var r := records[f.id];
      var valid := BindingNamesCard(f, c, r);
      if !hubAcknowledged || !Usable(c) || !r.firstSync || r.epoch == 0 || !valid {
        return false;
      }
      var mode;
      ok, mode := ChooseMode(f, c);
      ghost var chosen := files;
      ConfirmedAfterCards(f, old(files));
      SameCardsButMarker(spot, old(files), chosen);
      CardsKeepUpstream(old(files), chosen);
      if ok {
        ok := CompleteWith(f, c, mode);
        SameButMarkerThen(spot, old(files), chosen, files);
        SameUpstreamTransitive(old(files), chosen, files);
      }
    }

    /** Writes both phases of the marker in this mode and clears the pause reason. */
    method CompleteWith(f: Folder, c: Card, mode: P.Mode) returns (ok: bool)
      requires Valid() && booted && Confirmed(f) && records[f.id].firstSync && records[f.id].epoch != 0
      requires SpotOf(bindings[f.id]) == (c.id, f.kind) && (mode.Seed? <==> f.folderType.SendOnly?)
      requires f.id == focus.folder ==>
                 forall m: P.Marker :: m.mode == mode && m.epoch == records[f.id].epoch ==> P.Backed(focus, Now(), m)
      requires f.folderType != SendOnly ==>
                 ReadNamed(files.snapshots[(c.id, f.kind)], mode.name, f, c, records[f.id].epoch).HeaderOk?
      modifies this`records, this`files, this`booted, this`diverged, this`running, this`run
      ensures Valid() && old(run) <= run
      ensures booted && running == old(running)
      ensures files.markers.Keys == old(files).markers.Keys
      ensures records == old(records) || records == old(records)[f.id := old(records)[f.id].(firstSync := false)]
      ensures SameUpstream(old(files), files) && SameButMarker(SpotOf(bindings[f.id]), old(files), files)
      ensures ok ==> !records[f.id].firstSync && f.id !in files.gaps
      ensures ok && f.id == focus.folder ==> P.Protected(focus, Now(), records[f.id].epoch)
      ensures ok ==> (MarkerAccepted(bindings[f.id], f, c, files, records[f.id].epoch) <==> !f.folderType.Unsupported?)
      ensures ok ==> Quiet(files, records)
      ensures uncut ==> ok
    {
      hide P.Next, P.LegalRun, P.Protected, P.Backed, SameButMarker, ReadFirstSyncMarker, SameUpstream, Quiet;
      ghost var start := files;
      BindingIs(f, c);
      var pending := P.Marker(false, records[f.id].epoch, f.id, c.id, f.kind, f.folderType, mode, true, true);
      ok := Finish(f, pending);
      if ok {
        WrittenIsRead(f, c, pending.(complete := true), start, files);
      }
    }

    /** The marker written for a snapshot that reads as accepted is accepted, whoever reads it next. */
    static lemma WrittenIsRead(f: Folder, c: Card, m: P.Marker, chosen: Files, fs: Files)
      requires (c.id, f.kind) in chosen.snapshots && SameButMarker((c.id, f.kind), chosen, fs)
      requires (c.id, f.kind) in fs.markers && fs.markers[(c.id, f.kind)].current == Some(m)
      requires m == P.Marker(true, m.epoch, f.id, c.id, f.kind, f.folderType, m.mode, true, true) && m.epoch != 0
      requires m.mode.Seed? <==> f.folderType.SendOnly?
      requires f.folderType != SendOnly ==>
                 ReadNamed(chosen.snapshots[(c.id, f.kind)], m.mode.name, f, c, m.epoch).HeaderOk?
      ensures (c.id, f.kind) in fs.snapshots
      ensures ReadFirstSyncMarker(Some(m), fs.snapshots[(c.id, f.kind)], f, c, m.epoch).MarkerOk? <==> !f.folderType.Unsupported?
    {
      assert SameArea(chosen.snapshots[(c.id, f.kind)], fs.snapshots[(c.id, f.kind)]);
    }

    method Finish(f: Folder, pending: P.Marker) returns (ok: bool)
      requires Valid() && booted && Confirmed(f) && records[f.id].firstSync
      requires f.id == focus.folder ==> P.Backed(focus, Now(), pending)
      requires P.MarkerFor(bindings[f.id], Some(pending.(complete := true)), records[f.id].epoch)
      requires pending.folder == f.id && pending.card == bindings[f.id].card && pending.epoch == records[f.id].epoch
      requires pending.folderType == f.folderType
      modifies this`records, this`files, this`booted, this`diverged, this`running, this`run
      ensures Valid() && old(run) <= run
      ensures booted && running == old(running)
      ensures files.markers.Keys == old(files).markers.Keys
      ensures records == old(records) || records == old(records)[f.id := old(records)[f.id].(firstSync := false)]
      ensures SameUpstream(old(files), files)
      ensures ok ==> !records[f.id].firstSync && f.id !in files.gaps
      ensures ok && f.id == focus.folder ==> P.Protected(focus, Now(), records[f.id].epoch)
      ensures SameButMarker(SpotOf(bindings[f.id]), old(files), files)
      ensures ok ==> files.markers[SpotOf(bindings[f.id])].current == Some(pending.(complete := true))
      ensures ok ==> Quiet(files, records)
      ensures uncut ==> ok
    {
      hide P.Next, P.LegalRun, P.Protected, P.Backed, P.MarkerFor, SameUpstream, Quiet, Valid, CardOnly, ConfirmedIn, SameButMarker;
      ghost var before := files;
      ConfirmedFiles(f);
      ok := WriteBothPhases(f, pending);
      ghost var middle := files;
      ConfirmedAfterCards(f, before);
      SameUpstreamRefl(middle);
      SameUpstreamAfterCard(before, middle, middle);
      if ok {
        ok := ClearCompleted(f, pending.(complete := true));
        SameUpstreamAfterCard(before, middle, files);
        SameCardsFields(middle, files);
        SameCardsButMarker(SpotOf(bindings[f.id]), middle, files);
        SameButMarkerThen(SpotOf(bindings[f.id]), before, middle, files);
      }
    }

    /** Clearing the pause reason at run time; from here on the folder relies on its protection. */
    method ClearCompleted(f: Folder, m: P.Marker) returns (ok: bool)
      requires Valid() && booted && Confirmed(f) && records[f.id].firstSync
      requires files.markers[SpotOf(bindings[f.id])] == Cell([], Some(m))
      requires P.MarkerFor(bindings[f.id], Some(m), records[f.id].epoch) && SameClass(m.folderType, f.folderType)
      modifies this`records, this`files, this`booted, this`diverged, this`running, this`run
      ensures Valid() && old(run) <= run
      ensures booted && running == old(running)
      ensures records == old(records)[f.id := old(records)[f.id].(firstSync := false)]
      ensures files.markers == old(files).markers && SameUpstream(old(files), files)
      ensures files.snapshots == old(files).snapshots
      ensures ok ==> Quiet(files, records)
      ensures uncut ==> ok
      ensures ok ==> f.id !in files.gaps
      ensures ok && f.id == focus.folder ==> P.Protected(focus, Now(), records[f.id].epoch)
    {
      hide P.Next, P.LegalRun, P.Protected, P.MarkerFor, SameUpstream, Quiet, ConfirmedIn;
      ok := ClearFirstSync(f, m, false);
      if ok && f.id == focus.folder {
        FocusIsProtected();
      }
    }

    static method BindingNamesCard(f: Folder, c: Card, r: Record) returns (valid: bool)
      ensures valid == BindingValid(f, c, r)
      ensures valid ==> r.cardId == c.id && r.kind == f.kind
    {
      if r.cardId != c.id || r.kind != f.kind || r.markerName != f.markerName || f.path != c.Content(f.kind).path {
        return false;
      }
      if !ValidateManagedMarker(c.Content(f.kind), f.markerName).Valid? {
        return false;
      }
      if f.folderType != SendOnly {
        var versions := c.Versions(f.kind);
        if f.versioning != "simple" || f.versioningFsType != "basic" || f.versioningPath != versions {
          return false;
        }
      }
      valid := true;
    }

    // ------------------------------------------------------------- Invalidate

    /**
     * Removes the marker, makes the removal durable, then bumps the epoch. The
     * caller has paused the folder, so it cannot sync in between.
     */
    method Invalidate(f: Folder, c: Card) returns (ok: bool)
      requires Valid() && booted && Found(f) && c.id == bindings[f.id].card
      requires files.upstream[f.id].current.paused
      modifies this`records, this`files, this`booted, this`diverged, this`running, this`run
      ensures Valid() && old(run) <= run
      ensures booted && running == old(running)
      ensures SameUpstream(old(files), files)
      ensures files.markers.Keys == old(files).markers.Keys && files.snapshots.Keys == old(files).snapshots.Keys
      ensures forall id :: id in records && id != f.id ==> records[id] == old(records)[id]
      ensures ok ==> Usable(c) && Quiet(files, records)
      ensures ok ==> SpotOf(bindings[f.id]) in files.markers && files.markers[SpotOf(bindings[f.id])] == Cell([], None)
      ensures ok ==> records[f.id] == old(records)[f.id].(firstSync := true, epoch := old(records)[f.id].epoch + 1)
      ensures uncut ==> (ok <==> Usable(c) && old(records)[f.id].epoch < MAX_EPOCH)
    {
      hide P.Next, P.LegalRun, P.Inv, Quiet, P.MemoryStep, MayFail, SameUpstream;
      SameUpstreamRefl(files);
      if !Usable(c) {
        return false;
      }
      ghost var before := files;
      ok := RemoveMarkerDurably(f, c.id);
      SameUpstreamFields(before, files);
      if ok {
        ghost var removed := files;
        SameUpstreamAt(before, removed, f.id);
        ok := RequireFirstSync(f, false);
        SameUpstreamTransitive(before, removed, files);
      }
    }

    method RemoveMarkerDurably(f: Folder, card: string) returns (ok: bool)
      requires Valid() && f.id in bindings && SpotOf(bindings[f.id]) in files.markers
      requires files.upstream[f.id].current.paused || !running
      modifies this`files, this`run
      ensures Valid() && old(run) <= run
      ensures files.disk == old(files).disk && files.upstream == old(files).upstream
      ensures files.markers.Keys == old(files).markers.Keys && files.snapshots.Keys == old(files).snapshots.Keys
      ensures ok && card == bindings[f.id].card ==> files.markers[SpotOf(bindings[f.id])] == Cell([], None)
      ensures uncut ==> ok
    {
      hide P.Next, P.LegalRun;
      ok := RemoveMarker(f);
      if ok {
        ok := SyncCard(card);
      }
    }

    method RemoveMarker(f: Folder) returns (ok: bool)
      requires Valid() && f.id in bindings && SpotOf(bindings[f.id]) in files.markers
      requires files.upstream[f.id].current.paused || !running
      modifies this`files, this`run
      ensures Valid() && old(run) <= run
      ensures files == old(files).(markers := files.markers, gaps := files.gaps)
      ensures files.markers.Keys == old(files).markers.Keys
      ensures ok ==> files.markers[SpotOf(bindings[f.id])].current == None
      ensures uncut ==> ok
    {
      hide P.Next, P.LegalRun;
      if files.markers[SpotOf(bindings[f.id])].current == None {
        return true;
      }
      ok := ReplaceMarker(SpotOf(bindings[f.id]), None, {f.id});
    }

    /** Persists the pause reason under a new epoch. */
    method RequireFirstSync(f: Folder, fatal: bool) returns (ok: bool)
      requires Valid() && booted && f.id in bindings && (fatal ==> !running)
      requires files.upstream[f.id].current.paused || !running
      requires fatal || (SpotOf(bindings[f.id]) in files.markers && files.markers[SpotOf(bindings[f.id])].current == None)
      modifies this`records, this`files, this`booted, this`diverged, this`running, this`run
      ensures Valid() && old(run) <= run
      ensures booted == (ok || !fatal) && running == (old(running) && booted)
      ensures forall id :: booted && id in bindings && id != f.id ==> records[id] == old(records)[id]
      ensures files.markers == old(files).markers && files.snapshots == old(files).snapshots
      ensures SameUpstream(old(files), files)
      ensures files.gaps <= old(files).gaps
      ensures ok ==> Quiet(files, records)
      ensures ok ==> records == old(records)[f.id := old(records)[f.id].(firstSync := true, epoch := old(records)[f.id].epoch + 1)]
      ensures ok ==> old(records)[f.id].epoch < 0xFFFF_FFFF_FFFF_FFFF
      ensures uncut ==> (ok <==> old(records)[f.id].epoch < 0xFFFF_FFFF_FFFF_FFFF)
    {
      hide P.Next, P.LegalRun, P.MemoryStep, MayFail, Quiet, SameUpstream;
      SameUpstreamRefl(files);
      var r := records[f.id];
      if r.epoch >= MAX_EPOCH {
        if fatal {
          EndProcess();
        }
        return false;
      }
      MayBump(f, fatal);
      ok := Store(f.id, r.(firstSync := true, epoch := r.epoch + 1), fatal);
    }

    lemma MayBump(f: Folder, fatal: bool)
      requires Valid() && f.id in bindings && (files.upstream[f.id].current.paused || !running)
      requires fatal || (SpotOf(bindings[f.id]) in files.markers && files.markers[SpotOf(bindings[f.id])].current == None)
      ensures MayStore(f.id, records[f.id].(firstSync := true, epoch := records[f.id].epoch + 1), fatal)
    {
      hide P.Next, P.LegalRun;
      if f.id == focus.folder && !fatal {
        Holds();
        MarkerlessMeansGap();
      }
    }

    lemma MarkerlessMeansGap()
      requires Valid() && P.Inv(focus, Now()) && Now().marker.current == None
      ensures Now().gap || Now().memory.firstSync
    {
    }

    // ---------------------------------------------------------------- recovery

    /** recoverFirstSyncKind: what an interrupted Prepare or Complete left behind is discarded. */
    method DiscardUnfinished(spot: Spot) returns (ok: bool)
      requires Valid()
      modifies this`files, this`run
      ensures Valid() && old(run) <= run && CardOnly(old(files), files)
      ensures Discarded(spot, old(files), files)
      ensures ok ==> Tidy(spot, files)
      ensures uncut ==> ok
    {
      hide P.Next, P.LegalRun, FinishedKept, Discarded, NoPartial;
      DiscardedNothing(spot, files);
      if spot !in files.markers {
        return true;
      }
      ok := DiscardPartials(spot);
      if ok {
        ghost var between := files;
        ok := DiscardPending(spot);
        DiscardedMore(spot, old(files), between, files);
      }
    }

    /** The loop over the entries of the directory. */
    method DiscardPartials(spot: Spot) returns (ok: bool)
      requires Valid() && spot in files.snapshots && spot in files.markers
      modifies this`files, this`run
      ensures Valid() && old(run) <= run && CardOnly(old(files), files)
      ensures Discarded(spot, old(files), files)
      ensures ok ==> NoPartial(files.snapshots[spot])
      ensures uncut ==> ok
    {
      hide P.Next, P.LegalRun, FinishedKept, Discarded, Valid;
      DiscardedNothing(spot, files);
      var partials := set n | n in files.snapshots[spot] && files.snapshots[spot][n].place.current.Partial?;
      while partials != {}
        invariant Valid() && old(run) <= run && CardOnly(old(files), files)
        invariant Discarded(spot, old(files), files)
        invariant spot in files.snapshots && spot in files.markers
        invariant forall n :: n in partials <==>
                    n in files.snapshots[spot] && files.snapshots[spot][n].place.current.Partial?
      {
        var n :| n in partials;
        ghost var before := files;
        ok := DiscardPartial(spot, n);
        DiscardedMore(spot, old(files), before, files);
        if !ok {
          return;
        }
        partials := partials - {n};
      }
      ok := true;
    }

    /** Both places of one card. */
    method DiscardOnCard(card: string) returns (ok: bool)
      requires Valid()
      modifies this`files, this`run
      ensures Valid() && old(run) <= run && CardOnly(old(files), files)
      ensures ok ==> Tidy((card, States), files)
      ensures ok ==> exists between :: Discarded((card, Saves), old(files), between) && Tidy((card, Saves), between)
                       && Discarded((card, States), between, files)
      ensures Cleaned(old(files), files)
      ensures exists between :: Discarded((card, Saves), old(files), between) && Discarded((card, States), between, files)
      ensures uncut ==> ok
    {
      hide P.Next, P.LegalRun, CardOnly, Valid, Tidy, Discarded, Cleaned;
      ok := DiscardUnfinished((card, Saves));
      ghost var between := files;
      DiscardedIsCleaned((card, Saves), old(files), between);
      DiscardedNothing((card, States), between);
      if ok {
        ok := DiscardUnfinished((card, States));
        CardOnlyTransitive(old(files), between, files);
        DiscardedIsCleaned((card, States), between, files);
        CleanedThen(old(files), between, files);
      }
    }

    method DiscardPartial(spot: Spot, n: string) returns (ok: bool)
      requires Valid() && spot in files.snapshots && n in files.snapshots[spot]
      requires files.snapshots[spot][n].place.current.Partial?
      modifies this`files, this`run
      ensures Valid() && old(run) <= run && CardOnly(old(files), files)
      ensures Discarded(spot, old(files), files) && files.markers == old(files).markers
      ensures forall k :: k in old(files).snapshots[spot] && k != n ==>
                k in files.snapshots[spot] && files.snapshots[spot][k] == old(files).snapshots[spot][k]
      ensures files.snapshots[spot].Keys == old(files).snapshots[spot].Keys
      ensures ok ==> files.snapshots[spot][n].place.current.Absent?
      ensures uncut ==> ok
    {
      hide P.Next, P.LegalRun, P.SnapshotStep, SameBut;
      if spot == SpotOf(focus) {
        P.DiscardPartialIsStep(focus, Now(), n);
      }
      var s := files.snapshots[spot][n];
      ok := WriteSnapshot(spot, n, s.(place := s.place.Write(P.Absent)));
    }

    method DiscardPending(spot: Spot) returns (ok: bool)
      requires Valid() && spot in files.markers
      modifies this`files, this`run
      ensures Valid() && old(run) <= run && CardOnly(old(files), files)
      ensures Discarded(spot, old(files), files) && files.snapshots == old(files).snapshots
      ensures ok ==> !Unfinished(files.markers[spot].current)
      ensures uncut ==> ok
    {
      hide P.Next, P.LegalRun;
      ok := true;
      var marker := files.markers[spot].current;
      if marker.Some? && !marker.value.complete {
        ok := ReplaceMarker(spot, None, {});
      }
    }

    /** A folder as startup finds it. */
    ghost predicate Found(f: Folder)
      reads this
    {
      FoundWith(f, files, records)
    }

    ghost predicate FoundWith(f: Folder, fs: Files, recs: map<string, Record>) {
      && f.id in bindings && f.id in recs && FoundIn(f, fs)
      && recs[f.id].cardId == bindings[f.id].card && recs[f.id].kind == bindings[f.id].kind
    }

    ghost predicate FoundIn(f: Folder, fs: Files) {
      && f.id in bindings && f.id in fs.disk && f.id in fs.upstream && f.kind == bindings[f.id].kind
      && fs.upstream[f.id].current.folderType == f.folderType
      && SpotOf(bindings[f.id]) in fs.markers && fs.markers.Keys == fs.snapshots.Keys
    }

    /** The loop body of recover. Any failure ends the process. */
    method RecoverFolder(f: Folder, inventory: seq<Card>) returns (ok: bool)
      requires Valid() && booted && !running && Found(f)
      requires (exists c :: c in inventory && Usable(c)) ==> Quiet(files, records)
      modifies this`records, this`files, this`booted, this`diverged, this`running, this`run
      ensures Valid() && old(run) <= run
      ensures booted == ok && !running
      ensures ok ==> Step(old(files), old(records), f.id)
      ensures ok ==> Recovered(bindings[f.id], f, inventory, files, records[f.id])
      ensures ok ==> Decided(bindings[f.id], f, inventory, old(files), old(records)[f.id], records[f.id])
      ensures ok ==> Recoverable(bindings[f.id], f, inventory, old(files), old(records)[f.id])
      ensures uncut ==> (ok <==> Recoverable(bindings[f.id], f, inventory, old(files), old(records)[f.id]))
    {
      hide P.Next, P.LegalRun, Quiet, SameUpstream, SameCards, Recovered, Valid, Decided, DecidedOn, Recoverable, RecoverableOn;
      RecoverableOnOne(bindings[f.id], f, inventory, files, records[f.id]);
      var candidates := Candidates(inventory, records[f.id].cardId, |inventory|);
      if !CompleteBinding(records[f.id]) || |candidates| != 1 || !Usable(candidates[0]) {
        NothingToRecover(bindings[f.id], f, inventory, files, records[f.id]);
        NothingToDecide(bindings[f.id], f, inventory, files, records[f.id]);
        SameUpstreamRefl(files);
        SameCardsFields(files, files);
        return true;
      }
      CandidateIsCard(inventory, records[f.id].cardId);
      ok := RecoverOnCard(f, candidates[0]);
      if ok {
        RecoveredOnOne(bindings[f.id], f, inventory, files, records[f.id]);
        DecidedOnOne(bindings[f.id], f, inventory, old(files), old(records)[f.id], records[f.id]);
      }
    }

    /** What recovering one folder may change. */
    ghost predicate Step(fs: Files, before: map<string, Record>, id: string)
      reads this
    {
      && SameUpstream(fs, files) && SameCards(fs, files) && files.gaps <= fs.gaps
      && (Quiet(files, records) || (files == fs && records == before))
      && id in before && id in records && SameBinding(before[id], records[id])
      && records == before[id := records[id]]
    }

    method RecoverOnCard(f: Folder, c: Card) returns (ok: bool)
      requires Valid() && booted && !running && Found(f) && Quiet(files, records)
      requires c.id == records[f.id].cardId && Usable(c)
      modifies this`records, this`files, this`booted, this`diverged, this`running, this`run
      ensures Valid() && old(run) <= run
      ensures booted == ok && !running
      ensures ok ==> Step(old(files), old(records), f.id)
      ensures ok ==> records[f.id].firstSync || MarkerAccepted(bindings[f.id], f, c, files, records[f.id].epoch)
      ensures ok ==> DecidedOn(bindings[f.id], f, c, old(files), old(records)[f.id], records[f.id])
      ensures ok ==> RecoverableOn(bindings[f.id], f, c, old(files), old(records)[f.id])
      ensures uncut ==> (ok <==> RecoverableOn(bindings[f.id], f, c, old(files), old(records)[f.id]))
    {
      hide P.Next, P.LegalRun, Quiet, SameUpstream, SameCards, ReadFirstSyncMarker, Valid, Broken, Prepared;
      var spot := (c.id, f.kind);
      var read := ReadFirstSyncMarker(files.markers[spot].current, files.snapshots[spot], f, c, records[f.id].epoch);
      SameUpstreamRefl(files);
      SameCardsFields(files, files);
      if read.MarkerError? {
        EndProcess();
        return false;
      }
      if read.MarkerOk? {
        ok := AcceptMarker(f, c, read.marker);
        return;
      }
      ok := true;
      if !records[f.id].firstSync {
        ghost var before := files;
        ok := RequireFirstSync(f, true);
        SameCardsFields(before, files);
        return;
      }
      var prepared := LatestPreparedSnapshot(f, c, records[f.id].epoch);
      if prepared.HeaderError? {
        EndProcess();
        return false;
      }
    }

    /** Reading the card finds this complete marker. */
    ghost predicate MarkerIsRead(f: Folder, c: Card, m: P.Marker)
      reads this
    {
      && f.id in bindings && f.id in records
      && SpotOf(bindings[f.id]) in files.markers && SpotOf(bindings[f.id]) in files.snapshots
      && ReadFirstSyncMarker(files.markers[SpotOf(bindings[f.id])].current, files.snapshots[SpotOf(bindings[f.id])], f, c,
           records[f.id].epoch) == MarkerOk(m)
    }

    /** The record already agrees with the marker: the interrupted invalidation, if any, is over. */
    method KeepAccepted(f: Folder, c: Card, m: P.Marker)
      requires Valid() && booted && !running && Found(f) && Quiet(files, records)
      requires c.id == bindings[f.id].card && MarkerIsRead(f, c, m) && !records[f.id].firstSync
      modifies this`files, this`run
      ensures Valid() && old(run) <= run
      ensures Step(old(files), old(records), f.id)
      ensures MarkerAccepted(bindings[f.id], f, c, files, records[f.id].epoch)
    {
      hide P.Next, P.LegalRun, Quiet, SameUpstream, SameCards, Valid;
      ghost var before := files;
      BindingIs(f, c);
      MayConfirmOnRead(f, c, m);
      CloseGap(f.id);
      SameUpstreamRefl(before);
      GapsOnly(before, before, files, records);
      SameCardsFields(before, files);
      AcceptedAfter(bindings[f.id], f, c, before, files, records[f.id].epoch);
    }

    /** Finish the barrier if the record still says first-sync, then clear it. */
    method AcceptMarker(f: Folder, c: Card, m: P.Marker) returns (ok: bool)
      requires Valid() && booted && !running && Found(f) && Quiet(files, records)
      requires c.id == bindings[f.id].card && MarkerIsRead(f, c, m)
      modifies this`records, this`files, this`booted, this`diverged, this`running, this`run
      ensures Valid() && old(run) <= run
      ensures booted == ok && !running
      ensures ok ==> Step(old(files), old(records), f.id)
      ensures ok ==> MarkerAccepted(bindings[f.id], f, c, files, records[f.id].epoch)
      ensures ok ==> records[f.id] == old(records)[f.id].(firstSync := false)
      ensures uncut ==> ok
    {
      hide P.Next, P.LegalRun, Quiet, SameUpstream, SameCards, Valid, MarkerAccepted, SameBut, ReadFirstSyncMarker, ConfirmedIn,
        FlushCard;
      if !records[f.id].firstSync {
        KeepAccepted(f, c, m);
        return true;
      }
      ghost var before := files;
      BindingIs(f, c);
      ok := SyncCard(c.id);
      if !ok {
        EndProcess();
        return;
      }
      ghost var flushed := files;
      FoundAfterFlush(f, before);
      ConfirmedAfterFlush(f, before, m);
      ok := ClearFirstSync(f, m, true);
      if ok {
        SameUpstreamTransitive(before, flushed, files);
        SameCardsFields(flushed, files);
        SameCardsTransitive(before, flushed, files);
        AcceptedAfter(bindings[f.id], f, c, before, files, records[f.id].epoch);
      }
    }

    lemma MayConfirmOnRead(f: Folder, c: Card, m: P.Marker)
      requires Valid() && booted && Found(f) && Quiet(files, records) && !records[f.id].firstSync
      requires c.id == bindings[f.id].card && MarkerIsRead(f, c, m)
      ensures f.id == focus.folder ==> P.Confirm(focus, Now(), Now().(gap := false))
    {
      hide P.Next, P.LegalRun;
      if f.id == focus.folder {
        Holds();
        assert P.MarkerFor(focus, Now().marker.current, Now().memory.epoch);
        SettledByInv();
      }
    }

    lemma SettledByInv()
      requires Valid() && P.Inv(focus, Now())
      requires !Now().memory.firstSync && P.MarkerFor(focus, Now().marker.current, Now().memory.epoch)
      ensures Now().marker.Settled()
    {
    }

    lemma BindingIs(f: Folder, c: Card)
      requires Valid() && f.id in bindings && c.id == bindings[f.id].card && f.kind == bindings[f.id].kind
      ensures bindings[f.id] == P.Binding(f.id, c.id, f.kind)
    {
      hide P.Next, P.LegalRun;
    }

    lemma FoundAfterFlush(f: Folder, before: Files)
      requires FoundIn(f, before) && f.id in records && Carries(f.id)
      requires files == FlushCard(before, bindings[f.id].card)
      ensures Found(f)
    {
      FlushCardIsCardOnly(before, bindings[f.id].card);
    }

    lemma ConfirmedAfterFlush(f: Folder, before: Files, m: P.Marker)
      requires f.id in bindings && files == FlushCard(before, bindings[f.id].card)
      requires Quiet(before, records) && Found(f)
      requires SpotOf(bindings[f.id]) in before.markers && before.markers[SpotOf(bindings[f.id])].current == Some(m)
      ensures Confirmed(f) && Quiet(files, records)
      ensures files.markers[SpotOf(bindings[f.id])] == Cell([], Some(m))
      ensures SameUpstream(before, files) && SameCards(before, files)
    {
      FlushCardIsCardOnly(before, bindings[f.id].card);
      FlushCardSameCards(before, bindings[f.id].card);
      SameUpstreamFields(before, files);
    }

    ghost predicate AllFound(folders: seq<Folder>)
      reads this
    {
      AllFoundWith(folders, files, records)
    }

    ghost predicate AllFoundWith(folders: seq<Folder>, fs: Files, recs: map<string, Record>) {
      && (forall i :: 0 <= i < |folders| ==> FoundWith(folders[i], fs, recs))
      && (forall i, j :: 0 <= i < j < |folders| ==> folders[i].id != folders[j].id)
    }

    ghost predicate AllRecovered(folders: seq<Folder>, n: nat, inventory: seq<Card>)
      reads this
    {
      AllRecoveredWith(folders, n, inventory, files, records)
    }

    ghost predicate AllRecoveredWith(folders: seq<Folder>, n: nat, inventory: seq<Card>, fs: Files, recs: map<string, Record>) {
      n <= |folders| && forall i :: 0 <= i < n ==>
        && folders[i].id in bindings && folders[i].id in recs
        && Recovered(bindings[folders[i].id], folders[i], inventory, fs, recs[folders[i].id])
    }

    /** What became of the first n records, recs being those recovery started from. */
    ghost predicate AllDecided(folders: seq<Folder>, n: nat, inventory: seq<Card>, fs: Files,
                               recs: map<string, Record>, after: map<string, Record>) {
      n <= |folders| && forall i :: 0 <= i < n ==>
        && folders[i].id in bindings && folders[i].id in recs && folders[i].id in after
        && Decided(bindings[folders[i].id], folders[i], inventory, fs, recs[folders[i].id], after[folders[i].id])
    }

    /** One more record decided, by cards that read the same ever since. */
    lemma DecidedStep(folders: seq<Folder>, k: nat, inventory: seq<Card>, fs: Files,
                      recs: map<string, Record>, before: map<string, Record>)
      requires AllFoundWith(folders, fs, before) && k < |folders|
      requires AllDecided(folders, k, inventory, fs, recs, before) && NotYet(folders, k, recs, before)
      requires Step(fs, before, folders[k].id)
      requires folders[k].id in bindings && folders[k].id in before && folders[k].id in records
      requires Decided(bindings[folders[k].id], folders[k], inventory, fs, before[folders[k].id], records[folders[k].id])
      ensures AllDecided(folders, k + 1, inventory, files, recs, records) && NotYet(folders, k + 1, recs, records)
    {
      hide Decided, SameUpstream, SameCards, Quiet, FoundWith;
      forall i | 0 <= i <= k
        ensures folders[i].id in bindings && folders[i].id in recs && folders[i].id in records
        ensures Decided(bindings[folders[i].id], folders[i], inventory, files, recs[folders[i].id], records[folders[i].id])
      {
        DecidedSurvives(bindings[folders[i].id], folders[i], inventory, fs, files, recs[folders[i].id], records[folders[i].id]);
      }
    }

    /** The records from the n-th folder on are as recovery found them. */
    ghost predicate NotYet(folders: seq<Folder>, n: nat, recs: map<string, Record>, after: map<string, Record>) {
      forall i :: n <= i < |folders| ==>
        folders[i].id in recs && folders[i].id in after && after[folders[i].id] == recs[folders[i].id]
    }

    lemma NoneYet(folders: seq<Folder>, inventory: seq<Card>)
      requires AllFound(folders)
      ensures AllDecided(folders, 0, inventory, files, records, records) && NotYet(folders, 0, records, records)
    {
    }

    /** Recovering one more folder leaves the others as they were. */
    lemma RecoveredStep(folders: seq<Folder>, k: nat, inventory: seq<Card>, fs: Files, recs: map<string, Record>)
      requires AllFoundWith(folders, fs, recs) && k < |folders| && AllRecoveredWith(folders, k, inventory, fs, recs)
      requires Step(fs, recs, folders[k].id)
      requires folders[k].id in bindings && folders[k].id in records
      requires Recovered(bindings[folders[k].id], folders[k], inventory, files, records[folders[k].id])
      ensures AllFound(folders) && AllRecovered(folders, k + 1, inventory)
    {
      hide Recovered, SameUpstream;
      forall i | 0 <= i < |folders|
        ensures Found(folders[i])
      {
        assert FoundWith(folders[i], fs, recs);
        SameUpstreamAt(fs, files, folders[i].id);
      }
      forall i | 0 <= i < k
        ensures Recovered(bindings[folders[i].id], folders[i], inventory, files, records[folders[i].id])
      {
        RecoveredSurvives(bindings[folders[i].id], folders[i], inventory, fs, files, records[folders[i].id]);
      }
    }

    /** recover: unfinished work on every usable card first, then every configured folder. */
    method Recover(folders: seq<Folder>, inventory: seq<Card>) returns (ok: bool)
      requires Valid() && booted && !running && AllFound(folders)
      requires (exists c :: c in inventory && Usable(c)) ==> Quiet(files, records)
      modifies this`records, this`files, this`booted, this`diverged, this`running, this`run
      ensures Valid() && old(run) <= run
      ensures booted == ok && !running
      ensures ok ==> AllFound(folders) && AllRecovered(folders, |folders|, inventory)
      ensures ok ==> CardsTidy(inventory, |inventory|, files)
      ensures ok ==> Cleaned(old(files), files) && OthersKept(inventory, old(files), files)
      ensures ok ==> AllDecided(folders, |folders|, inventory, old(files), old(records), records)
      ensures ok ==> AllRecoverable(folders, |folders|, inventory, old(files), old(records))
      ensures uncut ==> (ok <==> AllRecoverable(folders, |folders|, inventory, old(files), old(records)))
    {
      hide P.Next, P.LegalRun, Quiet, Recovered, Valid, AllFoundWith, Step, FoundWith, CardsTidy, Decided, AllDecided, NotYet;
      hide Cleaned, Recoverable, AllRecoverable, OthersKept;
      SpotsKnown(folders);
      ok := DiscardOnCards(folders, inventory);
      if !ok {
        EndProcess();
        return;
      }
      NoneRecoverable(folders, inventory, old(files), records);
      NoneYet(folders, inventory);
      for k := 0 to |folders|
        invariant Valid() && old(run) <= run && booted && !running
        invariant AllFound(folders) && AllRecovered(folders, k, inventory)
        invariant (exists c :: c in inventory && Usable(c)) ==> Quiet(files, records)
        invariant CardsTidy(inventory, |inventory|, files)
        invariant AllDecided(folders, k, inventory, files, old(records), records)
        invariant NotYet(folders, k, old(records), records)
        invariant OthersKept(inventory, old(files), files)
        invariant Cleaned(old(files), files) && AllRecoverable(folders, k, inventory, old(files), old(records))
      {
        ghost var fs, recs := files, records;
        FoundAt(folders, k);
        ok := RecoverFolder(folders[k], inventory);
        RecoverableStep(folders, k, inventory, old(files), fs, old(records), recs);
        if !ok {
          return;
        }
        StepIsCleaned(inventory, fs, recs, folders[k].id);
        OthersKeptThen(inventory, old(files), fs, files);
        CleanedThen(old(files), fs, files);
        QuietOrSame(fs, recs, folders[k].id);
        RecoveredStep(folders, k, inventory, fs, recs);
        TidyAfterStep(inventory, fs, recs, folders[k].id);
        DecidedStep(folders, k, inventory, fs, old(records), recs);
      }
      ok := true;
      DecidedByFound(folders, inventory, old(files), files, old(records), records);
    }

    ghost predicate AllRecoverable(folders: seq<Folder>, n: nat, inventory: seq<Card>, fs: Files, recs: map<string, Record>) {
      n <= |folders| && forall i :: 0 <= i < n ==>
        && folders[i].id in bindings && folders[i].id in recs
        && Recoverable(bindings[folders[i].id], folders[i], inventory, fs, recs[folders[i].id])
    }

    /** Every folder found has its place on a card. */
    ghost predicate AllSpots(folders: seq<Folder>, fs: Files) {
      forall i :: 0 <= i < |folders| ==>
        && folders[i].id in bindings
        && SpotOf(bindings[folders[i].id]) in fs.markers && SpotOf(bindings[folders[i].id]) in fs.snapshots
    }

    lemma SpotsKnown(folders: seq<Folder>)
      requires AllFound(folders)
      ensures AllSpots(folders, files)
    {
      forall i | 0 <= i < |folders|
        ensures Found(folders[i])
      {
      }
    }

    lemma NoneRecoverable(folders: seq<Folder>, inventory: seq<Card>, fs: Files, recs: map<string, Record>)
      ensures AllRecoverable(folders, 0, inventory, fs, recs)
    {
    }

    lemma StepIsCleaned(inventory: seq<Card>, fs: Files, before: map<string, Record>, id: string)
      requires Step(fs, before, id)
      ensures Cleaned(fs, files) && OthersKept(inventory, fs, files)
    {
      hide SameCards, Cleaned, OthersKept;
      SameIsCleaned(fs, files);
      SameKeepsOthers(inventory, fs, files);
    }

    /** One more folder judged, by cards that were only cleaned up since. */
    lemma RecoverableStep(folders: seq<Folder>, k: nat, inventory: seq<Card>, start: Files, fs: Files,
                          recs: map<string, Record>, before: map<string, Record>)
      requires k < |folders| && AllSpots(folders, start) && Cleaned(start, fs)
      requires AllRecoverable(folders, k, inventory, start, recs) && NotYet(folders, k, recs, before)
      ensures folders[k].id in bindings && folders[k].id in before
      ensures Recoverable(bindings[folders[k].id], folders[k], inventory, fs, before[folders[k].id]) <==>
                AllRecoverable(folders, k + 1, inventory, start, recs)
      ensures !AllRecoverable(folders, k + 1, inventory, start, recs) ==>
                !AllRecoverable(folders, |folders|, inventory, start, recs)
    {
      hide Recoverable, Cleaned;
      var f := folders[k];
      CleanedDecidesSame(bindings[f.id], f, inventory, start, fs, before[f.id], before[f.id]);
    }

    /** What was decided by the cards cleaned up, the cards as they were found decide too. */
    lemma DecidedByFound(folders: seq<Folder>, inventory: seq<Card>, start: Files, later: Files,
                         recs: map<string, Record>, after: map<string, Record>)
      requires AllDecided(folders, |folders|, inventory, later, recs, after)
      requires AllSpots(folders, start) && Cleaned(start, later)
      ensures AllDecided(folders, |folders|, inventory, start, recs, after)
    {
      hide Decided, Cleaned;
      forall i | 0 <= i < |folders|
        ensures Decided(bindings[folders[i].id], folders[i], inventory, start, recs[folders[i].id], after[folders[i].id])
      {
        CleanedDecidesSame(bindings[folders[i].id], folders[i], inventory, start, later, recs[folders[i].id], after[folders[i].id]);
      }
    }

    lemma TidyAfterStep(inventory: seq<Card>, fs: Files, before: map<string, Record>, id: string)
      requires Step(fs, before, id) && CardsTidy(inventory, |inventory|, fs)
      ensures CardsTidy(inventory, |inventory|, files)
    {
      hide Tidy, SameCards, SameUpstream, Quiet;
      CardsTidySurvive(inventory, fs, files);
    }

    lemma FoundAt(folders: seq<Folder>, k: nat)
      requires AllFound(folders) && k < |folders|
      ensures Found(folders[k]) && folders[k].id in bindings
    {
    }

    lemma QuietOrSame(fs: Files, before: map<string, Record>, id: string)
      requires Step(fs, before, id)
      ensures id in before && id in records && (Quiet(files, records) || (files == fs && records == before))
    {
    }

    lemma CardKeepsOthers(inventory: seq<Card>, i: nat, a: Files, c: Files)
      requires i < |inventory| && Usable(inventory[i])
      requires exists b :: Discarded((inventory[i].id, Saves), a, b) && Discarded((inventory[i].id, States), b, c)
      ensures OthersKept(inventory, a, c)
    {
      hide Usable, Discarded, OthersKept;
      var b :| Discarded((inventory[i].id, Saves), a, b) && Discarded((inventory[i].id, States), b, c);
      DiscardedKeepsOthers(inventory, i, Saves, a, b);
      DiscardedKeepsOthers(inventory, i, States, b, c);
      OthersKeptThen(inventory, a, b, c);
    }

    method DiscardOnCards(folders: seq<Folder>, inventory: seq<Card>) returns (ok: bool)
      requires Valid() && AllFound(folders)
      modifies this`files, this`run
      ensures Valid() && old(run) <= run
      ensures AllFound(folders)
      ensures Quiet(old(files), records) ==> Quiet(files, records)
      ensures ok ==> CardsTidy(inventory, |inventory|, files)
      ensures Cleaned(old(files), files) && OthersKept(inventory, old(files), files)
      ensures uncut ==> ok
    {
      hide P.Next, P.LegalRun, CardOnly, Quiet, AllFoundWith, Valid, Tidy, Discarded, Cleaned, SameCards, OthersKept, Usable;
      CardOnlyRefl(files);
      SameCardsFields(files, files);
      SameIsCleaned(files, files);
      SameKeepsOthers(inventory, files, files);
      for i := 0 to |inventory|
        invariant Valid() && old(run) <= run && CardOnly(old(files), files)
        invariant CardsTidy(inventory, i, files) && Cleaned(old(files), files)
        invariant OthersKept(inventory, old(files), files)
      {
        if Usable(inventory[i]) {
          ghost var before := files;
          ok := DiscardOnCard(inventory[i].id);
          CardKeepsOthers(inventory, i, before, files);
          OthersKeptThen(inventory, old(files), before, files);
          CardOnlyTransitive(old(files), before, files);
          CleanedThen(old(files), before, files);
          if !ok {
            FoundAfterCards(folders, old(files));
            return;
          }
          ghost var between :| Discarded((inventory[i].id, Saves), before, between) && Tidy((inventory[i].id, Saves), between)
            && Discarded((inventory[i].id, States), between, files);
          OneCardTidied(inventory, i, before, between, files);
        }
      }
      FoundAfterCards(folders, old(files));
      ok := true;
    }

    lemma FoundAfterCards(folders: seq<Folder>, fs: Files)
      requires AllFoundWith(folders, fs, records) && CardOnly(fs, files)
      ensures AllFound(folders)
      ensures Quiet(fs, records) ==> Quiet(files, records)
    {
      forall i | 0 <= i < |folders|
        ensures Found(folders[i])
      {
        assert FoundWith(folders[i], fs, records);
      }
    }

    // --------------------------------------------------------------- bootstrap

    /** Only the pause flags upstream will start with changed. */
    ghost predicate PausesOnly(fs: Files, after: Files) {
      && after == fs.(upstream := after.upstream)
      && after.upstream.Keys == fs.upstream.Keys
      && forall id :: id in fs.upstream ==> after.upstream[id].current.folderType == fs.upstream[id].current.folderType
    }

    method EditPause(f: Folder, paused: bool) returns (ok: bool)
      requires Valid() && Found(f) && booted && (!paused ==> !records[f.id].firstSync)
      modifies this`files, this`run
      ensures Valid() && old(run) <= run
      ensures PausesOnly(old(files), files)
      ensures forall id :: id in files.upstream && id != f.id ==> files.upstream[id] == old(files).upstream[id]
      ensures ok ==> files.upstream[f.id].current.paused == paused
      ensures uncut ==> ok
    {
      hide P.Next, P.LegalRun;
      ok := CallUpstream(f.id, files.upstream[f.id].current.(paused := paused));
    }

    lemma FoundAfterPauses(folders: seq<Folder>, inventory: seq<Card>, fs: Files)
      requires AllFoundWith(folders, fs, records) && AllRecoveredWith(folders, |folders|, inventory, fs, records)
      requires PausesOnly(fs, files)
      ensures AllFound(folders) && AllRecovered(folders, |folders|, inventory)
    {
      forall i | 0 <= i < |folders|
        ensures Found(folders[i])
        ensures Recovered(bindings[folders[i].id], folders[i], inventory, files, records[folders[i].id])
      {
        assert FoundWith(folders[i], fs, records);
        SameCardsFields(fs, files);
        RecoveredSurvives(bindings[folders[i].id], folders[i], inventory, fs, files, records[folders[i].id]);
      }
    }

    /** The offline pause set: every folder that may not run is paused in the config upstream will read. */
    method ApplyPauses(folders: seq<Folder>, inventory: seq<Card>) returns (ok: bool)
      requires Valid() && booted && AllFound(folders) && AllRecovered(folders, |folders|, inventory)
      modifies this`files, this`run
      ensures Valid() && old(run) <= run
      ensures AllFound(folders) && AllRecovered(folders, |folders|, inventory)
      ensures PausesOnly(old(files), files)
      ensures ok ==> forall i :: 0 <= i < |folders| ==>
                files.upstream[folders[i].id].current.paused == !MayRun(folders[i], inventory, records)
      ensures uncut ==> ok
    {
      hide P.Next, P.LegalRun, Recovered, Valid, MayRun;
      var pauses := RequiredOfflinePauseSet(folders, inventory, records);
      for k := 0 to |folders|
        invariant Valid() && old(run) <= run && PausesOnly(old(files), files)
        invariant AllFound(folders)
        invariant forall i :: 0 <= i < k ==>
                    files.upstream[folders[i].id].current.paused == !MayRun(folders[i], inventory, records)
      {
        MayRunIsClear(folders[k], inventory);
        ok := EditPause(folders[k], pauses[folders[k].id]);
        if !ok {
          FoundAfterPauses(folders, inventory, old(files));
          return;
        }
      }
      FoundAfterPauses(folders, inventory, old(files));
      ok := true;
    }

    lemma MayRunIsClear(f: Folder, inventory: seq<Card>)
      ensures MayRun(f, inventory, records) ==> f.id in records && !records[f.id].firstSync
    {
    }

    /** What a successful startup promises about every configured folder. */
    ghost predicate Started(folders: seq<Folder>, inventory: seq<Card>)
      reads this
    {
      StartedWith(folders, inventory, files, records)
    }

    ghost predicate StartedWith(folders: seq<Folder>, inventory: seq<Card>, fs: Files, recs: map<string, Record>) {
      && AllFoundWith(folders, fs, recs) && AllRecoveredWith(folders, |folders|, inventory, fs, recs)
      && forall i :: 0 <= i < |folders| ==>
           fs.upstream[folders[i].id].current.paused == !MayRun(folders[i], inventory, recs)
    }

    lemma StartedAfterFlush(folders: seq<Folder>, inventory: seq<Card>, fs: Files)
      requires StartedWith(folders, inventory, fs, records) && records.Keys == fs.disk.Keys
      requires files == FlushPrimary(fs, records)
      ensures Started(folders, inventory)
    {
      hide MayRun;
      forall i | 0 <= i < |folders|
        ensures Found(folders[i])
        ensures Recovered(bindings[folders[i].id], folders[i], inventory, files, records[folders[i].id])
      {
        assert FoundWith(folders[i], fs, records);
        SameCardsFields(fs, files);
        RecoveredSurvives(bindings[folders[i].id], folders[i], inventory, fs, files, records[folders[i].id]);
      }
    }

    /** Reading folder-control.json into memory. */
    method ReadDocument()
      requires Valid() && !booted && !running
      modifies this`records, this`booted, this`run
      ensures Valid() && old(run) <= run
      ensures booted && records == Reload(files)
    {
      hide P.Next, P.LegalRun;
      ReloadIsStep(focus, files, records, running, booted, diverged);
      records := Reload(files);
      booted := true;
      Log();
    }

    /** Folders as the config and the document on disk describe them. */
    ghost predicate OnDisk(f: Folder)
      reads this
    {
      && f.id in bindings && f.id in files.disk && f.id in files.upstream
      && files.disk[f.id].current.cardId == bindings[f.id].card && files.disk[f.id].current.kind == bindings[f.id].kind
      && f.kind == bindings[f.id].kind
      && files.upstream[f.id].current.folderType == f.folderType
      && SpotOf(bindings[f.id]) in files.markers
    }

    method StartUpstream()
      requires Valid() && booted
      requires forall id :: id in bindings && !files.upstream[id].current.paused ==> !records[id].firstSync
      modifies this`running, this`run
      ensures Valid() && old(run) <= run && running
    {
      hide P.Next, P.LegalRun;
      running := true;
      P.StartUpstreamIsNext(focus, run[|run| - 1], Now());
      Log();
    }

    ghost predicate AllOnDisk(folders: seq<Folder>)
      reads this
    {
      && (forall i :: 0 <= i < |folders| ==> OnDisk(folders[i]))
      && (forall i, j :: 0 <= i < j < |folders| ==> folders[i].id != folders[j].id)
    }

    ghost predicate CoversBindings(folders: seq<Folder>) {
      forall id :: id in bindings ==> exists i :: 0 <= i < |folders| && folders[i].id == id
    }

    /**
     * Startup up to and including the start of upstream. Every bound folder is
     * configured: a missing one fails the reconciliation that precedes this.
     */
    method Bootstrap(folders: seq<Folder>, inventory: seq<Card>) returns (ok: bool)
      requires Valid() && !booted && !running
      requires AllOnDisk(folders) && CoversBindings(folders)
      modifies this`records, this`files, this`booted, this`diverged, this`running, this`run
      ensures Valid() && old(run) <= run
      ensures booted == running == ok
      ensures ok ==> Started(folders, inventory)
      ensures ok ==> CardsTidy(inventory, |inventory|, files)
      ensures ok ==> Cleaned(old(files), files) && OthersKept(inventory, old(files), files)
      ensures ok ==> AllDecided(folders, |folders|, inventory, old(files), Reload(old(files)), records)
      ensures uncut ==> (ok <==> AllRecoverable(folders, |folders|, inventory, old(files), Reload(old(files))))
    {
      hide P.Next, P.LegalRun, Recovered, MayRun, Quiet, Valid, AllFound, AllRecovered, AllOnDisk, StartedWith, CardsTidy, AllDecided;
      hide SameCards;
      hide Cleaned, AllRecoverable, OthersKept;
      ok := LoadAndRead(folders, inventory);
      if ok {
        ghost var loaded := files;
        SpotsKnown(folders);
        SameIsCleaned(old(files), loaded);
        JudgedByFound(folders, inventory, old(files), loaded, records);
        ok := Recover(folders, inventory);
        if ok {
          ghost var recovered := files;
          ok := FinishStart(folders, inventory);
          if ok {
            CardsTidySurvive(inventory, recovered, files);
            SameIsCleaned(recovered, files);
            CleanedThen(loaded, recovered, files);
            CleanedThen(old(files), loaded, files);
            SameKeepsOthers(inventory, old(files), loaded);
            SameKeepsOthers(inventory, recovered, files);
            OthersKeptThen(inventory, loaded, recovered, files);
            OthersKeptThen(inventory, old(files), loaded, files);
            DecidedByFound(folders, inventory, old(files), loaded, Reload(old(files)), records);
          }
        }
      }
    }

    /** Flushing the primary filesystem is nothing to the cards. */
    lemma JudgedByFound(folders: seq<Folder>, inventory: seq<Card>, start: Files, loaded: Files, recs: map<string, Record>)
      requires AllSpots(folders, loaded) && SameCards(start, loaded)
      ensures AllSpots(folders, start)
      ensures AllRecoverable(folders, |folders|, inventory, start, recs) <==>
                AllRecoverable(folders, |folders|, inventory, loaded, recs)
    {
      hide Recoverable, Cleaned;
      SameIsCleaned(start, loaded);
      forall i | 0 <= i < |folders| && folders[i].id in recs
        ensures Recoverable(bindings[folders[i].id], folders[i], inventory, start, recs[folders[i].id]) <==>
                  Recoverable(bindings[folders[i].id], folders[i], inventory, loaded, recs[folders[i].id])
      {
        CleanedDecidesSame(bindings[folders[i].id], folders[i], inventory, start, loaded, recs[folders[i].id], recs[folders[i].id]);
      }
    }

    method LoadAndRead(folders: seq<Folder>, inventory: seq<Card>) returns (ok: bool)
      requires Valid() && !booted && !running && AllOnDisk(folders)
      modifies this`records, this`files, this`booted, this`run
      ensures Valid() && old(run) <= run
      ensures booted == ok
      ensures ok ==> AllFound(folders)
      ensures ok ==> (exists c :: c in inventory && Usable(c)) ==> Quiet(files, records)
      ensures ok ==> records == Reload(old(files))
      ensures SameCards(old(files), files)
      ensures uncut ==> ok
    {
      hide P.Next, P.LegalRun, Quiet;
      FlushKeepsReload(files, records);
      ok := LoadCards(inventory);
      SameCardsFields(old(files), files);
      if ok {
        ReadDocument();
        FoundOnRead(folders);
      }
    }

    lemma FlushKeepsReload(fs: Files, recs: map<string, Record>)
      requires recs.Keys == fs.disk.Keys
      ensures Reload(FlushPrimary(fs, recs)) == Reload(fs)
    {
    }

    lemma FoundOnRead(folders: seq<Folder>)
      requires Valid() && records == Reload(files) && AllOnDisk(folders)
      ensures AllFound(folders)
      ensures (forall id :: id in bindings ==> files.disk[id].Settled() && files.upstream[id].Settled()) ==> Quiet(files, records)
    {
      hide P.Next, P.LegalRun;
      assert files.disk.Keys == bindings.Keys && files.upstream.Keys == bindings.Keys;
      if forall id :: id in bindings ==> files.disk[id].Settled() && files.upstream[id].Settled() {
        forall id | id in files.disk
          ensures files.disk[id] == Cell([], records[id])
        {
          assert id in bindings && files.disk[id].Settled();
        }
        assert forall id :: id in files.upstream ==> id in bindings;
      }
    }

    method FinishStart(folders: seq<Folder>, inventory: seq<Card>) returns (ok: bool)
      requires Valid() && booted && !running && AllFound(folders) && AllRecovered(folders, |folders|, inventory)
      requires CoversBindings(folders)
      modifies this`records, this`files, this`booted, this`running, this`run
      ensures Valid() && old(run) <= run
      ensures booted == running == ok
      ensures ok ==> Started(folders, inventory) && records == old(records) && SameCards(old(files), files)
      ensures uncut ==> ok
    {
      hide P.Next, P.LegalRun, Recovered, MayRun, Valid, SameCards;
      ok := ApplyPauses(folders, inventory);
      if ok {
        ghost var edited := files;
        KeysMatch();
        ok := SyncPrimary();
        if ok {
          StartedAfterFlush(folders, inventory, edited);
          SameCardsFields(old(files), files);
        }
      }
      if !ok {
        EndProcess();
        return;
      }
      MayStart(folders, inventory);
      StartUpstream();
    }

    lemma KeysMatch()
      requires Valid()
      ensures records.Keys == files.disk.Keys
    {
      hide P.Next, P.LegalRun;
    }

    lemma MayStart(folders: seq<Folder>, inventory: seq<Card>)
      requires Started(folders, inventory) && CoversBindings(folders)
      ensures forall id :: id in bindings ==> id in files.upstream && id in records
      ensures forall id :: id in bindings && !files.upstream[id].current.paused ==> !records[id].firstSync
    {
      hide MayRun, Recovered;
      forall id | id in bindings
        ensures id in files.upstream && id in records
        ensures !files.upstream[id].current.paused ==> !records[id].firstSync
      {
        var i :| 0 <= i < |folders| && folders[i].id == id;
        assert Found(folders[i]);
        MayRunIsClear(folders[i], inventory);
      }
    }

    /**
     * After a successful startup, a folder that can receive and is not paused has
     * exactly one usable card, whose marker for the current epoch recovery has
     * read, and no power loss can take that protection away.
     */
    lemma UnpausedFolderIsProtected(folders: seq<Folder>, inventory: seq<Card>, i: nat)
      requires Valid() && Started(folders, inventory)
      requires i < |folders| && folders[i].id == focus.folder
      requires folders[i].folderType != SendOnly && !files.upstream[focus.folder].current.paused
      ensures P.Protected(focus, Now(), records[focus.folder].epoch)
      ensures exists j :: OnlyCard(inventory, j, focus.card) && Usable(inventory[j])
                && MarkerAccepted(focus, folders[i], inventory[j], files, records[focus.folder].epoch)
    {
      hide P.Next, P.LegalRun, ReadFirstSyncMarker, P.Protected;
      var f := folders[i];
      assert Found(f);
      MayRunMeansOneUsableCard(f, inventory, records);
      var j :| OnlyCard(inventory, j, records[f.id].cardId) && Usable(inventory[j]);
      assert CardFor(inventory, j, records[f.id]) && MarkerAccepted(focus, f, inventory[j], files, records[f.id].epoch);
      P.ClearedMemoryIsProtected(focus, run, |run| - 1);
    }

    // ------------------------------------------------------ controller operations

    /** The one inventory card of a record, if it may be written. */
    static method UsableCardFor(r: Record, inventory: seq<Card>) returns (card: Option<Card>)
      ensures card.Some? <==> exists i :: CardFor(inventory, i, r) && Usable(inventory[i])
      ensures card.Some? ==> exists i :: CardFor(inventory, i, r) && inventory[i] == card.value && Usable(card.value)
    {
      var candidates := Candidates(inventory, r.cardId, |inventory|);
      OneCandidate(inventory, r.cardId, |inventory|);
      if !CompleteBinding(r) || |candidates| != 1 || !Usable(candidates[0]) {
        return None;
      }
      ghost var at :| 0 <= at < |inventory| && inventory[at].id == r.cardId && r.cardId != ""
        && forall j :: 0 <= j < |inventory| && inventory[j].id == r.cardId ==> j == at;
      assert CardFor(inventory, at, r) && inventory[at] == candidates[0];
      return Some(candidates[0]);
    }

    /** loadCards and the card of one folder; what it returns is confirmed on the primary filesystem. */
    method LoadFolderCard(f: Folder, inventory: seq<Card>) returns (card: Option<Card>)
      requires Valid() && Found(f)
      modifies this`files, this`run
      ensures Valid() && old(run) <= run
      ensures SameUpstream(old(files), files) && SameCards(old(files), files) && files.gaps <= old(files).gaps
      ensures Found(f)
      ensures card.Some? ==> Confirmed(f) && Usable(card.value) && card.value.id == bindings[f.id].card
      ensures card.Some? ==> card.value in inventory && HasCard(inventory, records[f.id], card.value)
      ensures files.markers == old(files).markers && files.snapshots == old(files).snapshots
      ensures uncut ==> (card.Some? <==> exists c :: HasCard(inventory, records[f.id], c))
    {
      hide P.Next, P.LegalRun;
      var ok := LoadCards(inventory);
      SameCardsFields(old(files), files);
      if !ok {
        return None;
      }
      card := UsableCardFor(records[f.id], inventory);
    }

    method PrepareFirstSync(f: Folder, inventory: seq<Card>, scanned: seq<P.Entry>, walked: seq<P.Entry>,
                            enoughSpace: bool, name: string) returns (ok: bool)
      requires Valid() && booted && Found(f) && name != ""
      modifies this`files, this`run
      ensures Valid() && old(run) <= run
      ensures Found(f) && SameBut(SpotOf(bindings[f.id]), name, old(files), files)
      ensures ok ==> HasSnapshot(f.id, name)
      ensures ok ==> P.SnapshotDurable(bindings[f.id], SnapshotNamed(f.id, name), name, records[f.id].epoch)
      ensures ok ==> SnapshotNamed(f.id, name).content.current.copied == walked
      ensures ok ==> exists c :: HasCard(inventory, records[f.id], c) && Preparable(f, c, records[f.id])
      ensures ok ==> forall c :: HasCard(inventory, records[f.id], c) ==>
                ReadNamed(files.snapshots[SpotOf(bindings[f.id])], name, f, c, records[f.id].epoch).HeaderOk?
      ensures uncut ==> (ok <==>
                && (exists c :: HasCard(inventory, records[f.id], c) && Preparable(f, c, records[f.id])) && enoughSpace
                && name !in old(files).snapshots[SpotOf(bindings[f.id])]
                && |walked| <= MAX_SNAPSHOT_ENTRIES && SameTotals(scanned, walked))
    {
      hide P.Next, P.LegalRun, Usable, BindingValid, P.SnapshotDurable, SameCards, SameUpstream, SameBut, HasCard, SameTotals;
      SameButItself(SpotOf(bindings[f.id]), name, files);
      var card := LoadFolderCard(f, inventory);
      SameCardsBut(SpotOf(bindings[f.id]), name, old(files), files);
      if card.None? {
        return false;
      }
      OneCard(inventory, records[f.id], card.value);
      ghost var loaded := files;
      ok := Prepare(f, card.value, scanned, walked, enoughSpace, name);
      SameButThen(SpotOf(bindings[f.id]), name, old(files), loaded, files);
      ConfirmedIsFound(f, loaded);
    }

    lemma ConfirmedIsFound(f: Folder, before: Files)
      requires FoundWith(f, before, records) && CardOnly(before, files)
      ensures Found(f)
    {
    }

    /** Completes first sync and, if nothing else pauses the folder, lets it run. */
    method StartFirstSync(f: Folder, inventory: seq<Card>, hubAcknowledged: bool) returns (ok: bool)
      requires Valid() && booted && Found(f)
      modifies this`records, this`files, this`booted, this`diverged, this`running, this`run
      ensures Valid() && old(run) <= run
      ensures ok ==> hubAcknowledged && old(records)[f.id].firstSync && !records[f.id].firstSync && f.id !in files.gaps
      ensures ok && MayRun(f, inventory, records) ==> f.id in files.upstream && !files.upstream[f.id].current.paused
      ensures ok && f.id == focus.folder ==> P.Protected(focus, Now(), records[f.id].epoch)
      ensures ok ==> Completed(f, inventory, old(records), old(files))
      ensures uncut ==> (ok <==> hubAcknowledged && exists c ::
                HasCard(inventory, old(records)[f.id], c) && Completable(f, c, old(records)[f.id], old(files)))
    {
      hide P.Next, P.LegalRun, P.Protected, Usable, BindingValid, SameCards, SameUpstream, FoundIn, ConfirmedIn, MayRun;
      hide HasCard, MarkerAccepted, Prepared, SameButMarker, CompletedWith, Valid, Quiet;
      ghost var r := records[f.id];
      if !records[f.id].firstSync {
        return false;
      }
      var card := LoadFolderCard(f, inventory);
      if card.None? {
        return false;
      }
      OneCard(inventory, r, card.value);
      ghost var loaded := files;
      ok := StartOn(f, card.value, inventory, hubAcknowledged);
      if ok {
        CompletedSince(f, inventory, old(records), old(files), loaded);
      }
    }

    /** With the card at hand. */
    method StartOn(f: Folder, c: Card, inventory: seq<Card>, hubAcknowledged: bool) returns (ok: bool)
      requires Valid() && booted && Found(f) && Confirmed(f)
      requires forall d :: HasCard(inventory, records[f.id], d) ==> d == c
      modifies this`records, this`files, this`booted, this`diverged, this`running, this`run
      ensures Valid() && old(run) <= run
      ensures ok ==> hubAcknowledged && old(records)[f.id].firstSync && !records[f.id].firstSync && f.id !in files.gaps
      ensures ok && MayRun(f, inventory, records) ==> f.id in files.upstream && !files.upstream[f.id].current.paused
      ensures ok && f.id == focus.folder ==> P.Protected(focus, Now(), records[f.id].epoch)
      ensures ok ==> booted && CompletedWith(f, inventory, old(records), old(files), files, records)
      ensures uncut ==> (ok <==> hubAcknowledged && Completable(f, c, old(records)[f.id], old(files)))
    {
      hide P.Next, P.LegalRun, P.Protected, Usable, BindingValid, SameCards, SameUpstream, FoundIn, ConfirmedIn, MayRun;
      hide HasCard, MarkerAccepted, Prepared, SameButMarker, CompletedWith, Valid, Quiet, Completable;
      ghost var before := files;
      ok := Complete(f, c, hubAcknowledged);
      if ok {
        StillFound(f, before);
        SameCardsFields(before, before);
        JustCompleted(f, c, inventory, old(records), before, before);
        ghost var completed := files;
        ok := ResumeProtected(f, inventory);
        CompletedStays(f, inventory, old(records), before, completed);
      }
    }

    lemma CompletedSince(f: Folder, inventory: seq<Card>, recs: map<string, Record>, start: Files, loaded: Files)
      requires CompletedWith(f, inventory, recs, loaded, files, records) && SameCards(start, loaded)
      ensures CompletedWith(f, inventory, recs, start, files, records)
    {
      hide HasCard, MarkerAccepted, SameButMarker, SameCards;
      SameCardsButMarker(SpotOf(bindings[f.id]), start, loaded);
      SameButMarkerThen(SpotOf(bindings[f.id]), start, loaded, files);
    }

    /**
     * First sync of a folder is completed: its record alone changed, durably, and
     * the marker on its card is one that the next start accepts, unless the folder
     * is of a type no folder may run with.
     */
    ghost predicate Completed(f: Folder, inventory: seq<Card>, recs: map<string, Record>, fs: Files)
      reads this
    {
      booted && CompletedWith(f, inventory, recs, fs, files, records)
    }

    ghost predicate CompletedWith(f: Folder, inventory: seq<Card>, recs: map<string, Record>, fs: Files,
                                  now: Files, after: map<string, Record>) {
      && f.id in recs && f.id in bindings && FoundWith(f, now, after)
      && after == recs[f.id := recs[f.id].(firstSync := false)]
      && f.id in now.disk && now.disk[f.id] == Cell([], after[f.id])
      && SameButMarker(SpotOf(bindings[f.id]), fs, now)
      && forall c :: HasCard(inventory, recs[f.id], c) ==>
           (MarkerAccepted(bindings[f.id], f, c, now, after[f.id].epoch) <==> !f.folderType.Unsupported?)
    }

    /**
     * A first sync from beginning to end. Uncut, it succeeds exactly if the folder
     * and its card qualify, there is space, the copy agrees with the scan, the hub
     * is acknowledged, and no damaged snapshot is newer than the one just made.
     */
    method PrepareThenStart(f: Folder, inventory: seq<Card>, scanned: seq<P.Entry>, walked: seq<P.Entry>,
                            enoughSpace: bool, name: string, hubAcknowledged: bool) returns (ok: bool)
      requires Valid() && booted && Found(f) && name != "" && uncut
      modifies this`records, this`files, this`booted, this`diverged, this`running, this`run
      ensures Valid() && old(run) <= run
      ensures ok <==>
                && (exists c :: HasCard(inventory, old(records)[f.id], c) && Preparable(f, c, old(records)[f.id])
                      && NoDamageAfter(old(files).snapshots[SpotOf(bindings[f.id])], name, f, c, old(records)[f.id].epoch))
                && enoughSpace && name !in old(files).snapshots[SpotOf(bindings[f.id])]
                && |walked| <= MAX_SNAPSHOT_ENTRIES && SameTotals(scanned, walked) && hubAcknowledged
      ensures ok ==> booted && Found(f)
      ensures ok ==> records == old(records)[f.id := old(records)[f.id].(firstSync := false)]
      ensures ok && MayRun(f, inventory, records) ==> f.id in files.upstream && !files.upstream[f.id].current.paused
      ensures ok && f.id == focus.folder ==> P.Protected(focus, Now(), records[f.id].epoch)
      ensures ok ==> forall c :: HasCard(inventory, old(records)[f.id], c) ==>
                (MarkerAccepted(bindings[f.id], f, c, files, records[f.id].epoch) <==> !f.folderType.Unsupported?)
    {
      hide P.Next, P.LegalRun, P.Protected, P.SnapshotDurable, BindingValid, SameBut, FoundIn, MayRun;
      hide HasCard, MarkerAccepted, SameButMarker, Valid, SameTotals, Prepared, NoDamageAfter, Usable;
      ghost var r, start, spot := records[f.id], files, SpotOf(bindings[f.id]);
      ok := PrepareFirstSync(f, inventory, scanned, walked, enoughSpace, name);
      if ok {
        ghost var c :| HasCard(inventory, r, c) && Preparable(f, c, r);
        OneCard(inventory, r, c);
        SpotIsThere(f, start);
        SpotIsThere(f, files);
        NewestOfMore(spot, name, start, files, f, c, r.epoch);
        ok := StartFirstSync(f, inventory, hubAcknowledged);
      }
    }

    lemma SpotIsThere(f: Folder, fs: Files)
      requires FoundIn(f, fs)
      ensures SpotOf(bindings[f.id]) in fs.snapshots && f.kind == bindings[f.id].kind
    {
    }

    lemma ProtectedSurvives(after: Files)
      requires Valid() && P.Protected(focus, Now(), records[focus.folder].epoch) && AfterPowerLoss(files, after)
      ensures SpotOf(focus) in files.markers && SpotOf(focus) in after.markers && SpotOf(focus) in after.snapshots
      ensures SpotOf(focus) in files.snapshots
      ensures files.markers[SpotOf(focus)].current.Some? && after.markers[SpotOf(focus)] == files.markers[SpotOf(focus)]
      ensures var m := files.markers[SpotOf(focus)].current.value;
              && (m.mode.Seed? <==> m.folderType.SendOnly?)
              && (m.mode.FromSnapshot? ==>
                    && m.mode.name in files.snapshots[SpotOf(focus)] && m.mode.name in after.snapshots[SpotOf(focus)]
                    && after.snapshots[SpotOf(focus)][m.mode.name] == files.snapshots[SpotOf(focus)][m.mode.name])
    {
      hide P.Next, P.LegalRun;
      var m := files.markers[SpotOf(focus)].current.value;
      if m.mode.FromSnapshot? {
        assert files.snapshots[SpotOf(focus)][m.mode.name].Survives(after.snapshots[SpotOf(focus)][m.mode.name]);
      }
    }

    lemma RecordSurvives(f: Folder, after: Files)
      requires f.id in files.disk && files.disk[f.id].Settled() && AfterPowerLoss(files, after)
      ensures f.id in after.disk && Reload(after)[f.id] == files.disk[f.id].current
    {
    }

    /** The verdict on a completed record, once it is known for which slots the marker is accepted. */
    lemma OnceDecided(f: Folder, again: seq<Card>, c: Card, m: P.Marker, after: Files, r: Record, r': Record)
      requires Decided(focus, f, again, after, r, r') && !r.firstSync && r.cardId == c.id
      requires SpotOf(focus) in after.markers && SpotOf(focus) in after.snapshots
      requires after.markers[SpotOf(focus)].current == Some(m)
      requires forall d: Card :: d.id == c.id ==>
                 var read := ReadFirstSyncMarker(Some(m), after.snapshots[SpotOf(focus)], f, d, r.epoch);
                 && (read.MarkerOk? <==> f.folderType.SendOnly? || d.source == c.source)
                 && !read.MarkerError?
      ensures r' == r <==> f.folderType.SendOnly? || forall d :: HasCard(again, r, d) ==> d.source == c.source
      ensures r' != r ==> r' == r.(firstSync := true, epoch := r.epoch + 1)
    {
      hide ReadFirstSyncMarker, Usable;
      if d :| HasCard(again, r, d) {
        OneCard(again, r, d);
        var i :| CardFor(again, i, r) && again[i] == d;
        assert DecidedOn(focus, f, d, after, r, r');
      } else {
        forall i | OnlyCard(again, i, r.cardId)
          ensures !CardFor(again, i, r) || !Usable(again[i])
        {
          assert !HasCard(again, r, again[i]);
        }
      }
    }

    /**
     * What a power loss after completion leaves is a record without first-sync and
     * a marker that can be read; the next recovery keeps first sync completed
     * exactly if the folder only sends, its card is away, or the card is in the
     * slot it was in.
     */
    lemma CompletionLasts(f: Folder, inventory: seq<Card>, c: Card, recs: map<string, Record>, fs: Files,
                          after: Files, again: seq<Card>, r': Record)
      requires Valid() && f.id == focus.folder && !records[f.id].firstSync && Completed(f, inventory, recs, fs)
      requires P.Protected(focus, Now(), records[f.id].epoch)
      requires HasCard(inventory, recs[f.id], c) && !f.folderType.Unsupported?
      requires AfterPowerLoss(files, after)
      requires Decided(focus, f, again, after, Reload(after)[f.id], r')
      ensures Reload(after)[f.id] == records[f.id]
      ensures r' == records[f.id] <==>
                f.folderType.SendOnly? || forall d :: HasCard(again, records[f.id], d) ==> d.source == c.source
      ensures r' != records[f.id] ==> r' == records[f.id].(firstSync := true, epoch := records[f.id].epoch + 1)
    {
      hide P.Next, P.LegalRun, P.Protected, AfterPowerLoss, ReadFirstSyncMarker, ReadNamed, FoundWith, SameButMarker, Usable;
      ProtectedSurvives(after);
      RecordSurvives(f, after);
      var m := files.markers[SpotOf(focus)].current.value;
      assert MarkerAccepted(focus, f, c, files, records[f.id].epoch);
      forall d: Card | d.id == c.id
        ensures var read := ReadFirstSyncMarker(Some(m), after.snapshots[SpotOf(focus)], f, d, records[f.id].epoch);
                && (read.MarkerOk? <==> f.folderType.SendOnly? || d.source == c.source)
                && !read.MarkerError?
      {
        OtherSlot(m, files.snapshots[SpotOf(focus)], after.snapshots[SpotOf(focus)], f, c, d, records[f.id].epoch);
      }
      OnceDecided(f, again, c, m, after, records[f.id], r');
    }

    /** Unpaused or not, what completion left on the cards and in the record stays. */
    lemma CompletedStays(f: Folder, inventory: seq<Card>, recs: map<string, Record>, fs: Files, before: Files)
      requires CompletedWith(f, inventory, recs, fs, before, records) && PausesOnly(before, files)
      ensures CompletedWith(f, inventory, recs, fs, files, records)
    {
      hide HasCard, ReadFirstSyncMarker, SameButMarker;
      SameCardsFields(before, files);
      SameCardsButMarker(SpotOf(bindings[f.id]), before, files);
      SameButMarkerThen(SpotOf(bindings[f.id]), fs, before, files);
    }

    /** Unpausing keeps the protection that completion has just established. */
    method ResumeProtected(f: Folder, inventory: seq<Card>) returns (ok: bool)
      requires Valid() && booted && Found(f)
      requires !records[f.id].firstSync && f.id !in files.gaps
      modifies this`files, this`run
      ensures Valid() && old(run) <= run && f.id !in files.gaps
      ensures f.id == focus.folder ==> P.Protected(focus, Now(), records[f.id].epoch)
      ensures ok && MayRun(f, inventory, records) ==> f.id in files.upstream && !files.upstream[f.id].current.paused
      ensures PausesOnly(old(files), files)
      ensures uncut ==> ok
    {
      hide P.Next, P.LegalRun, P.Protected, MayRun;
      ok := UnpauseIfAllowed(f, inventory);
      if f.id == focus.folder {
        MemoryIsProtected();
      }
    }

    lemma JustCompleted(f: Folder, c: Card, inventory: seq<Card>, recs: map<string, Record>, fs: Files, before: Files)
      requires Found(f) && f.id in recs && f.id in bindings && Quiet(files, records)
      requires records == recs[f.id := recs[f.id].(firstSync := false)]
      requires SameCards(fs, before) && SameButMarker(SpotOf(bindings[f.id]), before, files)
      requires forall d :: HasCard(inventory, recs[f.id], d) ==> d == c
      requires MarkerAccepted(bindings[f.id], f, c, files, records[f.id].epoch) <==> !f.folderType.Unsupported?
      ensures CompletedWith(f, inventory, recs, fs, files, records)
    {
      hide SameCards, SameButMarker, MarkerAccepted, HasCard;
      SameCardsButMarker(SpotOf(bindings[f.id]), fs, before);
      SameButMarkerThen(SpotOf(bindings[f.id]), fs, before, files);
    }

    lemma StillFound(f: Folder, before: Files)
      requires Valid() && f.id in bindings && f.id in records && Carries(f.id)
      requires FoundIn(f, before)
      requires SameUpstream(before, files) && before.markers.Keys == files.markers.Keys
      ensures Found(f)
    {
      hide P.Next, P.LegalRun;
    }

    /** What the operations below rely on when they unpause: the marker on the card decides, and nothing else. */
    lemma RunningIsSafeExactly()
      requires Valid() && running && !files.upstream[focus.folder].current.paused
      ensures P.SafeToRun(focus, Now(), records[focus.folder].epoch) <==>
                P.MarkerFor(focus, files.markers[SpotOf(focus)].current, records[focus.folder].epoch)
    {
      hide P.Next, P.LegalRun, P.SafeToRun;
      P.RunningFolderIsProtected(focus, run, |run| - 1);
    }

    lemma MemoryIsProtected()
      requires Valid() && !records[focus.folder].firstSync && focus.folder !in files.gaps
      ensures P.Protected(focus, Now(), records[focus.folder].epoch)
    {
      hide P.Next, P.LegalRun, P.Protected;
      P.ClearedMemoryIsProtected(focus, run, |run| - 1);
    }

    /** The runtime end of every operation that paused a folder: ask the pause set again. */
    method UnpauseIfAllowed(f: Folder, inventory: seq<Card>) returns (ok: bool)
      requires Valid() && booted && Found(f)
      modifies this`files, this`run
      ensures Valid() && old(run) <= run
      ensures PausesOnly(old(files), files)
      ensures ok && MayRun(f, inventory, records) ==> !files.upstream[f.id].current.paused
      ensures !MayRun(f, inventory, records) ==> files == old(files)
      ensures uncut ==> ok
    {
      hide P.Next, P.LegalRun, MayRun, Found;
      var pauses := RequiredOfflinePauseSet([f], inventory, records);
      assert [f][0] == f;
      ok := true;
      if !pauses[f.id] {
        MayRunIsClear(f, inventory);
        ok := EditPause(f, false);
      }
    }

    /**
     * Changes the folder type while upstream is paused. Crossing into or out of
     * send-only needs a new first sync, so the old one is invalidated before the
     * type changes.
     */
    method SetFolderType(f: Folder, folderType: FolderType, inventory: seq<Card>) returns (ok: bool)
      requires Valid() && booted && Found(f)
      modifies this`records, this`files, this`booted, this`diverged, this`running, this`run
      ensures Valid() && old(run) <= run
      ensures ok ==> files.upstream[f.id].current.folderType == folderType
      ensures ok && !SameClass(f.folderType, folderType) ==>
                && records[f.id].firstSync && records[f.id].epoch == old(records)[f.id].epoch + 1
                && files.upstream[f.id].current.paused
      ensures ok && SameClass(f.folderType, folderType) ==> records == old(records)
      ensures f.folderType == folderType ==> ok && files == old(files)
      ensures ok && f.folderType != folderType ==> exists c ::
                && c in inventory && Usable(c) && c.id == bindings[f.id].card
                && f.id in files.upstream && RunsAs(f, folderType, c, inventory)
      ensures f.folderType != folderType && (forall c :: !HasCard(inventory, old(records)[f.id], c)) ==>
                !ok && records == old(records) && SameUpstream(old(files), files)
      ensures uncut ==> (ok <==>
                || f.folderType == folderType
                || (&& (exists c :: HasCard(inventory, old(records)[f.id], c)) && !folderType.Unsupported?
                    && (SameClass(f.folderType, folderType) || old(records)[f.id].epoch < MAX_EPOCH)))
    {
      hide P.Next, P.LegalRun, MayRun, Usable, SameCards, SameUpstream, Quiet, HasCard, RunsAs;
      if f.folderType == folderType {
        return true;
      }
      var card := PauseForEdit(f, inventory);
      if card.None? {
        return false;
      }
      ok := RetypeOn(f, folderType, card.value, inventory);
      assert card.value in inventory && Usable(card.value) && card.value.id == bindings[f.id].card;
    }

    /** With the folder paused and its card at hand. */
    method RetypeOn(f: Folder, folderType: FolderType, c: Card, inventory: seq<Card>) returns (ok: bool)
      requires Valid() && booted && Found(f) && Usable(c) && c.id == bindings[f.id].card
      requires files.upstream[f.id].current.paused
      modifies this`records, this`files, this`booted, this`diverged, this`running, this`run
      ensures Valid() && old(run) <= run
      ensures ok ==> f.id in files.upstream && RunsAs(f, folderType, c, inventory)
      ensures ok ==> files.upstream[f.id].current.folderType == folderType
      ensures ok && !SameClass(f.folderType, folderType) ==>
                && records[f.id].firstSync && records[f.id].epoch == old(records)[f.id].epoch + 1
                && files.upstream[f.id].current.paused
      ensures ok && SameClass(f.folderType, folderType) ==> records == old(records)
      ensures uncut ==> (ok <==>
                !folderType.Unsupported? && (SameClass(f.folderType, folderType) || old(records)[f.id].epoch < MAX_EPOCH))
    {
      hide P.Next, P.LegalRun, MayRun, Usable, SameCards, SameUpstream, Quiet;
      ok := true;
      if !SameClass(f.folderType, folderType) {
        ok := InvalidateFound(f, c);
      }
      if ok {
        ok := RetypePaused(f, folderType, c, inventory);
      }
    }

    method InvalidateFound(f: Folder, c: Card) returns (ok: bool)
      requires Valid() && booted && Found(f) && c.id == bindings[f.id].card
      requires files.upstream[f.id].current.paused
      modifies this`records, this`files, this`booted, this`diverged, this`running, this`run
      ensures Valid() && old(run) <= run && booted
      ensures ok ==> Found(f) && Quiet(files, records)
      ensures ok ==> records[f.id].firstSync && records[f.id].epoch == old(records)[f.id].epoch + 1
      ensures uncut ==> (ok <==> Usable(c) && old(records)[f.id].epoch < MAX_EPOCH)
    {
      hide P.Next, P.LegalRun, Usable, SameUpstream, Quiet;
      ghost var before := files;
      ok := Invalidate(f, c);
      if ok {
        StillFound(f, before);
      }
    }

    /** Upstream has the folder with its new type, unpaused exactly if that folder may run. */
    ghost predicate RunsAs(f: Folder, folderType: FolderType, c: Card, inventory: seq<Card>)
      requires f.id in files.upstream
      reads this
    {
      files.upstream[f.id].current == P.Upstream(folderType, !MayRun(Retyped(f, folderType, c), inventory, records))
    }

    method RetypePaused(f: Folder, folderType: FolderType, c: Card, inventory: seq<Card>) returns (ok: bool)
      requires Valid() && booted && Found(f)
      requires SameClass(f.folderType, folderType) || (records[f.id].firstSync && Quiet(files, records))
      modifies this`files, this`run
      ensures Valid() && old(run) <= run
      ensures ok ==> f.id in files.upstream && RunsAs(f, folderType, c, inventory)
      ensures ok && records[f.id].firstSync ==> files.upstream[f.id].current.paused
      ensures uncut ==> (ok <==> !folderType.Unsupported?)
    {
      hide P.Next, P.LegalRun, MayRun, Quiet;
      ok := ChangeType(f, folderType);
      if !ok {
        return;
      }
      var target := Retyped(f, folderType, c);
      MayRunIsClear(target, inventory);
      ok := UnpauseIfAllowed(target, inventory);
    }

    method PauseForEdit(f: Folder, inventory: seq<Card>) returns (card: Option<Card>)
      requires Valid() && booted && Found(f)
      modifies this`files, this`run
      ensures Valid() && old(run) <= run && Found(f)
      ensures card.Some? ==> Usable(card.value) && card.value.id == bindings[f.id].card && card.value in inventory
      ensures card.Some? ==> files.upstream[f.id].current.paused
      ensures (forall c :: !HasCard(inventory, records[f.id], c)) ==> card.None? && SameUpstream(old(files), files)
      ensures uncut ==> (card.Some? <==> exists c :: HasCard(inventory, records[f.id], c))
    {
      hide P.Next, P.LegalRun, Usable, SameCards, SameUpstream, HasCard;
      card := LoadFolderCard(f, inventory);
      if card.Some? {
        var ok := EditPause(f, true);
        if !ok {
          card := None;
        }
      }
    }

    /** SetManagedFolderType: one call that also keeps the folder paused; unknown types are refused. */
    method ChangeType(f: Folder, folderType: FolderType) returns (ok: bool)
      requires Valid() && Found(f)
      requires SameClass(f.folderType, folderType) || (records[f.id].firstSync && Quiet(files, records))
      modifies this`files, this`run
      ensures Valid() && old(run) <= run
      ensures files == old(files).(upstream := files.upstream) && files.upstream.Keys == old(files).upstream.Keys
      ensures ok ==> files.upstream[f.id].current == P.Upstream(folderType, true)
      ensures uncut ==> (ok <==> !folderType.Unsupported?)
    {
      hide P.Next, P.LegalRun;
      if folderType.Unsupported? {
        return false;
      }
      ok := CallUpstream(f.id, P.Upstream(folderType, true));
    }
  }
}
