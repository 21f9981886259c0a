/** The one-line status the handheld shows: one state, and how much is still to be transferred. */
module Summary {

  const MAX_BYTES: int := 0x7FFF_FFFF_FFFF_FFFF
  const MAX_ITEMS: int := 0x7FFF_FFFF

  datatype Label = UpToDate | Syncing | NeedsAttention

  datatype Folder = Folder(
    kind: string, conflicts: int, paused: bool, peers: int, firstSync: string, remoteState: string, state: string,
    needBytes: int, needItems: int, remoteNeedBytes: int, remoteNeedItems: int)

  datatype Status = Status(controller: string, upstream: string, issues: nat, ignored: seq<bool>, folders: seq<Folder>)

  datatype Line = Line(state: Label, bytes: int, items: int)

  /** The counters as they come from the service. */
  predicate InRange(f: Folder) {
    && 0 <= f.needBytes <= MAX_BYTES && 0 <= f.remoteNeedBytes <= MAX_BYTES
    && 0 <= f.needItems <= MAX_ITEMS && 0 <= f.remoteNeedItems <= MAX_ITEMS
  }

  /** The user has to do something about this folder. */
  ghost predicate Troubled(f: Folder) {
    || f.conflicts > 0 || f.paused || f.peers <= 0 || f.firstSync != "complete" || f.state == "error"
    || f.remoteState in ["", "offline", "paused", "not-sharing", "unknown", "local-only"]
  }

  /** Something is still to be transferred here or there, or is being looked for. */
  ghost predicate Busy(f: Folder) {
    || f.needBytes > 0 || f.needItems > 0 || f.remoteNeedBytes > 0 || f.remoteNeedItems > 0
    || f.remoteState == "syncing" || f.state in ["syncing", "scanning", "sync-preparing"]
  }

  function FolderStateLabel(f: Folder): (l: Label)
    ensures l.NeedsAttention? <==> Troubled(f)
    ensures l.Syncing? <==> !Troubled(f) && Busy(f)
  {
    if || f.conflicts > 0 || f.paused || f.peers <= 0 || f.firstSync == "" || f.firstSync != "complete" || f.remoteState == ""
       || f.remoteState == "offline" || f.remoteState == "paused" || f.remoteState == "not-sharing"
       || f.remoteState == "unknown" || f.remoteState == "local-only" || f.state == "error"
    then NeedsAttention
    else if || f.needBytes > 0 || f.needItems > 0 || f.remoteNeedBytes > 0 || f.remoteNeedItems > 0
            || f.remoteState == "syncing" || f.state == "syncing" || f.state == "scanning" || f.state == "sync-preparing"
    then Syncing
    else UpToDate
  }

  ghost function Least(a: int, b: int): int {
    if a < b then a else b
  }

  /** What all of the first n folders need here and on their peers, without any limit. */
  ghost function ExactBytes(folders: seq<Folder>, n: nat): int
    requires n <= |folders|
  {
    if n == 0 then 0 else ExactBytes(folders, n - 1) + folders[n - 1].needBytes + folders[n - 1].remoteNeedBytes
  }

  ghost function ExactItems(folders: seq<Folder>, n: nat): int
    requires n <= |folders|
  {
    if n == 0 then 0 else ExactItems(folders, n - 1) + folders[n - 1].needItems + folders[n - 1].remoteNeedItems
  }

  /** Nothing that needs the user before the folders are looked at. */
  ghost predicate Ready(s: Status) {
    s.controller == "running" && s.upstream == "running" && s.issues == 0 && (forall i :: 0 <= i < |s.ignored| ==> s.ignored[i])
  }

  function Saturated(limit: int, a: int, b: int): (r: int)
    requires 0 <= a <= limit && 0 <= b
    ensures r == Least(limit, a + b)
  {
    if limit - a < b then limit else a + b
  }

  lemma {:induction false} NothingNeeded(folders: seq<Folder>, n: nat)
    requires n <= |folders|
    requires forall i :: 0 <= i < n ==> InRange(folders[i]) && !Busy(folders[i])
    ensures ExactBytes(folders, n) == 0 && ExactItems(folders, n) == 0
  {
    if n > 0 {
      NothingNeeded(folders, n - 1);
    }
  }

  lemma IdleAddsNothing(f: Folder)
    requires InRange(f)
    ensures !Busy(f) ==> f.needBytes == 0 && f.remoteNeedBytes == 0 && f.needItems == 0 && f.remoteNeedItems == 0
  {
  }

  /**
   * One pass over the folders. The state is the worst of the labels; while
   * syncing the totals are the exact needs of all folders, cut off once at the
   * limit although every addition on the way is cut off too.
   */
  method SummarizeStatus(s: Status) returns (line: Line)
    requires forall i :: 0 <= i < |s.folders| ==> InRange(s.folders[i])
    ensures line.state.UpToDate? <==>
              Ready(s) && s.folders != [] && forall i :: 0 <= i < |s.folders| ==> !Troubled(s.folders[i]) && !Busy(s.folders[i])
    ensures line.state.Syncing? <==>
              && Ready(s) && (forall i :: 0 <= i < |s.folders| ==> !Troubled(s.folders[i]))
              && exists i :: 0 <= i < |s.folders| && Busy(s.folders[i])
    ensures line.state.NeedsAttention? <==>
              !Ready(s) || s.folders == [] || exists i :: 0 <= i < |s.folders| && Troubled(s.folders[i])
    ensures !line.state.NeedsAttention? ==>
              && line.bytes == Least(0x7FFF_FFFF_FFFF_FFFF, ExactBytes(s.folders, |s.folders|))
              && line.items == Least(0x7FFF_FFFF, ExactItems(s.folders, |s.folders|))
    ensures line.state.UpToDate? ==> ExactBytes(s.folders, |s.folders|) == 0 && ExactItems(s.folders, |s.folders|) == 0
  {
    hide FolderStateLabel, Troubled, Busy;
    line := Line(NeedsAttention, 0, 0);
    if s.controller != "running" || s.upstream != "running" || s.issues > 0 {
      return;
    }
    for i := 0 to |s.ignored|
      invariant forall k :: 0 <= k < i ==> s.ignored[k]
    {
      if !s.ignored[i] {
        return;
      }
    }
    if s.folders == [] {
      return;
    }
    var syncing := false;
    for i := 0 to |s.folders|
      invariant line.state.NeedsAttention? && line.bytes >= 0 && line.items >= 0
      invariant forall k :: 0 <= k < i ==> !Troubled(s.folders[k])
      invariant syncing <==> exists k :: 0 <= k < i && Busy(s.folders[k])
      invariant line.bytes == Least(MAX_BYTES, ExactBytes(s.folders, i)) && ExactBytes(s.folders, i) >= 0
      invariant line.items == Least(MAX_ITEMS, ExactItems(s.folders, i)) && ExactItems(s.folders, i) >= 0
    {
      var folder := s.folders[i];
      var shown := FolderStateLabel(folder);
      if shown.NeedsAttention? {
        return;
      }
      IdleAddsNothing(folder);
      if shown.Syncing? {
        var bytes := Saturated(MAX_BYTES, folder.needBytes, folder.remoteNeedBytes);
        var items := Saturated(MAX_ITEMS, folder.needItems, folder.remoteNeedItems);
        line := Line(NeedsAttention, Saturated(MAX_BYTES, line.bytes, bytes), Saturated(MAX_ITEMS, line.items, items));
        syncing := true;
      }
    }
    if !syncing {
      NothingNeeded(s.folders, |s.folders|);
    }
    line := line.(state := if syncing then Syncing else UpToDate);
  }
}
