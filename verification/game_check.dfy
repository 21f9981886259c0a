/**
 * The freshness check before a game starts: which folders it is about, what one
 * read of upstream says of them, and the replies sent.
 */
module GameCheck {
  import opened Durable
  import opened ControlTypes
  import F = Folders

  // ------------------------------------------------------------ what upstream answers

  datatype Device = Device(id: string, paused: bool)

  datatype Connection = Connection(connected: bool, paused: bool)

  datatype Local = Local(state: string, errors: int, pullErrors: int, needBytes: int, needItems: int)

  datatype Completion = Completion(remoteState: string, needBytes: int, needItems: int, needDeletes: int)

  /** One round of requests; what is missing could not be read. */
  datatype Answers = Answers(
    devices: Option<seq<Device>>, connections: Option<map<string, Connection>>,
    local: map<string, Local>, completion: map<(string, string), Completion>)

  datatype Status = Status(current: bool, items: int, bytes: int)

  const MAX_ITEMS: int := 1_000_000_000
  const MAX_BYTES: int := 0x7FFF_FFFF_FFFF_FFFF

  function NonNegative(n: int): (r: nat)
    ensures r >= n && (r == n || r == 0)
  {
    if n < 0 then 0 else n
  }

  ghost function Least(a: int, b: int): int {
    if a < b then a else b
  }

  /** Adds without passing the limit. */
  function BoundedItems(total: nat, value: int): nat {
    if NonNegative(value) > MAX_ITEMS - total then MAX_ITEMS else total + NonNegative(value)
  }

  function BoundedBytes(total: nat, value: int): nat {
    if value < 0 then total else if total > MAX_BYTES - value then MAX_BYTES else total + value
  }

  function BoundedState(state: string): string {
    if state in ["idle", "scanning", "scan-waiting", "sync-waiting", "sync-preparing", "syncing", "cleaning",
                 "clean-waiting", "error", "paused"]
    then state else "unknown"
  }

  /** Saturating at every step is saturating once at the end. */
  lemma SaturatedTwice(total: nat, value: int)
    ensures BoundedItems(Least(MAX_ITEMS, total), value) == Least(MAX_ITEMS, total + NonNegative(value))
    ensures BoundedItems(Least(MAX_ITEMS, total), Least(MAX_ITEMS, value)) == Least(MAX_ITEMS, total + NonNegative(value))
    ensures BoundedBytes(Least(MAX_BYTES, total), value) == Least(MAX_BYTES, total + NonNegative(value))
  {
  }

  // ------------------------------------------------------------ what is outstanding

  /** The last entry of a device id, which is the one that counts. */
  ghost predicate LastEntry(devices: seq<Device>, id: string, i: int) {
    && 0 <= i < |devices| && devices[i].id == id
    && forall j :: i < j < |devices| ==> devices[j].id != id
  }

  ghost predicate Waiting(a: Answers, device: string)
    requires a.connections.Some?
  {
    !(device in a.connections.value && a.connections.value[device].connected)
  }

  /** A peer may be asked: configured and paused on neither side. */
  ghost predicate Reachable(a: Answers, device: string)
    requires a.devices.Some? && a.connections.Some?
  {
    && (exists i :: LastEntry(a.devices.value, device, i) && !a.devices.value[i].paused)
    && (device in a.connections.value ==> !a.connections.value[device].paused)
  }

  /** What a peer reports is usable: it is still to connect, or its state is valid or not yet known. */
  ghost predicate Answered(a: Answers, folder: string, device: string)
    requires a.connections.Some?
  {
    Waiting(a, device)
    || ((folder, device) in a.completion && a.completion[(folder, device)].remoteState in ["valid", "unknown"])
  }

  ghost function PeerBytes(a: Answers, folder: string, device: string): nat
    requires a.connections.Some? && Answered(a, folder, device)
  {
    if Waiting(a, device) then 0 else NonNegative(a.completion[(folder, device)].needBytes)
  }

  /** A peer that has yet to connect, or to say what it needs, counts as one item. */
  ghost function PeerItems(a: Answers, folder: string, device: string): nat
    requires a.connections.Some? && Answered(a, folder, device)
  {
    if Waiting(a, device) then 1
    else
      var c := a.completion[(folder, device)];
      var n := NonNegative(c.needItems) + NonNegative(c.needDeletes);
      if c.remoteState == "unknown" && n == 0 && c.needBytes <= 0 then 1 else n
  }

  ghost predicate PeersAnswered(a: Answers, f: F.Folder, self: string, n: nat)
    requires a.connections.Some? && n <= |f.devices|
  {
    forall i :: 0 <= i < n && f.devices[i] != self ==> Answered(a, f.id, f.devices[i])
  }

  ghost function PeersItems(a: Answers, f: F.Folder, self: string, n: nat): nat
    requires a.connections.Some? && n <= |f.devices| && PeersAnswered(a, f, self, n)
  {
    if n == 0 then 0
    else PeersItems(a, f, self, n - 1) + (if f.devices[n - 1] == self then 0 else PeerItems(a, f.id, f.devices[n - 1]))
  }

  ghost function PeersBytes(a: Answers, f: F.Folder, self: string, n: nat): nat
    requires a.connections.Some? && n <= |f.devices| && PeersAnswered(a, f, self, n)
  {
    if n == 0 then 0
    else PeersBytes(a, f, self, n - 1) + (if f.devices[n - 1] == self then 0 else PeerBytes(a, f.id, f.devices[n - 1]))
  }

  /** The folder itself answers, without errors, and is idle or syncing. */
  ghost predicate LocalUsable(a: Answers, folder: string) {
    && folder in a.local && a.local[folder].errors <= 0 && a.local[folder].pullErrors <= 0
    && a.local[folder].state in ["idle", "sync-waiting", "sync-preparing", "syncing"]
  }

  ghost function FolderItems(a: Answers, f: F.Folder, self: string): nat
    requires a.connections.Some? && LocalUsable(a, f.id) && PeersAnswered(a, f, self, |f.devices|)
  {
    NonNegative(a.local[f.id].needItems) + PeersItems(a, f, self, |f.devices|)
  }

  ghost function FolderBytes(a: Answers, f: F.Folder, self: string): nat
    requires a.connections.Some? && LocalUsable(a, f.id) && PeersAnswered(a, f, self, |f.devices|)
  {
    NonNegative(a.local[f.id].needBytes) + PeersBytes(a, f, self, |f.devices|)
  }

  /** Everything the verdict on one folder needs is there; activity must come with something outstanding. */
  ghost predicate FolderReadable(a: Answers, f: F.Folder, self: string)
    requires a.connections.Some?
  {
    && LocalUsable(a, f.id) && PeersAnswered(a, f, self, |f.devices|)
    && (a.local[f.id].state != "idle" ==> FolderItems(a, f, self) > 0 || FolderBytes(a, f, self) > 0)
  }

  ghost predicate FoldersReadable(a: Answers, folders: seq<F.Folder>, self: string, n: nat)
    requires a.connections.Some? && n <= |folders|
  {
    forall i :: 0 <= i < n ==> FolderReadable(a, folders[i], self)
  }

  ghost function AllItems(a: Answers, folders: seq<F.Folder>, self: string, n: nat): nat
    requires a.connections.Some? && n <= |folders| && FoldersReadable(a, folders, self, n)
  {
    if n == 0 then 0 else AllItems(a, folders, self, n - 1) + FolderItems(a, folders[n - 1], self)
  }

  ghost function AllBytes(a: Answers, folders: seq<F.Folder>, self: string, n: nat): nat
    requires a.connections.Some? && n <= |folders| && FoldersReadable(a, folders, self, n)
  {
    if n == 0 then 0 else AllBytes(a, folders, self, n - 1) + FolderBytes(a, folders[n - 1], self)
  }

  ghost predicate AllReachable(a: Answers, folders: seq<F.Folder>, self: string)
    requires a.devices.Some? && a.connections.Some?
  {
    forall i, k :: 0 <= i < |folders| && 0 <= k < |folders[i].devices| && folders[i].devices[k] != self ==>
      Reachable(a, folders[i].devices[k])
  }

  /** The read yields a verdict at all. */
  ghost predicate Readable(a: Answers, folders: seq<F.Folder>, self: string) {
    && (forall i :: 0 <= i < |folders| ==> !folders[i].paused)
    && a.devices.Some? && a.connections.Some?
    && AllReachable(a, folders, self) && FoldersReadable(a, folders, self, |folders|)
  }

  // --------------------------------------------------------------------- the read

  method ReadGameCheckStatus(folders: seq<F.Folder>, self: string, a: Answers) returns (r: Option<Status>)
    ensures r.Some? <==> Readable(a, folders, self)
    ensures r.Some? ==>
              && r.value.items == Least(1_000_000_000, AllItems(a, folders, self, |folders|))
              && r.value.bytes == Least(0x7FFF_FFFF_FFFF_FFFF, AllBytes(a, folders, self, |folders|))
              && (r.value.current <==> r.value.items == 0 && r.value.bytes == 0)
  {
    hide FolderReadable, Reachable, AllReachable, FolderItems, FolderBytes, BoundedItems, BoundedBytes, Least;
    for i := 0 to |folders|
      invariant forall k :: 0 <= k < i ==> !folders[k].paused
    {
      if folders[i].paused {
        return None;
      }
    }
    if a.devices.None? || a.connections.None? {
      return None;
    }
    var reachable := CheckPeers(folders, self, a);
    if !reachable {
      return None;
    }
    var items, bytes := 0, 0;
    NothingYet();
    for i := 0 to |folders|
      invariant FoldersReadable(a, folders, self, i)
      invariant items == Least(MAX_ITEMS, AllItems(a, folders, self, i)) && items >= 0
      invariant bytes == Least(MAX_BYTES, AllBytes(a, folders, self, i)) && bytes >= 0
    {
      var step := AddFolder(folders[i], self, a, items, bytes, AllItems(a, folders, self, i), AllBytes(a, folders, self, i));
      if step.None? {
        return None;
      }
      items, bytes := step.value.0, step.value.1;
    }
    r := Some(Status(items == 0 && bytes == 0, items, bytes));
  }

  lemma NothingYet()
    ensures Least(MAX_ITEMS, 0) == 0 && Least(MAX_BYTES, 0) == 0
  {
  }

  /** The device table by id; a later entry replaces an earlier one. */
  method ConfiguredDevices(devices: seq<Device>) returns (m: map<string, Device>)
    ensures forall id :: id in m <==> exists i :: LastEntry(devices, id, i)
    ensures forall id, i :: LastEntry(devices, id, i) ==> id in m && m[id] == devices[i]
  {
    m := map[];
    for n := 0 to |devices|
      invariant forall id :: id in m <==> exists i :: LastEntry(devices[..n], id, i)
      invariant forall id, i :: LastEntry(devices[..n], id, i) ==> id in m && m[id] == devices[i]
    {
      NextEntry(devices, n);
      m := m[devices[n].id := devices[n]];
    }
    assert devices[..|devices|] == devices;
  }

  lemma NextEntry(devices: seq<Device>, n: nat)
    requires n < |devices|
    ensures LastEntry(devices[..n + 1], devices[n].id, n)
    ensures var more := devices[..n + 1]; forall i :: LastEntry(more, devices[n].id, i) ==> i == n
    ensures forall id, i :: id != devices[n].id ==> (LastEntry(devices[..n + 1], id, i) <==> LastEntry(devices[..n], id, i))
  {
    var more, less := devices[..n + 1], devices[..n];
    forall id, i | id != devices[n].id
      ensures LastEntry(more, id, i) <==> LastEntry(less, id, i)
    {
      assert forall j :: 0 <= j < n ==> more[j] == less[j];
    }
  }

  method CheckPeers(folders: seq<F.Folder>, self: string, a: Answers) returns (ok: bool)
    requires a.devices.Some? && a.connections.Some?
    ensures ok <==> AllReachable(a, folders, self)
  {
    hide Reachable;
    var devices := ConfiguredDevices(a.devices.value);
    var connections := a.connections.value;
    for i := 0 to |folders|
      invariant forall j, k :: 0 <= j < i && 0 <= k < |folders[j].devices| && folders[j].devices[k] != self ==>
                  Reachable(a, folders[j].devices[k])
    {
      for k := 0 to |folders[i].devices|
        invariant forall l :: 0 <= l < k && folders[i].devices[l] != self ==> Reachable(a, folders[i].devices[l])
      {
        var device := folders[i].devices[k];
        if device == self {
          continue;
        }
        ByTable(a, devices, device);
        if device !in devices || devices[device].paused || (device in connections && connections[device].paused) {
          return false;
        }
      }
    }
    ok := true;
  }

  lemma ByTable(a: Answers, m: map<string, Device>, device: string)
    requires a.devices.Some? && a.connections.Some?
    requires forall id :: id in m <==> exists i :: LastEntry(a.devices.value, id, i)
    requires forall id, i :: LastEntry(a.devices.value, id, i) ==> id in m && m[id] == a.devices.value[i]
    ensures Reachable(a, device) <==>
              device in m && !m[device].paused && (device in a.connections.value ==> !a.connections.value[device].paused)
  {
  }

  /** One folder's part of the verdict, added to the totals so far. */
  method AddFolder(f: F.Folder, self: string, a: Answers, items: nat, bytes: nat, ghost exactItems: nat, ghost exactBytes: nat)
    returns (r: Option<(nat, nat)>)
    requires a.connections.Some?
    requires items == Least(MAX_ITEMS, exactItems) && bytes == Least(MAX_BYTES, exactBytes)
    ensures r.Some? <==> FolderReadable(a, f, self)
    ensures r.Some? ==>
              && r.value.0 == Least(MAX_ITEMS, exactItems + FolderItems(a, f, self))
              && r.value.1 == Least(MAX_BYTES, exactBytes + FolderBytes(a, f, self))
  {
    hide BoundedItems, BoundedBytes, Least, BoundedState, Answered, PeerItems, PeerBytes;
    if f.id !in a.local {
      return None;
    }
    var local := a.local[f.id];
    var state := BoundedState(local.state);
    UsableState(local.state);
    if local.errors > 0 || local.pullErrors > 0 {
      return None;
    }
    if state in ["error", "unknown", "paused", "scanning", "scan-waiting", "cleaning", "clean-waiting"] {
      return None;
    }
    var pending := NonNegative(local.needBytes) > 0 || NonNegative(local.needItems) > 0;
    var totalItems := BoundedItems(items, local.needItems);
    var totalBytes := BoundedBytes(bytes, NonNegative(local.needBytes));
    SaturatedTwice(exactItems, local.needItems);
    SaturatedTwice(exactBytes, NonNegative(local.needBytes));
    ghost var baseItems, baseBytes := exactItems + NonNegative(local.needItems), exactBytes + NonNegative(local.needBytes);
    for k := 0 to |f.devices|
      invariant PeersAnswered(a, f, self, k)
      invariant totalItems == Least(MAX_ITEMS, baseItems + PeersItems(a, f, self, k))
      invariant totalBytes == Least(MAX_BYTES, baseBytes + PeersBytes(a, f, self, k))
      invariant pending <==>
                  || NonNegative(local.needItems) + PeersItems(a, f, self, k) > 0
                  || NonNegative(local.needBytes) + PeersBytes(a, f, self, k) > 0
    {
      if f.devices[k] == self {
        continue;
      }
      var answered, needItems, needBytes := PeerNeed(a, f.id, f.devices[k]);
      if !answered {
        return None;
      }
      pending := pending || needItems > 0 || needBytes > 0;
      SaturatedTwice(baseItems + PeersItems(a, f, self, k), PeerItems(a, f.id, f.devices[k]));
      SaturatedTwice(baseBytes + PeersBytes(a, f, self, k), PeerBytes(a, f.id, f.devices[k]));
      totalItems := BoundedItems(totalItems, needItems);
      totalBytes := BoundedBytes(totalBytes, needBytes);
    }
    if state != "idle" && !pending {
      return None;
    }
    r := Some((totalItems, totalBytes));
  }

  lemma UsableState(state: string)
    ensures BoundedState(state) == "idle" <==> state == "idle"
    ensures BoundedState(state) !in ["error", "unknown", "paused", "scanning", "scan-waiting", "cleaning", "clean-waiting"] <==>
              state in ["idle", "sync-waiting", "sync-preparing", "syncing"]
  {
  }

  /** What one peer still needs, with its own saturated sum of items and deletes. */
  method PeerNeed(a: Answers, folder: string, device: string) returns (answered: bool, items: nat, bytes: nat)
    requires a.connections.Some?
    ensures answered <==> Answered(a, folder, device)
    ensures answered ==> items == Least(MAX_ITEMS, PeerItems(a, folder, device))
    ensures answered ==> bytes == PeerBytes(a, folder, device)
    ensures answered ==> (items > 0 <==> PeerItems(a, folder, device) > 0)
  {
    if device !in a.connections.value || !a.connections.value[device].connected {
      return true, 1, 0;
    }
    if (folder, device) !in a.completion {
      return false, 0, 0;
    }
    var c := a.completion[(folder, device)];
    bytes := NonNegative(c.needBytes);
    items := BoundedItems(BoundedItems(0, c.needItems), c.needDeletes);
    answered := true;
    if c.remoteState == "unknown" {
      if bytes == 0 && items == 0 {
        items := 1;
      }
    } else if c.remoteState != "valid" {
      answered := false;
    }
  }

  // ----------------------------------------------------------- what current means

  /** Nothing is outstanding for a folder anywhere. */
  ghost predicate FolderCurrent(a: Answers, f: F.Folder, self: string)
    requires a.connections.Some?
  {
    && f.id in a.local && a.local[f.id].state == "idle" && a.local[f.id].errors <= 0 && a.local[f.id].pullErrors <= 0
    && a.local[f.id].needItems <= 0 && a.local[f.id].needBytes <= 0
    && forall k :: 0 <= k < |f.devices| && f.devices[k] != self ==> PeerCurrent(a, f.id, f.devices[k])
  }

  ghost predicate PeerCurrent(a: Answers, folder: string, device: string)
    requires a.connections.Some?
  {
    && device in a.connections.value && a.connections.value[device].connected && (folder, device) in a.completion
    && a.completion[(folder, device)].remoteState == "valid"
    && a.completion[(folder, device)].needBytes <= 0
    && a.completion[(folder, device)].needItems <= 0 && a.completion[(folder, device)].needDeletes <= 0
  }

  ghost predicate EverythingCurrent(a: Answers, folders: seq<F.Folder>, self: string) {
    && (forall i :: 0 <= i < |folders| ==> !folders[i].paused)
    && a.devices.Some? && a.connections.Some? && AllReachable(a, folders, self)
    && forall i :: 0 <= i < |folders| ==> FolderCurrent(a, folders[i], self)
  }

  /** The peer is configured, running on both sides, connected, and needs nothing of the folder. */
  ghost predicate PeerUpToDate(a: Answers, folder: string, d: string) {
    && a.devices.Some? && a.connections.Some?
    && (exists i :: 0 <= i < |a.devices.value| && a.devices.value[i].id == d && !a.devices.value[i].paused
          && forall j :: i < j < |a.devices.value| ==> a.devices.value[j].id != d)
    && d in a.connections.value && a.connections.value[d].connected && !a.connections.value[d].paused
    && (folder, d) in a.completion
    && var c := a.completion[(folder, d)];
       c.remoteState == "valid" && c.needBytes <= 0 && c.needItems <= 0 && c.needDeletes <= 0
  }

  /** What is read as current, folder by folder and peer by peer. */
  lemma CurrentOneByOne(a: Answers, folders: seq<F.Folder>, self: string)
    ensures EverythingCurrent(a, folders, self) <==>
              && a.devices.Some? && a.connections.Some?
              && forall k :: 0 <= k < |folders| ==>
                   && !folders[k].paused && folders[k].id in a.local
                   && a.local[folders[k].id].state == "idle"
                   && a.local[folders[k].id].errors <= 0 && a.local[folders[k].id].pullErrors <= 0
                   && a.local[folders[k].id].needItems <= 0 && a.local[folders[k].id].needBytes <= 0
                   && forall l :: 0 <= l < |folders[k].devices| && folders[k].devices[l] != self ==>
                        PeerUpToDate(a, folders[k].id, folders[k].devices[l])
  {
    if a.devices.Some? && a.connections.Some? {
      forall k, l | 0 <= k < |folders| && 0 <= l < |folders[k].devices|
        ensures PeerUpToDate(a, folders[k].id, folders[k].devices[l]) <==>
                  Reachable(a, folders[k].devices[l]) && PeerCurrent(a, folders[k].id, folders[k].devices[l])
      {
        OnePeerUpToDate(a, folders[k].id, folders[k].devices[l]);
      }
      hide Reachable, PeerCurrent, PeerUpToDate;
      assert AllReachable(a, folders, self) <==> forall k, l ::
          0 <= k < |folders| && 0 <= l < |folders[k].devices| && folders[k].devices[l] != self ==> Reachable(a, folders[k].devices[l]);
    }
  }

  lemma OnePeerUpToDate(a: Answers, folder: string, d: string)
    requires a.devices.Some? && a.connections.Some?
    ensures PeerUpToDate(a, folder, d) <==> Reachable(a, d) && PeerCurrent(a, folder, d)
  {
    if Reachable(a, d) {
      var i :| LastEntry(a.devices.value, d, i) && !a.devices.value[i].paused;
    }
    if PeerUpToDate(a, folder, d) {
      var i :| 0 <= i < |a.devices.value| && a.devices.value[i].id == d && !a.devices.value[i].paused
        && forall j :: i < j < |a.devices.value| ==> a.devices.value[j].id != d;
      assert LastEntry(a.devices.value, d, i);
    }
  }

  lemma {:induction false} PeersCurrent(a: Answers, f: F.Folder, self: string, n: nat)
    requires a.connections.Some? && n <= |f.devices|
    ensures (PeersAnswered(a, f, self, n) && PeersItems(a, f, self, n) == 0 && PeersBytes(a, f, self, n) == 0) <==>
              forall k :: 0 <= k < n && f.devices[k] != self ==> PeerCurrent(a, f.id, f.devices[k])
  {
    if n > 0 {
      PeersCurrent(a, f, self, n - 1);
      if f.devices[n - 1] != self {
        OnePeerCurrent(a, f.id, f.devices[n - 1]);
      }
    }
  }

  lemma OnePeerCurrent(a: Answers, folder: string, device: string)
    requires a.connections.Some?
    ensures (Answered(a, folder, device) && PeerItems(a, folder, device) == 0 && PeerBytes(a, folder, device) == 0)
              <==> PeerCurrent(a, folder, device)
  {
  }

  lemma OneFolderCurrent(a: Answers, f: F.Folder, self: string)
    requires a.connections.Some?
    ensures (FolderReadable(a, f, self) && FolderItems(a, f, self) == 0 && FolderBytes(a, f, self) == 0)
              <==> FolderCurrent(a, f, self)
  {
    hide Answered, PeerCurrent;
    PeersCurrent(a, f, self, |f.devices|);
  }

  lemma {:induction false} TotalsCurrent(a: Answers, folders: seq<F.Folder>, self: string, n: nat)
    requires a.connections.Some? && n <= |folders|
    ensures (FoldersReadable(a, folders, self, n) && AllItems(a, folders, self, n) == 0 && AllBytes(a, folders, self, n) == 0)
              <==> forall i :: 0 <= i < n ==> FolderCurrent(a, folders[i], self)
  {
    hide FolderReadable, FolderCurrent, FolderItems, FolderBytes;
    if n > 0 {
      TotalsCurrent(a, folders, self, n - 1);
      OneFolderCurrent(a, folders[n - 1], self);
    }
  }

  /**
   * The verdict is current exactly when nothing is outstanding anywhere: the
   * saturated totals are zero only when every part is.
   */
  lemma CurrentMeansEverything(a: Answers, folders: seq<F.Folder>, self: string)
    ensures EverythingCurrent(a, folders, self) <==>
              && Readable(a, folders, self)
              && Least(MAX_ITEMS, AllItems(a, folders, self, |folders|)) == 0
              && Least(MAX_BYTES, AllBytes(a, folders, self, |folders|)) == 0
  {
    hide FolderReadable, FolderCurrent, AllReachable;
    if a.connections.Some? {
      TotalsCurrent(a, folders, self, |folders|);
    }
  }

  // ------------------------------------------------------- the folders in question

  datatype Launch = Launch(source: string, saves: string, states: string)

  /** The only inventory row of the game's slot. */
  ghost predicate GameCard(launch: Launch, inventory: seq<F.Card>, i: int) {
    && 0 <= i < |inventory| && inventory[i].source == launch.source
    && forall j :: 0 <= j < |inventory| && inventory[j].source == launch.source ==> j == i
  }

  /** A record bound to the card whose folder may run and is neither being added nor changed. */
  ghost predicate ReadyFor(card: F.Card, folders: map<string, F.Folder>, inventory: seq<F.Card>, controls: map<string, Record>, id: string)
    requires id in controls
  {
    && !controls[id].pendingAdd
    && id in folders && folders[id].path == card.Content(controls[id].kind).path
    && F.MayRun(folders[id], inventory, controls)
  }

  ghost predicate Bound(controls: map<string, Record>, card: string, id: string) {
    id in controls && controls[id].cardId == card
  }

  /**
   * Every folder bound to the game's card, or nothing if any of them is not
   * ready: a game is never checked against fewer folders than its card has.
   */
  method FoldersForGameCheck(launch: Launch, inventory: seq<F.Card>, folders: map<string, F.Folder>, controls: map<string, Record>)
    returns (r: Option<map<string, F.Folder>>)
    requires forall id :: id in folders ==> folders[id].id == id
    ensures r.Some? <==>
              exists i :: GameCard(launch, inventory, i) && F.Usable(inventory[i])
                && launch.saves == inventory[i].saves.path && launch.states == inventory[i].states.path
                && forall id :: Bound(controls, inventory[i].id, id) ==> ReadyFor(inventory[i], folders, inventory, controls, id)
    ensures r.Some? ==> forall i :: GameCard(launch, inventory, i) ==>
              (forall id :: id in r.value <==> Bound(controls, inventory[i].id, id))
    ensures r.Some? ==> forall id :: id in r.value ==>
              id in folders && r.value[id] == folders[id] && F.MayRun(folders[id], inventory, controls)
  {
    hide F.MayRun, F.Usable;
    var at := FindGameCard(launch, inventory);
    if at.None? {
      return None;
    }
    forall i | GameCard(launch, inventory, i)
      ensures i == at.value
    {
    }
    var card := inventory[at.value];
    if !F.Usable(card) || launch.saves != card.saves.path || launch.states != card.states.path {
      return None;
    }
    var selected: map<string, F.Folder> := map[];
    var ids := controls.Keys;
    while ids != {}
      invariant ids <= controls.Keys
      invariant forall id :: id in controls && id !in ids && Bound(controls, card.id, id) ==>
                  ReadyFor(card, folders, inventory, controls, id)
      invariant forall id :: id in selected <==> id !in ids && Bound(controls, card.id, id)
      invariant forall id :: id in selected ==>
                  id in folders && selected[id] == folders[id] && F.MayRun(folders[id], inventory, controls)
      decreases |ids|
    {
      var id :| id in ids;
      ids := ids - {id};
      if controls[id].cardId == card.id {
        var ready := CheckReady(card, folders, inventory, controls, id);
        if !ready {
          assert Bound(controls, card.id, id);
          return None;
        }
        selected := selected[id := folders[id]];
      }
    }
    r := Some(selected);
  }

  method FindGameCard(launch: Launch, inventory: seq<F.Card>) returns (at: Option<nat>)
    ensures at.Some? <==> exists i :: GameCard(launch, inventory, i)
    ensures at.Some? ==> GameCard(launch, inventory, at.value)
  {
    at := None;
    for i := 0 to |inventory|
      invariant at.None? ==> forall j :: 0 <= j < i ==> inventory[j].source != launch.source
      invariant at.Some? ==>
                  && at.value < i && inventory[at.value].source == launch.source
                  && forall j :: 0 <= j < i && inventory[j].source == launch.source ==> j == at.value
    {
      if inventory[i].source == launch.source {
        if at.Some? {
          return None;
        }
        at := Some(i);
      }
    }
    assert at.Some? ==> GameCard(launch, inventory, at.value);
  }

  method CheckReady(card: F.Card, folders: map<string, F.Folder>, inventory: seq<F.Card>, controls: map<string, Record>, id: string)
    returns (ok: bool)
    requires id in controls && forall k :: k in folders ==> folders[k].id == k
    ensures ok <==> ReadyFor(card, folders, inventory, controls, id)
  {
    var control := controls[id];
    if !F.CompleteBinding(control) || control.firstSync || control.pendingAdd || control.pendingMembership.Some? || control.pendingStop {
      NotReadyYet(folders, inventory, controls, id);
      return false;
    }
    if id !in folders || folders[id].kind != control.kind || folders[id].path != card.Content(control.kind).path {
      NotReadyYet(folders, inventory, controls, id);
      return false;
    }
    var row := F.ReconcileFolder(folders[id], inventory, controls);
    ok := !row.paused;
  }

  lemma NotReadyYet(folders: map<string, F.Folder>, inventory: seq<F.Card>, controls: map<string, Record>, id: string)
    requires id in controls && forall k :: k in folders ==> folders[k].id == k
    ensures id in folders && F.MayRun(folders[id], inventory, controls) ==>
              && F.CompleteBinding(controls[id]) && F.NothingPending(controls[id]) && folders[id].kind == controls[id].kind
  {
  }

  // ------------------------------------------------------------------- the replies

  datatype Reply = WaitingFor(items: int, bytes: int) | Stop | Attention

  /** One round of the loop: the clock, what the read gave, and whether replies and waits went through. */
  datatype Round = Round(
    inBudget: bool, read: Option<Status>, deadline: bool, cancelled: bool, stillInBudget: bool, retryInBudget: bool,
    sent: bool, cancelledWaiting: bool)

  /** A verdict that is not current names something outstanding. */
  ghost predicate Honest(s: Status) {
    s.items >= 0 && s.bytes >= 0 && (s.current <==> s.items == 0 && s.bytes == 0)
  }

  /** Waiting replies, each different from the one before and never empty, and then at most one final reply. */
  ghost predicate Grammar(replies: seq<Reply>) {
    && (forall i :: 0 <= i < |replies| - 1 ==> replies[i].WaitingFor?)
    && (forall i :: 0 <= i < |replies| && replies[i].WaitingFor? ==> replies[i].items > 0 || replies[i].bytes > 0)
    && (forall i :: 0 < i < |replies| && replies[i].WaitingFor? ==> replies[i] != replies[i - 1])
  }

  ghost predicate Final(replies: seq<Reply>) {
    replies != [] && !replies[|replies| - 1].WaitingFor?
  }

  lemma GrammarMore(replies: seq<Reply>, reply: Reply)
    requires Grammar(replies) && !Final(replies)
    requires reply.WaitingFor? ==>
               (reply.items > 0 || reply.bytes > 0) && (replies != [] ==> replies[|replies| - 1] != reply)
    ensures Grammar(replies + [reply]) && (Final(replies + [reply]) <==> !reply.WaitingFor?)
  {
    var more := replies + [reply];
    assert forall i :: 0 <= i < |replies| ==> more[i] == replies[i];
  }

  lemma NoReplies()
    ensures Grammar([]) && !Final([])
  {
  }

  /** The counts shown after n rounds: those of the last read, or one item for a first read that took too long. */
  ghost function Shown(rounds: seq<Round>, n: nat): (counts: Option<(int, int)>)
    requires n <= |rounds|
  {
    if n == 0 then None
    else
      var round := rounds[n - 1];
      if round.read.Some? then Some((round.read.value.items, round.read.value.bytes))
      else if Shown(rounds, n - 1).None? && round.deadline && round.stillInBudget then Some((1, 0))
      else Shown(rounds, n - 1)
  }

  /** One waiting reply for each change of what is shown. */
  ghost function Waits(rounds: seq<Round>, n: nat): seq<Reply>
    requires n <= |rounds|
  {
    if n == 0 then []
    else
      Waits(rounds, n - 1) +
      (if Shown(rounds, n).Some? && Shown(rounds, n) != Shown(rounds, n - 1)
       then [WaitingFor(Shown(rounds, n).value.0, Shown(rounds, n).value.1)] else [])
  }

  /** Something is shown although no read has succeeded. */
  ghost predicate Invented(rounds: seq<Round>, n: nat)
    requires n <= |rounds|
  {
    Shown(rounds, n).Some? && forall i :: 0 <= i < n ==> rounds[i].read.None?
  }

  /** The launch goes ahead here: a current read in time for a launch that still waits. */
  ghost predicate StopsAt(rounds: seq<Round>, n: nat)
    requires n <= |rounds|
  {
    && n < |rounds| && (Shown(rounds, n).Some? || rounds[n].inBudget)
    && !rounds[n].cancelled && rounds[n].read.Some? && rounds[n].read.value.current
  }

  /** Attention is asked for here: nothing shown in time, or a failed read after nothing but an invented count. */
  ghost predicate GivesUpAt(rounds: seq<Round>, n: nat)
    requires n <= |rounds|
  {
    && n < |rounds|
    && (if Shown(rounds, n).None?
        then !rounds[n].inBudget
             || (!rounds[n].cancelled && rounds[n].read.None? && !(rounds[n].deadline && rounds[n].stillInBudget)
                 && !rounds[n].retryInBudget)
        else !rounds[n].cancelled && rounds[n].read.None? && Invented(rounds, n))
  }

  /** A first read that took too long; the count is then invented. */
  ghost predicate Invents(rounds: seq<Round>, n: nat)
    requires n < |rounds|
  {
    Shown(rounds, n).None? && rounds[n].read.None? && rounds[n].deadline && rounds[n].stillInBudget
  }

  /** This round has something new to show. */
  ghost predicate Shows(rounds: seq<Round>, n: nat)
    requires n < |rounds|
  {
    Shown(rounds, n + 1).Some? && Shown(rounds, n + 1) != Shown(rounds, n)
  }

  /** Nothing ends the loop in this round: its reply went out, and the launch still waits after the pause. */
  ghost predicate GoesOn(rounds: seq<Round>, n: nat)
    requires n < |rounds|
  {
    && !StopsAt(rounds, n) && !GivesUpAt(rounds, n) && !rounds[n].cancelled
    && (Shows(rounds, n) ==> rounds[n].sent)
    && (!Invents(rounds, n) ==> !rounds[n].cancelledWaiting)
  }

  /**
   * The replies up to the round the loop ended in, which is the first that does not
   * go on. Without a final one the launch or the connection is gone, or the rounds
   * are; a reply that could not be sent is none.
   */
  ghost predicate Replied(rounds: seq<Round>, last: nat, replies: seq<Reply>)
    requires last <= |rounds|
  {
    && (forall i :: 0 <= i < last ==> GoesOn(rounds, i))
    && if StopsAt(rounds, last) then replies == Waits(rounds, last) + [Stop]
       else if GivesUpAt(rounds, last) then replies == Waits(rounds, last) + [Attention]
       else if last == |rounds| then replies == Waits(rounds, last)
       else
         && !GoesOn(rounds, last)
         && replies == if rounds[last].cancelled || (Shows(rounds, last) && !rounds[last].sent)
                       then Waits(rounds, last) else Waits(rounds, last + 1)
  }

  /** While nothing is shown no read has succeeded. */
  lemma {:induction false} NothingShown(rounds: seq<Round>, n: nat)
    requires n <= |rounds| && Shown(rounds, n).None?
    ensures forall i :: 0 <= i < n ==> rounds[i].read.None?
  {
    if n > 0 {
      NothingShown(rounds, n - 1);
    }
  }

  /** One more round. */
  lemma OneRound(rounds: seq<Round>, n: nat)
    requires n < |rounds|
    ensures Shown(rounds, n + 1) ==
              if rounds[n].read.Some? then Some((rounds[n].read.value.items, rounds[n].read.value.bytes))
              else if Shown(rounds, n).None? && rounds[n].deadline && rounds[n].stillInBudget then Some((1, 0))
              else Shown(rounds, n)
    ensures Waits(rounds, n + 1) ==
              Waits(rounds, n) +
              (if Shown(rounds, n + 1).Some? && Shown(rounds, n + 1) != Shown(rounds, n)
               then [WaitingFor(Shown(rounds, n + 1).value.0, Shown(rounds, n + 1).value.1)] else [])
    ensures Invented(rounds, n + 1) <==>
              rounds[n].read.None? && Shown(rounds, n + 1).Some? && (Shown(rounds, n).None? || Invented(rounds, n))
    ensures Invented(rounds, n) ==> Shown(rounds, n).Some?
  {
    if Shown(rounds, n).None? {
      NothingShown(rounds, n);
    }
  }

  lemma WhenItGoesOn(rounds: seq<Round>, n: nat)
    requires n < |rounds|
    ensures GoesOn(rounds, n) <==>
              && !StopsAt(rounds, n) && !GivesUpAt(rounds, n) && !rounds[n].cancelled
              && (Shown(rounds, n + 1).Some? && Shown(rounds, n + 1) != Shown(rounds, n) ==> rounds[n].sent)
              && (rounds[n].cancelledWaiting ==>
                    Shown(rounds, n).None? && rounds[n].read.None? && rounds[n].deadline && rounds[n].stillInBudget)
  {
    hide Shown, StopsAt, GivesUpAt;
  }

  lemma {:induction false} NoFinalInWaits(rounds: seq<Round>, n: nat)
    requires n <= |rounds|
    ensures !Final(Waits(rounds, n))
    ensures Waits(rounds, n) != [] <==> Shown(rounds, n).Some?
  {
    if n > 0 {
      NoFinalInWaits(rounds, n - 1);
    }
  }

  /** So the last reply says which way the launch went. */
  lemma FinalReplyMeans(rounds: seq<Round>, last: nat, replies: seq<Reply>)
    requires last <= |rounds| && Replied(rounds, last, replies)
    ensures Final(replies) && replies[|replies| - 1].Stop? <==> StopsAt(rounds, last)
    ensures Final(replies) && replies[|replies| - 1].Attention? <==> GivesUpAt(rounds, last)
  {
    hide StopsAt, Shown;
    NoFinalInWaits(rounds, last);
    if last < |rounds| {
      NoFinalInWaits(rounds, last + 1);
    }
    assert !(StopsAt(rounds, last) && GivesUpAt(rounds, last)) by {
      StopsOrGivesUp(rounds, last);
    }
  }

  lemma NothingHeard(rounds: seq<Round>)
    ensures Shown(rounds, 0) == None && Waits(rounds, 0) == [] && !Invented(rounds, 0)
  {
  }

  lemma StopsOrGivesUp(rounds: seq<Round>, n: nat)
    requires n <= |rounds|
    ensures !(StopsAt(rounds, n) && GivesUpAt(rounds, n))
  {
  }

  /** Rounds until a final reply, a cancelled launch or a reply that cannot be sent. */
  method RunGameCheck(rounds: seq<Round>) returns (replies: seq<Reply>, last: nat)
    requires forall i :: 0 <= i < |rounds| && rounds[i].read.Some? ==> Honest(rounds[i].read.value)
    ensures Grammar(replies) && last <= |rounds|
    ensures Replied(rounds, last, replies)
    ensures forall i :: 0 <= i < last ==>
              !rounds[i].cancelled && (rounds[i].read.Some? ==> !rounds[i].read.value.current)
  {
    hide Grammar, Final, Shown, Waits, Invented, GoesOn;
    NoReplies();
    NothingHeard(rounds);
    replies := [];
    var previous := Status(false, 0, 0);
    var haveLast, synthetic := false, false;
    last := 0;
    while last < |rounds|
      invariant last <= |rounds|
      invariant Grammar(replies) && !Final(replies)
      invariant haveLast <==> replies != []
      invariant haveLast ==> replies[|replies| - 1] == WaitingFor(previous.items, previous.bytes)
      invariant replies == Waits(rounds, last)
      invariant Shown(rounds, last) == if haveLast then Some((previous.items, previous.bytes)) else None
      invariant synthetic <==> Invented(rounds, last)
      invariant forall i :: 0 <= i < last ==>
                  GoesOn(rounds, i) && !rounds[i].cancelled && (rounds[i].read.Some? ==> !rounds[i].read.value.current)
    {
      var round := rounds[last];
      OneRound(rounds, last);
      WhenItGoesOn(rounds, last);
      if !haveLast && !round.inBudget {
        GrammarMore(replies, Attention);
        replies := replies + [Attention];
        return;
      }
      if round.cancelled {
        return;
      }
      if round.read.None? {
        if !haveLast {
          if round.deadline && round.stillInBudget {
            if !round.sent {
              return;
            }
            GrammarMore(replies, WaitingFor(1, 0));
            replies := replies + [WaitingFor(1, 0)];
            previous, haveLast, synthetic := Status(false, 1, 0), true, true;
            last := last + 1;
            continue;
          }
          if round.retryInBudget {
            if round.cancelledWaiting {
              return;
            }
            last := last + 1;
            continue;
          }
          GrammarMore(replies, Attention);
          replies := replies + [Attention];
          return;
        }
        if synthetic {
          GrammarMore(replies, Attention);
          replies := replies + [Attention];
          return;
        }
      } else {
        var current := round.read.value;
        if current.current {
          GrammarMore(replies, Stop);
          replies := replies + [Stop];
          return;
        }
        if !haveLast || current.items != previous.items || current.bytes != previous.bytes {
          if !round.sent {
            return;
          }
          GrammarMore(replies, WaitingFor(current.items, current.bytes));
          replies := replies + [WaitingFor(current.items, current.bytes)];
          previous, haveLast := current, true;
        }
        synthetic := false;
      }
      if round.cancelledWaiting {
        return;
      }
      last := last + 1;
    }
  }

  /** A read says current only if nothing at all was outstanding in it. */
  lemma ReadMeansEverythingCurrent(a: Answers, folders: seq<F.Folder>, self: string, s: Status)
    requires Readable(a, folders, self)
    requires s.items == Least(MAX_ITEMS, AllItems(a, folders, self, |folders|))
    requires s.bytes == Least(MAX_BYTES, AllBytes(a, folders, self, |folders|))
    requires s.current <==> s.items == 0 && s.bytes == 0
    ensures Honest(s)
    ensures s.current <==> EverythingCurrent(a, folders, self)
  {
    hide FoldersReadable, AllReachable;
    CurrentMeansEverything(a, folders, self);
  }

  // --------------------------------------------------------------- one whole check

  /** One turn of the loop: the clock and the connection, and what upstream answered, if it did. */
  datatype Turn = Turn(round: Round, answers: Option<Answers>)

  /** What one read of these folders yields. */
  ghost function Verdict(answers: Option<Answers>, folders: seq<F.Folder>, self: string): Option<Status> {
    if answers.None? || !Readable(answers.value, folders, self) then None
    else Some(Status(EverythingCurrent(answers.value, folders, self),
                     Least(MAX_ITEMS, AllItems(answers.value, folders, self, |folders|)),
                     Least(MAX_BYTES, AllBytes(answers.value, folders, self, |folders|))))
  }

  /** The turns as rounds, each with the verdict of its own answers. */
  ghost function RoundsOf(turns: seq<Turn>, folders: seq<F.Folder>, self: string): (rounds: seq<Round>)
    ensures |rounds| == |turns|
  {
    seq(|turns|, i requires 0 <= i < |turns| => turns[i].round.(read := Verdict(turns[i].answers, folders, self)))
  }

  /** The game's card is fit, and every folder bound to it is ready. */
  ghost predicate Checkable(launch: Launch, inventory: seq<F.Card>, folders: map<string, F.Folder>, controls: map<string, Record>) {
    exists i :: GameCard(launch, inventory, i) && F.Usable(inventory[i])
      && launch.saves == inventory[i].saves.path && launch.states == inventory[i].states.path
      && forall id :: Bound(controls, inventory[i].id, id) ==> ReadyFor(inventory[i], folders, inventory, controls, id)
  }

  /** The list holds every folder bound to the game's card once, and no other. */
  ghost predicate BoundFolders(launch: Launch, inventory: seq<F.Card>, folders: map<string, F.Folder>,
                               controls: map<string, Record>, listed: seq<F.Folder>) {
    && (forall k :: 0 <= k < |listed| ==> listed[k].id in folders && folders[listed[k].id] == listed[k])
    && (forall k, l :: 0 <= k < l < |listed| ==> listed[k].id != listed[l].id)
    && forall i :: GameCard(launch, inventory, i) ==>
         forall id :: Bound(controls, inventory[i].id, id) <==> exists k :: 0 <= k < |listed| && listed[k].id == id
  }

  /**
   * A launch from the event to the last reply. Without a fit card it asks for
   * attention at once. Otherwise the launch is let through exactly when the round
   * the loop ended in was in time, for a launch still waiting, and one read of
   * exactly the folders bound to the game's card found nothing outstanding in any
   * of them or on any of their peers; and no earlier read had found that.
   */
  method CheckGame(launch: Launch, inventory: seq<F.Card>, folders: map<string, F.Folder>, controls: map<string, Record>,
                   self: string, turns: seq<Turn>)
    returns (replies: seq<Reply>, last: nat, listed: seq<F.Folder>)
    requires forall id :: id in folders ==> folders[id].id == id
    ensures !Checkable(launch, inventory, folders, controls) ==> replies == [Attention]
    ensures Checkable(launch, inventory, folders, controls) ==>
              && BoundFolders(launch, inventory, folders, controls, listed)
              && Grammar(replies) && last <= |turns|
              && Replied(RoundsOf(turns, listed, self), last, replies)
    ensures Final(replies) && replies[|replies| - 1].Stop? <==>
              && Checkable(launch, inventory, folders, controls)
              && last < |turns| && !turns[last].round.cancelled
              && (turns[last].round.inBudget || Shown(RoundsOf(turns, listed, self), last).Some?)
              && turns[last].answers.Some? && EverythingCurrent(turns[last].answers.value, listed, self)
    ensures Final(replies) && replies[|replies| - 1].Stop? ==>
              forall k, l :: 0 <= k < |listed| && 0 <= l < |listed[k].devices| && listed[k].devices[l] != self ==>
                PeerUpToDate(turns[last].answers.value, listed[k].id, listed[k].devices[l])
    ensures Checkable(launch, inventory, folders, controls) ==>
              forall i :: 0 <= i < last && turns[i].answers.Some? ==> !EverythingCurrent(turns[i].answers.value, listed, self)
  {
    hide GameCard, F.Usable, ReadyFor, Bound, EverythingCurrent, Readable, Grammar, Replied, Verdict, Shown, BoundFolders, F.MayRun, Least, PeerUpToDate;
    var selected := FoldersForGameCheck(launch, inventory, folders, controls);
    if selected.None? {
      return [Attention], 0, [];
    }
    listed := ListOf(selected.value);
    ListedIsBound(launch, inventory, folders, controls, selected.value, listed);
    var rounds := [];
    for i := 0 to |turns|
      invariant rounds == RoundsOf(turns, listed, self)[..i]
      invariant forall k :: 0 <= k < i && rounds[k].read.Some? ==> Honest(rounds[k].read.value)
    {
      var read := None;
      if turns[i].answers.Some? {
        read := ReadGameCheckStatus(listed, self, turns[i].answers.value);
      }
      VerdictIs(turns[i].answers, listed, self, read);
      rounds := rounds + [turns[i].round.(read := read)];
    }
    assert rounds == RoundsOf(turns, listed, self);
    replies, last := RunGameCheck(rounds);
    FinalReplyMeans(rounds, last, replies);
    forall i | 0 <= i < |turns|
      ensures turns[i].answers.Some? && EverythingCurrent(turns[i].answers.value, listed, self) <==>
                rounds[i].read.Some? && rounds[i].read.value.current
    {
      VerdictIsCurrent(turns[i].answers, listed, self);
    }
    if last < |turns| && turns[last].answers.Some? {
      CurrentOneByOne(turns[last].answers.value, listed, self);
    }
  }

  lemma VerdictIs(answers: Option<Answers>, folders: seq<F.Folder>, self: string, read: Option<Status>)
    requires answers.None? ==> read.None?
    requires answers.Some? ==> (read.Some? <==> Readable(answers.value, folders, self))
    requires answers.Some? && read.Some? ==>
               && read.value.items == Least(MAX_ITEMS, AllItems(answers.value, folders, self, |folders|))
               && read.value.bytes == Least(MAX_BYTES, AllBytes(answers.value, folders, self, |folders|))
               && (read.value.current <==> read.value.items == 0 && read.value.bytes == 0)
    ensures read == Verdict(answers, folders, self)
    ensures read.Some? ==> Honest(read.value)
  {
    hide FoldersReadable, AllReachable;
    if read.Some? {
      ReadMeansEverythingCurrent(answers.value, folders, self, read.value);
    }
  }

  lemma VerdictIsCurrent(answers: Option<Answers>, folders: seq<F.Folder>, self: string)
    ensures answers.Some? && EverythingCurrent(answers.value, folders, self) <==>
              Verdict(answers, folders, self).Some? && Verdict(answers, folders, self).value.current
  {
    hide FoldersReadable, AllReachable, EverythingCurrent;
    if answers.Some? {
      CurrentMeansEverything(answers.value, folders, self);
    }
  }

  /** The selected folders in some order. */
  method ListOf(selected: map<string, F.Folder>) returns (listed: seq<F.Folder>)
    requires forall id :: id in selected ==> selected[id].id == id
    ensures forall k :: 0 <= k < |listed| ==> listed[k].id in selected && selected[listed[k].id] == listed[k]
    ensures forall k, l :: 0 <= k < l < |listed| ==> listed[k].id != listed[l].id
    ensures forall id :: id in selected ==> exists k :: 0 <= k < |listed| && listed[k].id == id
  {
    listed := [];
    var rest := selected.Keys;
    while rest != {}
      invariant rest <= selected.Keys
      invariant forall k :: 0 <= k < |listed| ==>
                  listed[k].id in selected && listed[k].id !in rest && selected[listed[k].id] == listed[k]
      invariant forall k, l :: 0 <= k < l < |listed| ==> listed[k].id != listed[l].id
      invariant forall id :: id in selected && id !in rest ==> exists k :: 0 <= k < |listed| && listed[k].id == id
      decreases |rest|
    {
      var id :| id in rest;
      rest := rest - {id};
      ghost var before := listed;
      listed := listed + [selected[id]];
      assert listed[|before|].id == id;
      forall other | other in selected && other !in rest && other != id
        ensures exists k :: 0 <= k < |listed| && listed[k].id == other
      {
        var k :| 0 <= k < |before| && before[k].id == other;
        assert listed[k].id == other;
      }
    }
  }

  lemma ListedIsBound(launch: Launch, inventory: seq<F.Card>, folders: map<string, F.Folder>, controls: map<string, Record>,
                      selected: map<string, F.Folder>, listed: seq<F.Folder>)
    requires forall k :: 0 <= k < |listed| ==> listed[k].id in selected && selected[listed[k].id] == listed[k]
    requires forall k, l :: 0 <= k < l < |listed| ==> listed[k].id != listed[l].id
    requires forall id :: id in selected ==> exists k :: 0 <= k < |listed| && listed[k].id == id
    requires forall id :: id in selected ==> id in folders && selected[id] == folders[id]
    requires forall i :: GameCard(launch, inventory, i) ==> forall id :: id in selected <==> Bound(controls, inventory[i].id, id)
    ensures BoundFolders(launch, inventory, folders, controls, listed)
  {
    hide Bound;
    forall i, id | GameCard(launch, inventory, i)
      ensures Bound(controls, inventory[i].id, id) <==> exists k :: 0 <= k < |listed| && listed[k].id == id
    {
    }
  }
}
