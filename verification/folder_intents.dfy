/**
 * Adding, sharing and stopping a folder. Each writes an intent to the control
 * document, changes the upstream configuration, and then clears the intent; a
 * start after a cut finishes or withdraws whatever was left.
 */
module FolderIntents {
  import opened Durable
  import opened ControlTypes
  import opened Identifiers
  import opened FolderStore
  import F = Folders

  // ------------------------------------------------------------- device lists

  function Normal(device: string): string {
    NormalizeDeviceId(device).GetOr(device)
  }

  function Members(devices: seq<string>): set<string> {
    set i | 0 <= i < |devices| :: Normal(devices[i])
  }

  /** Every entry is a device id, none twice, and this device is one of them. */
  ghost predicate DevicesOk(self: string, devices: seq<string>) {
    && (forall i :: 0 <= i < |devices| ==> NormalizeDeviceId(devices[i]).Some?)
    && (forall i, j :: 0 <= i < j < |devices| ==> Normal(devices[i]) != Normal(devices[j]))
    && self in Members(devices)
  }

  function Requested(members: set<string>, intent: Option<Intent>): set<string> {
    match intent
    case None => members
    case Some(Intent(Share, device)) => members + {Normal(device)}
    case Some(Intent(Unshare, device)) => members - {Normal(device)}
  }

  // ------------------------------------------- what the intents on disk amount to

  /** Where one folder ends up once nothing is pending: its record, its upstream folder and its members. */
  datatype Goal = Goal(record: Record, folder: Option<F.Folder>, members: set<string>)

  type Records = map<string, Record>
  type Config = map<string, F.Folder>

  function Cleared(r: Record): Record {
    r.(pendingAdd := false, pendingMembership := None, pendingStop := false)
  }

  /** The upstream folder apart from what membership and pausing change. */
  function Fixed(f: F.Folder): F.Folder {
    f.(devices := [], paused := false)
  }

  function GoalAt(records: Records, config: Config, id: string): (g: Option<Goal>) {
    if id !in records || records[id].pendingStop || (records[id].pendingAdd && id !in config) then None
    else if id !in config then Some(Goal(Cleared(records[id]), None, {}))
    else Some(Goal(Cleared(records[id]), Some(Fixed(config[id])),
                   Requested(Members(config[id].devices), records[id].pendingMembership)))
  }

  /** The folders as they will be: a pending stop is a folder gone, a pending add is there once upstream has it. */
  function Goals(records: Records, config: Config): map<string, Goal> {
    map id | id in records && GoalAt(records, config, id).Some? :: GoalAt(records, config, id).value
  }

  function Recorded(d: Disk): Records {
    if d.control.Some? then d.control.value.folders else map[]
  }

  function Intended(d: Disk): map<string, Goal> {
    Goals(Recorded(d), d.config)
  }

  ghost predicate ConsistentAt(self: string, records: Records, config: Config, id: string)
    requires id in records
  {
    && (id !in config ==> records[id].pendingAdd || records[id].pendingStop)
    && (id in config ==> config[id].id == id && config[id].kind == records[id].kind && DevicesOk(self, config[id].devices))
    && (records[id].pendingMembership.Some? ==>
          && NormalizeDeviceId(records[id].pendingMembership.value.device).Some?
          && Normal(records[id].pendingMembership.value.device) != self)
  }

  /** Every recorded folder is configured unless an intent explains why not. */
  ghost predicate Consistent(self: string, records: Records, config: Config) {
    forall id :: id in records ==> ConsistentAt(self, records, config, id)
  }

  /** Every state a power loss may leave is consistent and amounts to one of the goals. */
  ghost predicate Within(self: string, goals: set<map<string, Goal>>, cell: Cell<Disk>) {
    forall d :: cell.Possible(d) ==> Consistent(self, Recorded(d), d.config) && Intended(d) in goals
  }

  predicate NothingPending(r: Record) {
    !r.pendingAdd && r.pendingMembership.None? && !r.pendingStop
  }

  // ---------------------------------------------------------- changes at one folder

  ghost predicate AgreeExcept<V>(m: map<string, V>, m': map<string, V>, id: string) {
    m - {id} == m' - {id}
  }

  lemma AgreeAt<V>(m: map<string, V>, m': map<string, V>, id: string, k: string)
    requires AgreeExcept(m, m', id) && k != id
    ensures k in m <==> k in m'
    ensures k in m ==> m[k] == m'[k]
  {
    assert k in m <==> k in m - {id};
    assert k in m' <==> k in m' - {id};
    if k in m {
      assert m[k] == (m - {id})[k];
    }
  }

  lemma AgreeThen<V>(a: map<string, V>, b: map<string, V>, c: map<string, V>, id: string)
    requires AgreeExcept(a, b, id) && AgreeExcept(b, c, id)
    ensures AgreeExcept(a, c, id)
  {
  }

  /** A change confined to one folder moves at most that folder's goal. */
  lemma ChangeOne(records: Records, config: Config, records': Records, config': Config, id: string)
    requires AgreeExcept(records, records', id) && AgreeExcept(config, config', id)
    ensures Goals(records', config') ==
              match GoalAt(records', config', id)
              case Some(g) => Goals(records, config)[id := g]
              case None => Goals(records, config) - {id}
  {
    hide GoalAt, AgreeExcept;
    var before, after := Goals(records, config), Goals(records', config');
    GoalOfUnrecorded(records, config, id);
    GoalOfUnrecorded(records', config', id);
    forall k | k != id
      ensures k in before <==> k in after
      ensures k in before ==> before[k] == after[k]
    {
      AgreeAt(records, records', id, k);
      AgreeAt(config, config', id, k);
      SameGoalAt(records, config, records', config', k);
    }
  }

  lemma SameGoalAt(records: Records, config: Config, records': Records, config': Config, k: string)
    requires k in records <==> k in records'
    requires k in records ==> records[k] == records'[k]
    requires k in config <==> k in config'
    requires k in config ==> config[k] == config'[k]
    ensures GoalAt(records, config, k) == GoalAt(records', config', k)
  {
  }

  lemma GoalOfUnrecorded(records: Records, config: Config, id: string)
    ensures id !in records ==> GoalAt(records, config, id).None?
  {
  }

  lemma ChangeOneConsistent(self: string, records: Records, config: Config, records': Records, config': Config, id: string)
    requires AgreeExcept(records, records', id) && AgreeExcept(config, config', id)
    requires Consistent(self, records, config)
    requires id in records' ==> ConsistentAt(self, records', config', id)
    ensures Consistent(self, records', config')
  {
    hide DevicesOk, AgreeExcept;
    forall k | k in records' && k != id
      ensures ConsistentAt(self, records', config', k)
    {
      AgreeAt(records, records', id, k);
      AgreeAt(config, config', id, k);
      assert ConsistentAt(self, records, config, k);
    }
  }

  /** What one change to one folder does to the state as a whole. */
  lemma Step(self: string, records: Records, config: Config, records': Records, config': Config, id: string)
    requires AgreeExcept(records, records', id) && AgreeExcept(config, config', id)
    requires Consistent(self, records, config)
    requires id in records' ==> ConsistentAt(self, records', config', id)
    ensures Consistent(self, records', config')
    ensures GoalAt(records', config', id).Some? ==>
              Goals(records', config') == Goals(records, config)[id := GoalAt(records', config', id).value]
    ensures GoalAt(records', config', id).None? ==> Goals(records', config') == Goals(records, config) - {id}
    ensures GoalAt(records', config', id) == GoalAt(records, config, id) ==> Goals(records', config') == Goals(records, config)
  {
    hide GoalAt, AgreeExcept, Consistent, ConsistentAt;
    ChangeOneConsistent(self, records, config, records', config', id);
    ChangeOne(records, config, records', config', id);
    GoalOfUnrecorded(records, config, id);
  }

  lemma Put<V>(m: map<string, V>, id: string, v: V)
    ensures AgreeExcept(m, m[id := v], id) && AgreeExcept(m, m, id)
  {
  }

  lemma Dropped<V>(m: map<string, V>, id: string)
    ensures AgreeExcept(m, m - {id}, id) && AgreeExcept(m, m, id)
  {
  }

  // ------------------------------------------------- the steps, and what each means

  function Added(r: Record, f: F.Folder): Goal {
    Goal(Cleared(r), Some(Fixed(f)), Members(f.devices))
  }

  /**
   * Recording a new folder first means nothing yet: without its upstream folder it is
   * withdrawn. Where upstream still has that folder from an earlier attempt, the
   * record alone adds it as upstream has it.
   */
  lemma BeginAddStep(self: string, records: Records, config: Config, id: string, r: Record)
    requires Consistent(self, records, config) && id !in records
    requires id in config ==> config[id].id == id && config[id].kind == r.kind && DevicesOk(self, config[id].devices)
    requires r.pendingAdd && r.pendingMembership.None? && !r.pendingStop
    ensures Consistent(self, records[id := r], config)
    ensures Goals(records[id := r], config) ==
              if id in config then Goals(records, config)[id := Added(r, config[id])] else Goals(records, config)
  {
    hide Consistent, AgreeExcept, Goals, DevicesOk, Members;
    Put(records, id, r);
    Dropped(config, id);
    Step(self, records, config, records[id := r], config, id);
  }

  /** The upstream folder is what adds the folder. */
  lemma AddStep(self: string, records: Records, config: Config, f: F.Folder)
    requires Consistent(self, records, config) && f.id in records
    requires records[f.id].pendingAdd && records[f.id].pendingMembership.None? && !records[f.id].pendingStop
    requires f.kind == records[f.id].kind && DevicesOk(self, f.devices)
    ensures Consistent(self, records, config[f.id := f])
    ensures Goals(records, config[f.id := f]) == Goals(records, config)[f.id := Added(records[f.id], f)]
  {
    hide Consistent, AgreeExcept, Goals, DevicesOk, Members;
    Put(records, f.id, records[f.id]);
    Put(config, f.id, f);
    Step(self, records, config, records, config[f.id := f], f.id);
  }

  lemma ActivateStep(self: string, records: Records, config: Config, id: string)
    requires Consistent(self, records, config) && id in records && id in config
    ensures Consistent(self, records[id := records[id].(pendingAdd := false)], config)
    ensures Goals(records[id := records[id].(pendingAdd := false)], config) == Goals(records, config)
  {
    hide AgreeExcept, Goals, DevicesOk, Members, NormalizeDeviceId;
    assert ConsistentAt(self, records, config, id);
    Put(records, id, records[id].(pendingAdd := false));
    Put(config, id, config[id]);
    Step(self, records, config, records[id := records[id].(pendingAdd := false)], config, id);
  }

  /** Withdrawing a record takes its goal with it, if it had one. */
  lemma RemoveRecordStep(self: string, records: Records, config: Config, id: string)
    requires Consistent(self, records, config)
    ensures Consistent(self, records - {id}, config)
    ensures Goals(records - {id}, config) == Goals(records, config) - {id}
    ensures GoalAt(records, config, id).None? ==> Goals(records - {id}, config) == Goals(records, config)
  {
    hide Consistent, AgreeExcept, Goals, DevicesOk, Members;
    Dropped(records, id);
    Dropped(config, id);
    Step(self, records, config, records - {id}, config, id);
  }

  /** Recording the request is what changes the membership. */
  lemma BeginMembershipStep(self: string, records: Records, config: Config, id: string, intent: Intent)
    requires Consistent(self, records, config) && id in records && id in config
    requires !records[id].pendingAdd && !records[id].pendingStop && records[id].pendingMembership.None?
    requires NormalizeDeviceId(intent.device).Some? && Normal(intent.device) != self
    ensures GoalAt(records, config, id).Some?
    ensures Consistent(self, records[id := records[id].(pendingMembership := Some(intent))], config)
    ensures Goals(records[id := records[id].(pendingMembership := Some(intent))], config) ==
              Goals(records, config)[id := GoalAt(records, config, id).value.(
                members := Requested(GoalAt(records, config, id).value.members, Some(intent)))]
  {
    hide AgreeExcept, Goals, DevicesOk, Members, NormalizeDeviceId, Normal;
    assert ConsistentAt(self, records, config, id);
    Put(records, id, records[id].(pendingMembership := Some(intent)));
    Put(config, id, config[id]);
    Step(self, records, config, records[id := records[id].(pendingMembership := Some(intent))], config, id);
  }

  /** Telling upstream what the pending request says changes nothing more, however often. */
  lemma SetDevicesStep(self: string, records: Records, config: Config, id: string, f: F.Folder)
    requires Consistent(self, records, config) && id in records && id in config && records[id].pendingMembership.Some?
    requires f.id == id && Fixed(f) == Fixed(config[id]) && DevicesOk(self, f.devices)
    requires Requested(Members(f.devices), records[id].pendingMembership)
               == Requested(Members(config[id].devices), records[id].pendingMembership)
    ensures Consistent(self, records, config[id := f])
    ensures Goals(records, config[id := f]) == Goals(records, config)
  {
    hide AgreeExcept, Goals, DevicesOk, Members, NormalizeDeviceId, Normal;
    assert ConsistentAt(self, records, config, id);
    assert f.kind == Fixed(f).kind == Fixed(config[id]).kind;
    Put(records, id, records[id]);
    Put(config, id, f);
    Step(self, records, config, records, config[id := f], id);
  }

  lemma CompleteMembershipStep(self: string, records: Records, config: Config, id: string)
    requires Consistent(self, records, config) && id in records && id in config
    requires Requested(Members(config[id].devices), records[id].pendingMembership) == Members(config[id].devices)
    ensures Consistent(self, records[id := records[id].(pendingMembership := None)], config)
    ensures Goals(records[id := records[id].(pendingMembership := None)], config) == Goals(records, config)
  {
    hide AgreeExcept, Goals, DevicesOk, Members, NormalizeDeviceId, Normal;
    assert ConsistentAt(self, records, config, id);
    Put(records, id, records[id].(pendingMembership := None));
    Put(config, id, config[id]);
    Step(self, records, config, records[id := records[id].(pendingMembership := None)], config, id);
  }

  /** Recording the stop is what removes the folder. */
  lemma BeginStopStep(self: string, records: Records, config: Config, id: string)
    requires Consistent(self, records, config) && id in records
    ensures Consistent(self, records[id := records[id].(pendingStop := true)], config)
    ensures Goals(records[id := records[id].(pendingStop := true)], config) == Goals(records, config) - {id}
  {
    hide AgreeExcept, Goals, DevicesOk, Members, NormalizeDeviceId, Normal;
    assert ConsistentAt(self, records, config, id);
    Put(records, id, records[id].(pendingStop := true));
    Dropped(config, id);
    Step(self, records, config, records[id := records[id].(pendingStop := true)], config, id);
  }

  lemma PauseStep(self: string, records: Records, config: Config, id: string, paused: bool)
    requires Consistent(self, records, config) && id in config
    ensures Consistent(self, records, config[id := config[id].(paused := paused)])
    ensures Goals(records, config[id := config[id].(paused := paused)]) == Goals(records, config)
  {
    hide AgreeExcept, Goals, DevicesOk, Members, NormalizeDeviceId, Normal;
    assert id in records ==> ConsistentAt(self, records, config, id);
    Dropped(records, id);
    Put(config, id, config[id].(paused := paused));
    Step(self, records, config, records, config[id := config[id].(paused := paused)], id);
  }

  lemma RemoveFolderStep(self: string, records: Records, config: Config, id: string)
    requires Consistent(self, records, config) && id in records && records[id].pendingStop
    ensures Consistent(self, records, config - {id})
    ensures Goals(records, config - {id}) == Goals(records, config)
  {
    hide AgreeExcept, Goals, DevicesOk, Members, NormalizeDeviceId, Normal;
    assert ConsistentAt(self, records, config, id);
    Put(records, id, records[id]);
    Dropped(config, id);
    Step(self, records, config, records, config - {id}, id);
  }

  /** Applying a request twice is applying it once. */
  lemma RequestedTwice(members: set<string>, intent: Option<Intent>)
    ensures Requested(Requested(members, intent), intent) == Requested(members, intent)
  {
  }

  // -------------------------------------------------------- changing a membership

  /**
   * The folder with one peer added or removed: this device first, every member
   * once, and always paused.
   */
  method FolderWithMembership(folder: F.Folder, self: string, peer: string, present: bool)
    returns (r: Option<F.Folder>, changed: bool)
    requires CanonicalDeviceId(self)
    ensures r.Some? <==> NormalizeDeviceId(peer).Some? && Normal(peer) != self && DevicesOk(self, folder.devices)
    ensures r.Some? ==>
              && r.value == folder.(devices := r.value.devices, paused := true)
              && DevicesOk(self, r.value.devices) && r.value.devices[0] == self
              && Members(r.value.devices) ==
                   Requested(Members(folder.devices), Some(Intent(if present then Share else Unshare, peer)))
              && (changed <==> (Normal(peer) in Members(folder.devices)) != present)
  {
    hide NormalizeDeviceId, CanonicalDeviceId;
    if NormalizeDeviceId(peer).None? || NormalizeDeviceId(peer).value == self {
      return None, false;
    }
    var id := NormalizeDeviceId(peer).value;
    var members: set<string> := {};
    for i := 0 to |folder.devices|
      invariant forall k :: 0 <= k < i ==> NormalizeDeviceId(folder.devices[k]).Some?
      invariant forall j, k :: 0 <= j < k < i ==> Normal(folder.devices[j]) != Normal(folder.devices[k])
      invariant members == Members(folder.devices[..i])
    {
      assert folder.devices[..i + 1] == folder.devices[..i] + [folder.devices[i]];
      MembersAppend(folder.devices[..i], folder.devices[i]);
      if NormalizeDeviceId(folder.devices[i]).None? {
        return None, false;
      }
      var device := NormalizeDeviceId(folder.devices[i]).value;
      if device in members {
        return None, false;
      }
      members := members + {device};
    }
    assert folder.devices[..|folder.devices|] == folder.devices;
    if self !in members {
      return None, false;
    }
    changed := (id in members) != present;
    MembersAreCanonical(folder.devices);
    NormalIsReadable(peer);
    members := if present then members + {id} else members - {id};
    var devices := DeviceList(self, members);
    r := Some(folder.(devices := devices, paused := true));
  }

  lemma MembersAppend(devices: seq<string>, device: string)
    ensures Members(devices + [device]) == Members(devices) + {Normal(device)}
    ensures Normal(device) in Members(devices) <==> exists k :: 0 <= k < |devices| && Normal(devices[k]) == Normal(device)
  {
    hide NormalizeDeviceId, Normal;
    var more := devices + [device];
    forall k | 0 <= k < |devices|
      ensures Normal(devices[k]) in Members(more)
    {
      assert more[k] == devices[k];
    }
    assert more[|devices|] == device;
  }

  lemma MembersAreCanonical(devices: seq<string>)
    requires forall i :: 0 <= i < |devices| ==> NormalizeDeviceId(devices[i]).Some?
    ensures forall m :: m in Members(devices) ==> CanonicalDeviceId(m)
  {
    forall i | 0 <= i < |devices|
      ensures CanonicalDeviceId(Normal(devices[i]))
    {
      NormalIsReadable(devices[i]);
    }
  }

  lemma CanonicalIsNormal(device: string)
    requires CanonicalDeviceId(device)
    ensures NormalizeDeviceId(device) == Some(device) && Normal(device) == device
  {
    NormalizingAgainChangesNothing(device);
  }

  lemma OnlyMember(device: string)
    ensures Members([device]) == {Normal(device)}
  {
    hide NormalizeDeviceId, Normal;
    assert [device][0] == device;
  }

  /** The members as a list without repetition, this device first. */
  method DeviceList(self: string, members: set<string>) returns (devices: seq<string>)
    requires self in members && forall m :: m in members ==> CanonicalDeviceId(m)
    ensures DevicesOk(self, devices) && devices[0] == self && Members(devices) == members
  {
    hide NormalizeDeviceId, CanonicalDeviceId, Normal, Members;
    forall m | m in members
      ensures NormalizeDeviceId(m) == Some(m) && Normal(m) == m
    {
      CanonicalIsNormal(m);
    }
    devices := [self];
    var rest := members - {self};
    OnlyMember(self);
    while rest != {}
      invariant rest <= members - {self} && self in members
      invariant |devices| >= 1 && devices[0] == self
      invariant forall i :: 0 <= i < |devices| ==> devices[i] in members && devices[i] !in rest
      invariant forall i, j :: 0 <= i < j < |devices| ==> devices[i] != devices[j]
      invariant Members(devices) == members - rest
      decreases |rest|
    {
      var peer :| peer in rest;
      rest := rest - {peer};
      MembersAppend(devices, peer);
      devices := devices + [peer];
    }
  }

  // ----------------------------------------------------------- durability of a step

  lemma WithinWrite(self: string, goals: set<map<string, Goal>>, cell: Cell<Disk>, d: Disk)
    requires Within(self, goals, cell) && Consistent(self, Recorded(d), d.config) && Intended(d) in goals
    ensures Within(self, goals, cell.Write(d)) && Within(self, goals, cell.Write(d).Flushed())
  {
    hide Consistent, Intended, Recorded;
    forall e | cell.Write(d).Possible(e)
      ensures Consistent(self, Recorded(e), e.config) && Intended(e) in goals
    {
      WritePossible(cell, d, e);
    }
  }

  lemma WithinMore(self: string, goals: set<map<string, Goal>>, more: set<map<string, Goal>>, cell: Cell<Disk>)
    requires Within(self, goals, cell) && goals <= more
    ensures Within(self, more, cell)
  {
    hide Consistent, Intended;
  }

  lemma WithinNow(self: string, goals: set<map<string, Goal>>, cell: Cell<Disk>)
    requires Within(self, goals, cell)
    ensures Consistent(self, Recorded(cell.current), cell.current.config) && Intended(cell.current) in goals
  {
    hide Consistent, Intended;
    assert cell.Possible(cell.current);
  }

  /** Whatever a power loss leaves is again consistent and amounts to one of the same goals. */
  lemma SurvivorsStayWithin(self: string, digest: Digest, goals: set<map<string, Goal>>, cell: Cell<Disk>, after: Cell<Disk>)
    requires Within(self, goals, cell) && AllAcceptable(digest, cell) && cell.Survives(after)
    ensures Within(self, goals, after) && AllAcceptable(digest, after)
  {
    hide Consistent, Intended, Acceptable;
    forall e | after.Possible(e)
      ensures cell.Possible(e)
    {
    }
  }

  lemma SavedWithin(self: string, goals: set<map<string, Goal>>, before: Cell<Disk>, after: Cell<Disk>, o: Outcome, s: State)
    requires Within(self, goals, before) && Saved(before, after, o, s)
    requires Consistent(self, s.records, before.current.config) && Goals(s.records, before.current.config) in goals
    ensures Within(self, goals, after) && after.current.config == before.current.config
    ensures o.Kept? || o.Refused? ==> after == before
    ensures o.Done? ==> after.Settled() && after.current.control.Some? && Recorded(after.current) == s.records
  {
    hide Consistent, Goals;
    match o {
      case Done =>
        WithinWrite(self, goals, before, after.current);
        assert after == before.Write(after.current).Flushed();
      case Failed =>
        if after != before {
          var d :| Encodes(d, s) && after == before.Write(before.current.(control := Some(d)));
          WithinWrite(self, goals, before, before.current.(control := Some(d)));
        }
      case _ =>
    }
  }

  /** What a request to upstream did: an error may come before or after the change took effect. */
  ghost predicate Told(before: Cell<Disk>, after: Cell<Disk>, ok: bool, config: Config) {
    || after == before.Write(before.current.(config := config))
    || (!ok && after == before)
  }

  /** What upstream was told first is a state the disk went through. */
  lemma ToldBefore(a: Cell<Disk>, b: Cell<Disk>, c: Cell<Disk>, first: Config, second: Config, ok: bool)
    requires Told(a, b, true, first) && (c == b || Told(b, c, ok, second))
    ensures c.Possible(a.current.(config := first))
  {
  }

  lemma ToldWithin(self: string, digest: Digest, goals: set<map<string, Goal>>, before: Cell<Disk>, after: Cell<Disk>, ok: bool, config: Config)
    requires Within(self, goals, before) && AllAcceptable(digest, before) && Told(before, after, ok, config)
    requires Consistent(self, Recorded(before.current), config) && Goals(Recorded(before.current), config) in goals
    ensures Within(self, goals, after) && AllAcceptable(digest, after)
    ensures Recorded(after.current) == Recorded(before.current) && after.current.control == before.current.control
    ensures after.current.config == config || (!ok && after.current.config == before.current.config)
  {
    hide Consistent, Goals, Acceptable;
    var d := before.current.(config := config);
    if after != before {
      WithinWrite(self, goals, before, d);
      forall e | after.Possible(e) && e.control.Some?
        ensures Acceptable(digest, e.control.value)
      {
        WritePossible(before, d, e);
        assert before.Possible(before.current);
      }
    }
  }

  // -------------------------------------------------------- the folders in memory

  /** A folder in memory is the upstream folder, up to a membership change upstream may or may not have seen. */
  ghost predicate SessionAt(self: string, f: F.Folder, records: Records, config: Config, id: string) {
    && id in records && id in config && f.id == id
    && Fixed(f) == Fixed(config[id]) && DevicesOk(self, f.devices)
    && Requested(Members(f.devices), records[id].pendingMembership)
         == Requested(Members(config[id].devices), records[id].pendingMembership)
  }

  ghost predicate SessionOk(self: string, folders: Config, records: Records, config: Config) {
    forall id :: id in folders ==> SessionAt(self, folders[id], records, config, id)
  }

  lemma SessionOne(self: string, folders: Config, folders': Config, records: Records, records': Records, config: Config, config': Config, id: string)
    requires SessionOk(self, folders, records, config)
    requires AgreeExcept(folders, folders', id) && AgreeExcept(records, records', id) && AgreeExcept(config, config', id)
    requires id in folders' ==> SessionAt(self, folders'[id], records', config', id)
    ensures SessionOk(self, folders', records', config')
  {
    hide AgreeExcept, Members, DevicesOk, NormalizeDeviceId, Requested;
    forall k | k in folders' && k != id
      ensures SessionAt(self, folders'[k], records', config', k)
    {
      AgreeAt(folders, folders', id, k);
      AgreeAt(records, records', id, k);
      AgreeAt(config, config', id, k);
      assert SessionAt(self, folders[k], records, config, k);
    }
  }

  /** The process runs: its memory agrees with the visible document and the upstream folders. */
  ghost predicate LiveState(self: string, digest: Digest, s: State, folders: Config, cell: Cell<Disk>) {
    && ValidState(digest, s) && AllAcceptable(digest, cell) && CanonicalDeviceId(self)
    && cell.current.control.Some? && Recorded(cell.current) == s.records
    && SessionOk(self, folders, s.records, cell.current.config)
  }

  /** A request to upstream that keeps the goals keeps the process running, answered or not. */
  lemma ToldLive(self: string, digest: Digest, goals: set<map<string, Goal>>, s: State, folders: Config,
                 before: Cell<Disk>, after: Cell<Disk>, ok: bool, config: Config)
    requires LiveState(self, digest, s, folders, before) && Within(self, goals, before)
    requires Told(before, after, ok, config)
    requires Consistent(self, s.records, config) && Goals(s.records, config) in goals
    requires SessionOk(self, folders, s.records, config)
    ensures LiveState(self, digest, s, folders, after) && Within(self, goals, after)
    ensures after.current.config == config || (!ok && after.current.config == before.current.config)
  {
    hide Within, Told, Consistent, Goals, SessionOk, AllAcceptable, ValidState, CanonicalDeviceId;
    ToldWithin(self, digest, goals, before, after, ok, config);
  }

  /** A completed write of the document makes the new state the running one. */
  lemma SavedLive(self: string, digest: Digest, goals: set<map<string, Goal>>, s: State, folders: Config,
                  before: Cell<Disk>, after: Cell<Disk>, o: Outcome)
    requires Within(self, goals, before) && Saved(before, after, o, s) && CanonicalDeviceId(self)
    requires AllAcceptable(digest, after) && (o.Done? ==> ValidState(digest, s))
    requires Consistent(self, s.records, before.current.config) && Goals(s.records, before.current.config) in goals
    requires SessionOk(self, folders, s.records, before.current.config)
    ensures Within(self, goals, after) && after.current.config == before.current.config
    ensures o.Done? ==> LiveState(self, digest, s, folders, after) && after.Settled()
  {
    hide Within, Saved, Consistent, Goals, SessionOk, AllAcceptable, ValidState, CanonicalDeviceId;
    SavedWithin(self, goals, before, after, o, s);
  }

  lemma LiveFacts(self: string, digest: Digest, goals: set<map<string, Goal>>, s: State, folders: Config, cell: Cell<Disk>, id: string)
    requires LiveState(self, digest, s, folders, cell) && Within(self, goals, cell)
    ensures Consistent(self, s.records, cell.current.config) && Goals(s.records, cell.current.config) in goals
    ensures id in folders ==> SessionAt(self, folders[id], s.records, cell.current.config, id)
  {
    hide Within, Consistent, Goals, AllAcceptable, ValidState, CanonicalDeviceId, SessionAt;
    WithinNow(self, goals, cell);
  }

  /** A folder whose members are already what is requested, put upstream, still stands for the same request. */
  lemma RequestApplied(self: string, f: F.Folder, target: F.Folder, records: Records, config: Config, id: string)
    requires SessionAt(self, f, records, config, id)
    requires target == f.(devices := target.devices, paused := true) && DevicesOk(self, target.devices)
    requires Members(target.devices) == Requested(Members(f.devices), records[id].pendingMembership)
    ensures target.id == id
    ensures var changed := config[id].(devices := target.devices, paused := true);
            && changed.id == id && Fixed(changed) == Fixed(config[id]) && Fixed(target) == Fixed(changed)
            && Requested(Members(changed.devices), records[id].pendingMembership)
                 == Requested(Members(config[id].devices), records[id].pendingMembership)
            && Requested(Members(target.devices), records[id].pendingMembership) == Members(changed.devices)
  {
    hide DevicesOk, Members, Requested;
    RequestedTwice(Members(f.devices), records[id].pendingMembership);
    assert config[id].id == Fixed(config[id]).id == Fixed(f).id;
  }

  lemma SessionAfterSet(self: string, folders: Config, records: Records, config: Config, id: string, target: F.Folder)
    requires SessionOk(self, folders, records, config) && id in folders
    requires target == folders[id].(devices := target.devices, paused := true) && DevicesOk(self, target.devices)
    requires id in records
    requires Members(target.devices) == Requested(Members(folders[id].devices), records[id].pendingMembership)
    ensures id in config
    ensures var config' := config[id := config[id].(devices := target.devices, paused := true)];
            && SessionOk(self, folders, records, config')
            && SessionOk(self, folders[id := target], records[id := records[id].(pendingMembership := None)], config')
  {
    hide DevicesOk, Members, Requested, SessionOk, AgreeExcept;
    SessionGives(self, folders, records, config, id);
    RequestApplied(self, folders[id], target, records, config, id);
    var changed := config[id].(devices := target.devices, paused := true);
    var cleared := records[id].(pendingMembership := None);
    Put(folders, id, target);
    Put(config, id, changed);
    Put(records, id, cleared);
    SessionOne(self, folders, folders, records, records, config, config[id := changed], id);
    NothingRequested(Members(target.devices));
    SessionOne(self, folders, folders[id := target], records, records[id := cleared], config, config[id := changed], id);
  }

  lemma NothingRequested(members: set<string>)
    ensures Requested(members, None) == members
  {
  }

  lemma SessionGives(self: string, folders: Config, records: Records, config: Config, id: string)
    requires SessionOk(self, folders, records, config) && id in folders
    ensures SessionAt(self, folders[id], records, config, id)
  {
    hide SessionAt;
  }

  /** The folders in memory are the recorded folders upstream has. */
  ghost predicate Complete(folders: Config, records: Records, config: Config) {
    folders.Keys == records.Keys * config.Keys
  }

  /** A folder with a membership request is configured, and the request can be carried out. */
  lemma PendingIsConfigured(self: string, digest: Digest, goals: set<map<string, Goal>>, s: State, folders: Config, cell: Cell<Disk>, id: string)
    requires LiveState(self, digest, s, folders, cell) && Within(self, goals, cell)
    requires Complete(folders, s.records, cell.current.config)
    requires id in s.records && s.records[id].pendingMembership.Some?
    ensures id in folders && DevicesOk(self, folders[id].devices) && CanonicalDeviceId(self)
    ensures NormalizeDeviceId(s.records[id].pendingMembership.value.device).Some?
    ensures Normal(s.records[id].pendingMembership.value.device) != self
  {
    hide Within, Goals, AllAcceptable, CanonicalDeviceId, NormalizeDeviceId, DevicesOk, Members, ValidState, Normal;
    WithinNow(self, goals, cell);
    StateRecord(digest, s, id);
    assert ConsistentAt(self, s.records, cell.current.config, id);
    SessionGives(self, folders, s.records, cell.current.config, id);
  }

  lemma SessionWithout(self: string, folders: Config, records: Records, records': Records, config: Config, config': Config, id: string)
    requires SessionOk(self, folders, records, config)
    requires AgreeExcept(records, records', id) && AgreeExcept(config, config', id)
    ensures SessionOk(self, folders - {id}, records', config')
    ensures SessionOk(self, map[], records', config')
  {
    hide SessionAt, AgreeExcept;
    Dropped(folders, id);
    SessionOne(self, folders, folders - {id}, records, records', config, config', id);
  }

  lemma NoSession(self: string, records: Records, config: Config)
    ensures SessionOk(self, map[], records, config)
  {
  }

  lemma SessionConfigured(self: string, folders: Config, records: Records, config: Config, id: string)
    requires SessionOk(self, folders, records, config)
    ensures id in folders ==> id in config && id in records
  {
    hide SessionAt;
    if id in folders {
      SessionAtConfigured(self, folders[id], records, config, id);
    }
  }

  lemma SessionAtConfigured(self: string, f: F.Folder, records: Records, config: Config, id: string)
    requires SessionAt(self, f, records, config, id)
    ensures id in config && id in records && DevicesOk(self, f.devices)
  {
  }

  lemma SessionAfterPause(self: string, folders: Config, records: Records, config: Config, id: string, paused: bool)
    requires SessionOk(self, folders, records, config) && id in folders
    ensures id in config
    ensures var config' := config[id := config[id].(paused := paused)];
            && SessionOk(self, folders, records, config')
            && SessionOk(self, folders[id := folders[id].(paused := paused)], records, config')
  {
    hide DevicesOk, Members, Requested, SessionOk, AgreeExcept;
    SessionGives(self, folders, records, config, id);
    Put(folders, id, folders[id].(paused := paused));
    Put(config, id, config[id].(paused := paused));
    Put(records, id, records[id]);
    var config' := config[id := config[id].(paused := paused)];
    SessionOne(self, folders, folders, records, records, config, config', id);
    SessionOne(self, folders, folders[id := folders[id].(paused := paused)], records, records, config, config', id);
  }

  /** The requests are gone from every record but those still to be looked at, and nothing else changed. */
  ghost predicate Progress(snapshot: Records, ids: set<string>, records: Records) {
    && records.Keys == snapshot.Keys
    && (forall id :: id in ids && id in snapshot ==> records[id] == snapshot[id])
    && (forall id :: id in snapshot && id !in ids ==> records[id] == snapshot[id].(pendingMembership := None))
  }

  lemma ProgressStart(records: Records)
    ensures Progress(records, records.Keys, records)
  {
  }

  lemma ProgressOne(snapshot: Records, ids: set<string>, records: Records, id: string)
    requires Progress(snapshot, ids, records) && id in ids && ids <= snapshot.Keys
    ensures id in records && records[id] == snapshot[id]
    ensures snapshot[id].pendingMembership.None? ==> Progress(snapshot, ids - {id}, records)
    ensures Progress(snapshot, ids - {id}, records[id := records[id].(pendingMembership := None)])
  {
  }

  // ------------------------------------------------------------------ markers

  datatype Entry = EmptyDir | FullDir | NotDir

  const FOREIGN_MARKER := ".stfolder"

  /** The content tree of the card is the folder's, and its marker there is an empty directory, or gone if it may be. */
  ghost predicate StopMarkerSafe(trees: map<string, Cell<map<string, Entry>>>, f: F.Folder, card: F.Card, required: bool) {
    && f.id != "" && f.markerName != "" && f.markerName != ".stfolder" && '/' !in f.markerName
    && card.Content(f.kind).path != "" && f.path == card.Content(f.kind).path
    && f.path in trees
    && (if f.markerName in trees[f.path].current then trees[f.path].current[f.markerName].EmptyDir? else !required)
  }

  method ValidateStopMarker(trees: map<string, Cell<map<string, Entry>>>, f: F.Folder, card: F.Card, required: bool)
    returns (safe: bool)
    ensures safe <==> StopMarkerSafe(trees, f, card, required)
  {
    var expected := card.Content(f.kind).path;
    if f.id == "" || f.markerName == "" || f.markerName == FOREIGN_MARKER || '/' in f.markerName || expected == ""
       || f.path != expected || expected !in trees {
      return false;
    }
    var entries := trees[expected].current;
    if f.markerName !in entries {
      return !required;
    }
    safe := entries[f.markerName].EmptyDir?;
  }

  lemma SafeIfRequired(trees: map<string, Cell<map<string, Entry>>>, f: F.Folder, card: F.Card, required: bool)
    requires StopMarkerSafe(trees, f, card, required)
    ensures StopMarkerSafe(trees, f, card, false)
  {
  }

  /** The card a pending stop needs: the only inventory row with its id, mounted and writable. */
  ghost predicate StopCard(inventory: seq<F.Card>, r: Record, i: int) {
    F.OnlyCard(inventory, i, r.cardId) && F.Usable(inventory[i])
  }

  /** The folder as upstream has it, or else what the record and the card say of it. */
  ghost function StopTarget(folders: Config, id: string, r: Record, card: F.Card): F.Folder {
    if id in folders then folders[id]
    else F.Folder(id, r.kind, card.Content(r.kind).path, SendOnly, r.markerName, true, "", "", "", [])
  }

  type Trees = map<string, Cell<map<string, Entry>>>

  /** Everything a pending stop needs before it touches anything. */
  ghost predicate StopReady(trees: Trees, inventory: seq<F.Card>, folders: Config, id: string, r: Record) {
    exists i :: StopCard(inventory, r, i)
      && StopMarkerSafe(trees, StopTarget(folders, id, r, inventory[i]), inventory[i], id in folders)
  }

  /** At most the marker went, only if it was an empty directory, and once done it is gone for good. */
  ghost predicate MarkerRemoved(before: Trees, after: Trees, ok: bool, path: string, marker: string) {
    || (!ok && after == before)
    || (&& path in before && path in after && after == before[path := after[path]]
        && after[path].current == before[path].current - {marker}
        && (marker in before[path].current ==> before[path].current[marker].EmptyDir?)
        && (ok ==> after[path].Settled()))
  }

  /** The content tree a stop looks at with the i-th card, and the marker in it. */
  ghost predicate PlaceOf(folders: Config, inventory: seq<F.Card>, id: string, r: Record, i: int, path: string, marker: string) {
    && StopCard(inventory, r, i)
    && path == StopTarget(folders, id, r, inventory[i]).path
    && marker == StopTarget(folders, id, r, inventory[i]).markerName
  }

  /** A folder being stopped has this marker in this content tree. */
  ghost predicate StopsWith(stops: Records, folders: Config, inventory: seq<F.Card>, id: string, path: string, marker: string) {
    id in stops && stops[id].pendingStop && exists i :: PlaceOf(folders, inventory, id, stops[id], i, path, marker)
  }

  /**
   * Between two states of the cards nothing appeared and nothing changed, and what
   * went are empty marker directories of folders being stopped, each in the content
   * tree of its own folder.
   */
  ghost predicate OnlyStopMarkersLost(stops: Records, folders: Config, inventory: seq<F.Card>, before: Trees, after: Trees) {
    && before.Keys == after.Keys
    && (forall path, entry :: path in before && entry in after[path].current ==>
          entry in before[path].current && after[path].current[entry] == before[path].current[entry])
    && forall path, entry :: path in before && entry in before[path].current && entry !in after[path].current ==>
         before[path].current[entry].EmptyDir? && exists id :: StopsWith(stops, folders, inventory, id, path, entry)
  }

  /** What working on one stop may do to the cards. */
  ghost predicate StopEffect(before: Trees, after: Trees, ok: bool, folders: Config, inventory: seq<F.Card>, id: string, r: Record) {
    || (!ok && after == before)
    || exists i, path, marker ::
         PlaceOf(folders, inventory, id, r, i, path, marker) && MarkerRemoved(before, after, ok, path, marker)
  }

  lemma MarkerLoss(stops: Records, folders: Config, inventory: seq<F.Card>, start: Trees, before: Trees, after: Trees, ok: bool, id: string)
    requires OnlyStopMarkersLost(stops, folders, inventory, start, before)
    requires id in stops && stops[id].pendingStop
    requires StopEffect(before, after, ok, folders, inventory, id, stops[id])
    ensures OnlyStopMarkersLost(stops, folders, inventory, start, after)
  {
    hide StopTarget, StopCard;
    if after != before {
      var i, place, marker :| PlaceOf(folders, inventory, id, stops[id], i, place, marker)
        && MarkerRemoved(before, after, ok, place, marker);
      assert StopsWith(stops, folders, inventory, id, place, marker);
      forall path, entry | path in start && entry in start[path].current && entry !in after[path].current
        ensures start[path].current[entry].EmptyDir? && exists k :: StopsWith(stops, folders, inventory, k, path, entry)
      {
        if entry in before[path].current {
          assert path == place && entry == marker;
        }
      }
    }
  }

  lemma EffectAnyway(before: Trees, after: Trees, path: string, marker: string)
    requires MarkerRemoved(before, after, true, path, marker)
    ensures MarkerRemoved(before, after, false, path, marker)
  {
  }

  // --------------------------------------------------- when all stops can be finished

  /** Every pending stop has its card, and nothing but an empty marker is in the way. */
  ghost predicate AllReady(trees: Trees, inventory: seq<F.Card>, folders: Config, stops: Records) {
    forall id :: id in stops && stops[id].pendingStop ==> StopReady(trees, inventory, folders, id, stops[id])
  }

  /** No stop of a configured folder shares its marker in its content tree with another stop. */
  ghost predicate StopsApart(stops: Records, folders: Config, inventory: seq<F.Card>) {
    forall a, b, path, marker ::
      a != b && StopsWith(stops, folders, inventory, a, path, marker) && StopsWith(stops, folders, inventory, b, path, marker) ==>
        b !in folders
  }

  /** The stops done were ready at the start; of the others none has become less ready. */
  ghost predicate ReadySoFar(stops: Records, folders: Config, inventory: seq<F.Card>, start: Trees, trees: Trees, done: set<string>) {
    && (forall id :: id in done ==> id in stops && StopReady(start, inventory, folders, id, stops[id]))
    && (StopsApart(stops, folders, inventory) ==>
          forall id :: id in stops && stops[id].pendingStop && id !in done && StopReady(start, inventory, folders, id, stops[id]) ==>
            StopReady(trees, inventory, folders, id, stops[id]))
  }

  lemma NoneDone(stops: Records, folders: Config, inventory: seq<F.Card>, trees: Trees)
    ensures ReadySoFar(stops, folders, inventory, trees, trees, {})
  {
  }

  /** Where no marker has appeared, what is safe now was safe before. */
  lemma SafeBefore(stops: Records, known: Config, inventory: seq<F.Card>, start: Trees, trees: Trees, f: F.Folder, card: F.Card, required: bool)
    requires OnlyStopMarkersLost(stops, known, inventory, start, trees) && StopMarkerSafe(trees, f, card, required)
    ensures StopMarkerSafe(start, f, card, required)
  {
    hide StopsWith;
    assert f.path in start;
    if f.markerName in start[f.path].current && f.markerName in trees[f.path].current {
      assert trees[f.path].current[f.markerName] == start[f.path].current[f.markerName];
    }
  }

  /** The stop worked on was ready, and it took nothing from the others. */
  lemma ReadyStep(stops: Records, folders: Config, inventory: seq<F.Card>, start: Trees, before: Trees, after: Trees,
                  ok: bool, done: set<string>, id: string)
    requires ReadySoFar(stops, folders, inventory, start, before, done)
    requires OnlyStopMarkersLost(stops, folders, inventory, start, before)
    requires id in stops && stops[id].pendingStop && StopReady(before, inventory, folders, id, stops[id])
    requires StopEffect(before, after, ok, folders, inventory, id, stops[id])
    ensures ReadySoFar(stops, folders, inventory, start, after, done + {id})
  {
    hide StopMarkerSafe, StopTarget, StopCard, OnlyStopMarkersLost, MarkerRemoved, StopsWith;
    StopCardInRange(inventory, stops[id]);
    var at :| StopCard(inventory, stops[id], at)
      && StopMarkerSafe(before, StopTarget(folders, id, stops[id], inventory[at]), inventory[at], id in folders);
    SafeBefore(stops, folders, inventory, start, before, StopTarget(folders, id, stops[id], inventory[at]), inventory[at], id in folders);
    if StopsApart(stops, folders, inventory) {
      forall other | other in stops && stops[other].pendingStop && other != id && StopReady(before, inventory, folders, other, stops[other])
        ensures StopReady(after, inventory, folders, other, stops[other])
      {
        ReadyElsewhere(stops, folders, inventory, before, after, ok, id, other);
      }
    }
  }

  lemma ReadyElsewhere(stops: Records, folders: Config, inventory: seq<F.Card>, before: Trees, after: Trees, ok: bool,
                       id: string, other: string)
    requires StopsApart(stops, folders, inventory) && id != other
    requires id in stops && stops[id].pendingStop && other in stops && stops[other].pendingStop
    requires StopEffect(before, after, ok, folders, inventory, id, stops[id])
    requires StopReady(before, inventory, folders, other, stops[other])
    ensures StopReady(after, inventory, folders, other, stops[other])
  {
    hide StopTarget, StopCard;
    StopCardInRange(inventory, stops[other]);
    if after != before {
      var i, place, marker :| PlaceOf(folders, inventory, id, stops[id], i, place, marker)
        && MarkerRemoved(before, after, ok, place, marker);
      assert StopsWith(stops, folders, inventory, id, place, marker);
      var at :| StopCard(inventory, stops[other], at)
        && StopMarkerSafe(before, StopTarget(folders, other, stops[other], inventory[at]), inventory[at], other in folders);
      var f := StopTarget(folders, other, stops[other], inventory[at]);
      assert PlaceOf(folders, inventory, other, stops[other], at, f.path, f.markerName);
      assert StopsWith(stops, folders, inventory, other, f.path, f.markerName);
      assert f.path != place || f.markerName != marker || other !in folders;
      assert StopMarkerSafe(after, f, inventory[at], other in folders);
    }
  }

  lemma AllDone(stops: Records, folders: Config, inventory: seq<F.Card>, start: Trees, trees: Trees)
    requires ReadySoFar(stops, folders, inventory, start, trees, Stops(stops))
    ensures AllReady(start, inventory, folders, stops)
  {
    hide StopReady, StopsApart;
  }

  /** A stop that is not ready now was not ready at the start, unless two of them share a marker. */
  lemma OneNotReady(stops: Records, folders: Config, inventory: seq<F.Card>, start: Trees, trees: Trees, done: set<string>, id: string)
    requires ReadySoFar(stops, folders, inventory, start, trees, done)
    requires id in stops && stops[id].pendingStop && id !in done && !StopReady(trees, inventory, folders, id, stops[id])
    ensures StopsApart(stops, folders, inventory) ==> !AllReady(start, inventory, folders, stops)
  {
    hide StopReady, StopsApart;
  }

  /** A stop still recorded as it was cannot be finished. */
  ghost predicate StopBlocked(trees: Trees, inventory: seq<F.Card>, folders: Config, stops: Records, records: Records) {
    exists id ::
      && id in records && id in stops && records[id] == stops[id] && stops[id].pendingStop
      && !StopReady(trees, inventory, folders, id, stops[id])
  }

  /** The recorded folders upstream has, as the next start will know them. */
  function Known(d: Disk): Config {
    map id | id in d.config && id in Recorded(d) :: d.config[id]
  }

  /** The same folders apart from members and pausing. */
  ghost predicate SameFixed(folders: Config, folders': Config) {
    folders.Keys == folders'.Keys && forall id :: id in folders ==> Fixed(folders[id]) == Fixed(folders'[id])
  }

  /** The same stops are pending, for folders that look the same to a stop. */
  ghost predicate SameStops(stops: Records, folders: Config, stops': Records, folders': Config) {
    && (forall id :: id in stops && stops[id].pendingStop ==> id in stops' && stops'[id] == stops[id])
    && (forall id :: id in stops' && stops'[id].pendingStop ==> id in stops && stops'[id] == stops[id])
    && SameFixed(folders, folders')
  }

  lemma SamePlaces(folders: Config, folders': Config, inventory: seq<F.Card>, id: string, r: Record)
    requires SameFixed(folders, folders')
    ensures forall i, path, marker :: PlaceOf(folders, inventory, id, r, i, path, marker) <==> PlaceOf(folders', inventory, id, r, i, path, marker)
    ensures forall trees :: StopReady(trees, inventory, folders, id, r) <==> StopReady(trees, inventory, folders', id, r)
  {
    hide StopCard;
    StopCardInRange(inventory, r);
    forall i | StopCard(inventory, r, i)
      ensures SameTarget(StopTarget(folders, id, r, inventory[i]), StopTarget(folders', id, r, inventory[i]))
    {
      if id in folders {
        assert Fixed(folders[id]) == Fixed(folders'[id]);
      }
    }
  }

  ghost predicate SameTarget(f: F.Folder, f': F.Folder) {
    f.id == f'.id && f.kind == f'.kind && f.path == f'.path && f.markerName == f'.markerName
  }

  /** Whatever is said of the stops of the one can be said of the stops of the other. */
  lemma SameStopsAgree(stops: Records, folders: Config, stops': Records, folders': Config, inventory: seq<F.Card>)
    requires SameStops(stops, folders, stops', folders')
    ensures forall trees :: AllReady(trees, inventory, folders, stops) <==> AllReady(trees, inventory, folders', stops')
    ensures StopsApart(stops, folders, inventory) <==> StopsApart(stops', folders', inventory)
    ensures forall before, after :: OnlyStopMarkersLost(stops', folders', inventory, before, after) ==>
              OnlyStopMarkersLost(stops, folders, inventory, before, after)
    ensures forall trees, records :: StopBlocked(trees, inventory, folders', stops', records) ==>
              StopBlocked(trees, inventory, folders, stops, records)
  {
    hide PlaceOf, StopReady;
    forall id | id in stops && stops[id].pendingStop
      ensures forall path, marker ::
                StopsWith(stops, folders, inventory, id, path, marker) <==> StopsWith(stops', folders', inventory, id, path, marker)
      ensures forall trees :: StopReady(trees, inventory, folders, id, stops[id]) <==> StopReady(trees, inventory, folders', id, stops'[id])
    {
      SamePlaces(folders, folders', inventory, id, stops[id]);
    }
    forall id, path, marker
      ensures StopsWith(stops, folders, inventory, id, path, marker) <==> StopsWith(stops', folders', inventory, id, path, marker)
    {
    }
  }

  lemma SameStopsThen(a: Records, f: Config, b: Records, g: Config, c: Records, h: Config)
    requires SameStops(a, f, b, g) && SameStops(b, g, c, h)
    ensures SameStops(a, f, c, h)
  {
  }

  lemma SameThen(f: Config, g: Config, h: Config)
    requires SameFixed(f, g) && SameFixed(g, h)
    ensures SameFixed(f, h) && g.Keys == h.Keys
  {
  }

  lemma SameItself(folders: Config)
    ensures SameFixed(folders, folders)
    ensures forall stops :: SameStops(stops, folders, stops, folders)
    ensures forall pauses :: SameFixed(folders, WithPauses(folders, pauses))
    ensures forall id, target ::
              id in folders && Fixed(target) == Fixed(folders[id]) ==> SameFixed(folders, folders[id := target])
  {
  }

  /** Settling adds and carrying out requests leaves the pending stops as they are. */
  lemma StopsUntouched(digest: Digest, s: State, records: Records, folders: Config, folders': Config)
    requires ValidState(digest, s) && SameFixed(folders, folders')
    requires AddsLeft(s.records, {}, records) || Progress(s.records, {}, records)
    ensures SameStops(s.records, folders, records, folders')
  {
    hide ValidState;
    forall id | id in s.records
      ensures s.records[id].pendingStop ==> !s.records[id].pendingAdd && s.records[id].pendingMembership.None?
    {
      StateRecord(digest, s, id);
    }
  }

  /** With the card found, readiness is the marker check alone. */
  lemma OnlyReadyCard(trees: Trees, inventory: seq<F.Card>, folders: Config, id: string, r: Record, at: int)
    requires StopCard(inventory, r, at)
    ensures 0 <= at < |inventory|
    ensures StopReady(trees, inventory, folders, id, r) <==>
              StopMarkerSafe(trees, StopTarget(folders, id, r, inventory[at]), inventory[at], id in folders)
  {
    hide StopMarkerSafe, StopTarget, StopCard;
    forall i | StopCard(inventory, r, i)
      ensures i == at
    {
      OneStopCard(inventory, r, i, at);
    }
    StopCardInRange(inventory, r);
  }

  lemma NotReady(trees: Trees, inventory: seq<F.Card>, folders: Config, id: string, r: Record)
    requires forall i :: !StopCard(inventory, r, i)
    ensures !StopReady(trees, inventory, folders, id, r)
  {
    hide StopCard, StopMarkerSafe;
  }

  function Stopping(records: Records, id: string): Records {
    if id in records then records[id := records[id].(pendingStop := true)] else records
  }

  function Stops(records: Records): set<string> {
    set id | id in records && records[id].pendingStop
  }

  /** The stops among the records already looked at. */
  ghost predicate StopsDone(records: Records, ids: set<string>, done: set<string>) {
    ids <= records.Keys && done == Stops(records) - ids
  }

  lemma StopsNone(records: Records)
    ensures StopsDone(records, records.Keys, {})
    ensures forall done :: StopsDone(records, {}, done) ==> done == Stops(records)
  {
  }

  lemma StopsOne(records: Records, ids: set<string>, done: set<string>, id: string)
    requires StopsDone(records, ids, done) && id in ids
    ensures id in records && id !in done
    ensures records[id].pendingStop ==> id in Stops(records) && StopsDone(records, ids - {id}, done + {id})
    ensures !records[id].pendingStop ==> StopsDone(records, ids - {id}, done)
  {
  }

  lemma Nothing<V>(m: map<string, V>)
    ensures m - {} == m
  {
  }

  lemma Twice<V>(m: map<string, V>, done: set<string>, id: string)
    ensures m - done - {id} == m - (done + {id})
  {
  }

  /** A stop not ready is one of all of them. */
  lemma ThisOneToo(trees: Trees, inventory: seq<F.Card>, folders: Config, records: Records, id: string)
    requires id in folders && id in records
    ensures AllReady(trees, inventory, folders, Stopping(records, id)) ==>
              exists i :: StopCard(inventory, records[id], i) && 0 <= i < |inventory|
                && StopMarkerSafe(trees, folders[id], inventory[i], true)
  {
    hide StopCard, StopMarkerSafe;
    StopCardInRange(inventory, records[id]);
    StopCardOfRecord(inventory, records[id], true);
    var stopping := Stopping(records, id);
    if AllReady(trees, inventory, folders, stopping) {
      assert id in stopping && stopping[id].pendingStop && StopReady(trees, inventory, folders, id, stopping[id]);
    }
  }

  lemma StopCardOfRecord(inventory: seq<F.Card>, r: Record, pending: bool)
    ensures forall i :: StopCard(inventory, r.(pendingStop := pending), i) <==> StopCard(inventory, r, i)
  {
  }

  lemma NoneLost(stops: Records, folders: Config, inventory: seq<F.Card>, trees: Trees)
    ensures OnlyStopMarkersLost(stops, folders, inventory, trees, trees)
  {
  }

  /** Readiness looks at no other folder. */
  lemma ReadyWithout(trees: Trees, inventory: seq<F.Card>, folders: Config, done: set<string>, id: string, r: Record)
    requires id !in done
    ensures StopReady(trees, inventory, folders - done, id, r) <==> StopReady(trees, inventory, folders, id, r)
    ensures forall before, after, ok :: StopEffect(before, after, ok, folders - done, inventory, id, r) ==>
              StopEffect(before, after, ok, folders, inventory, id, r)
  {
    hide StopCard, StopMarkerSafe, MarkerRemoved, PlaceOf;
    StopCardInRange(inventory, r);
    forall i | StopCard(inventory, r, i)
      ensures StopTarget(folders - done, id, r, inventory[i]) == StopTarget(folders, id, r, inventory[i])
    {
    }
    forall i, path, marker
      ensures PlaceOf(folders - done, inventory, id, r, i, path, marker) <==> PlaceOf(folders, inventory, id, r, i, path, marker)
    {
      SamePlace(folders - done, folders, inventory, id, r, i, path, marker);
    }
  }

  lemma SamePlace(folders: Config, folders': Config, inventory: seq<F.Card>, id: string, r: Record, i: int, path: string, marker: string)
    requires id in folders <==> id in folders'
    requires id in folders ==> Fixed(folders[id]) == Fixed(folders'[id])
    ensures PlaceOf(folders, inventory, id, r, i, path, marker) <==> PlaceOf(folders', inventory, id, r, i, path, marker)
  {
    hide StopCard;
    StopCardInRange(inventory, r);
    assert id in folders ==> Fixed(folders[id]).path == Fixed(folders'[id]).path;
  }

  lemma StopCardInRange(inventory: seq<F.Card>, r: Record)
    ensures forall i :: StopCard(inventory, r, i) ==> 0 <= i < |inventory|
  {
  }

  lemma LiveWithout(self: string, digest: Digest, s: State, folders: Config, cell: Cell<Disk>)
    requires LiveState(self, digest, s, folders, cell)
    ensures LiveState(self, digest, s, map[], cell)
  {
    hide ValidState, AllAcceptable, CanonicalDeviceId, SessionAt;
  }

  lemma OneStopCard(inventory: seq<F.Card>, r: Record, i: int, j: int)
    requires StopCard(inventory, r, i) && StopCard(inventory, r, j)
    ensures i == j
  {
  }

  method CardForStop(r: Record, inventory: seq<F.Card>) returns (card: Option<F.Card>)
    ensures card.None? ==> forall i :: !StopCard(inventory, r, i)
    ensures card.Some? ==> exists i :: StopCard(inventory, r, i) && card.value == inventory[i]
    ensures card.Some? ==> forall i :: StopCard(inventory, r, i) ==> 0 <= i < |inventory| && card.value == inventory[i]
  {
    hide F.Usable;
    var candidates := F.Candidates(inventory, r.cardId, |inventory|);
    F.OneCandidate(inventory, r.cardId, |inventory|);
    if |candidates| != 1 {
      return None;
    }
    ghost var at :| 0 <= at < |inventory| && inventory[at].id == r.cardId && r.cardId != ""
      && forall j :: 0 <= j < |inventory| && inventory[j].id == r.cardId ==> j == at;
    assert F.OnlyCard(inventory, at, r.cardId) && inventory[at] == candidates[0];
    card := if F.Usable(candidates[0]) then Some(candidates[0]) else None;
    assert card.Some? ==> StopCard(inventory, r, at);
  }

  // ------------------------------------------------------------ starting a run

  ghost predicate NoPendingAdd(records: Records, except: set<string>) {
    forall id :: id in records && id !in except ==> !records[id].pendingAdd
  }

  /** Each folder upstream has is paused exactly when it may not run. */
  ghost predicate PausedAsRequired(folders: Config, config: Config, inventory: seq<F.Card>, records: Records) {
    forall id :: id in folders ==> PausedRightly(folders, config, inventory, records, id)
  }

  /** This folder is paused, upstream and in memory, exactly when it may not run. */
  ghost predicate PausedRightly(folders: Config, config: Config, inventory: seq<F.Card>, records: Records, id: string) {
    && id in folders && id in config && folders[id].paused == config[id].paused
    && (config[id].paused <==> !F.MayRun(folders[id], inventory, records))
  }

  /** A folder with any intent pending is paused in what upstream will read. */
  lemma PendingIsPaused(folders: Config, config: Config, inventory: seq<F.Card>, records: Records, id: string)
    requires PausedAsRequired(folders, config, inventory, records) && id in folders && id in records
    requires forall f :: f in folders ==> folders[f].id == f
    requires records[id].pendingMembership.Some? || records[id].pendingStop || records[id].firstSync || records[id].manual
    ensures config[id].paused
  {
  }

  /** The folders outside ids are paused exactly when they may not run. */
  ghost predicate PausedButFor(ids: set<string>, folders: Config, config: Config, inventory: seq<F.Card>, records: Records) {
    forall id :: id in folders && id !in ids ==> PausedRightly(folders, config, inventory, records, id)
  }

  /** Whether a folder may run depends on no other record. */
  lemma StillRight(folders: Config, config: Config, records: Records, folders': Config, config': Config, records': Records,
                   inventory: seq<F.Card>, id: string)
    requires PausedRightly(folders, config, inventory, records, id) && folders[id].id == id
    requires id in folders' && folders'[id] == folders[id] && id in config' && config'[id] == config[id]
    requires id in records && id in records' && records'[id] == records[id]
    ensures PausedRightly(folders', config', inventory, records', id)
  {
    hide F.CardServes, F.OnlyCard;
  }

  /** A step at one folder leaves the others right. */
  lemma RightButOne(ids: set<string>, folders: Config, config: Config, records: Records, folders': Config, config': Config,
                    records': Records, inventory: seq<F.Card>, id: string)
    requires PausedButFor(ids, folders, config, inventory, records)
    requires forall k :: k in folders ==> folders[k].id == k && k in records
    requires AgreeExcept(folders, folders', id) && AgreeExcept(config, config', id) && AgreeExcept(records, records', id)
    ensures PausedButFor(ids + {id}, folders', config', inventory, records')
  {
    hide AgreeExcept, PausedRightly;
    forall k | k in folders' && k !in ids && k != id
      ensures PausedRightly(folders', config', inventory, records', k)
    {
      AgreeAt(folders, folders', id, k);
      AgreeAt(config, config', id, k);
      AgreeAt(records, records', id, k);
      assert PausedRightly(folders, config, inventory, records, k);
      PausedConfigured(folders, config, inventory, records, k);
      StillRight(folders, config, records, folders', config', records', inventory, k);
    }
  }

  lemma PausedConfigured(folders: Config, config: Config, inventory: seq<F.Card>, records: Records, id: string)
    requires PausedRightly(folders, config, inventory, records, id)
    ensures id in folders && id in config
  {
  }

  /** Forgetting folders leaves the others right. */
  lemma RightWithout(gone: set<string>, folders: Config, config: Config, records: Records, inventory: seq<F.Card>)
    requires PausedAsRequired(folders, config, inventory, records)
    requires forall k :: k in folders ==> folders[k].id == k && k in records
    ensures PausedAsRequired(folders - gone, config - gone, inventory, records - gone)
  {
    hide PausedRightly;
    forall id | id in folders - gone
      ensures PausedRightly(folders - gone, config - gone, inventory, records - gone, id)
    {
      PausedConfigured(folders, config, inventory, records, id);
      StillRight(folders, config, records, folders - gone, config - gone, records - gone, inventory, id);
    }
  }

  lemma AllRight(folders: Config, config: Config, inventory: seq<F.Card>, records: Records)
    ensures PausedAsRequired(folders, config, inventory, records) <==> PausedButFor({}, folders, config, inventory, records)
  {
  }

  /** One of those to be looked at is right now as well. */
  lemma OneMoreRight(ids: set<string>, folders: Config, config: Config, inventory: seq<F.Card>, records: Records, id: string)
    requires PausedButFor(ids, folders, config, inventory, records) && PausedRightly(folders, config, inventory, records, id)
    ensures PausedButFor(ids - {id}, folders, config, inventory, records)
  {
    hide PausedRightly;
  }

  ghost predicate PausedIn(folders: Config, config: Config, id: string) {
    id in folders && id in config && folders[id].paused && config[id].paused
  }

  function WithPauses(folders: Config, pauses: map<string, bool>): Config {
    map id | id in folders :: if id in pauses then folders[id].(paused := pauses[id]) else folders[id]
  }

  lemma PausedDoesNotMatter(f: F.Folder, paused: bool, inventory: seq<F.Card>, records: Records)
    ensures F.MayRun(f.(paused := paused), inventory, records) <==> F.MayRun(f, inventory, records)
  {
    hide F.ValidateManagedMarker, F.OnlyCard;
    var g := f.(paused := paused);
    if f.id in records {
      forall c: F.Card
        ensures F.CardServes(f, records[f.id], c) <==> F.CardServes(g, records[f.id], c)
      {
      }
    }
  }

  lemma PausesAreRequired(before: Config, folders: Config, config: Config, inventory: seq<F.Card>, records: Records, pauses: map<string, bool>)
    requires folders == WithPauses(before, pauses) && pauses.Keys == before.Keys
    requires forall id :: id in before ==> pauses[id] == !F.MayRun(before[id], inventory, records)
    requires forall id :: id in before ==> id in config && config[id].paused == pauses[id]
    ensures PausedAsRequired(folders, config, inventory, records)
  {
    hide F.MayRun;
    forall id | id in folders
      ensures F.MayRun(folders[id], inventory, records) <==> F.MayRun(before[id], inventory, records)
    {
      PausedDoesNotMatter(before[id], pauses[id], inventory, records);
    }
  }

  lemma PausesStep(self: string, records: Records, config: Config, pauses: map<string, bool>)
    requires Consistent(self, records, config)
    ensures Consistent(self, records, WithPauses(config, pauses))
    ensures Goals(records, WithPauses(config, pauses)) == Goals(records, config)
  {
    hide DevicesOk, Members, Requested, NormalizeDeviceId, Normal;
    var edited := WithPauses(config, pauses);
    forall id | id in records
      ensures ConsistentAt(self, records, edited, id) && GoalAt(records, edited, id) == GoalAt(records, config, id)
    {
      assert ConsistentAt(self, records, config, id);
      if id in config {
        assert Fixed(edited[id]) == Fixed(config[id]);
      }
    }
  }

  lemma SessionWithPauses(self: string, folders: Config, records: Records, config: Config, pauses: map<string, bool>)
    requires SessionOk(self, folders, records, config)
    ensures SessionOk(self, folders, records, WithPauses(config, pauses))
    ensures SessionOk(self, WithPauses(folders, pauses), records, WithPauses(config, pauses))
  {
    hide DevicesOk, Members, Requested;
    var edited := WithPauses(config, pauses);
    forall id | id in folders
      ensures SessionAt(self, folders[id], records, edited, id)
      ensures SessionAt(self, WithPauses(folders, pauses)[id], records, edited, id)
    {
      assert SessionAt(self, folders[id], records, config, id);
      assert Fixed(WithPauses(folders, pauses)[id]) == Fixed(folders[id]);
      assert Fixed(edited[id]) == Fixed(config[id]);
    }
  }

  lemma SessionAfterActivate(self: string, folders: Config, records: Records, config: Config, id: string)
    requires SessionOk(self, folders, records, config) && id in folders
    ensures id in config && id in records
    ensures SessionOk(self, folders, records[id := records[id].(pendingAdd := false)], config)
  {
    hide DevicesOk, Members, Requested, SessionOk, AgreeExcept;
    SessionGives(self, folders, records, config, id);
    Put(folders, id, folders[id]);
    Put(config, id, config[id]);
    Put(records, id, records[id].(pendingAdd := false));
    SessionOne(self, folders, folders, records, records[id := records[id].(pendingAdd := false)], config, config, id);
  }

  /** A recorded folder upstream does not have carries an intent that explains it. */
  lemma MissingIsExplained(self: string, digest: Digest, goals: set<map<string, Goal>>, s: State, folders: Config, cell: Cell<Disk>, id: string)
    requires LiveState(self, digest, s, folders, cell) && Within(self, goals, cell)
    requires Complete(folders, s.records, cell.current.config)
    requires id in s.records && id !in folders
    ensures s.records[id].pendingAdd || s.records[id].pendingStop
  {
    hide Within, Goals, AllAcceptable, CanonicalDeviceId, NormalizeDeviceId, DevicesOk, Members, ValidState, Normal, SessionOk;
    WithinNow(self, goals, cell);
    assert ConsistentAt(self, s.records, cell.current.config, id);
  }

  /** The adds among the records already looked at are settled; the others are as they were. */
  ghost predicate AddsLeft(snapshot: Records, ids: set<string>, records: Records) {
    && ids <= snapshot.Keys && records.Keys <= snapshot.Keys
    && (forall id :: id in ids ==> id in records && records[id] == snapshot[id])
    && (forall id :: id in snapshot && !snapshot[id].pendingAdd ==> id in records && records[id] == snapshot[id])
    && (forall id :: id in records && records[id] != snapshot[id] ==> records[id] == snapshot[id].(pendingAdd := false))
    && NoPendingAdd(records, ids)
  }

  lemma AddsStart(records: Records)
    ensures AddsLeft(records, records.Keys, records)
    ensures forall after :: AddsLeft(records, {}, after) ==> NoPendingAdd(after, {})
  {
  }

  lemma AddsOne(snapshot: Records, ids: set<string>, records: Records, id: string)
    requires AddsLeft(snapshot, ids, records) && id in ids
    ensures id in snapshot && id in records && records[id] == snapshot[id]
    ensures !snapshot[id].pendingAdd ==> AddsLeft(snapshot, ids - {id}, records)
  {
  }

  lemma AddSettled(snapshot: Records, ids: set<string>, records: Records, records': Records, id: string)
    requires AddsLeft(snapshot, ids, records) && id in ids && snapshot[id].pendingAdd
    requires records' == records - {id} || records' == records[id := records[id].(pendingAdd := false)]
    ensures AddsLeft(snapshot, ids - {id}, records')
  {
  }

  /** A first document, written or not, is acceptable too. */
  lemma StartAccepts(digest: Digest, before: Cell<Disk>, after: Cell<Disk>, o: Outcome, s: State)
    requires AllAcceptable(digest, before) && Saved(before, after, o, s) && !o.Refused?
    requires o.Kept? || s == State(map[], map[], "")
    ensures AllAcceptable(digest, after)
  {
    hide Acceptable, Saved, AllAcceptable;
    if !o.Kept? {
      NothingIsValid(digest);
    }
    SavedIsAcceptable(digest, before, after, o, s);
  }

  lemma NothingIsValid(digest: Digest)
    ensures ValidState(digest, State(map[], map[], ""))
  {
  }

  lemma StartFacts(digest: Digest, cell: Cell<Disk>)
    requires AllAcceptable(digest, cell)
    ensures OlderAcceptable(digest, cell)
    ensures cell.current.control.Some? ==>
              && Current(cell.current.control) && Acceptable(digest, cell.current.control.value)
              && !Unreadable(cell.current.control)
              && Meaning(cell.current.control.value).records == Recorded(cell.current)
  {
    hide Readable, ValidRecords;
    assert cell.Possible(cell.current);
    forall d | d in cell.older
      ensures cell.Possible(d)
    {
    }
    if cell.current.control.Some? {
      ReadableSchema(cell.current.control.value);
    }
  }

  lemma SessionFromConfig(self: string, folders: Config, records: Records, config: Config)
    requires Consistent(self, records, config)
    requires folders == map id | id in config && id in records :: config[id]
    ensures SessionOk(self, folders, records, config) && Complete(folders, records, config)
  {
    hide DevicesOk, Members, Requested, NormalizeDeviceId, Normal;
    forall id | id in folders
      ensures SessionAt(self, folders[id], records, config, id)
    {
      assert ConsistentAt(self, records, config, id);
    }
    assert folders.Keys == records.Keys * config.Keys;
  }

  /** The folders this run serves are neither being added nor being stopped. */
  ghost predicate Serving(folders: Config, records: Records) {
    forall id :: id in folders && id in records ==> !records[id].pendingAdd && !records[id].pendingStop
  }

  /** Once adds, requests and stops are dealt with, every record is configured and nothing is pending. */
  lemma AllSettled(self: string, digest: Digest, goals: set<map<string, Goal>>, s: State, folders: Config, cell: Cell<Disk>,
                   afterAdds: Records, before: Records, known: Config, config: Config)
    requires LiveState(self, digest, s, folders, cell) && Within(self, goals, cell)
    requires NoPendingAdd(afterAdds, {}) && Progress(afterAdds, {}, before) && Complete(known, before, config)
    requires s.records == before - Stops(before) && folders == known - Stops(before)
    requires cell.current.config == config - Stops(before)
    ensures forall id :: id in s.records ==> NothingPending(s.records[id])
    ensures folders.Keys == s.records.Keys && s.records.Keys <= cell.current.config.Keys
    ensures Serving(folders, s.records)
  {
    hide Within, Goals, AllAcceptable, CanonicalDeviceId, NormalizeDeviceId, DevicesOk, Members, ValidState, Normal, SessionOk;
    WithinNow(self, goals, cell);
    forall id | id in s.records
      ensures NothingPending(s.records[id]) && id in cell.current.config && id in folders
    {
      assert ConsistentAt(self, s.records, cell.current.config, id);
      assert s.records[id] == afterAdds[id].(pendingMembership := None);
    }
  }

  /** With nothing pending, a goal is the folder as it is: its record and its upstream members. */
  lemma SettledGoal(records: Records, config: Config, id: string)
    requires id in records && id in config && NothingPending(records[id])
    ensures GoalAt(records, config, id) == Some(Goal(records[id], Some(Fixed(config[id])), Members(config[id].devices)))
    ensures id in Goals(records, config) && Goals(records, config)[id].members == Members(config[id].devices)
  {
    hide Members;
    assert Cleared(records[id]) == records[id];
  }

  // ---------------------------------------------------------------- a new folder

  const RESERVE_BYTES := 4 * 1024 * 1024
  const MAX_UINT64 := 0xFFFF_FFFF_FFFF_FFFF

  /** What the review of a new folder fixed: the folder without its devices, and the peers chosen. */
  datatype Plan = Plan(folder: F.Folder, peers: seq<string>, contentBytes: int, availableBytes: nat)

  /** The content and 4 MiB on top of it, counted in 64 bits. */
  ghost predicate SnapshotFits(contentBytes: int, available: nat) {
    0 <= contentBytes && contentBytes + 4_194_304 <= 0xFFFF_FFFF_FFFF_FFFF && contentBytes + 4_194_304 <= available
  }

  method HasRoom(contentBytes: int, available: nat) returns (fits: bool)
    ensures fits <==> SnapshotFits(contentBytes, available)
  {
    if contentBytes < 0 {
      return false;
    }
    fits := contentBytes <= MAX_UINT64 - RESERVE_BYTES && available >= contentBytes + RESERVE_BYTES;
  }

  ghost function WithFolder(goals: map<string, Goal>, f: F.Folder, card: string): map<string, Goal> {
    goals[f.id := Added(NewRecord(f, card, false), f)]
  }

  /** Upstream has no folder under the planned id, or one an earlier attempt left there. */
  ghost predicate FreeOrLeft(self: string, config: Config, f: F.Folder) {
    f.id in config ==>
      && config[f.id].id == f.id && config[f.id].kind == f.kind && DevicesOk(self, config[f.id].devices)
  }

  /** There is a marker directory under this name already, or one can be made. */
  ghost predicate MarkerMayBe(trees: Trees, path: string, marker: string) {
    && marker != "" && marker != ".stfolder" && '/' !in marker
    && (path in trees ==>
          && ".stfolder" !in trees[path].current
          && (marker in trees[path].current ==> !trees[path].current[marker].NotDir?))
  }

  /** At most this marker directory is new, and its content tree with it. */
  ghost predicate MarkerAdded(before: Trees, after: Trees, path: string, marker: string) {
    || after == before
    || (&& path in after && after == before[path := after[path]]
        && var entries := if path in before then before[path].current else map[];
           after[path].current == if marker in entries then entries else entries[marker := EmptyDir])
  }

  /** The store takes a new record for this folder. */
  ghost predicate Addable(digest: Digest, records: Records, f: F.Folder, card: string) {
    && ValidFolderId(f.id) && ValidCardId(card) && f.markerName == BoundMarker(digest, card, f.kind)
    && f.id !in records && |records| < 16
    && forall id :: id in records ==> !(records[id].cardId == card && records[id].kind == f.kind)
  }

  /** What the folders may come to once the new record may be on disk. */
  ghost function AddOutcomes(goals: map<string, Goal>, config: Config, f: F.Folder, card: string): set<map<string, Goal>> {
    {WithFolder(goals, f, card)}
    + if f.id in config then {goals[f.id := Added(NewRecord(f, card, false), config[f.id])]} else {}
  }

  /** Peers may be shared with when they are configured, distinct, and not this device. */
  ghost predicate Selectable(self: string, peers: seq<string>, configured: seq<string>) {
    && 1 <= |peers| <= 32
    && (forall i :: 0 <= i < |configured| ==> NormalizeDeviceId(configured[i]).Some?)
    && self in Members(configured)
    && (forall i :: 0 <= i < |peers| ==>
          NormalizeDeviceId(peers[i]).Some? && Normal(peers[i]) != self && Normal(peers[i]) in Members(configured))
    && (forall i, j :: 0 <= i < j < |peers| ==> Normal(peers[i]) != Normal(peers[j]))
  }

  method SelectedFolderDevices(self: string, peers: seq<string>, configured: seq<string>) returns (r: Option<seq<string>>)
    requires CanonicalDeviceId(self)
    ensures r.Some? <==> Selectable(self, peers, configured)
    ensures r.Some? ==>
              DevicesOk(self, r.value) && |r.value| >= 2 && r.value[0] == self && Members(r.value) == {self} + Members(peers)
  {
    hide NormalizeDeviceId, CanonicalDeviceId, Members;
    if |peers| == 0 || |peers| > 32 {
      return None;
    }
    var available := NormalSet(configured);
    if available.None? || self !in available.value {
      return None;
    }
    var chosen: set<string> := {};
    NoMembers();
    CanonicalIsNormal(self);
    for n := 0 to |peers|
      invariant chosen == Members(peers[..n])
      invariant forall i :: 0 <= i < n ==>
                  NormalizeDeviceId(peers[i]).Some? && Normal(peers[i]) != self && Normal(peers[i]) in available.value
      invariant forall i, j :: 0 <= i < j < n ==> Normal(peers[i]) != Normal(peers[j])
      invariant self !in chosen
    {
      assert peers[..n + 1] == peers[..n] + [peers[n]];
      MembersAppend(peers[..n], peers[n]);
      if NormalizeDeviceId(peers[n]).None? {
        return None;
      }
      var device := NormalizeDeviceId(peers[n]).value;
      if device == self || device in chosen || device !in available.value {
        return None;
      }
      chosen := chosen + {device};
    }
    assert peers[..|peers|] == peers;
    MembersAreCanonical(peers);
    var devices := DeviceList(self, {self} + chosen);
    AtLeastTwo(devices, self, Normal(peers[0]), peers);
    r := Some(devices);
  }

  lemma AtLeastTwo(devices: seq<string>, self: string, other: string, peers: seq<string>)
    requires |devices| >= 1 && devices[0] == self && other != self
    requires |peers| >= 1 && other == Normal(peers[0]) && Members(devices) == {self} + Members(peers)
    requires Normal(self) == self
    ensures |devices| >= 2
  {
    hide NormalizeDeviceId, Normal;
    assert other in Members(peers);
    var i :| 0 <= i < |devices| && Normal(devices[i]) == other;
    assert i != 0;
  }

  method NormalSet(devices: seq<string>) returns (r: Option<set<string>>)
    ensures r.Some? <==> forall i :: 0 <= i < |devices| ==> NormalizeDeviceId(devices[i]).Some?
    ensures r.Some? ==> r.value == Members(devices)
  {
    hide NormalizeDeviceId, Members;
    var members: set<string> := {};
    NoMembers();
    for n := 0 to |devices|
      invariant forall i :: 0 <= i < n ==> NormalizeDeviceId(devices[i]).Some?
      invariant members == Members(devices[..n])
    {
      assert devices[..n + 1] == devices[..n] + [devices[n]];
      MembersAppend(devices[..n], devices[n]);
      if NormalizeDeviceId(devices[n]).None? {
        return None;
      }
      members := members + {NormalizeDeviceId(devices[n]).value};
    }
    assert devices[..|devices|] == devices;
    r := Some(members);
  }

  lemma NoMembers()
    ensures Members([]) == {}
  {
  }

  lemma LiveSelf(self: string, digest: Digest, s: State, folders: Config, cell: Cell<Disk>)
    requires LiveState(self, digest, s, folders, cell)
    ensures CanonicalDeviceId(self)
  {
    hide ValidState, AllAcceptable, SessionOk, CanonicalDeviceId;
  }

  lemma SavedSame(before: Cell<Disk>, after: Cell<Disk>, s: State)
    requires Saved(before, after, Outcome.Refused, s)
    ensures after == before
  {
  }

  /** Unrecorded or unconfigured, a folder is not served. */
  lemma NotServed(self: string, folders: Config, records: Records, config: Config, id: string)
    requires SessionOk(self, folders, records, config)
    requires id !in records || id !in config
    ensures id !in folders
  {
    hide SessionAt;
    SessionConfigured(self, folders, records, config, id);
  }

  lemma SessionAfterRecord(self: string, folders: Config, records: Records, config: Config, id: string, r: Record)
    requires SessionOk(self, folders, records, config) && id !in folders
    ensures SessionOk(self, folders, records[id := r], config)
  {
    hide SessionAt, AgreeExcept;
    Put(records, id, r);
    Dropped(folders, id);
    Dropped(config, id);
    SessionOne(self, folders, folders, records, records[id := r], config, config, id);
  }

  lemma SessionAfterConfig(self: string, folders: Config, records: Records, config: Config, id: string, f: F.Folder)
    requires SessionOk(self, folders, records, config) && id !in folders
    ensures SessionOk(self, folders, records, config[id := f])
  {
    hide SessionAt, AgreeExcept;
    Put(config, id, f);
    Dropped(folders, id);
    Dropped(records, id);
    SessionOne(self, folders, folders, records, records, config, config[id := f], id);
  }

  lemma SessionMore(self: string, folders: Config, records: Records, config: Config, f: F.Folder)
    requires SessionOk(self, folders, records, config)
    requires f.id in records && f.id in config && config[f.id] == f && DevicesOk(self, f.devices)
    ensures SessionOk(self, folders[f.id := f], records, config)
  {
    hide Members, DevicesOk;
    forall id | id in folders || id == f.id
      ensures SessionAt(self, folders[f.id := f][id], records, config, id)
    {
      if id != f.id {
        assert SessionAt(self, folders[id], records, config, id);
      }
    }
  }

  lemma ServingMore(folders: Config, records: Records, id: string, f: F.Folder)
    requires Serving(folders, records)
    requires id in records ==> !records[id].pendingAdd && !records[id].pendingStop
    ensures Serving(folders[id := f], records)
  {
  }

  lemma GoalsAreRecorded(records: Records, config: Config, id: string)
    requires id !in records
    ensures id !in Goals(records, config)
  {
  }

  lemma BackAgain(goal: map<string, Goal>, id: string, g: Goal)
    requires id !in goal
    ensures goal - {id} == goal && goal[id := g] - {id} == goal
  {
  }

  /** Recording the new folder moves the goals only where upstream still has that folder, and then to one of the outcomes. */
  lemma AddBegun(self: string, records: Records, config: Config, f: F.Folder, card: string)
    requires Consistent(self, records, config) && f.id !in records && FreeOrLeft(self, config, f)
    ensures var goal, begun := Goals(records, config), records[f.id := NewRecord(f, card, true)];
            && Consistent(self, begun, config)
            && Goals(begun, config) - {f.id} == goal
            && (Goals(begun, config) == goal || Goals(begun, config) in AddOutcomes(goal, config, f, card))
            && goal[f.id := Added(begun[f.id], f)] in AddOutcomes(goal, config, f, card)
  {
    hide Consistent, Goals, DevicesOk, Members;
    BeginAddStep(self, records, config, f.id, NewRecord(f, card, true));
    GoalsAreRecorded(records, config, f.id);
    BackAgain(Goals(records, config), f.id, Added(NewRecord(f, card, true), if f.id in config then config[f.id] else f));
  }

  lemma AgainOver(goal: map<string, Goal>, id: string, g: Goal)
    ensures goal[id := g] == (goal - {id})[id := g]
  {
  }

  lemma ServingOther(folders: Config, records: Records, records': Records, id: string)
    requires Serving(folders, records) && AgreeExcept(records, records', id)
    requires id in folders && id in records' ==> !records'[id].pendingAdd && !records'[id].pendingStop
    ensures Serving(folders, records')
  {
    hide AgreeExcept;
    forall k | k in folders && k in records' && k != id
      ensures !records'[k].pendingAdd && !records'[k].pendingStop
    {
      AgreeAt(records, records', id, k);
    }
  }

  // ------------------------------------------------------- asking for a membership

  function Request(device: string, present: bool): Intent {
    Intent(if present then Share else Unshare, device)
  }

  /** The folder does not have the requested members yet, or a request for it is still recorded. */
  ghost predicate HasWork(folders: Config, records: Records, id: string, device: string, present: bool) {
    id in folders && id in records
    && ((Normal(device) in Members(folders[id].devices)) != present || records[id].pendingMembership.Some?)
  }

  /** The goals with one folder's members as requested. */
  ghost function Asked(goals: map<string, Goal>, id: string, intent: Intent): map<string, Goal> {
    if id in goals then goals[id := goals[id].(members := Requested(goals[id].members, Some(intent)))] else goals
  }

  lemma SameRequest(device: string, peer: string, present: bool)
    requires NormalizeDeviceId(device) == Some(peer) && NormalizeDeviceId(peer) == Some(peer)
    ensures forall goals, id :: Asked(goals, id, Request(device, present)) == Asked(goals, id, Request(peer, present))
    ensures Normal(device) == Normal(peer) == peer
  {
    hide NormalizeDeviceId;
  }

  lemma AskedIs(records: Records, config: Config, id: string, intent: Intent)
    requires GoalAt(records, config, id).Some?
    ensures Asked(Goals(records, config), id, intent) ==
              Goals(records, config)[id := GoalAt(records, config, id).value.(
                members := Requested(GoalAt(records, config, id).value.members, Some(intent)))]
  {
    hide Requested, GoalAt;
    GoalOfUnrecorded(records, config, id);
  }

  /** Asking again for what is already recorded moves nothing. */
  lemma AskedTwice(records: Records, config: Config, id: string, intent: Intent)
    requires id in records && id in config && records[id].pendingMembership.Some?
    requires records[id].pendingMembership.value.operation == intent.operation
    requires Normal(records[id].pendingMembership.value.device) == Normal(intent.device)
    ensures Asked(Goals(records, config), id, intent) == Goals(records, config)
  {
    hide Members, Normal;
    var goals := Goals(records, config);
    if id in goals {
      assert Requested(goals[id].members, Some(intent)) == goals[id].members;
    }
  }

  /** Asking for what is already so moves nothing. */
  lemma NothingToAsk(self: string, f: F.Folder, records: Records, config: Config, id: string, intent: Intent)
    requires SessionAt(self, f, records, config, id) && records[id].pendingMembership.None?
    requires Requested(Members(f.devices), Some(intent)) == Members(f.devices)
    ensures Asked(Goals(records, config), id, intent) == Goals(records, config)
  {
    hide Members, DevicesOk, Normal;
    var goals := Goals(records, config);
    if id in goals {
      assert Requested(goals[id].members, Some(intent)) == goals[id].members;
    }
  }

  lemma SessionAfterAsk(self: string, folders: Config, records: Records, config: Config, id: string, intent: Intent)
    requires SessionOk(self, folders, records, config) && id in records && records[id].pendingMembership.None?
    ensures SessionOk(self, folders, records[id := records[id].(pendingMembership := Some(intent))], config)
  {
    hide DevicesOk, Members, SessionOk, AgreeExcept, Normal;
    var asked := records[id].(pendingMembership := Some(intent));
    Put(records, id, asked);
    Dropped(config, id);
    Dropped(folders, id);
    if id in folders {
      SessionGives(self, folders, records, config, id);
      NothingRequested(Members(folders[id].devices));
      NothingRequested(Members(config[id].devices));
    }
    SessionOne(self, folders, folders, records, records[id := asked], config, config, id);
  }

  lemma SessionAfterStop(self: string, folders: Config, records: Records, config: Config, id: string)
    requires SessionOk(self, folders, records, config) && id in records
    ensures SessionOk(self, folders, records[id := records[id].(pendingStop := true)], config)
  {
    hide DevicesOk, Members, SessionOk, AgreeExcept, Normal, Requested;
    Put(records, id, records[id].(pendingStop := true));
    Dropped(config, id);
    Dropped(folders, id);
    if id in folders {
      SessionGives(self, folders, records, config, id);
    }
    SessionOne(self, folders, folders, records, records[id := records[id].(pendingStop := true)], config, config, id);
  }

  lemma NotChanged(members: set<string>, device: string, present: bool)
    requires Normal(device) in members <==> present
    ensures Requested(members, Some(Request(device, present))) == members
  {
    hide Normal;
  }

  lemma ServingCleared(folders: Config, records: Records, id: string, f: F.Folder)
    requires Serving(folders, records) && id in folders && id in records
    ensures Serving(folders[id := f], records[id := records[id].(pendingMembership := None)])
  {
  }

  lemma ServingAt(folders: Config, records: Records, id: string)
    requires Serving(folders, records) && id in folders && id in records
    ensures !records[id].pendingAdd && !records[id].pendingStop
  {
  }

  /** Once the stops are done, or nothing is served any more, what is served is again neither added nor stopped. */
  lemma ServingAfterStops(folders: Config, records: Records, id: string)
    requires Serving(folders, records) && id in records
    ensures var stopping := records[id := records[id].(pendingStop := true)];
            && Serving(folders - Stops(stopping), stopping - Stops(stopping))
            && id in Stops(stopping) && (folders.Keys <= records.Keys ==> folders - Stops(stopping) == folders - {id})
    ensures forall any :: Serving(map[], any)
  {
  }

  // ------------------------------------------------------------------ the service

  datatype Result = Finished | Rejected | Interrupted | StoreFailed

  class FolderService {
    const self: string
    const store: FolderControlStore
    /** The configured folders as this run knows them. */
    var folders: Config
    /** Content trees of the mounted cards by path: the entries that are or could be markers. */
    var trees: map<string, Cell<map<string, Entry>>>

    constructor (self: string, store: FolderControlStore, trees: map<string, Cell<map<string, Entry>>>)
      ensures this.self == self && this.store == store && this.trees == trees && folders == map[]
    {
      this.self, this.store, this.trees, folders := self, store, trees, map[];
    }

    ghost function Config(): Config
      reads this, store, store.volume
    {
      store.volume.cell.current.config
    }

    ghost predicate Live()
      reads this, store, store.volume
    {
      LiveState(self, store.digest, store.Held(), folders, store.volume.cell)
    }

    ghost function Goal(): map<string, Goal>
      reads this, store, store.volume
    {
      Goals(store.records, Config())
    }

    /** Whatever a power loss makes of a running process's document, the next start accepts it. */
    lemma LiveAccepts()
      requires Live()
      ensures AllAcceptable(store.digest, store.volume.cell)
    {
      hide AllAcceptable, ValidState, SessionOk, CanonicalDeviceId;
    }

    lemma LiveIds()
      requires Live()
      ensures forall id :: id in folders ==> folders[id].id == id && id in store.records && id in Config()
    {
      hide AllAcceptable, ValidState, CanonicalDeviceId, DevicesOk, Members, Requested;
      forall id | id in folders
        ensures folders[id].id == id && id in store.records && id in Config()
      {
        assert SessionAt(self, folders[id], store.records, Config(), id);
      }
    }

    lemma LiveValid()
      requires Live()
      ensures ValidState(store.digest, store.Held())
    {
      hide AllAcceptable, ValidState, SessionOk, CanonicalDeviceId;
    }

    // ------------------------------------------------------ upstream requests

    method Tell(config: Config) returns (ok: bool)
      modifies store.volume`cell
      ensures Told(old(store.volume.cell), store.volume.cell, ok, config)
      ensures store.uncut ==> ok
    {
      var before, after := *, *;
      if before && !store.uncut {
        return false;
      }
      store.volume.cell := store.volume.cell.Write(store.volume.cell.current.(config := config));
      ok := after || store.uncut;
    }

    /** Replaces the members while pausing; upstream refuses an unknown folder. */
    method SetManagedFolderDevices(target: F.Folder) returns (ok: bool)
      modifies store.volume`cell
      ensures ok ==> target.id in old(Config())
      ensures target.id in old(Config()) ==>
                Told(old(store.volume.cell), store.volume.cell, ok,
                  old(Config())[target.id := old(Config())[target.id].(devices := target.devices, paused := true)])
      ensures target.id !in old(Config()) ==> store.volume.cell == old(store.volume.cell)
      ensures store.uncut && target.id in old(Config()) ==> ok
    {
      var config := store.volume.cell.current.config;
      ok := target.id in config;
      if ok {
        ok := Tell(config[target.id := config[target.id].(devices := target.devices, paused := true)]);
      }
    }

    method SetFolderPaused(id: string, paused: bool) returns (ok: bool)
      modifies store.volume`cell
      ensures ok ==> id in old(Config())
      ensures id in old(Config()) ==>
                Told(old(store.volume.cell), store.volume.cell, ok, old(Config())[id := old(Config())[id].(paused := paused)])
      ensures id !in old(Config()) ==> store.volume.cell == old(store.volume.cell)
      ensures store.uncut && id in old(Config()) ==> ok
    {
      var config := store.volume.cell.current.config;
      ok := id in config;
      if ok {
        ok := Tell(config[id := config[id].(paused := paused)]);
      }
    }

    /** Removing an absent folder succeeds. */
    method RemoveManagedFolder(id: string) returns (ok: bool)
      modifies store.volume`cell
      ensures id in old(Config()) ==> Told(old(store.volume.cell), store.volume.cell, ok, old(Config()) - {id})
      ensures id !in old(Config()) ==> store.volume.cell == old(store.volume.cell)
      ensures store.uncut ==> ok
    {
      var config := store.volume.cell.current.config;
      ok := *;
      ok := ok || store.uncut;
      if id in config {
        ok := Tell(config - {id});
      }
    }

    // ------------------------------------------------------------- membership

    /** Carries out the request recorded for one folder and clears it. */
    method ApplyMembership(id: string, target: F.Folder, ghost goals: set<map<string, Goal>>) returns (r: Result)
      requires Live() && Within(self, goals, store.volume.cell)
      requires id in store.records && id in folders && store.records[id].pendingMembership.Some?
      requires target == folders[id].(devices := target.devices, paused := true) && DevicesOk(self, target.devices)
      requires Members(target.devices) == Requested(Members(folders[id].devices), store.records[id].pendingMembership)
      modifies this`folders, store, store.volume`cell
      ensures Within(self, goals, store.volume.cell) && !r.Rejected?
      ensures !r.StoreFailed? ==> Live() && Goal() == old(Goal())
      ensures r.Interrupted? ==> store.records == old(store.records) && folders == old(folders)
      ensures AgreeExcept(old(Config()), Config(), id) && AgreeExcept(old(folders), folders, id)
      ensures r.Finished? ==> store.volume.cell.Settled()
      ensures r.Finished? ==> folders == old(folders)[id := target]
      ensures r.Finished? ==> store.records == old(store.records)[id := old(store.records)[id].(pendingMembership := None)]
      ensures r.Finished? ==> Config() == old(Config())[id := old(Config())[id].(devices := target.devices, paused := true)]
      ensures store.uncut ==> r.Finished?
      ensures AllAcceptable(store.digest, store.volume.cell)
    {
      hide Within, Consistent, Goals, SessionOk, AllAcceptable, ValidState, CanonicalDeviceId, NormalizeDeviceId;
      hide Members, DevicesOk, Requested, Saved, Told, AgreeExcept;
      ghost var records, config, s := store.records, Config(), store.Held();
      LiveFacts(self, store.digest, goals, s, folders, store.volume.cell, id);
      ghost var changed := config[id].(devices := target.devices, paused := true);
      Put(config, id, changed);
      Put(folders, id, target);
      RequestApplied(self, folders[id], target, records, config, id);
      SetDevicesStep(self, records, config, id, changed);
      SessionAfterSet(self, folders, records, config, id, target);
      ghost var before := store.volume.cell;
      var ok := SetManagedFolderDevices(target);
      ToldLive(self, store.digest, goals, s, folders, before, store.volume.cell, ok, config[id := changed]);
      if !ok {
        return Interrupted;
      }
      folders := folders[id := target];
      ghost var told := store.volume.cell;
      var o := store.CompleteMembership(id);
      CompleteMembershipStep(self, records, config[id := changed], id);
      SavedLive(self, store.digest, goals, s.(records := records[id := records[id].(pendingMembership := None)]), folders,
        told, store.volume.cell, o);
      r := if o.Done? then Finished else StoreFailed;
    }

    /** Run-start recovery of every recorded membership request. */
    method RecoverFolderMemberships(inventory: seq<F.Card>, ghost goals: set<map<string, Goal>>) returns (r: Result)
      requires Live() && Within(self, goals, store.volume.cell) && Complete(folders, store.records, Config())
      modifies this`folders, store, store.volume`cell
      ensures Within(self, goals, store.volume.cell) && !r.Rejected?
      ensures !r.StoreFailed? ==> Live() && Goal() == old(Goal())
      ensures r.Finished? ==> Complete(folders, store.records, Config())
      ensures r.Finished? ==> Progress(old(store.records), {}, store.records) && SameFixed(old(folders), folders)
      ensures r.Finished? && old(PausedAsRequired(folders, Config(), inventory, store.records)) ==>
                PausedAsRequired(folders, Config(), inventory, store.records)
      ensures store.uncut ==> r.Finished?
      ensures AllAcceptable(store.digest, store.volume.cell)
    {
      hide Within, Consistent, Goals, SessionOk, AllAcceptable, ValidState, CanonicalDeviceId, NormalizeDeviceId;
      hide Members, DevicesOk, Requested, Saved, Told, AgreeExcept, LiveState, SessionAt, Progress;
      hide SameFixed, Complete, PausedAsRequired, PausedButFor;
      ghost var right := PausedAsRequired(folders, Config(), inventory, store.records);
      AllRight(folders, Config(), inventory, store.records);
      ProgressStart(store.records);
      SameItself(folders);
      ghost var goal, start := Goal(), folders;
      var snapshot := store.records;
      var ids, recovered: set<string> := snapshot.Keys, {};
      while ids != {}
        invariant ids <= snapshot.Keys && recovered <= folders.Keys && SameFixed(start, folders)
        invariant Live() && Within(self, goals, store.volume.cell) && Goal() == goal
        invariant Complete(folders, store.records, Config())
        invariant Progress(snapshot, ids, store.records)
        invariant right ==> PausedButFor(recovered, folders, Config(), inventory, store.records)
        decreases |ids|
      {
        var id :| id in ids;
        ProgressOne(snapshot, ids, store.records, id);
        ids := ids - {id};
        if snapshot[id].pendingMembership.Some? {
          ghost var before, config, records := folders, Config(), store.records;
          LiveIds();
          r := RecoverMembership(id, goals);
          if !r.Finished? {
            return;
          }
          SameThen(start, before, folders);
          if right {
            RightButOne(recovered, before, config, records, folders, Config(), store.records, inventory, id);
          }
          recovered := recovered + {id};
        }
      }
      ghost var before := folders;
      r := PauseRecovered(recovered, inventory, goals);
      SameThen(start, before, folders);
      AllRight(folders, Config(), inventory, store.records);
      LiveAccepts();
    }

    /** The body of the loop over recorded requests. */
    method RecoverMembership(id: string, ghost goals: set<map<string, Goal>>) returns (r: Result)
      requires Live() && Within(self, goals, store.volume.cell) && Complete(folders, store.records, Config())
      requires id in store.records && store.records[id].pendingMembership.Some?
      modifies this`folders, store, store.volume`cell
      ensures Within(self, goals, store.volume.cell) && !r.Rejected?
      ensures !r.StoreFailed? ==> Live() && Goal() == old(Goal())
      ensures r.Finished? ==> Complete(folders, store.records, Config())
      ensures r.Finished? ==> id in folders && SameFixed(old(folders), folders)
      ensures r.Finished? ==> AgreeExcept(old(folders), folders, id) && AgreeExcept(old(Config()), Config(), id)
      ensures r.Finished? ==> AgreeExcept(old(store.records), store.records, id)
      ensures r.Finished? ==> store.records == old(store.records)[id := old(store.records)[id].(pendingMembership := None)]
      ensures store.uncut ==> r.Finished?
      ensures AllAcceptable(store.digest, store.volume.cell)
    {
      hide Within, Consistent, Goals, SessionOk, AllAcceptable, ValidState, CanonicalDeviceId, NormalizeDeviceId;
      hide Members, DevicesOk, Requested, Saved, Told, AgreeExcept, LiveState, SessionAt;
      PendingIsConfigured(self, store.digest, goals, store.Held(), folders, store.volume.cell, id);
      var intent := store.records[id].pendingMembership.value;
      var target, _ := FolderWithMembership(folders[id], self, intent.device, intent.operation.Share?);
      Put(store.records, id, store.records[id].(pendingMembership := None));
      r := ApplyMembership(id, target.value, goals);
    }

    /** The recovered folders were paused by the change; those that may run are resumed. */
    method PauseRecovered(ids: set<string>, inventory: seq<F.Card>, ghost goals: set<map<string, Goal>>) returns (r: Result)
      requires Live() && Within(self, goals, store.volume.cell) && Complete(folders, store.records, Config())
      requires ids <= folders.Keys
      modifies this`folders, store.volume`cell
      ensures Live() && Within(self, goals, store.volume.cell) && Goal() == old(Goal())
      ensures (r.Finished? || r.Interrupted?) && SameFixed(old(folders), folders)
      ensures Complete(folders, store.records, Config())
      ensures r.Finished? && old(PausedButFor(ids, folders, Config(), inventory, store.records)) ==>
                PausedButFor({}, folders, Config(), inventory, store.records)
      ensures store.uncut ==> r.Finished?
    {
      hide Within, Consistent, Goals, SessionOk, AllAcceptable, ValidState, CanonicalDeviceId, NormalizeDeviceId;
      hide Members, DevicesOk, Requested, Saved, Told, AgreeExcept, LiveState, SessionAt, F.MayRun;
      hide SameFixed, PausedButFor, PausedRightly;
      ghost var right := PausedButFor(ids, folders, Config(), inventory, store.records);
      SameItself(folders);
      ghost var start := folders;
      var recovered := ids;
      r := Finished;
      while recovered != {}
        invariant recovered <= folders.Keys && r.Finished? && SameFixed(start, folders)
        invariant Live() && Within(self, goals, store.volume.cell) && Goal() == old(Goal())
        invariant Complete(folders, store.records, Config())
        invariant right ==> PausedButFor(recovered, folders, Config(), inventory, store.records)
        decreases |recovered|
      {
        var id :| id in recovered;
        ghost var left, before, config := recovered, folders, Config();
        recovered := recovered - {id};
        LiveIds();
        Put(store.records, id, store.records[id]);
        r := PauseAsRequired(id, inventory, goals);
        SameThen(start, before, folders);
        if !r.Finished? {
          return;
        }
        if right {
          RightButOne(left, before, config, store.records, folders, Config(), store.records, inventory, id);
          assert left + {id} - {id} == recovered;
          OneMoreRight(left + {id}, folders, Config(), inventory, store.records, id);
        }
      }
    }

    // ------------------------------------------------------------------- stop

    method RemoveStopMarker(f: F.Folder, card: F.Card) returns (ok: bool)
      modifies this`trees
      ensures MarkerRemoved(old(trees), trees, false, f.path, f.markerName)
      ensures ok ==> MarkerRemoved(old(trees), trees, true, f.path, f.markerName)
      ensures store.uncut && StopMarkerSafe(old(trees), f, card, false) ==> ok
    {
      ok := *;
      ok := ok || store.uncut;
      var safe := ValidateStopMarker(trees, f, card, false);
      if !ok || !safe {
        return false;
      }
      var tree := trees[f.path];
      if f.markerName in tree.current {
        tree := tree.Write(tree.current - {f.markerName});
      }
      assert tree.current == trees[f.path].current - {f.markerName};
      ok := *;
      ok := ok || store.uncut;
      if ok {
        tree := tree.Flushed();
      }
      trees := trees[f.path := tree];
    }

    /** Pauses the folder and removes it upstream. */
    method DetachFolder(id: string, ghost goals: set<map<string, Goal>>) returns (ok: bool)
      requires Live() && Within(self, goals, store.volume.cell)
      requires id in store.records && store.records[id].pendingStop
      modifies this`folders, store.volume`cell
      ensures Live() && Within(self, goals, store.volume.cell) && Goal() == old(Goal())
      ensures folders == if ok then old(folders) - {id} else map[]
      ensures ok ==> Config() == old(Config()) - {id}
      ensures ok && id in old(folders) ==>
                && id in old(Config())
                && store.volume.cell.Possible(old(store.volume.cell.current).(config :=
                     old(Config())[id := old(Config())[id].(paused := true)]))
      ensures store.uncut ==> ok
    {
      hide Within, Consistent, Goals, SessionOk, AllAcceptable, ValidState, CanonicalDeviceId, SessionAt;
      hide Told, AgreeExcept;
      ghost var records, start, s := store.records, Config(), store.Held();
      LiveFacts(self, store.digest, goals, s, folders, store.volume.cell, id);
      if id in folders {
        ghost var before := store.volume.cell;
        SessionConfigured(self, folders, records, start, id);
        PauseStep(self, records, start, id, true);
        SessionAfterPause(self, folders, records, start, id, true);
        ok := SetFolderPaused(id, true);
        ToldLive(self, store.digest, goals, s, folders, before, store.volume.cell, ok, start[id := start[id].(paused := true)]);
        if !ok {
          folders := map[];
          NoSession(self, records, Config());
          return;
        }
      }
      ghost var config, middle := Config(), store.volume.cell;
      assert config - {id} == start - {id};
      LiveFacts(self, store.digest, goals, s, folders, middle, id);
      RemoveFolderStep(self, records, config, id);
      Dropped(records, id);
      Dropped(config, id);
      SessionWithout(self, folders, records, records, config, config - {id}, id);
      ok := RemoveManagedFolder(id);
      if id in old(folders) {
        ToldBefore(old(store.volume.cell), middle, store.volume.cell, start[id := start[id].(paused := true)], config - {id}, ok);
      }
      if id in config {
        NoSession(self, records, config);
        ToldLive(self, store.digest, goals, s, map[], middle, store.volume.cell, ok, config - {id});
      } else {
        assert config - {id} == config;
      }
      folders := if ok then folders - {id} else map[];
      NoSession(self, records, Config());
    }

    /** Finishes one pending stop: upstream first, then the marker, and the record last. */
    method StopFolder(id: string, inventory: seq<F.Card>, ghost goals: set<map<string, Goal>>) returns (r: Result)
      requires Live() && Within(self, goals, store.volume.cell)
      requires id in store.records && store.records[id].pendingStop
      modifies this, store, store.volume`cell
      ensures Within(self, goals, store.volume.cell)
      ensures !r.StoreFailed? ==> Live() && Goal() == old(Goal())
      ensures r.Rejected? <==> !old(StopReady(trees, inventory, folders, id, store.records[id]))
      ensures r.Rejected? ==> trees == old(trees) && store.volume.cell == old(store.volume.cell)
      ensures r.Rejected? || r.Interrupted? ==> store.records == old(store.records)
      ensures !r.Finished? ==> folders == map[]
      ensures StopEffect(old(trees), trees, r.Finished?, old(folders), inventory, id, old(store.records)[id])
      ensures r.Finished? ==>
                && store.volume.cell.Settled()
                && store.records == old(store.records) - {id} && Config() == old(Config()) - {id} && folders == old(folders) - {id}
      ensures store.uncut ==> r.Finished? || r.Rejected?
      ensures AllAcceptable(store.digest, store.volume.cell)
    {
      hide Within, Consistent, Goals, SessionOk, AllAcceptable, ValidState, CanonicalDeviceId, SessionAt;
      hide Told, Saved, AgreeExcept, StopMarkerSafe, MarkerRemoved, StopCard, LiveState, StopReady;
      ghost var records, s, known := store.records, store.Held(), folders;
      var record := store.records[id];
      StopCardInRange(inventory, record);
      LiveAccepts();
      LiveWithout(self, store.digest, s, folders, store.volume.cell);
      var card := CardForStop(record, inventory);
      if card.None? {
        NotReady(trees, inventory, folders, id, record);
        folders := map[];
        return Rejected;
      }
      ghost var at :| StopCard(inventory, record, at) && card.value == inventory[at];
      OnlyReadyCard(trees, inventory, folders, id, record, at);
      var target := F.Folder(id, record.kind, card.value.Content(record.kind).path, SendOnly, record.markerName, true, "", "", "", []);
      if id in folders {
        target := folders[id];
      }
      var safe := ValidateStopMarker(trees, target, card.value, id in folders);
      if !safe {
        folders := map[];
        return Rejected;
      }
      var ok := DetachFolder(id, goals);
      assert trees == old(trees);
      LiveAccepts();
      if !ok {
        return Interrupted;
      }
      LiveWithout(self, store.digest, s, folders, store.volume.cell);
      SafeIfRequired(trees, target, card.value, id in old(folders));
      ok := RemoveStopMarker(target, card.value);
      assert PlaceOf(known, inventory, id, record, at, target.path, target.markerName);
      if !ok {
        folders := map[];
        return Interrupted;
      }
      EffectAnyway(old(trees), trees, target.path, target.markerName);
      r := ForgetStopped(id, goals);
    }

    method ForgetStopped(id: string, ghost goals: set<map<string, Goal>>) returns (r: Result)
      requires Live() && Within(self, goals, store.volume.cell)
      requires id in store.records && store.records[id].pendingStop && id !in folders
      modifies this`folders, store, store.volume`cell
      ensures Within(self, goals, store.volume.cell)
      ensures r.Finished? || r.StoreFailed?
      ensures r.Finished? ==>
                && Live() && Goal() == old(Goal()) && store.volume.cell.Settled()
                && store.records == old(store.records) - {id} && Config() == old(Config()) && folders == old(folders)
      ensures !r.Finished? ==> folders == map[]
      ensures store.uncut ==> r.Finished?
      ensures AllAcceptable(store.digest, store.volume.cell)
    {
      hide Within, Consistent, Goals, SessionOk, AllAcceptable, ValidState, CanonicalDeviceId, SessionAt;
      hide Told, Saved, AgreeExcept;
      ghost var records, config, s, before := store.records, Config(), store.Held(), store.volume.cell;
      LiveFacts(self, store.digest, goals, s, folders, before, id);
      RemoveRecordStep(self, records, config, id);
      Dropped(records, id);
      Dropped(config, id);
      SessionWithout(self, folders, records, records - {id}, config, config, id);
      assert folders - {id} == folders;
      var o := store.Remove(id);
      SavedLive(self, store.digest, goals, s.(records := records - {id}), folders, before, store.volume.cell, o);
      if !o.Done? {
        folders := map[];
        return StoreFailed;
      }
      r := Finished;
    }

    /** Finishes every pending stop; on any failure this run no longer knows any folder. */
    method RecoverPendingFolderStops(inventory: seq<F.Card>, ghost goals: set<map<string, Goal>>) returns (r: Result)
      requires Live() && Within(self, goals, store.volume.cell)
      modifies this, store, store.volume`cell
      ensures Within(self, goals, store.volume.cell)
      ensures !r.StoreFailed? ==> Live() && Goal() == old(Goal())
      ensures r.Finished? ==>
                && store.records == old(store.records) - Stops(old(store.records))
                && Config() == old(Config()) - Stops(old(store.records))
                && folders == old(folders) - Stops(old(store.records))
      ensures r.Rejected? ==> StopBlocked(trees, inventory, old(folders), old(store.records), store.records)
      ensures r.Finished? ==> AllReady(old(trees), inventory, old(folders), old(store.records))
      ensures r.Rejected? && StopsApart(old(store.records), old(folders), inventory) ==>
                !AllReady(old(trees), inventory, old(folders), old(store.records))
      ensures !r.Finished? ==> folders == map[]
      ensures OnlyStopMarkersLost(old(store.records), old(folders), inventory, old(trees), trees)
      ensures store.uncut ==> r.Finished? || r.Rejected?
      ensures AllAcceptable(store.digest, store.volume.cell)
    {
      hide Within, Consistent, Goals, SessionOk, AllAcceptable, ValidState, CanonicalDeviceId, SessionAt;
      hide Told, Saved, AgreeExcept, StopMarkerSafe, MarkerRemoved, StopCard, LiveState, StopReady, OnlyStopMarkersLost, Stops, StopsDone;
      hide StopEffect, ReadySoFar, AllReady, StopsApart;
      ghost var goal, known, start := Goal(), folders, trees;
      NoneLost(store.records, folders, inventory, trees);
      NoneDone(store.records, folders, inventory, trees);
      StopsNone(store.records);
      Nothing(store.records);
      Nothing(folders);
      Nothing(Config());
      var snapshot := store.records;
      var ids := snapshot.Keys;
      ghost var done: set<string> := {};
      while ids != {}
        invariant Live() && Within(self, goals, store.volume.cell) && Goal() == goal
        invariant StopsDone(snapshot, ids, done)
        invariant store.records == snapshot - done && Config() == old(Config()) - done && folders == known - done
        invariant OnlyStopMarkersLost(snapshot, known, inventory, start, trees)
        invariant ReadySoFar(snapshot, known, inventory, start, trees, done)
        decreases |ids|
      {
        var id :| id in ids;
        StopsOne(snapshot, ids, done, id);
        ids := ids - {id};
        if snapshot[id].pendingStop {
          ReadyWithout(trees, inventory, known, done, id, snapshot[id]);
          ghost var before := trees;
          r := StopFolder(id, inventory, goals);
          MarkerLoss(snapshot, known, inventory, start, before, trees, r.Finished?, id);
          if !r.Finished? {
            if r.Rejected? {
              OneNotReady(snapshot, known, inventory, start, before, done, id);
            }
            return;
          }
          ReadyStep(snapshot, known, inventory, start, before, trees, true, done, id);
          Twice(snapshot, done, id);
          Twice(known, done, id);
          Twice(old(Config()), done, id);
          done := done + {id};
        }
      }
      LiveAccepts();
      AllDone(snapshot, known, inventory, start, trees);
      r := Finished;
    }

    // ------------------------------------------------------------------- start

    /**
     * The start of a run before upstream is there: reads the document, settles
     * half-made adds against the upstream configuration, and writes the pause set
     * into it.
     */
    method Bootstrap(inventory: seq<F.Card>, ghost goals: set<map<string, Goal>>) returns (r: Result)
      requires CanonicalDeviceId(self)
      requires Within(self, goals, store.volume.cell) && AllAcceptable(store.digest, store.volume.cell)
      modifies this`folders, store, store.volume`cell
      ensures Within(self, goals, store.volume.cell) && (r.Finished? || r.Interrupted? || r.StoreFailed?)
      ensures r.Finished? ==> Live() && Complete(folders, store.records, Config())
      ensures r.Finished? ==> Goal() == old(Intended(store.volume.cell.current))
      ensures r.Finished? ==> NoPendingAdd(store.records, {})
      ensures r.Finished? ==> SameStops(old(Recorded(store.volume.cell.current)), old(Known(store.volume.cell.current)), store.records, folders)
      ensures r.Finished? ==> PausedAsRequired(folders, Config(), inventory, store.records)
      ensures store.uncut ==> r.Finished?
      ensures AllAcceptable(store.digest, store.volume.cell)
    {
      hide Within, Consistent, Goals, SessionOk, AllAcceptable, ValidState, CanonicalDeviceId, SessionAt;
      hide Told, Saved, AgreeExcept, Acceptable, Meaning, Readable, PausedAsRequired, SameStops, SameFixed, AddsLeft, Known, Recorded;
      r := ReadControls(inventory, goals);
      if !r.Finished? {
        return;
      }
      ghost var s, found := store.Held(), folders;
      LiveValid();
      r := ReconcileAdds(goals);
      if !r.Finished? {
        return;
      }
      var pauses := RequiredPauses(inventory);
      ghost var known := folders;
      r := ApplyPauses(pauses, goals);
      if r.Finished? {
        SameItself(found);
        StopsUntouched(store.digest, s, store.records, found, folders);
        PausesAreRequired(known, folders, Config(), inventory, store.records, pauses);
      }
    }

    /** With nothing to migrate an acceptable document is never refused. */
    method OpenStore(inventory: seq<F.Card>) returns (o: Outcome)
      requires AllAcceptable(store.digest, store.volume.cell)
      modifies store, store.volume`cell
      ensures !o.Refused? && Saved(old(store.volume.cell), store.volume.cell, o, store.Held())
      ensures store.records == old(Recorded(store.volume.cell.current))
      ensures !o.Failed? ==> store.Valid()
      ensures o.Kept? ==> old(store.volume.cell.current.control).Some?
      ensures store.uncut ==> !o.Failed?
      ensures AllAcceptable(store.digest, store.volume.cell)
    {
      hide Saved, Acceptable, Meaning, Readable, AllAcceptable, Migrated, ValidState, ValidRecords, Unreadable, StoredState;
      hide OlderAcceptable;
      StartFacts(store.digest, store.volume.cell);
      ghost var before := store.volume.cell;
      o := store.Start([], inventory);
      StartAccepts(store.digest, before, store.volume.cell, o, store.Held());
    }

    /** Reads the document and the recorded folders upstream has. */
    method ReadControls(inventory: seq<F.Card>, ghost goals: set<map<string, Goal>>) returns (r: Result)
      requires CanonicalDeviceId(self)
      requires Within(self, goals, store.volume.cell) && AllAcceptable(store.digest, store.volume.cell)
      modifies this`folders, store, store.volume`cell
      ensures Within(self, goals, store.volume.cell) && (r.Finished? || r.StoreFailed?)
      ensures r.Finished? ==> Live() && Complete(folders, store.records, Config())
      ensures r.Finished? ==> Goal() == old(Intended(store.volume.cell.current)) && Config() == old(Config())
      ensures r.Finished? ==> store.records == old(Recorded(store.volume.cell.current)) && folders == old(Known(store.volume.cell.current))
      ensures store.uncut ==> r.Finished?
      ensures AllAcceptable(store.digest, store.volume.cell)
    {
      hide Within, Consistent, Goals, SessionOk, AllAcceptable, ValidState, CanonicalDeviceId, SessionAt;
      hide Saved, AgreeExcept, Acceptable, Meaning, Readable, Encodes;
      ghost var before := store.volume.cell;
      WithinNow(self, goals, before);
      var o := OpenStore(inventory);
      SavedWithin(self, goals, before, store.volume.cell, o, store.Held());
      if o.Failed? {
        return StoreFailed;
      }
      var config := store.volume.cell.current.config;
      folders := map id | id in config && id in store.records :: config[id];
      SessionFromConfig(self, folders, store.records, config);
      r := Finished;
    }

    /** Activates the adds upstream knows and withdraws those it does not; nothing else may be missing. */
    method ReconcileAdds(ghost goals: set<map<string, Goal>>) returns (r: Result)
      requires Live() && Within(self, goals, store.volume.cell) && Complete(folders, store.records, Config())
      modifies this`folders, store, store.volume`cell
      ensures Within(self, goals, store.volume.cell) && (r.Finished? || r.StoreFailed?)
      ensures r.Finished? ==>
                && Live() && Complete(folders, store.records, Config()) && Goal() == old(Goal())
                && folders == old(folders) && Config() == old(Config())
                && NoPendingAdd(store.records, {}) && AddsLeft(old(store.records), {}, store.records)
      ensures store.uncut ==> r.Finished?
      ensures AllAcceptable(store.digest, store.volume.cell)
    {
      hide Within, Consistent, Goals, SessionOk, AllAcceptable, ValidState, CanonicalDeviceId, SessionAt;
      hide Saved, AgreeExcept, LiveState, Complete, AddsLeft;
      ghost var goal, config, known := Goal(), Config(), folders;
      AddsStart(store.records);
      var snapshot := store.records;
      var ids := snapshot.Keys;
      while ids != {}
        invariant Live() && Within(self, goals, store.volume.cell) && Goal() == goal
        invariant Config() == config && folders == known && Complete(folders, store.records, config)
        invariant AddsLeft(snapshot, ids, store.records)
        decreases |ids|
      {
        var id :| id in ids;
        AddsOne(snapshot, ids, store.records, id);
        ghost var left, before := ids, store.records;
        ids := ids - {id};
        if snapshot[id].pendingAdd {
          r := SettleAdd(id, goals);
          if !r.Finished? {
            return;
          }
          AddSettled(snapshot, left, before, store.records, id);
        } else if id !in folders && !snapshot[id].pendingStop {
          MissingIsExplained(self, store.digest, goals, store.Held(), folders, store.volume.cell, id);
          assert false;
        }
      }
      LiveAccepts();
      r := Finished;
    }

    method SettleAdd(id: string, ghost goals: set<map<string, Goal>>) returns (r: Result)
      requires Live() && Within(self, goals, store.volume.cell) && Complete(folders, store.records, Config())
      requires id in store.records && store.records[id].pendingAdd
      modifies this`folders, store, store.volume`cell
      ensures Within(self, goals, store.volume.cell) && (r.Finished? || r.StoreFailed?)
      ensures r.Finished? ==>
                && Live() && Complete(folders, store.records, Config()) && Goal() == old(Goal())
                && folders == old(folders) && Config() == old(Config())
                && store.records == if id in folders then old(store.records)[id := old(store.records)[id].(pendingAdd := false)]
                                    else old(store.records) - {id}
      ensures store.uncut ==> r.Finished?
      ensures AllAcceptable(store.digest, store.volume.cell)
    {
      hide Within, Consistent, Goals, SessionOk, AllAcceptable, ValidState, CanonicalDeviceId, SessionAt;
      hide Saved, AgreeExcept;
      ghost var records, config, s, before := store.records, Config(), store.Held(), store.volume.cell;
      LiveFacts(self, store.digest, goals, s, folders, before, id);
      Dropped(config, id);
      var o;
      if id in folders {
        ActivateStep(self, records, config, id);
        Put(records, id, records[id].(pendingAdd := false));
        SessionAfterActivate(self, folders, records, config, id);
        o := store.Activate(id);
        SavedLive(self, store.digest, goals, s.(records := records[id := records[id].(pendingAdd := false)]), folders,
          before, store.volume.cell, o);
      } else {
        RemoveRecordStep(self, records, config, id);
        Dropped(records, id);
        SessionWithout(self, folders, records, records - {id}, config, config, id);
        assert folders - {id} == folders;
        o := store.Remove(id);
        SavedLive(self, store.digest, goals, s.(records := records - {id}), folders, before, store.volume.cell, o);
      }
      r := if o.Done? then Finished else StoreFailed;
    }

    method RequiredPauses(inventory: seq<F.Card>) returns (pauses: map<string, bool>)
      ensures pauses.Keys == folders.Keys
      ensures forall id :: id in folders ==> pauses[id] == !F.MayRun(folders[id], inventory, store.records)
    {
      hide F.MayRun;
      pauses := map[];
      var ids := folders.Keys;
      while ids != {}
        invariant ids <= folders.Keys && pauses.Keys == folders.Keys - ids
        invariant forall id :: id in pauses ==> pauses[id] == !F.MayRun(folders[id], inventory, store.records)
        decreases |ids|
      {
        var id :| id in ids;
        ids := ids - {id};
        var row := F.ReconcileFolder(folders[id], inventory, store.records);
        pauses := pauses[id := row.paused];
      }
    }

    /** The offline edit of the upstream configuration. */
    method ApplyPauses(pauses: map<string, bool>, ghost goals: set<map<string, Goal>>) returns (r: Result)
      requires Live() && Within(self, goals, store.volume.cell) && Complete(folders, store.records, Config())
      requires pauses.Keys == folders.Keys
      modifies this`folders, store.volume`cell
      ensures Live() && Within(self, goals, store.volume.cell) && (r.Finished? || r.Interrupted?)
      ensures Goal() == old(Goal()) && Complete(folders, store.records, Config())
      ensures r.Finished? ==> folders == WithPauses(old(folders), pauses) && Config() == WithPauses(old(Config()), pauses)
      ensures WithPauses(old(Config()), pauses) == old(Config()) ==> store.volume.cell == old(store.volume.cell)
      ensures store.uncut ==> r.Finished?
    {
      hide Within, Consistent, Goals, SessionOk, AllAcceptable, ValidState, CanonicalDeviceId, SessionAt;
      hide Told;
      ghost var s, before := store.Held(), store.volume.cell;
      var config := store.volume.cell.current.config;
      var edited := WithPauses(config, pauses);
      WithinNow(self, goals, before);
      PausesStep(self, store.records, config, pauses);
      SessionWithPauses(self, folders, store.records, config, pauses);
      var ok := true;
      if edited != config {
        ok := Tell(edited);
        ToldLive(self, store.digest, goals, s, folders, before, store.volume.cell, ok, edited);
      }
      if !ok {
        return Interrupted;
      }
      folders := WithPauses(folders, pauses);
      r := Finished;
    }

    /**
     * A whole start after any cut: the document, the adds, the pause set, and with
     * upstream running the requests and the stops. It ends exactly where the state
     * found on disk was heading, and so does every further cut on the way.
     */
    method Restart(inventory: seq<F.Card>, ghost goals: set<map<string, Goal>>) returns (r: Result)
      requires CanonicalDeviceId(self)
      requires Within(self, goals, store.volume.cell) && AllAcceptable(store.digest, store.volume.cell)
      modifies this, store, store.volume`cell
      ensures Within(self, goals, store.volume.cell)
      ensures r.Finished? ==>
                && Live() && Serving(folders, store.records)
                && (forall id :: id in store.records ==> NothingPending(store.records[id]))
                && folders.Keys == store.records.Keys && store.records.Keys <= Config().Keys
                && Goal() == old(Intended(store.volume.cell.current))
                && PausedAsRequired(folders, Config(), inventory, store.records)
      ensures var d := old(store.volume.cell.current);
                && (r.Finished? ==> AllReady(old(trees), inventory, Known(d), Recorded(d)))
                && (r.Rejected? ==> StopBlocked(trees, inventory, Known(d), Recorded(d), store.records))
                && (r.Rejected? && StopsApart(Recorded(d), Known(d), inventory) ==> !AllReady(old(trees), inventory, Known(d), Recorded(d)))
                && OnlyStopMarkersLost(Recorded(d), Known(d), inventory, old(trees), trees)
      ensures store.uncut ==> r.Finished? || r.Rejected?
      ensures AllAcceptable(store.digest, store.volume.cell)
    {
      hide Within, Consistent, Goals, SessionOk, AllAcceptable, ValidState, CanonicalDeviceId, SessionAt;
      hide LiveState, StopReady, OnlyStopMarkersLost, Progress, Stops, NoPendingAdd, AllReady, StopsApart, StopBlocked, SameStops;
      hide SameFixed, Recorded, Known, PausedAsRequired;
      ghost var d := store.volume.cell.current;
      NoneLost(Recorded(d), Known(d), inventory, trees);
      r := Bootstrap(inventory, goals);
      if !r.Finished? {
        return;
      }
      ghost var afterAdds, s, served := store.records, store.Held(), folders;
      LiveValid();
      r := RecoverFolderMemberships(inventory, goals);
      if !r.Finished? {
        return;
      }
      ghost var before, known, config := store.records, folders, Config();
      StopsUntouched(store.digest, s, before, served, known);
      SameStopsThen(Recorded(d), Known(d), afterAdds, served, before, known);
      SameStopsAgree(Recorded(d), Known(d), before, known, inventory);
      LiveIds();
      r := RecoverPendingFolderStops(inventory, goals);
      if r.Finished? {
        RightWithout(Stops(before), known, config, before, inventory);
        AllSettled(self, store.digest, goals, store.Held(), folders, store.volume.cell, afterAdds, before, known, config);
      }
    }

    /** Pauses or resumes one folder as its record and its card demand. */
    method PauseAsRequired(id: string, inventory: seq<F.Card>, ghost goals: set<map<string, Goal>>) returns (r: Result)
      requires Live() && Within(self, goals, store.volume.cell) && id in folders
      modifies this`folders, store.volume`cell
      ensures Live() && Within(self, goals, store.volume.cell) && Goal() == old(Goal())
      ensures r.Finished? || r.Interrupted?
      ensures folders.Keys == old(folders).Keys && Config().Keys == old(Config()).Keys
      ensures AgreeExcept(old(folders), folders, id) && SameFixed(old(folders), folders)
      ensures r.Finished? ==>
                && id in Config()
                && folders[id].paused == Config()[id].paused == !F.MayRun(old(folders)[id], inventory, store.records)
                && folders[id] == old(folders)[id].(paused := folders[id].paused)
                && PausedRightly(folders, Config(), inventory, store.records, id)
      ensures AgreeExcept(old(Config()), Config(), id)
      ensures store.uncut ==> r.Finished?
    {
      hide Within, Consistent, Goals, SessionOk, AllAcceptable, ValidState, CanonicalDeviceId, NormalizeDeviceId;
      hide Members, DevicesOk, Requested, Told, AgreeExcept, F.MayRun;
      ghost var records, config, s, before := store.records, Config(), store.Held(), store.volume.cell;
      LiveFacts(self, store.digest, goals, s, folders, before, id);
      var row := F.ReconcileFolder(folders[id], inventory, store.records);
      PauseStep(self, records, config, id, row.paused);
      SessionAfterPause(self, folders, records, config, id, row.paused);
      Put(folders, id, folders[id].(paused := row.paused));
      Put(config, id, config[id].(paused := row.paused));
      var ok := SetFolderPaused(id, row.paused);
      ToldLive(self, store.digest, goals, s, folders, before, store.volume.cell, ok, config[id := config[id].(paused := row.paused)]);
      if !ok {
        return Interrupted;
      }
      PausedDoesNotMatter(folders[id], row.paused, inventory, store.records);
      folders := folders[id := folders[id].(paused := row.paused)];
      r := Finished;
    }

    // ------------------------------------------------------------------- create

    method PathTaken(path: string) returns (taken: bool)
      ensures taken <==> exists id :: id in folders && folders[id].path == path
    {
      var ids := folders.Keys;
      taken := false;
      while ids != {} && !taken
        invariant ids <= folders.Keys
        invariant !taken ==> forall id :: id in folders && id !in ids ==> folders[id].path != path
        invariant taken ==> exists id :: id in folders && folders[id].path == path
        decreases |ids|
      {
        var id :| id in ids;
        ids := ids - {id};
        taken := folders[id].path == path;
      }
    }

    /** Makes the marker directory, creating the content tree if need be, and flushes the card. */
    method PrepareMarker(path: string, marker: string) returns (ok: bool)
      modifies this`trees
      ensures ok ==>
                && path in trees && trees[path].Settled()
                && marker in trees[path].current && !trees[path].current[marker].NotDir?
                && FOREIGN_MARKER !in trees[path].current
      ensures MarkerAdded(old(trees), trees, path, marker)
      ensures ok ==> MarkerMayBe(old(trees), path, marker)
      ensures store.uncut ==> (ok <==> MarkerMayBe(old(trees), path, marker))
    {
      ok := *;
      if !ok && !store.uncut {
        return;
      }
      var tree := if path in trees then trees[path] else Cell([], map[]);
      if FOREIGN_MARKER in tree.current || (marker in tree.current && tree.current[marker].NotDir?)
         || marker == FOREIGN_MARKER || marker == "" || '/' in marker {
        return false;
      }
      if marker !in tree.current {
        tree := tree.Write(tree.current[marker := EmptyDir]);
      }
      ok := *;
      ok := ok || store.uncut;
      if ok {
        tree := tree.Flushed();
      }
      trees := trees[path := tree];
    }

    /**
     * Creates a reviewed folder: devices, card storage, record, upstream, and the
     * record once more. On disk the folder exists once both the record and upstream
     * have it; a folder an earlier attempt left upstream comes with the record.
     */
    method Create(plan: Plan, accepted: bool, card: F.Card, devices: seq<string>, ghost goals: set<map<string, Goal>>)
      returns (r: Result, created: Option<F.Folder>)
      requires Live() && Within(self, goals, store.volume.cell) && Serving(folders, store.records)
      requires FreeOrLeft(self, Config(), plan.folder)
      modifies this, store, store.volume`cell
      ensures created.None? ==> store.volume.cell == old(store.volume.cell) && (r.Rejected? || r.Interrupted?)
      ensures created.Some? ==>
                && created.value == plan.folder.(devices := created.value.devices, paused := true)
                && Members(created.value.devices) == {self} + Members(plan.peers)
                && Within(self, goals + AddOutcomes(old(Goal()), old(Config()), created.value, card.id), store.volume.cell)
      ensures created.Some? && !plan.folder.folderType.SendOnly? ==> SnapshotFits(plan.contentBytes, plan.availableBytes)
      ensures !r.StoreFailed? ==> Live() && Serving(folders, store.records)
      ensures r.Rejected? || r.Interrupted? ==> Goal() == old(Goal()) && store.records == old(store.records)
      ensures r.Finished? ==>
                && created.Some? && store.volume.cell.Settled()
                && Goal() == WithFolder(old(Goal()), created.value, card.id)
                && created.value.id !in old(folders) && folders == old(folders)[created.value.id := created.value]
                && created.value.path in trees && trees[created.value.path].Settled()
                && created.value.markerName in trees[created.value.path].current
      ensures MarkerAdded(old(trees), trees, plan.folder.path, plan.folder.markerName)
      ensures store.uncut ==> (r.Finished? <==>
                && accepted && (forall id :: id in old(folders) ==> old(folders)[id].path != plan.folder.path)
                && (plan.folder.folderType.SendOnly? || SnapshotFits(plan.contentBytes, plan.availableBytes))
                && Selectable(self, plan.peers, devices) && MarkerMayBe(old(trees), plan.folder.path, plan.folder.markerName)
                && Addable(store.digest, old(store.records), plan.folder, card.id))
    {
      hide Within, Consistent, Goals, SessionOk, AllAcceptable, ValidState, CanonicalDeviceId, SessionAt, Serving, LiveState;
      hide Told, Saved, AgreeExcept, DevicesOk, Members, NormalizeDeviceId, Selectable, SnapshotFits, BoundMarker, ValidFolderId, ValidCardId;
      created := None;
      if !accepted {
        return Rejected, None;
      }
      var taken := PathTaken(plan.folder.path);
      var fits := HasRoom(plan.contentBytes, plan.availableBytes);
      if taken || (!plan.folder.folderType.SendOnly? && !fits) {
        return Rejected, None;
      }
      LiveSelf(self, store.digest, store.Held(), folders, store.volume.cell);
      var selected := SelectedFolderDevices(self, plan.peers, devices);
      if selected.None? {
        return Rejected, None;
      }
      var ready := PrepareMarker(plan.folder.path, plan.folder.markerName);
      if !ready {
        return Interrupted, None;
      }
      var folder := plan.folder.(devices := selected.value, paused := true);
      r := AddRecorded(folder, card, goals);
      created := if r.Rejected? then None else Some(folder);
    }

    method AddRecorded(folder: F.Folder, card: F.Card, ghost goals: set<map<string, Goal>>) returns (r: Result)
      requires Live() && Within(self, goals, store.volume.cell) && Serving(folders, store.records)
      requires FreeOrLeft(self, Config(), folder) && DevicesOk(self, folder.devices)
      modifies this`folders, store, store.volume`cell
      ensures r.Rejected? ==> store.volume.cell == old(store.volume.cell)
      ensures Within(self, goals + AddOutcomes(old(Goal()), old(Config()), folder, card.id), store.volume.cell)
      ensures !r.StoreFailed? ==> Live() && Serving(folders, store.records)
      ensures r.Rejected? || r.Interrupted? ==> Goal() == old(Goal()) && store.records == old(store.records)
      ensures store.uncut ==> (r.Finished? <==> Addable(store.digest, old(store.records), folder, card.id))
      ensures r.Finished? ==>
                && store.volume.cell.Settled()
                && Goal() == WithFolder(old(Goal()), folder, card.id)
                && folder.id !in old(folders) && folders == old(folders)[folder.id := folder]
    {
      hide Within, Consistent, Goals, SessionOk, AllAcceptable, ValidState, CanonicalDeviceId, SessionAt, Serving;
      hide Told, Saved, AgreeExcept, DevicesOk, Members, NormalizeDeviceId, AddOutcomes, FreeOrLeft, Encodes, NewRecord, Addable;
      ghost var records, config, before := store.records, Config(), store.volume.cell;
      ghost var more := goals + AddOutcomes(Goal(), Config(), folder, card.id);
      WithinMore(self, goals, more, before);
      LiveFacts(self, store.digest, goals, store.Held(), folders, before, folder.id);
      r := RecordAdd(folder, card, more);
      if !r.Finished? {
        return;
      }
      AddBegun(self, records, config, folder, card.id);
      r := AddUpstream(folder, old(Goal()), more);
    }

    /** Records the new folder as being added. */
    method RecordAdd(folder: F.Folder, card: F.Card, ghost more: set<map<string, Goal>>) returns (r: Result)
      requires Live() && Within(self, more, store.volume.cell) && Serving(folders, store.records)
      requires FreeOrLeft(self, Config(), folder)
      requires AddOutcomes(Goal(), Config(), folder, card.id) <= more
      modifies store, store.volume`cell
      ensures Within(self, more, store.volume.cell) && Config() == old(Config())
      ensures r.Rejected? || r.Finished? || r.StoreFailed?
      ensures !r.StoreFailed? ==> Live() && Serving(folders, store.records)
      ensures r.Rejected? ==> store.volume.cell == old(store.volume.cell) && store.records == old(store.records)
      ensures r.Rejected? <==> !Addable(store.digest, old(store.records), folder, card.id)
      ensures store.uncut ==> !r.StoreFailed?
      ensures r.Finished? ==>
                && folder.id !in old(store.records) && folder.id !in folders
                && store.records == old(store.records)[folder.id := NewRecord(folder, card.id, true)]
    {
      hide Within, Consistent, Goals, SessionOk, AllAcceptable, ValidState, CanonicalDeviceId, SessionAt, Serving;
      hide Told, Saved, AgreeExcept, DevicesOk, Members, NormalizeDeviceId, AddOutcomes, FreeOrLeft, Encodes;
      ghost var records, config, s, before := store.records, Config(), store.Held(), store.volume.cell;
      LiveFacts(self, store.digest, more, s, folders, before, folder.id);
      var o := store.Add(folder, card.id, true);
      if o.Refused? {
        SavedSame(before, store.volume.cell, s.(records := records[folder.id := NewRecord(folder, card.id, true)]));
        return Rejected;
      }
      ghost var pending := NewRecord(folder, card.id, true);
      NotServed(self, folders, records, config, folder.id);
      AddBegun(self, records, config, folder, card.id);
      SessionAfterRecord(self, folders, records, config, folder.id, pending);
      SavedLive(self, store.digest, more, s.(records := records[folder.id := pending]), folders, before, store.volume.cell, o);
      if o.Failed? {
        return StoreFailed;
      }
      Put(records, folder.id, pending);
      ServingOther(folders, records, records[folder.id := pending], folder.id);
      r := Finished;
    }

    /** The record is there and says so; what upstream answers decides. */
    method AddUpstream(folder: F.Folder, ghost goal: map<string, Goal>, ghost goals: set<map<string, Goal>>) returns (r: Result)
      requires Live() && Within(self, goals, store.volume.cell) && Serving(folders, store.records)
      requires folder.id in store.records && folder.id !in folders && DevicesOk(self, folder.devices)
      requires exists card :: store.records[folder.id] == NewRecord(folder, card, true)
      requires Goal() - {folder.id} == goal && Goal() in goals && goal in goals
      requires goal[folder.id := Added(store.records[folder.id], folder)] in goals
      modifies this`folders, store, store.volume`cell
      ensures Within(self, goals, store.volume.cell) && !r.Rejected?
      ensures !r.StoreFailed? ==> Live() && Serving(folders, store.records)
      ensures r.Interrupted? ==> Goal() == goal && store.records == old(store.records) - {folder.id}
      ensures store.uncut ==> r.Finished?
      ensures r.Finished? ==>
                && store.volume.cell.Settled() && folders == old(folders)[folder.id := folder]
                && Goal() == goal[folder.id := Added(old(store.records)[folder.id], folder)]
    {
      hide Within, Consistent, Goals, SessionOk, AllAcceptable, ValidState, CanonicalDeviceId, SessionAt, Serving;
      hide Told, Saved, AgreeExcept, DevicesOk, Members, NormalizeDeviceId;
      ghost var records, config, s, before := store.records, Config(), store.Held(), store.volume.cell;
      ghost var added := config[folder.id := folder];
      LiveFacts(self, store.digest, goals, s, folders, before, folder.id);
      AddStep(self, records, config, folder);
      AgainOver(Goals(records, config), folder.id, Added(records[folder.id], folder));
      SessionAfterConfig(self, folders, records, config, folder.id, folder);
      var current := store.volume.cell.current.config;
      var ok := Tell(current[folder.id := folder]);
      ToldLive(self, store.digest, goals, s, folders, before, store.volume.cell, ok, added);
      if !ok {
        BackAgain(goal, folder.id, Added(records[folder.id], folder));
        r := WithdrawAdd(folder.id, goal, goals);
        return;
      }
      r := ConfirmAdd(folder, goals);
    }

    /** Upstream refused: the record goes again, whether or not upstream kept the folder. */
    method WithdrawAdd(id: string, ghost goal: map<string, Goal>, ghost goals: set<map<string, Goal>>) returns (r: Result)
      requires Live() && Within(self, goals, store.volume.cell) && Serving(folders, store.records)
      requires id in store.records && id !in folders
      requires Goal() - {id} == goal && goal in goals
      modifies this`folders, store, store.volume`cell
      ensures Within(self, goals, store.volume.cell)
      ensures r.StoreFailed? || r.Interrupted?
      ensures r.Interrupted? ==>
                && Live() && Serving(folders, store.records)
                && Goal() == goal && store.records == old(store.records) - {id}
    {
      hide Within, Consistent, Goals, SessionOk, AllAcceptable, ValidState, CanonicalDeviceId, SessionAt, Serving;
      hide Saved, AgreeExcept;
      ghost var records, config, s, before := store.records, Config(), store.Held(), store.volume.cell;
      LiveFacts(self, store.digest, goals, s, folders, before, id);
      RemoveRecordStep(self, records, config, id);
      Dropped(records, id);
      Dropped(config, id);
      SessionWithout(self, folders, records, records - {id}, config, config, id);
      assert folders - {id} == folders;
      ServingOther(folders, records, records - {id}, id);
      var o := store.Remove(id);
      SavedLive(self, store.digest, goals, s.(records := records - {id}), folders, before, store.volume.cell, o);
      r := if o.Done? then Interrupted else StoreFailed;
    }

    /** Upstream has the folder: the record stops being pending and the folder is served. */
    method ConfirmAdd(folder: F.Folder, ghost goals: set<map<string, Goal>>) returns (r: Result)
      requires Live() && Within(self, goals, store.volume.cell) && Serving(folders, store.records)
      requires folder.id in store.records && folder.id in Config() && folder.id !in folders
      requires Config()[folder.id] == folder && DevicesOk(self, folder.devices)
      requires store.records[folder.id].pendingAdd && !store.records[folder.id].pendingStop
      modifies this`folders, store, store.volume`cell
      ensures Within(self, goals, store.volume.cell)
      ensures r.StoreFailed? || r.Finished?
      ensures store.uncut ==> r.Finished?
      ensures r.Finished? ==>
                && Live() && Serving(folders, store.records)
                && store.volume.cell.Settled() && folders == old(folders)[folder.id := folder] && Goal() == old(Goal())
    {
      hide Within, Consistent, Goals, SessionOk, AllAcceptable, ValidState, CanonicalDeviceId, SessionAt, Serving;
      hide Saved, AgreeExcept, DevicesOk;
      ghost var records, config, s, before := store.records, Config(), store.Held(), store.volume.cell;
      ghost var active := records[folder.id].(pendingAdd := false);
      LiveFacts(self, store.digest, goals, s, folders, before, folder.id);
      ActivateStep(self, records, config, folder.id);
      SessionAfterRecord(self, folders, records, config, folder.id, active);
      Put(records, folder.id, active);
      ServingOther(folders, records, records[folder.id := active], folder.id);
      ServingMore(folders, records[folder.id := active], folder.id, folder);
      SessionMore(self, folders, records[folder.id := active], config, folder);
      var o := store.Activate(folder.id);
      folders := folders[folder.id := folder];
      SavedLive(self, store.digest, goals, s.(records := records[folder.id := active]), folders, before, store.volume.cell, o);
      r := if o.Done? then Finished else StoreFailed;
    }

    // -------------------------------------------------- membership and stop requests

    /**
     * Shares a folder with a peer or stops sharing it. The request counts from the
     * moment it is recorded, and the folder is paused while upstream is told.
     */
    method ChangeMembership(id: string, device: string, present: bool, inventory: seq<F.Card>, ghost goals: set<map<string, Goal>>)
      returns (r: Result)
      requires Live() && Within(self, goals, store.volume.cell) && Serving(folders, store.records)
      modifies this`folders, store, store.volume`cell
      ensures r.Rejected? ==> store.volume.cell == old(store.volume.cell) && store.records == old(store.records)
      ensures Within(self, goals + {Asked(old(Goal()), id, Request(device, present))}, store.volume.cell)
      ensures !r.StoreFailed? ==>
                && Live() && Serving(folders, store.records)
                && (Goal() == old(Goal()) || Goal() == Asked(old(Goal()), id, Request(device, present)))
      ensures r.Finished? ==>
                && Goal() == Asked(old(Goal()), id, Request(device, present))
                && id in store.records && store.records[id].pendingMembership.None?
      ensures r.Finished? && old(HasWork(folders, store.records, id, device, present)) ==>
                PausedRightly(folders, Config(), inventory, store.records, id)
      ensures r.Finished? && !old(HasWork(folders, store.records, id, device, present)) ==>
                folders == old(folders) && store.records == old(store.records) && store.volume.cell == old(store.volume.cell)
      ensures AgreeExcept(old(folders), folders, id) && AgreeExcept(old(Config()), Config(), id)
      ensures store.uncut ==> (r.Finished? <==>
                && id in old(folders) && NormalizeDeviceId(device).Some? && Normal(device) != self
                && (old(store.records)[id].pendingMembership.None?
                    || old(store.records)[id].pendingMembership == Some(Request(Normal(device), present))))
    {
      hide Within, Consistent, Goals, SessionOk, AllAcceptable, ValidState, CanonicalDeviceId, SessionAt, Serving, LiveState;
      hide Saved, AgreeExcept, DevicesOk, Members, NormalizeDeviceId, Asked, F.MayRun, Requested;
      Dropped(folders, id);
      Dropped(Config(), id);
      ghost var asked := Asked(Goal(), id, Request(device, present));
      WithinMore(self, goals, goals + {asked}, store.volume.cell);
      if id !in folders || NormalizeDeviceId(device).None? {
        return Rejected;
      }
      var peer := NormalizeDeviceId(device).value;
      NormalIsReadable(device);
      LiveSelf(self, store.digest, store.Held(), folders, store.volume.cell);
      LiveFacts(self, store.digest, goals, store.Held(), folders, store.volume.cell, id);
      SessionAtConfigured(self, folders[id], store.records, Config(), id);
      var target, changed := FolderWithMembership(folders[id], self, peer, present);
      if target.None? {
        return Rejected;
      }
      if !changed && store.records[id].pendingMembership.None? {
        SameRequest(device, peer, present);
        NotChanged(Members(folders[id].devices), device, present);
        NothingToAsk(self, folders[id], store.records, Config(), id, Request(device, present));
        return Finished;
      }
      r := Ask(id, device, peer, present, goals);
      if !r.Finished? {
        return;
      }
      SameRequest(device, peer, present);
      ghost var known, records, config := folders, store.records, Config();
      r := ApplyMembership(id, target.value, goals + {asked});
      ServingCleared(known, records, id, target.value);
      if r.Finished? {
        ghost var applied, told := folders, Config();
        r := ResumeIfAllowed(id, inventory, goals + {asked});
        AgreeThen(known, applied, folders, id);
        AgreeThen(config, told, Config(), id);
      }
    }

    /** Records the request, or finds it recorded already. */
    method Ask(id: string, device: string, peer: string, present: bool, ghost goals: set<map<string, Goal>>) returns (r: Result)
      requires Live() && Within(self, goals, store.volume.cell) && Serving(folders, store.records)
      requires id in folders && id in store.records && id in Config()
      requires NormalizeDeviceId(device) == Some(peer) && NormalizeDeviceId(peer) == Some(peer) && peer != self
      modifies store, store.volume`cell
      ensures r.Rejected? ==> store.volume.cell == old(store.volume.cell) && store.records == old(store.records)
      ensures Within(self, goals + {Asked(old(Goal()), id, Request(device, present))}, store.volume.cell)
      ensures r.Finished? || r.Rejected? || r.StoreFailed?
      ensures !r.StoreFailed? ==> Live() && Serving(folders, store.records)
      ensures r.Finished? ==>
                && Goal() == Asked(old(Goal()), id, Request(device, present))
                && id in store.records && store.records[id].pendingMembership == Some(Request(peer, present))
      ensures r.Rejected? ==> Goal() == old(Goal())
      ensures Config() == old(Config())
      ensures r.Rejected? <==>
                && old(store.records)[id].pendingMembership.Some?
                && old(store.records)[id].pendingMembership != Some(Request(peer, present))
      ensures store.uncut ==> !r.StoreFailed?
    {
      hide Within, Consistent, Goals, SessionOk, AllAcceptable, ValidState, CanonicalDeviceId, SessionAt, Serving;
      hide Saved, AgreeExcept, DevicesOk, Members, NormalizeDeviceId, Asked, Requested;
      ghost var records, config, s, before := store.records, Config(), store.Held(), store.volume.cell;
      ghost var more := goals + {Asked(Goal(), id, Request(device, present))};
      WithinMore(self, goals, more, before);
      LiveFacts(self, store.digest, goals, s, folders, before, id);
      ServingAt(folders, records, id);
      SameRequest(device, peer, present);
      var o := store.BeginMembership(id, peer, if present then Share else Unshare);
      if o.Refused? {
        return Rejected;
      }
      if o.Kept? {
        AskedTwice(records, config, id, Request(device, present));
        return Finished;
      }
      var intent := Request(peer, present);
      BeginMembershipStep(self, records, config, id, intent);
      AskedIs(records, config, id, intent);
      SessionAfterAsk(self, folders, records, config, id, intent);
      Put(records, id, records[id].(pendingMembership := Some(intent)));
      ServingOther(folders, records, records[id := records[id].(pendingMembership := Some(intent))], id);
      SavedLive(self, store.digest, more, s.(records := records[id := records[id].(pendingMembership := Some(intent))]), folders,
        before, store.volume.cell, o);
      r := if o.Done? then Finished else StoreFailed;
    }

    /** The change left the folder paused; it is resumed only when it may run. */
    method ResumeIfAllowed(id: string, inventory: seq<F.Card>, ghost goals: set<map<string, Goal>>) returns (r: Result)
      requires Live() && Within(self, goals, store.volume.cell) && Serving(folders, store.records) && id in folders
      modifies this`folders, store.volume`cell
      ensures Live() && Within(self, goals, store.volume.cell) && Goal() == old(Goal())
      ensures Serving(folders, store.records)
      ensures r.Finished? || r.Interrupted?
      ensures !F.MayRun(old(folders)[id], inventory, store.records) ==>
                r.Finished? && folders == old(folders) && store.volume.cell == old(store.volume.cell)
      ensures r.Finished? && F.MayRun(old(folders)[id], inventory, store.records) ==>
                id in folders && id in Config() && !folders[id].paused && !Config()[id].paused
      ensures SameFixed(old(folders), folders) && AgreeExcept(old(folders), folders, id) && AgreeExcept(old(Config()), Config(), id)
      ensures r.Finished? && old(PausedIn(folders, Config(), id)) ==> PausedRightly(folders, Config(), inventory, store.records, id)
      ensures store.uncut ==> r.Finished?
    {
      hide Within, Consistent, Goals, SessionOk, AllAcceptable, ValidState, CanonicalDeviceId, SessionAt;
      hide Told, F.MayRun, LiveState, SameFixed, AgreeExcept;
      SameItself(folders);
      Put(folders, id, folders[id]);
      Dropped(Config(), id);
      r := Finished;
      ghost var f := folders[id];
      var row := F.ReconcileFolder(folders[id], inventory, store.records);
      if !row.paused {
        r := PauseAsRequired(id, inventory, goals);
        if r.Finished? {
          PausedDoesNotMatter(f, folders[id].paused, inventory, store.records);
        }
      }
    }

    /** Stops syncing a folder on this device: nothing on the card goes but the empty marker. */
    method StopNow(id: string, inventory: seq<F.Card>, ghost goals: set<map<string, Goal>>) returns (r: Result)
      requires Live() && Within(self, goals, store.volume.cell) && Serving(folders, store.records)
      modifies this, store, store.volume`cell
      ensures Within(self, goals + {old(Goal()) - {id}}, store.volume.cell)
      ensures !r.StoreFailed? ==>
                && Live() && Serving(folders, store.records)
                && (Goal() == old(Goal()) || Goal() == old(Goal()) - {id})
      ensures r.Finished? ==>
                && Goal() == old(Goal()) - {id} && id in old(folders)
                && id !in store.records && id !in Config() && id !in folders
                && folders == old(folders) - {id} && Config() == old(Config()) - Stops(Stopping(old(store.records), id))
      ensures !(id in old(folders) && id in old(store.records)
                && StopReady(old(trees), inventory, old(folders), id, old(store.records)[id])) ==>
                r.Rejected? && trees == old(trees) && folders == old(folders)
                && store.records == old(store.records) && store.volume.cell == old(store.volume.cell)
      ensures store.uncut && StopsApart(Stopping(old(store.records), id), old(folders), inventory) ==>
                (r.Finished? <==>
                   && id in old(folders) && old(store.records)[id].pendingMembership.None?
                   && AllReady(old(trees), inventory, old(folders), Stopping(old(store.records), id)))
      ensures OnlyStopMarkersLost(Stopping(old(store.records), id), old(folders), inventory, old(trees), trees)
    {
      hide Within, Consistent, Goals, SessionOk, AllAcceptable, ValidState, CanonicalDeviceId, SessionAt, Serving;
      hide Saved, AgreeExcept, StopMarkerSafe, StopCard, StopReady, OnlyStopMarkersLost, StopBlocked, AllReady, StopsApart;
      ghost var config, s, before := Config(), store.Held(), store.volume.cell;
      var records := store.records;
      ghost var more := goals + {Goal() - {id}};
      WithinMore(self, goals, more, before);
      LiveIds();
      NoneLost(Stopping(records, id), folders, inventory, trees);
      if id !in folders {
        return Rejected;
      }
      LiveFacts(self, store.digest, more, s, folders, before, id);
      SessionAtConfigured(self, folders[id], records, config, id);
      ServingAt(folders, records, id);
      var card := CardForStop(records[id], inventory);
      ThisOneToo(trees, inventory, folders, records, id);
      if card.None? {
        return Rejected;
      }
      ghost var at :| StopCard(inventory, records[id], at) && card.value == inventory[at];
      OnlyReadyCard(trees, inventory, folders, id, records[id], at);
      var safe := ValidateStopMarker(trees, folders[id], card.value, true);
      if !safe {
        return Rejected;
      }
      var o := store.BeginStop(id);
      if o.Refused? {
        return Rejected;
      }
      ghost var stopping := Stopping(records, id);
      BeginStopStep(self, records, config, id);
      SessionAfterStop(self, folders, records, config, id);
      SavedLive(self, store.digest, more, s.(records := stopping), folders, before, store.volume.cell, o);
      if o.Failed? {
        return StoreFailed;
      }
      ghost var known := folders;
      r := RecoverPendingFolderStops(inventory, more);
      ServingAfterStops(known, records, id);
    }
  }

  // ------------------------------------------------------------------- any runs

  /** One process: whether power was lost before it, the cards it finds mounted, and what their content trees hold. */
  datatype Process = Process(powerLost: bool, inventory: seq<F.Card>, trees: Trees)

  /**
   * Any number of processes cut anywhere, each with whatever cards and after a power
   * loss or not, and then one that is not cut. With the cards and markers its pending stops
   * need it finishes: no intent is left pending, the folders served, recorded and
   * configured are the same, and they are what the intents found at first were
   * heading for. Lacking one of them it does not, and names a stop that cannot be
   * finished. From the cards only markers of pending stops go.
   */
  method AnyRestarts(self: string, digest: Digest, volume: Volume, processes: seq<Process>, last: Process,
                     ghost goals: set<map<string, Goal>>)
    returns (r: Result, service: FolderService)
    requires CanonicalDeviceId(self)
    requires Within(self, goals, volume.cell) && AllAcceptable(digest, volume.cell)
    modifies volume
    ensures Within(self, goals, volume.cell) && service.store.volume == volume
    ensures r.Finished? || r.Rejected?
    ensures var d := volume.found;
              && Intended(d) in goals
              && (r.Finished? ==> service.Goal() == Intended(d) && AllReady(last.trees, last.inventory, Known(d), Recorded(d)))
              && (r.Rejected? ==> StopBlocked(service.trees, last.inventory, Known(d), Recorded(d), service.store.records))
              && (StopsApart(Recorded(d), Known(d), last.inventory) ==>
                    (r.Finished? <==> AllReady(last.trees, last.inventory, Known(d), Recorded(d))))
              && OnlyStopMarkersLost(Recorded(d), Known(d), last.inventory, last.trees, service.trees)
    ensures r.Finished? ==>
              && Serving(service.folders, service.store.records)
              && (forall id :: id in service.store.records ==> NothingPending(service.store.records[id]))
              && service.folders.Keys == service.store.records.Keys && service.store.records.Keys <= service.Config().Keys
              && PausedAsRequired(service.folders, service.Config(), last.inventory, service.store.records)
  {
    hide Within, AllAcceptable, Consistent, Goals, CanonicalDeviceId, StopReady, OnlyStopMarkersLost, LiveState;
    hide AllReady, StopsApart, StopBlocked, Recorded, Known, PausedAsRequired;
    for i := 0 to |processes|
      invariant Within(self, goals, volume.cell) && AllAcceptable(digest, volume.cell)
    {
      StartProcess(self, digest, volume, processes[i].powerLost, goals);
      var store := new FolderControlStore(digest, volume, false);
      var process := new FolderService(self, store, processes[i].trees);
      var ended := process.Restart(processes[i].inventory, goals);
    }
    StartProcess(self, digest, volume, last.powerLost, goals);
    WithinNow(self, goals, volume.cell);
    var store := new FolderControlStore(digest, volume, true);
    service := new FolderService(self, store, last.trees);
    r := service.Restart(last.inventory, goals);
  }

  method StartProcess(self: string, digest: Digest, volume: Volume, powerLost: bool, ghost goals: set<map<string, Goal>>)
    requires Within(self, goals, volume.cell) && AllAcceptable(digest, volume.cell)
    modifies volume
    ensures Within(self, goals, volume.cell) && AllAcceptable(digest, volume.cell)
    ensures volume.found == volume.cell.current
  {
    hide Within, AllAcceptable;
    ghost var left := volume.cell;
    volume.NextProcess(powerLost);
    if powerLost {
      SurvivorsStayWithin(self, digest, goals, left, volume.cell);
    }
  }
}
