/** Reconciling configured folders with the mounted cards and the durable records. */
module Folders {
  import opened Durable
  import opened ControlTypes

  datatype CardState = NotMounted | Unenrolled | Enrolled | Invalid | Duplicate

  /** One published content tree of a card; markers says which marker entries are real directories. */
  datatype Tree = Tree(path: string, rootSafe: bool, foreign: bool, markers: map<string, bool>)

  datatype Card = Card(
    source: string, id: string, state: CardState, present: bool, writable: bool, duplicateId: bool,
    saves: Tree, states: Tree, savesVersions: string, statesVersions: string)
  {
    function Content(kind: Kind): (t: Tree)
      ensures kind == Saves ==> t == saves
      ensures kind == States ==> t == states
    {
      if kind.Saves? then saves else states
    }

    function Versions(kind: Kind): (path: string)
      ensures kind == Saves ==> path == savesVersions
      ensures kind == States ==> path == statesVersions
    {
      if kind.Saves? then savesVersions else statesVersions
    }
  }

  datatype Folder = Folder(
    id: string, kind: Kind, path: string, folderType: FolderType, markerName: string, paused: bool,
    versioning: string, versioningPath: string, versioningFsType: string, devices: seq<string>)

  datatype Reason = ManualPause | FirstSyncPause | MembershipPause | StopPause | StoragePause(card: string) | HealthPause

  datatype Issue =
    | UnregisteredFolder | UnsafeFolderKind | UnknownCardBinding | DuplicateCardId | UnsafeFolderPath
    | CardUnavailable | UnsupportedFolderType | CardReadOnly | UnsafeFolderMarker | ForeignFolderManager
    | MarkerMissing | UnsafeVersioning

  datatype RowState = Idle | Paused | Failed

  datatype Row = Row(id: string, cardId: string, state: RowState, reasons: seq<Reason>, paused: bool, issues: seq<Issue>)

  datatype MarkerCheck = Valid | Collision | UnsafeRoot | Foreign | Missing

  predicate CompleteBinding(r: Record): (complete: bool)
    ensures complete <==> r.cardId != "" && r.markerName != ""
  {
    r.cardId != "" && r.markerName != ""
  }

  predicate Usable(c: Card): (usable: bool)
    ensures usable <==> c.id != "" && c.state == Enrolled && c.present && c.writable && !c.duplicateId
  {
    c.id != "" && c.state == Enrolled && c.present && c.writable && !c.duplicateId
  }

  /** The tree has this marker as a real directory, and nothing shows another manager. */
  ghost predicate Marked(t: Tree, name: string) {
    && name != "" && name != ".stfolder" && '/' !in name
    && t.rootSafe && !t.foreign && name in t.markers && t.markers[name]
  }

  function ValidateManagedMarker(t: Tree, name: string): (r: MarkerCheck)
    ensures r.Valid? <==> Marked(t, name)
    ensures r.Foreign? || r.Missing? ==> t.rootSafe && (r.Foreign? <==> t.foreign)
  {
    if name == "" || name == ".stfolder" || '/' in name then Collision
    else if !t.rootSafe then UnsafeRoot
    else if t.foreign then Foreign
    else if name !in t.markers then Missing
    else if !t.markers[name] then Collision
    else Valid
  }

  // ------------------------------------------------- what may run, by meaning

  /** The receive-side guards: a writable card and Simple Versioning on that same card. */
  ghost predicate ReceiveGuarded(f: Folder, c: Card) {
    && c.writable
    && f.versioning == "simple" && f.versioningFsType == "basic"
    && f.versioningPath == c.Versions(f.kind)
  }

  ghost predicate CardServes(f: Folder, r: Record, c: Card) {
    && c.id == r.cardId
    && c.state == Enrolled && c.present && !c.duplicateId
    && f.path == c.Content(f.kind).path && f.path != ""
    && f.markerName == r.markerName
    && Marked(c.Content(f.kind), r.markerName)
    && !f.folderType.Unsupported?
    && (f.folderType != SendOnly ==> ReceiveGuarded(f, c))
  }

  ghost predicate NothingPending(r: Record) {
    !r.manual && !r.firstSync && r.pendingMembership == None && !r.pendingStop
  }

  /** Exactly one inventory row carries this card id. */
  ghost predicate OnlyCard(inventory: seq<Card>, i: int, id: string) {
    && 0 <= i < |inventory| && inventory[i].id == id && id != ""
    && forall j :: 0 <= j < |inventory| && inventory[j].id == id ==> j == i
  }

  /** A folder may sync: its record holds no pause reason and exactly one mounted card serves it. */
  ghost predicate MayRun(f: Folder, inventory: seq<Card>, controls: map<string, Record>) {
    && f.id in controls
    && controls[f.id].cardId != "" && controls[f.id].markerName != ""
    && controls[f.id].kind == f.kind
    && NothingPending(controls[f.id])
    && exists i :: OnlyCard(inventory, i, controls[f.id].cardId) && CardServes(f, controls[f.id], inventory[i])
  }

  // ------------------------------------------------------------ the algorithm

  function AppendUnique(values: seq<Reason>, value: Reason): (r: seq<Reason>)
    ensures value in r && forall v :: v in r <==> v in values || v == value
  {
    if value in values then values else values + [value]
  }

  function IssueIf(condition: bool, issue: Issue): (r: seq<Issue>)
    ensures r == if condition then [issue] else []
  {
    if condition then [issue] else []
  }

  /** The ids matching among the first n cards, in inventory order. */
  function Candidates(inventory: seq<Card>, id: string, n: nat): (r: seq<Card>)
    requires n <= |inventory|
  {
    if n == 0 then []
    else
      Candidates(inventory, id, n - 1) +
      (if id != "" && inventory[n - 1].id == id then [inventory[n - 1]] else [])
  }

  lemma {:induction false} CandidatesAreMatches(inventory: seq<Card>, id: string, n: nat)
    requires n <= |inventory|
    ensures forall c :: c in Candidates(inventory, id, n) ==>
              exists i :: 0 <= i < n && inventory[i] == c && c.id == id && id != ""
    ensures |Candidates(inventory, id, n)| == 0 <==> (forall j :: 0 <= j < n ==> id == "" || inventory[j].id != id)
  {
    if n > 0 {
      CandidatesAreMatches(inventory, id, n - 1);
      forall c | c in Candidates(inventory, id, n)
        ensures exists i :: 0 <= i < n && inventory[i] == c && c.id == id && id != ""
      {
        assert c in Candidates(inventory, id, n - 1) || (c == inventory[n - 1] && c.id == id && id != "");
      }
    }
  }

  /** Among the first n rows, row i alone has the id. */
  ghost predicate OnlyAmong(inventory: seq<Card>, id: string, n: nat, i: int)
    requires n <= |inventory|
  {
    && 0 <= i < n && inventory[i].id == id && id != ""
    && forall j :: 0 <= j < n && inventory[j].id == id ==> j == i
  }

  lemma {:induction false} OnlyOneIsCandidate(inventory: seq<Card>, id: string, n: nat, i: int)
    requires n <= |inventory| && OnlyAmong(inventory, id, n, i)
    ensures Candidates(inventory, id, n) == [inventory[i]]
  {
    if i == n - 1 {
      CandidatesAreMatches(inventory, id, n - 1);
    } else {
      OnlyOneIsCandidate(inventory, id, n - 1, i);
    }
  }

  lemma {:induction false} OneCandidateIsOnly(inventory: seq<Card>, id: string, n: nat) returns (i: int)
    requires n <= |inventory| && |Candidates(inventory, id, n)| == 1
    ensures OnlyAmong(inventory, id, n, i)
  {
    if id != "" && inventory[n - 1].id == id {
      CandidatesAreMatches(inventory, id, n - 1);
      i := n - 1;
    } else {
      i := OneCandidateIsOnly(inventory, id, n - 1);
    }
  }

  lemma OneAmong(inventory: seq<Card>, id: string, n: nat)
    requires n <= |inventory|
    ensures |Candidates(inventory, id, n)| == 1 <==> exists i :: OnlyAmong(inventory, id, n, i)
    ensures forall i :: OnlyAmong(inventory, id, n, i) ==> Candidates(inventory, id, n) == [inventory[i]]
  {
    hide Candidates;
    forall i | OnlyAmong(inventory, id, n, i)
      ensures Candidates(inventory, id, n) == [inventory[i]]
    {
      OnlyOneIsCandidate(inventory, id, n, i);
    }
    if |Candidates(inventory, id, n)| == 1 {
      var i := OneCandidateIsOnly(inventory, id, n);
    }
  }

  /** One candidate means exactly one inventory row has the id. */
  lemma OneCandidate(inventory: seq<Card>, id: string, n: nat)
    requires n <= |inventory|
    ensures |Candidates(inventory, id, n)| == 1 <==>
              (exists i :: 0 <= i < n && inventory[i].id == id && id != ""
                 && forall j :: 0 <= j < n && inventory[j].id == id ==> j == i)
    ensures forall i :: |Candidates(inventory, id, n)| == 1 && 0 <= i < n && inventory[i].id == id ==>
              Candidates(inventory, id, n)[0] == inventory[i]
  {
    OneAmong(inventory, id, n);
    if i :| 0 <= i < n && inventory[i].id == id && id != "" && forall j :: 0 <= j < n && inventory[j].id == id ==> j == i {
      assert OnlyAmong(inventory, id, n, i);
    }
  }

  function MarkerIssue(check: MarkerCheck): seq<Issue> {
    match check
    case Valid => []
    case Foreign => [ForeignFolderManager]
    case Missing => [MarkerMissing]
    case _ => [UnsafeFolderMarker]
  }

  function RecordReasons(r: Record): seq<Reason> {
    (if r.manual then [ManualPause] else []) +
    (if r.firstSync then [FirstSyncPause] else []) +
    (if r.pendingMembership.Some? then [MembershipPause] else []) +
    (if r.pendingStop then [StopPause] else [])
  }

  /** The checks made once a single candidate card is known. */
  function CardIssues(f: Folder, r: Record, c: Card): seq<Issue> {
    var expected := c.Content(f.kind).path;
    var receive := f.folderType != SendOnly;
    IssueIf(expected == "" || f.path != expected, UnsafeFolderPath) +
    IssueIf(c.state != Enrolled || !c.present || c.duplicateId, CardUnavailable) +
    IssueIf(f.folderType.Unsupported?, UnsupportedFolderType) +
    IssueIf(receive && !c.writable, CardReadOnly) +
    IssueIf(f.markerName != r.markerName, UnsafeFolderMarker) +
    (if expected != "" && f.path == expected && c.present
     then MarkerIssue(ValidateManagedMarker(c.Content(f.kind), r.markerName)) else []) +
    IssueIf(receive && (f.versioning != "simple" || f.versioningPath != c.Versions(f.kind)
                        || f.versioningFsType != "basic"), UnsafeVersioning)
  }

  /** The row names exactly the reasons in the record, a card the folder has to wait for, and health for any issue. */
  ghost predicate ReasonsTell(f: Folder, inventory: seq<Card>, controls: map<string, Record>, row: Row) {
    && (f.id !in controls ==> row.reasons == [HealthPause])
    && (HealthPause in row.reasons <==> row.issues != [])
    && (f.id in controls ==>
          && (ManualPause in row.reasons <==> controls[f.id].manual)
          && (FirstSyncPause in row.reasons <==> controls[f.id].firstSync)
          && (MembershipPause in row.reasons <==> controls[f.id].pendingMembership.Some?)
          && (StopPause in row.reasons <==> controls[f.id].pendingStop)
          && forall id :: StoragePause(id) in row.reasons <==>
               && controls[f.id].cardId == id && CompleteBinding(controls[f.id])
               && exists i :: OnlyCard(inventory, i, id) && MustWait(f, inventory[i]))
  }

  /** The card is not there as enrolled, or not writable for a folder that receives. */
  ghost predicate MustWait(f: Folder, c: Card) {
    c.state != Enrolled || !c.present || c.duplicateId || (f.folderType != SendOnly && !c.writable)
  }

  /** The row names exactly what is wrong with the binding, the card and the folder. */
  ghost predicate IssuesTell(f: Folder, inventory: seq<Card>, controls: map<string, Record>, row: Row) {
    if f.id !in controls || !CompleteBinding(controls[f.id]) then row.issues == [UnregisteredFolder]
    else
      var control := controls[f.id];
      && UnregisteredFolder !in row.issues
      && (UnsafeFolderKind in row.issues <==> f.kind != control.kind)
      && (UnknownCardBinding in row.issues <==> forall i :: 0 <= i < |inventory| ==> inventory[i].id != control.cardId)
      && (DuplicateCardId in row.issues <==>
            exists i, j :: 0 <= i < j < |inventory| && inventory[i].id == inventory[j].id == control.cardId)
      && forall i :: OnlyCard(inventory, i, control.cardId) ==> CardIssuesTell(f, control, inventory[i], row.issues)
  }

  ghost predicate CardIssuesTell(f: Folder, r: Record, c: Card, issues: seq<Issue>) {
    var placed := f.path == c.Content(f.kind).path && f.path != "";
    && (UnsafeFolderPath in issues <==> !placed)
    && (CardUnavailable in issues <==> c.state != Enrolled || !c.present || c.duplicateId)
    && (UnsupportedFolderType in issues <==> f.folderType.Unsupported?)
    && (CardReadOnly in issues <==> f.folderType != SendOnly && !c.writable)
    && (UnsafeVersioning in issues <==>
          f.folderType != SendOnly
          && !(f.versioning == "simple" && f.versioningFsType == "basic" && f.versioningPath == c.Versions(f.kind)))
    && (ForeignFolderManager in issues <==> placed && c.present && ValidateManagedMarker(c.Content(f.kind), r.markerName).Foreign?)
    && (MarkerMissing in issues <==> placed && c.present && ValidateManagedMarker(c.Content(f.kind), r.markerName).Missing?)
    && (UnsafeFolderMarker in issues <==>
          f.markerName != r.markerName
          || (placed && c.present && ValidateManagedMarker(c.Content(f.kind), r.markerName) in {Collision, UnsafeRoot}))
  }

  /** One issue, looked for in the seven parts. */
  lemma IssueIn(f: Folder, r: Record, c: Card, issue: Issue)
    ensures var placed, receive := f.path == c.Content(f.kind).path && f.path != "", f.folderType != SendOnly;
            var marker := if placed && c.present then MarkerIssue(ValidateManagedMarker(c.Content(f.kind), r.markerName)) else [];
            issue in CardIssues(f, r, c) <==>
              || (issue == UnsafeFolderPath && !placed)
              || (issue == CardUnavailable && (c.state != Enrolled || !c.present || c.duplicateId))
              || (issue == UnsupportedFolderType && f.folderType.Unsupported?)
              || (issue == CardReadOnly && receive && !c.writable)
              || (issue == UnsafeFolderMarker && f.markerName != r.markerName)
              || issue in marker
              || (issue == UnsafeVersioning && receive && !Versioned(f, c))
  {
    hide ValidateManagedMarker, MarkerIssue;
  }

  ghost predicate Versioned(f: Folder, c: Card) {
    f.versioning == "simple" && f.versioningFsType == "basic" && f.versioningPath == c.Versions(f.kind)
  }

  lemma CardIssuesAre(f: Folder, r: Record, c: Card)
    ensures CardIssuesTell(f, r, c, CardIssues(f, r, c))
    ensures UnregisteredFolder !in CardIssues(f, r, c) && UnsafeFolderKind !in CardIssues(f, r, c)
    ensures UnknownCardBinding !in CardIssues(f, r, c) && DuplicateCardId !in CardIssues(f, r, c)
  {
    hide ValidateManagedMarker, CardIssues;
    IssueIn(f, r, c, UnsafeFolderPath);
    IssueIn(f, r, c, CardUnavailable);
    IssueIn(f, r, c, UnsupportedFolderType);
    IssueIn(f, r, c, CardReadOnly);
    IssueIn(f, r, c, UnsafeVersioning);
    IssueIn(f, r, c, ForeignFolderManager);
    IssueIn(f, r, c, MarkerMissing);
    IssueIn(f, r, c, UnsafeFolderMarker);
    IssueIn(f, r, c, UnregisteredFolder);
    IssueIn(f, r, c, UnsafeFolderKind);
    IssueIn(f, r, c, UnknownCardBinding);
    IssueIn(f, r, c, DuplicateCardId);
  }

  lemma NoCardIssue(f: Folder, r: Record, c: Card)
    requires c.id == r.cardId
    ensures CardIssues(f, r, c) == [] <==> CardServes(f, r, c)
    ensures CardServes(f, r, c) ==> !MustWait(f, c)
  {
    if CardIssues(f, r, c) != [] {
      IssueIn(f, r, c, CardIssues(f, r, c)[0]);
    } else {
      CardIssuesAre(f, r, c);
    }
  }

  lemma RecordReasonsAre(r: Record)
    ensures RecordReasons(r) == [] <==> NothingPending(r)
    ensures (ManualPause in RecordReasons(r) <==> r.manual) && (FirstSyncPause in RecordReasons(r) <==> r.firstSync)
    ensures (MembershipPause in RecordReasons(r) <==> r.pendingMembership.Some?) && (StopPause in RecordReasons(r) <==> r.pendingStop)
    ensures HealthPause !in RecordReasons(r) && forall id :: StoragePause(id) !in RecordReasons(r)
  {
  }

  method ReconcileManagedFolders(configured: seq<Folder>, inventory: seq<Card>, controls: map<string, Record>)
    returns (rows: seq<Row>, issues: seq<Issue>)
    ensures |rows| == |configured|
    ensures forall i :: 0 <= i < |rows| ==>
              && rows[i].id == configured[i].id
              && (rows[i].paused <==> !MayRun(configured[i], inventory, controls))
              && (rows[i].state == Failed <==> rows[i].issues != [])
              && (rows[i].state == Idle <==> !rows[i].paused)
              && ReasonsTell(configured[i], inventory, controls, rows[i]) && IssuesTell(configured[i], inventory, controls, rows[i])
    ensures issues == [] <==> forall i :: 0 <= i < |rows| ==> rows[i].issues == []
  {
    hide ReasonsTell, IssuesTell, MayRun;
    rows, issues := [], [];
    for k := 0 to |configured|
      invariant |rows| == k
      invariant forall i :: 0 <= i < k ==>
                  && rows[i].id == configured[i].id
                  && (rows[i].paused <==> !MayRun(configured[i], inventory, controls))
                  && (rows[i].state == Failed <==> rows[i].issues != [])
                  && (rows[i].state == Idle <==> !rows[i].paused)
                  && ReasonsTell(configured[i], inventory, controls, rows[i]) && IssuesTell(configured[i], inventory, controls, rows[i])
      invariant issues == [] <==> forall i :: 0 <= i < k ==> rows[i].issues == []
    {
      var row := ReconcileFolder(configured[k], inventory, controls);
      rows := rows + [row];
      issues := issues + row.issues;
    }
  }

  /** The body of the loop over configured folders. */
  method ReconcileFolder(f: Folder, inventory: seq<Card>, controls: map<string, Record>) returns (row: Row)
    ensures row.id == f.id
    ensures row.paused <==> !MayRun(f, inventory, controls)
    ensures row.state == Failed <==> row.issues != []
    ensures row.state == Idle <==> !row.paused
    ensures ReasonsTell(f, inventory, controls, row)
    ensures IssuesTell(f, inventory, controls, row)
  {
    hide RecordReasons, CardIssues, Candidates;
    if f.id !in controls || !CompleteBinding(controls[f.id]) {
      var reasons := [];
      if f.id in controls {
        RecordReasonsAre(controls[f.id]);
        reasons := RecordReasons(controls[f.id]);
      }
      return Row(f.id, "", Failed, AppendUnique(reasons, HealthPause), true, [UnregisteredFolder]);
    }
    var control := controls[f.id];
    var candidates := Candidates(inventory, control.cardId, |inventory|);
    OneAmong(inventory, control.cardId, |inventory|);
    CandidatesAreMatches(inventory, control.cardId, |inventory|);
    if |candidates| != 1 {
      row := NoCardRow(f, control, inventory, controls, |candidates| > 1);
      return;
    }
    ghost var at :| OnlyAmong(inventory, control.cardId, |inventory|, at);
    row := CardRow(f, control, inventory, controls, candidates[0], at);
  }

  /** The record's own reasons, one for the card if the folder must wait for it, and health if anything is wrong. */
  lemma ReasonsAre(f: Folder, inventory: seq<Card>, controls: map<string, Record>, row: Row, waits: bool)
    requires f.id in controls && CompleteBinding(controls[f.id])
    requires waits <==> exists i :: OnlyCard(inventory, i, controls[f.id].cardId) && MustWait(f, inventory[i])
    requires forall reason :: reason in row.reasons <==>
               || reason in RecordReasons(controls[f.id])
               || (waits && reason == StoragePause(controls[f.id].cardId))
               || (row.issues != [] && reason == HealthPause)
    ensures ReasonsTell(f, inventory, controls, row)
  {
    hide RecordReasons, MustWait, OnlyCard;
    RecordReasonsAre(controls[f.id]);
  }

  method NoCardRow(f: Folder, control: Record, inventory: seq<Card>, ghost controls: map<string, Record>, many: bool) returns (row: Row)
    requires f.id in controls && controls[f.id] == control && CompleteBinding(control)
    requires forall i :: !OnlyAmong(inventory, control.cardId, |inventory|, i)
    requires many <==> exists j :: 0 <= j < |inventory| && inventory[j].id == control.cardId
    ensures row.id == f.id && row.paused && row.state == Failed && row.issues != []
    ensures !MayRun(f, inventory, controls)
    ensures ReasonsTell(f, inventory, controls, row) && IssuesTell(f, inventory, controls, row)
  {
    hide RecordReasons, ReasonsTell, IssuesTell, MustWait, MayRun;
    NoOnlyCard(inventory, control.cardId);
    MayNotRun(f, inventory, controls);
    var issues := IssueIf(f.kind != control.kind, UnsafeFolderKind) + [if many then DuplicateCardId else UnknownCardBinding];
    row := Row(f.id, control.cardId, Failed, AppendUnique(RecordReasons(control), HealthPause), true, issues);
    ReasonsAre(f, inventory, controls, row, false);
    IssuesWithoutCard(f, inventory, controls, row, many);
  }

  lemma MayNotRun(f: Folder, inventory: seq<Card>, controls: map<string, Record>)
    requires f.id in controls && forall i :: !OnlyCard(inventory, i, controls[f.id].cardId)
    ensures !MayRun(f, inventory, controls)
  {
    hide OnlyCard, CardServes;
  }

  lemma IssuesWithoutCard(f: Folder, inventory: seq<Card>, controls: map<string, Record>, row: Row, many: bool)
    requires f.id in controls && CompleteBinding(controls[f.id])
    requires forall i :: !OnlyAmong(inventory, controls[f.id].cardId, |inventory|, i)
    requires forall i :: !OnlyCard(inventory, i, controls[f.id].cardId)
    requires many <==> exists j :: 0 <= j < |inventory| && inventory[j].id == controls[f.id].cardId
    requires row.issues == IssueIf(f.kind != controls[f.id].kind, UnsafeFolderKind)
                             + [if many then DuplicateCardId else UnknownCardBinding]
    ensures IssuesTell(f, inventory, controls, row)
  {
    hide OnlyCard, CardIssuesTell;
    if many {
      TwoRows(inventory, controls[f.id].cardId);
    }
  }

  lemma NoOnlyCard(inventory: seq<Card>, id: string)
    requires forall i :: !OnlyAmong(inventory, id, |inventory|, i)
    ensures forall i :: !OnlyCard(inventory, i, id)
  {
    forall i | OnlyCard(inventory, i, id)
      ensures OnlyAmong(inventory, id, |inventory|, i)
    {
    }
  }

  lemma TwoRows(inventory: seq<Card>, id: string)
    requires id != "" && (forall i :: !OnlyAmong(inventory, id, |inventory|, i))
    requires exists j :: 0 <= j < |inventory| && inventory[j].id == id
    ensures exists i, j :: 0 <= i < j < |inventory| && inventory[i].id == inventory[j].id == id
  {
    var j :| 0 <= j < |inventory| && inventory[j].id == id;
    assert !OnlyAmong(inventory, id, |inventory|, j);
    var k :| 0 <= k < |inventory| && inventory[k].id == id && k != j;
    assert inventory[if j < k then j else k].id == inventory[if j < k then k else j].id == id;
  }

  lemma MayRunHere(f: Folder, inventory: seq<Card>, controls: map<string, Record>, at: int)
    requires f.id in controls && CompleteBinding(controls[f.id])
    requires OnlyAmong(inventory, controls[f.id].cardId, |inventory|, at)
    ensures forall i :: OnlyCard(inventory, i, controls[f.id].cardId) <==> i == at
    ensures MayRun(f, inventory, controls) <==>
              controls[f.id].kind == f.kind && NothingPending(controls[f.id]) && CardServes(f, controls[f.id], inventory[at])
  {
    hide CardServes, NothingPending;
    assert OnlyCard(inventory, at, controls[f.id].cardId);
  }

  /** The checks of the folder against its one card. */
  method CardRow(f: Folder, control: Record, inventory: seq<Card>, ghost controls: map<string, Record>, card: Card, ghost at: int)
    returns (row: Row)
    requires f.id in controls && controls[f.id] == control && CompleteBinding(control)
    requires OnlyAmong(inventory, control.cardId, |inventory|, at) && card == inventory[at]
    ensures row.id == f.id
    ensures row.paused <==> !MayRun(f, inventory, controls)
    ensures row.state == Failed <==> row.issues != []
    ensures row.state == Idle <==> !row.paused
    ensures ReasonsTell(f, inventory, controls, row) && IssuesTell(f, inventory, controls, row)
  {
    hide CardIssues, RecordReasons, CardServes, ValidateManagedMarker, NothingPending, MayRun, ReasonsTell, CardIssuesTell;
    RecordReasonsAre(control);
    CardIssuesAre(f, control, card);
    NoCardIssue(f, control, card);
    MayRunHere(f, inventory, controls, at);
    var reasons := RecordReasons(control);
    if card.state != Enrolled || !card.present || card.duplicateId {
      reasons := reasons + [StoragePause(card.id)];
    }
    if f.folderType != SendOnly && !card.writable {
      reasons := AppendUnique(reasons, StoragePause(card.id));
    }
    var issues := IssueIf(f.kind != control.kind, UnsafeFolderKind) + CardIssues(f, control, card);
    if issues != [] {
      reasons := AppendUnique(reasons, HealthPause);
    }
    var paused := reasons != [];
    var state := if issues != [] then Failed else if paused then Paused else Idle;
    CardIssuesMore(f, control, card, IssueIf(f.kind != control.kind, UnsafeFolderKind));
    row := Row(f.id, card.id, state, reasons, paused, issues);
    ReasonsAre(f, inventory, controls, row, MustWait(f, card));
  }

  lemma CardIssuesMore(f: Folder, r: Record, c: Card, before: seq<Issue>)
    requires forall issue :: issue in before ==> issue == UnsafeFolderKind
    ensures CardIssuesTell(f, r, c, before + CardIssues(f, r, c))
  {
    hide CardIssues, ValidateManagedMarker;
    CardIssuesAre(f, r, c);
  }

  method RequiredOfflinePauseSet(configured: seq<Folder>, inventory: seq<Card>, controls: map<string, Record>)
    returns (pauses: map<string, bool>)
    requires forall i, j :: 0 <= i < j < |configured| ==> configured[i].id != configured[j].id
    ensures forall i :: 0 <= i < |configured| ==>
              && configured[i].id in pauses
              && pauses[configured[i].id] == !MayRun(configured[i], inventory, controls)
    ensures forall id :: id in pauses ==> exists i :: 0 <= i < |configured| && configured[i].id == id
  {
    hide *;
    var rows, _ := ReconcileManagedFolders(configured, inventory, controls);
    pauses := map[];
    for k := 0 to |rows|
      invariant forall i :: 0 <= i < k ==>
                  && configured[i].id in pauses
                  && pauses[configured[i].id] == !MayRun(configured[i], inventory, controls)
      invariant forall id :: id in pauses ==> exists i :: 0 <= i < k && configured[i].id == id
    {
      pauses := pauses[rows[k].id := rows[k].paused];
    }
  }

  /** What running buys: no pause reason in the record, and for a folder that receives, one usable card. */
  lemma MayRunMeansOneUsableCard(f: Folder, inventory: seq<Card>, controls: map<string, Record>)
    requires MayRun(f, inventory, controls) && f.folderType != SendOnly
    ensures exists i :: OnlyCard(inventory, i, controls[f.id].cardId) && Usable(inventory[i])
  {
    var i :| OnlyCard(inventory, i, controls[f.id].cardId) && CardServes(f, controls[f.id], inventory[i]);
    assert Usable(inventory[i]);
  }
}
