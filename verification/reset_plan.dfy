/** The reset document: what a reset may name, and building it from the cards at hand. */
module ResetPlan {
  import opened Durable
  import opened FileTrees
  import F = Folders

  datatype Source = Source(id: string, root: Path, userdata: Path, live: seq<Path>)

  datatype Config = Config(userdata: Path, configDir: Path, dataDir: Path, sources: seq<Source>)

  datatype Action = IndexOnly | Full | AvailableOnly

  datatype Root = Root(path: Path, filesystem: Path, description: string)

  datatype ResetCard = ResetCard(id: string, source: string, root: Path, userdata: Path)

  datatype Document = Document(
    schema: nat, actionId: string, action: Action, roots: seq<Root>, required: seq<ResetCard>, retained: seq<Path>)

  /** One row of the card inventory as a reset sees it. */
  datatype Card = Card(id: string, source: Source, enrolled: bool, present: bool, duplicate: bool)

  const STATE := "Syncthing"

  function StateOf(userdata: Path): Path {
    userdata + [STATE]
  }

  function Snapshots(userdata: Path): Path {
    StateOf(userdata) + ["snapshots"]
  }

  function Versions(userdata: Path): Path {
    StateOf(userdata) + ["versions"]
  }

  lemma StateLayout(userdata: Path)
    ensures StateOf(userdata) == userdata + ["Syncthing"]
    ensures Snapshots(userdata) == userdata + ["Syncthing", "snapshots"]
    ensures Versions(userdata) == userdata + ["Syncthing", "versions"]
  {
  }

  ghost function PrimaryList(c: Config): seq<Path> {
    [c.configDir, c.dataDir, StateOf(c.userdata) + ["backups"], StateOf(c.userdata) + ["leaf", "trusted-clients.json"],
     StateOf(c.userdata) + ["leaf", "gateway-cert.pem"], StateOf(c.userdata) + ["leaf", "gateway-key.pem"],
     StateOf(c.userdata) + ["leaf", "folder-control.json"]]
  }

  ghost function PrimaryPaths(c: Config): set<Path> {
    {c.configDir, c.dataDir, StateOf(c.userdata) + ["backups"], StateOf(c.userdata) + ["leaf", "trusted-clients.json"],
     StateOf(c.userdata) + ["leaf", "gateway-cert.pem"], StateOf(c.userdata) + ["leaf", "gateway-key.pem"],
     StateOf(c.userdata) + ["leaf", "folder-control.json"]}
  }

  // ------------------------------------------------------------- what is allowed

  ghost predicate HexAnyCase(s: string) {
    |s| == 32 && forall i :: 0 <= i < |s| ==> '0' <= s[i] <= '9' || 'a' <= s[i] <= 'f' || 'A' <= s[i] <= 'F'
  }

  /** index-v followed by digits and dots, and .db at the end. */
  ghost predicate IndexName(s: string) {
    && |s| > 10 && s[..7] == "index-v" && s[|s| - 3..] == ".db"
    && forall i :: 7 <= i < |s| - 3 ==> '0' <= s[i] <= '9' || s[i] == '.'
  }

  /** The last source of a filesystem decides where its userdata is. */
  ghost function BaseOf(c: Config, filesystem: Path, n: nat): Option<Path>
    requires n <= |c.sources|
  {
    if n == 0 then (if filesystem == c.userdata then Some(c.userdata) else None)
    else if c.sources[n - 1].root == filesystem then Some(c.sources[n - 1].userdata)
    else BaseOf(c, filesystem, n - 1)
  }

  ghost function SourceOf(c: Config, id: string, n: nat): Option<Source>
    requires n <= |c.sources|
  {
    if n == 0 then None
    else if c.sources[n - 1].id == id then Some(c.sources[n - 1])
    else SourceOf(c, id, n - 1)
  }

  ghost predicate CardMatches(c: Config, card: ResetCard) {
    var s := SourceOf(c, card.source, |c.sources|);
    HexAnyCase(card.id) && s.Some? && s.value.root == card.root && s.value.userdata == card.userdata
  }

  ghost predicate IsCardPath(cards: seq<ResetCard>, p: Path) {
    exists i :: 0 <= i < |cards| && (p == Snapshots(cards[i].userdata) || p == Versions(cards[i].userdata))
  }

  ghost predicate IsSourcePath(c: Config, p: Path) {
    exists i :: 0 <= i < |c.sources| && (p == Snapshots(c.sources[i].userdata) || p == Versions(c.sources[i].userdata))
  }

  ghost predicate AllowedRoot(c: Config, d: Document, p: Path) {
    if d.action.IndexOnly? then p != [] && Parent(p) == c.dataDir && IndexName(p[|p| - 1])
    else p in PrimaryPaths(c) || IsCardPath(d.required, p)
  }

  ghost predicate AllowedRetained(c: Config, d: Document, p: Path) {
    !d.action.IndexOnly? && IsSourcePath(c, p) && !IsCardPath(d.required, p)
  }

  ghost predicate IsLive(c: Config, p: Path) {
    exists i :: 0 <= i < |c.sources| && p in c.sources[i].live
  }

  ghost predicate ValidRoot(c: Config, d: Document, r: Root) {
    && BaseOf(c, r.filesystem, |c.sources|).Some? && r.path != [] && r.description != ""
    && StrictlyBelow(BaseOf(c, r.filesystem, |c.sources|).value, r.path)
    && AllowedRoot(c, d, r.path) && !IsLive(c, r.path)
  }

  ghost predicate ValidDocument(c: Config, d: Document) {
    && d.schema == 1 && HexAnyCase(d.actionId)
    && |d.roots| <= 64 && |d.required| <= 16 && |d.retained| <= 32
    && (d.action.IndexOnly? ==> d.required == [] && d.retained == [])
    && (d.action.Full? ==> d.retained == [])
    && (forall i :: 0 <= i < |d.required| ==> CardMatches(c, d.required[i]))
    && (forall i, j :: 0 <= i < j < |d.required| ==> d.required[i].id != d.required[j].id)
    && (forall i :: 0 <= i < |d.roots| ==> ValidRoot(c, d, d.roots[i]))
    && (forall i, j :: 0 <= i < j < |d.roots| ==> d.roots[i].path != d.roots[j].path)
    && (forall i :: 0 <= i < |d.retained| ==> AllowedRetained(c, d, d.retained[i]))
    && (forall i, j :: 0 <= i < j < |d.retained| ==> d.retained[i] != d.retained[j])
  }

  method IsHexId(s: string) returns (ok: bool)
    ensures ok <==> HexAnyCase(s)
  {
    if |s| != 32 {
      return false;
    }
    for n := 0 to |s|
      invariant forall i :: 0 <= i < n ==> '0' <= s[i] <= '9' || 'a' <= s[i] <= 'f' || 'A' <= s[i] <= 'F'
    {
      if (s[n] < '0' || s[n] > '9') && (s[n] < 'a' || s[n] > 'f') && (s[n] < 'A' || s[n] > 'F') {
        return false;
      }
    }
    ok := true;
  }

  method IsIndexName(s: string) returns (ok: bool)
    ensures ok <==> IndexName(s)
  {
    if |s| < 11 || s[..7] != "index-v" || s[|s| - 3..] != ".db" {
      return false;
    }
    for n := 7 to |s| - 3
      invariant forall i :: 7 <= i < n ==> '0' <= s[i] <= '9' || s[i] == '.'
    {
      if (s[n] < '0' || s[n] > '9') && s[n] != '.' {
        return false;
      }
    }
    ok := true;
  }

  /** Where the userdata of each filesystem is; a later source replaces an earlier one. */
  method Filesystems(c: Config) returns (m: map<Path, Path>)
    ensures forall p :: BaseOf(c, p, |c.sources|) == if p in m then Some(m[p]) else None
  {
    m := map[c.userdata := c.userdata];
    for n := 0 to |c.sources|
      invariant forall p :: BaseOf(c, p, n) == if p in m then Some(m[p]) else None
    {
      m := m[c.sources[n].root := c.sources[n].userdata];
    }
  }

  method SourcesById(c: Config) returns (m: map<string, Source>)
    ensures forall id :: SourceOf(c, id, |c.sources|) == if id in m then Some(m[id]) else None
  {
    m := map[];
    for n := 0 to |c.sources|
      invariant forall id :: SourceOf(c, id, n) == if id in m then Some(m[id]) else None
    {
      m := m[c.sources[n].id := c.sources[n]];
    }
  }

  method LiveContent(c: Config, p: Path) returns (live: bool)
    ensures live <==> IsLive(c, p)
  {
    for n := 0 to |c.sources|
      invariant forall i :: 0 <= i < n ==> p !in c.sources[i].live
    {
      if p in c.sources[n].live {
        return true;
      }
    }
    live := false;
  }

  /** What any configured card may keep. */
  method RetainablePaths(c: Config) returns (retainable: set<Path>)
    ensures forall p :: p in retainable <==> IsSourcePath(c, p)
  {
    hide Snapshots, Versions;
    retainable := {};
    for n := 0 to |c.sources|
      invariant forall p :: p in retainable <==>
                  exists i :: 0 <= i < n && (p == Snapshots(c.sources[i].userdata) || p == Versions(c.sources[i].userdata))
    {
      retainable := retainable + {Snapshots(c.sources[n].userdata), Versions(c.sources[n].userdata)};
    }
  }

  /** The cards the document requires, and with them the exact paths it may remove and retain. */
  method ExactResetPaths(c: Config, required: seq<ResetCard>) returns (ok: bool, allowed: set<Path>, retainable: set<Path>)
    ensures ok <==>
              && (forall i :: 0 <= i < |required| ==> CardMatches(c, required[i]))
              && forall i, j :: 0 <= i < j < |required| ==> required[i].id != required[j].id
    ensures ok ==> forall p :: p in allowed <==> p in PrimaryPaths(c) || IsCardPath(required, p)
    ensures ok ==> forall p :: p in retainable <==> IsSourcePath(c, p) && !IsCardPath(required, p)
  {
    hide HexAnyCase, Snapshots, Versions, PrimaryPaths, IsSourcePath;
    allowed := PrimarySet(c);
    retainable := RetainablePaths(c);
    var sources := SourcesById(c);
    var ids: set<string> := {};
    for n := 0 to |required|
      invariant forall k :: 0 <= k < n ==> CardMatches(c, required[k])
      invariant forall id :: id in ids <==> exists k :: 0 <= k < n && required[k].id == id
      invariant forall k, l :: 0 <= k < l < n ==> required[k].id != required[l].id
      invariant forall p :: p in allowed <==> p in PrimaryPaths(c) || NamedBy(required, n, p)
      invariant forall p :: p in retainable <==> IsSourcePath(c, p) && !NamedBy(required, n, p)
    {
      var card := required[n];
      var hex := IsHexId(card.id);
      if card.source !in sources || !hex || card.id in ids || sources[card.source].root != card.root
         || sources[card.source].userdata != card.userdata {
        return false, {}, {};
      }
      NamedByMore(required, n);
      var paths := {Snapshots(sources[card.source].userdata), Versions(sources[card.source].userdata)};
      ids, allowed, retainable := ids + {card.id}, allowed + paths, retainable - paths;
    }
    ok := true;
  }

  ghost predicate NamedBy(cards: seq<ResetCard>, n: nat, p: Path)
    requires n <= |cards|
  {
    exists i :: 0 <= i < n && (p == Snapshots(cards[i].userdata) || p == Versions(cards[i].userdata))
  }

  lemma NamedByMore(cards: seq<ResetCard>, n: nat)
    requires n < |cards|
    ensures forall p :: NamedBy(cards, n + 1, p) <==>
              NamedBy(cards, n, p) || p == Snapshots(cards[n].userdata) || p == Versions(cards[n].userdata)
  {
    hide Snapshots, Versions;
    forall p
      ensures NamedBy(cards, n + 1, p) <==>
                NamedBy(cards, n, p) || p == Snapshots(cards[n].userdata) || p == Versions(cards[n].userdata)
    {
    }
  }

  method PrimarySet(c: Config) returns (paths: set<Path>)
    ensures paths == PrimaryPaths(c)
  {
    var state := StateOf(c.userdata);
    paths := {c.configDir, c.dataDir, state + ["backups"], state + ["leaf", "trusted-clients.json"],
              state + ["leaf", "gateway-cert.pem"], state + ["leaf", "gateway-key.pem"], state + ["leaf", "folder-control.json"]};
  }

  method ValidateResetDocument(c: Config, d: Document) returns (ok: bool)
    ensures ok <==> ValidDocument(c, d)
  {
    hide CardMatches, ValidRoot, AllowedRetained, HexAnyCase, IsCardPath, IsSourcePath, PrimaryPaths;
    ok := IsHexId(d.actionId);
    if !ok || d.schema != 1 || |d.roots| > 64 || |d.required| > 16 || |d.retained| > 32 {
      return false;
    }
    if (d.action.IndexOnly? && (d.required != [] || d.retained != [])) || (d.action.Full? && d.retained != []) {
      return false;
    }
    var bases := Filesystems(c);
    var allowed, retainable;
    ok, allowed, retainable := ExactResetPaths(c, d.required);
    if !ok {
      return;
    }
    var seen: set<Path> := {};
    for i := 0 to |d.roots|
      invariant forall k :: 0 <= k < i ==> ValidRoot(c, d, d.roots[k])
      invariant forall p :: p in seen <==> exists k :: 0 <= k < i && d.roots[k].path == p
      invariant forall k, l :: 0 <= k < l < i ==> d.roots[k].path != d.roots[l].path
    {
      ok := ValidateRoot(c, d, d.roots[i], bases, allowed);
      if !ok || d.roots[i].path in seen {
        return false;
      }
      seen := seen + {d.roots[i].path};
    }
    var kept: set<Path> := {};
    for i := 0 to |d.retained|
      invariant forall k :: 0 <= k < i ==> AllowedRetained(c, d, d.retained[k])
      invariant forall p :: p in kept <==> exists k :: 0 <= k < i && d.retained[k] == p
      invariant forall k, l :: 0 <= k < l < i ==> d.retained[k] != d.retained[l]
    {
      Retainable(c, d, d.retained[i]);
      if d.retained[i] in kept || d.retained[i] !in retainable {
        return false;
      }
      kept := kept + {d.retained[i]};
    }
    ok := true;
  }

  lemma Retainable(c: Config, d: Document, p: Path)
    ensures AllowedRetained(c, d, p) <==> !d.action.IndexOnly? && IsSourcePath(c, p) && !IsCardPath(d.required, p)
  {
  }

  /** One root: on a configured filesystem, inside its userdata, a path the action may name, and no live content. */
  method ValidateRoot(c: Config, d: Document, r: Root, bases: map<Path, Path>, allowed: set<Path>) returns (ok: bool)
    requires forall p :: BaseOf(c, p, |c.sources|) == if p in bases then Some(bases[p]) else None
    requires forall p :: p in allowed <==> p in PrimaryPaths(c) || IsCardPath(d.required, p)
    ensures ok <==> ValidRoot(c, d, r)
  {
    hide IndexName, IsCardPath, PrimaryPaths, IsLive, BaseOf;
    if r.filesystem !in bases || r.path == [] || r.description == "" {
      return false;
    }
    var base := bases[r.filesystem];
    if |base| >= |r.path| || r.path[..|base|] != base {
      return false;
    }
    if d.action.IndexOnly? {
      var named := IsIndexName(r.path[|r.path| - 1]);
      if r.path[..|r.path| - 1] != c.dataDir || !named {
        return false;
      }
    } else if r.path !in allowed {
      return false;
    }
    var live := LiveContent(c, r.path);
    ok := !live;
  }

  /** What is declared retained is not declared for removal, except under a path of the primary state itself. */
  lemma RetainedIsNotRemoved(c: Config, d: Document, i: nat, j: nat)
    requires ValidDocument(c, d) && i < |d.roots| && j < |d.retained|
    ensures d.roots[i].path == d.retained[j] ==> d.retained[j] in PrimaryPaths(c)
  {
    assert ValidRoot(c, d, d.roots[i]) && AllowedRetained(c, d, d.retained[j]);
  }

  // ----------------------------------------------------------- live content

  /** Neither the live path nor anything around it is declared. */
  ghost predicate Apart(d: Document, live: Path) {
    forall i :: 0 <= i < |d.roots| ==> !Below(d.roots[i].path, live) && !Below(live, d.roots[i].path)
  }

  /** p lies at or below a declared root. */
  ghost predicate Covers(d: Document, p: Path) {
    exists i :: 0 <= i < |d.roots| && Below(d.roots[i].path, p)
  }

  /** What the removal may take spares everything at and below a live path exactly when the two are apart. */
  lemma ApartIsExact(d: Document, live: Path)
    ensures Apart(d, live) <==> forall p :: Below(live, p) ==> !Covers(d, p)
  {
    if Apart(d, live) {
      forall p | Below(live, p)
        ensures !Covers(d, p)
      {
        if i :| 0 <= i < |d.roots| && Below(d.roots[i].path, p) {
          Comparable(d.roots[i].path, live, p);
        }
      }
    } else {
      var i :| 0 <= i < |d.roots| && (Below(d.roots[i].path, live) || Below(live, d.roots[i].path));
      var p := if Below(live, d.roots[i].path) then d.roots[i].path else live;
      assert Below(live, p) && Below(d.roots[i].path, p);
    }
  }

  /** Two paths with a common path below them lie one below the other. */
  lemma Comparable(a: Path, b: Path, p: Path)
    requires Below(a, p) && Below(b, p)
    ensures Below(a, b) || Below(b, a)
  {
    if |a| <= |b| {
      assert b[..|a|] == p[..|b|][..|a|] == p[..|a|];
    } else {
      assert a[..|b|] == p[..|a|][..|b|] == p[..|b|];
    }
  }

  const NESTED := Source("s", ["card"], ["card", "data"], [["card", "data", "Syncthing", "snapshots", "roms"]])
  const HOME := Config(["home"], ["home", "Syncthing", "config"], ["home", "Syncthing", "data"], [NESTED])
  const PLAN := Document(1, "00000000000000000000000000000000", Full,
                         [Root(["card", "data", "Syncthing", "snapshots"], ["card"], "card snapshots")],
                         [ResetCard("00000000000000000000000000000000", "s", ["card"], ["card", "data"])], [])

  /** Validation compares live paths for equality only: content kept inside a declared root passes it. */
  lemma NestedLiveContentIsNotRefused()
    ensures ValidDocument(HOME, PLAN) && IsLive(HOME, NESTED.live[0]) && !Apart(PLAN, NESTED.live[0])
  {
    assert SourceOf(HOME, "s", 1) == Some(NESTED);
    assert BaseOf(HOME, ["card"], 1) == Some(["card", "data"]);
    assert Snapshots(["card", "data"]) == ["card", "data", "Syncthing", "snapshots"];
    assert IsCardPath(PLAN.required, PLAN.roots[0].path) by {
      assert PLAN.required[0].userdata == ["card", "data"];
    }
    assert NESTED.live[0] in HOME.sources[0].live;
    assert PLAN.roots[0].path != NESTED.live[0];
    assert Below(PLAN.roots[0].path, NESTED.live[0]);
  }

  // ------------------------------------------------------------- building the plan

  ghost predicate Usable(card: Card) {
    card.enrolled && card.present && !card.duplicate
  }

  ghost predicate Known(card: Card) {
    card.id != ""
  }

  ghost function RequiredOf(inventory: seq<Card>): seq<ResetCard> {
    if inventory == [] then []
    else
      (if Known(inventory[0]) && Usable(inventory[0])
       then [ResetCard(inventory[0].id, inventory[0].source.id, inventory[0].source.root, inventory[0].source.userdata)] else [])
      + RequiredOf(inventory[1..])
  }

  /** The declared roots of the usable cards, snapshots before versions. */
  ghost function CardRootsOf(inventory: seq<Card>): seq<Root> {
    if inventory == [] then []
    else
      (if Known(inventory[0]) && Usable(inventory[0])
       then [Root(Snapshots(inventory[0].source.userdata), inventory[0].source.root, CARD_STATE),
             Root(Versions(inventory[0].source.userdata), inventory[0].source.root, CARD_STATE)] else [])
      + CardRootsOf(inventory[1..])
  }

  const CARD_STATE := "card snapshots or version history"

  ghost function RetainedOf(inventory: seq<Card>): seq<Path> {
    if inventory == [] then []
    else
      (if Known(inventory[0]) && !Usable(inventory[0])
       then [Snapshots(inventory[0].source.userdata), Versions(inventory[0].source.userdata)] else [])
      + RetainedOf(inventory[1..])
  }

  ghost function PrimaryRootsOf(c: Config): seq<Root> {
    var paths := PrimaryList(c);
    [Root(paths[0], c.userdata, "Syncthing configuration and device identity"),
     Root(paths[1], c.userdata, "Syncthing derived database"),
     Root(paths[2], c.userdata, "Syncthing configuration backups"),
     Root(paths[3], c.userdata, "trusted browser records"),
     Root(paths[4], c.userdata, "gateway certificate"),
     Root(paths[5], c.userdata, "gateway private key"),
     Root(paths[6], c.userdata, "managed-folder control state")]
  }

  /** What a reset of these cards declares, requires and retains, before it has an action id of its own. */
  ghost function PlanFor(c: Config, inventory: seq<Card>, action: Action): Document {
    Document(1, seq(32, _ => '0'), action, PrimaryRootsOf(c) + CardRootsOf(inventory), RequiredOf(inventory), RetainedOf(inventory))
  }

  ghost predicate Complete(action: Action, inventory: seq<Card>) {
    action.Full? ==> forall i :: 0 <= i < |inventory| && Known(inventory[i]) ==> Usable(inventory[i])
  }

  ghost predicate Declares(d: Document, p: Path) {
    Holds(d.roots, p)
  }

  /**
   * The plan of a full reset or of one that leaves absent cards alone; index is
   * the list of index directories for the third kind.
   */
  method BuildResetDocument(c: Config, inventory: seq<Card>, action: Action, index: seq<string>) returns (r: Option<Document>)
    ensures r.Some? ==> ValidDocument(c, r.value) && r.value.action == action
    ensures !action.IndexOnly? ==>
              r == if Complete(action, inventory) && ValidDocument(c, PlanFor(c, inventory, action))
                   then Some(PlanFor(c, inventory, action)) else None
    ensures r.Some? && !action.IndexOnly? ==>
              && (forall p :: p in PrimaryPaths(c) ==> Declares(r.value, p))
              && DeclaresCards(r.value, inventory, |inventory|)
    ensures WellSetUp(c, inventory) && !action.IndexOnly? ==>
              (r.Some? <==> Complete(action, inventory))
    ensures action.IndexOnly? && IndexSetUp(c, index) ==> r.Some?
    ensures r.Some? && action.Full? ==> forall i :: 0 <= i < |inventory| && Known(inventory[i]) ==> Usable(inventory[i])
    ensures r.Some? && action.IndexOnly? ==>
              r.value.required == [] && r.value.retained == [] && DeclaresIndex(r.value.roots, c, index, |index|)
  {
    hide ValidDocument, PrimaryPaths, PrimaryRootsOf, Declares, RequiredOf, RetainedOf, CardRootsOf, Known, Usable, WellSetUp, IndexSetUp, FromIndex;
    var d := Document(1, seq(32, _ => '0'), action, [], [], []);
    if action.IndexOnly? {
      var roots := IndexRoots(c, index);
      d := d.(roots := roots);
      if IndexSetUp(c, index) {
        IndexIsValid(c, index, d);
      }
    } else {
      var primary := PrimaryRoots(c);
      d := d.(roots := primary);
      NoCards();
      for i := 0 to |inventory|
        invariant d.action == action && primary <= d.roots
        invariant d.schema == 1 && d.actionId == seq(32, _ => '0') && d.roots == primary + CardRootsOf(inventory[..i])
        invariant d.required == RequiredOf(inventory[..i]) && d.retained == RetainedOf(inventory[..i])
        invariant DeclaresCards(d, inventory, i)
        invariant action.Full? ==> forall k :: 0 <= k < i && Known(inventory[k]) ==> Usable(inventory[k])
      {
        OneCardMore(inventory, i);
        CardAdded(d, inventory, i);
        var card := inventory[i];
        CardIs(d, card);
        if card.id == "" {
          continue;
        }
        var state := [Snapshots(card.source.userdata), Versions(card.source.userdata)];
        if !card.present || !card.enrolled || card.duplicate {
          if action.Full? {
            return None;
          }
          d := d.(retained := d.retained + state);
          continue;
        }
        d := d.(required := d.required + [ResetCard(card.id, card.source.id, card.source.root, card.source.userdata)],
                roots := d.roots + [Root(state[0], card.source.root, CARD_STATE), Root(state[1], card.source.root, CARD_STATE)]);
      }
      assert inventory[..|inventory|] == inventory;
      StillDeclared(Document(1, "", action, primary, [], []), d);
      assert d == PlanFor(c, inventory, action);
      if WellSetUp(c, inventory) {
        WellSetUpIsValid(c, inventory, action);
      }
    }
    var ok := ValidateResetDocument(c, d);
    r := if ok then Some(d) else None;
  }

  method IndexRoots(c: Config, index: seq<string>) returns (roots: seq<Root>)
    ensures DeclaresIndex(roots, c, index, |index|) && |roots| <= |index|
    ensures forall i :: 0 <= i < |roots| ==> FromIndex(c, index, |index|, roots[i])
    ensures (forall k, l :: 0 <= k < l < |index| ==> index[k] != index[l]) ==>
              forall i, j :: 0 <= i < j < |roots| ==> roots[i].path != roots[j].path
  {
    hide IndexName, Holds;
    roots := [];
    for n := 0 to |index|
      invariant DeclaresIndex(roots, c, index, n) && |roots| <= n
      invariant forall i :: 0 <= i < |roots| ==> FromIndex(c, index, n, roots[i])
      invariant (forall k, l :: 0 <= k < l < |index| ==> index[k] != index[l]) ==>
                  forall i, j :: 0 <= i < j < |roots| ==> roots[i].path != roots[j].path
    {
      var named := IsIndexName(index[n]);
      if named {
        var root := Root(c.dataDir + [index[n]], c.userdata, "Syncthing derived index");
        HoldsMore(roots, [root]);
        assert IndexRootFrom(c, index, n, root);
        forall i | 0 <= i < |roots| && roots[i].path == root.path
          ensures exists k :: 0 <= k < n && index[k] == index[n]
        {
          var k :| k < n && IndexRootFrom(c, index, k, roots[i]);
          assert roots[i].path[|c.dataDir|] == index[k] && root.path[|c.dataDir|] == index[n];
        }
        assert Holds(roots + [root], [root][0].path);
        roots := roots + [root];
      }
    }
  }

  ghost predicate IndexRootFrom(c: Config, index: seq<string>, k: int, r: Root) {
    && 0 <= k < |index| && IndexName(index[k])
    && r.path == c.dataDir + [index[k]] && r.filesystem == c.userdata && r.description != ""
  }

  ghost predicate FromIndex(c: Config, index: seq<string>, n: nat, r: Root) {
    exists k :: k < n && IndexRootFrom(c, index, k, r)
  }

  ghost predicate Holds(roots: seq<Root>, p: Path) {
    exists i :: 0 <= i < |roots| && roots[i].path == p
  }

  ghost predicate DeclaresIndex(roots: seq<Root>, c: Config, index: seq<string>, n: nat)
    requires n <= |index|
  {
    forall k :: 0 <= k < n && IndexName(index[k]) ==> Holds(roots, c.dataDir + [index[k]])
  }

  lemma HoldsMore(a: seq<Root>, b: seq<Root>)
    ensures forall p :: Holds(a, p) || Holds(b, p) ==> Holds(a + b, p)
    ensures forall i :: 0 <= i < |b| ==> Holds(a + b, b[i].path)
  {
    forall i | 0 <= i < |b|
      ensures Holds(a + b, b[i].path)
    {
      assert (a + b)[|a| + i] == b[i];
    }
    forall p | Holds(a, p)
      ensures Holds(a + b, p)
    {
      var i :| 0 <= i < |a| && a[i].path == p;
      assert (a + b)[i].path == p;
    }
  }

  /** The document with one more card: required with its roots, or retained. */
  ghost function WithCard(d: Document, card: Card): Document {
    if !Known(card) then d
    else if !Usable(card) then d.(retained := d.retained + [Snapshots(card.source.userdata), Versions(card.source.userdata)])
    else d.(required := d.required + [ResetCard(card.id, card.source.id, card.source.root, card.source.userdata)],
            roots := d.roots + [Root(Snapshots(card.source.userdata), card.source.root, CARD_STATE),
                                Root(Versions(card.source.userdata), card.source.root, CARD_STATE)])
  }

  lemma CardIs(d: Document, card: Card)
    ensures Known(card) <==> card.id != ""
    ensures Usable(card) <==> card.enrolled && card.present && !card.duplicate
    ensures WithCard(d, card) ==
              if !Known(card) then d
              else if !Usable(card) then d.(retained := d.retained + [Snapshots(card.source.userdata), Versions(card.source.userdata)])
              else d.(required := d.required + [ResetCard(card.id, card.source.id, card.source.root, card.source.userdata)],
                      roots := d.roots + [Root(Snapshots(card.source.userdata), card.source.root, CARD_STATE),
                                          Root(Versions(card.source.userdata), card.source.root, CARD_STATE)])
  {
  }

  ghost predicate DeclaresCards(d: Document, inventory: seq<Card>, n: nat)
    requires n <= |inventory|
  {
    forall k :: 0 <= k < n && Known(inventory[k]) && Usable(inventory[k]) ==>
      Declares(d, Snapshots(inventory[k].source.userdata)) && Declares(d, Versions(inventory[k].source.userdata))
  }

  lemma CardAdded(d: Document, inventory: seq<Card>, i: nat)
    requires i < |inventory| && DeclaresCards(d, inventory, i)
    ensures var after := WithCard(d, inventory[i]);
            && DeclaresCards(after, inventory, i + 1) && d.roots <= after.roots && after.action == d.action
            && after.roots == d.roots + CardRootsOf([inventory[i]])
            && after.schema == d.schema && after.actionId == d.actionId
            && after.required == d.required + RequiredOf([inventory[i]])
            && after.retained == d.retained + RetainedOf([inventory[i]])
  {
    hide Snapshots, Versions, Declares;
    var card, after := inventory[i], WithCard(d, inventory[i]);
    StillDeclared(d, after);
    if Known(card) && Usable(card) {
      var n := |d.roots|;
      IsDeclared(after, n);
      IsDeclared(after, n + 1);
    }
  }

  lemma IsDeclared(d: Document, i: nat)
    requires i < |d.roots|
    ensures Declares(d, d.roots[i].path)
  {
  }

  lemma NoCards()
    ensures RequiredOf([]) == [] && RetainedOf([]) == [] && CardRootsOf([]) == []
  {
  }

  lemma StillDeclared(a: Document, b: Document)
    requires a.roots <= b.roots
    ensures forall p :: Declares(a, p) ==> Declares(b, p)
  {
    assert b.roots == a.roots + b.roots[|a.roots|..];
    HoldsMore(a.roots, b.roots[|a.roots|..]);
  }

  lemma OneCardMore(inventory: seq<Card>, i: nat)
    requires i < |inventory|
    ensures RequiredOf(inventory[..i + 1]) == RequiredOf(inventory[..i]) + RequiredOf([inventory[i]])
    ensures RetainedOf(inventory[..i + 1]) == RetainedOf(inventory[..i]) + RetainedOf([inventory[i]])
    ensures CardRootsOf(inventory[..i + 1]) == CardRootsOf(inventory[..i]) + CardRootsOf([inventory[i]])
  {
    assert inventory[..i + 1] == inventory[..i] + [inventory[i]];
    RequiredAppend(inventory[..i], inventory[i]);
    RetainedAppend(inventory[..i], inventory[i]);
    CardRootsAppend(inventory[..i], inventory[i]);
  }

  lemma {:induction false} RequiredAppend(inventory: seq<Card>, card: Card)
    ensures RequiredOf(inventory + [card]) == RequiredOf(inventory) + RequiredOf([card])
  {
    hide Snapshots, Versions, Known, Usable;
    if inventory == [] {
      assert inventory + [card] == [card];
    } else {
      var all := inventory + [card];
      assert all[0] == inventory[0] && all[1..] == inventory[1..] + [card];
      RequiredAppend(inventory[1..], card);
    }
  }

  lemma {:induction false} RetainedAppend(inventory: seq<Card>, card: Card)
    ensures RetainedOf(inventory + [card]) == RetainedOf(inventory) + RetainedOf([card])
  {
    hide Snapshots, Versions, Known, Usable;
    if inventory == [] {
      assert inventory + [card] == [card];
    } else {
      var all := inventory + [card];
      assert all[0] == inventory[0] && all[1..] == inventory[1..] + [card];
      RetainedAppend(inventory[1..], card);
    }
  }

  lemma {:induction false} CardRootsAppend(inventory: seq<Card>, card: Card)
    ensures CardRootsOf(inventory + [card]) == CardRootsOf(inventory) + CardRootsOf([card])
  {
    hide Snapshots, Versions, Known, Usable;
    if inventory == [] {
      assert inventory + [card] == [card];
    } else {
      var all := inventory + [card];
      assert all[0] == inventory[0] && all[1..] == inventory[1..] + [card];
      CardRootsAppend(inventory[1..], card);
    }
  }

  method PrimaryRoots(c: Config) returns (roots: seq<Root>)
    ensures forall action, p :: p in PrimaryPaths(c) ==> Declares(Document(1, "", action, roots, [], []), p)
    ensures roots == PrimaryRootsOf(c)
  {
    var state := StateOf(c.userdata);
    roots := [
      Root(c.configDir, c.userdata, "Syncthing configuration and device identity"),
      Root(c.dataDir, c.userdata, "Syncthing derived database"),
      Root(state + ["backups"], c.userdata, "Syncthing configuration backups"),
      Root(state + ["leaf", "trusted-clients.json"], c.userdata, "trusted browser records"),
      Root(state + ["leaf", "gateway-cert.pem"], c.userdata, "gateway certificate"),
      Root(state + ["leaf", "gateway-key.pem"], c.userdata, "gateway private key"),
      Root(state + ["leaf", "folder-control.json"], c.userdata, "managed-folder control state")];
    forall action, p | p in PrimaryPaths(c)
      ensures Declares(Document(1, "", action, roots, [], []), p)
    {
      var d := Document(1, "", action, roots, [], []);
      assert p == d.roots[0].path || p == d.roots[1].path || p == d.roots[2].path || p == d.roots[3].path
          || p == d.roots[4].path || p == d.roots[5].path || p == d.roots[6].path;
    }
  }

  // ------------------------------------------------------- when there is a plan

  /** The configuration and the cards a console has: nothing overlaps, and every known card is in a configured slot. */
  ghost predicate WellSetUp(c: Config, inventory: seq<Card>) {
    && (forall i, j :: 0 <= i < j < |c.sources| ==>
          c.sources[i].id != c.sources[j].id && c.sources[i].root != c.sources[j].root)
    && (forall i :: 0 <= i < |c.sources| ==> c.sources[i].root != c.userdata && ApartFromPrimary(c, c.sources[i]))
    && (forall i :: 0 <= i < 7 ==> StrictlyBelow(c.userdata, PrimaryList(c)[i]) && !IsLive(c, PrimaryList(c)[i]))
    && (forall i, j :: 0 <= i < j < 7 ==> PrimaryList(c)[i] != PrimaryList(c)[j])
    && (forall k :: 0 <= k < |inventory| && Known(inventory[k]) ==> HexAnyCase(inventory[k].id) && inventory[k].source in c.sources)
    && (forall k, l :: 0 <= k < l < |inventory| && Known(inventory[k]) && Known(inventory[l]) ==>
          inventory[k].id != inventory[l].id && inventory[k].source.userdata != inventory[l].source.userdata)
    && |RequiredOf(inventory)| <= 16 && |RetainedOf(inventory)| <= 32
  }

  /** The data directory lies in the userdata of the console, and its index directories are no live content. */
  ghost predicate IndexSetUp(c: Config, index: seq<string>) {
    && StrictlyBelow(c.userdata, c.dataDir) && (forall i :: 0 <= i < |c.sources| ==> c.sources[i].root != c.userdata)
    && |index| <= 64 && (forall k, l :: 0 <= k < l < |index| ==> index[k] != index[l])
    && forall k :: 0 <= k < |index| ==> !IsLive(c, c.dataDir + [index[k]])
  }

  lemma IndexIsValid(c: Config, index: seq<string>, d: Document)
    requires IndexSetUp(c, index) && d == Document(1, seq(32, _ => '0'), IndexOnly, d.roots, [], [])
    requires |d.roots| <= |index|
    requires forall i :: 0 <= i < |d.roots| ==> FromIndex(c, index, |index|, d.roots[i])
    requires (forall k, l :: 0 <= k < l < |index| ==> index[k] != index[l]) ==> forall i, j :: 0 <= i < j < |d.roots| ==> d.roots[i].path != d.roots[j].path
    ensures ValidDocument(c, d)
  {
    hide IndexName;
    PrimaryBase(c, |c.sources|);
    forall i | 0 <= i < |d.roots|
      ensures ValidRoot(c, d, d.roots[i])
    {
      assert FromIndex(c, index, |index|, d.roots[i]);
      var k :| k < |index| && IndexRootFrom(c, index, k, d.roots[i]);
      var p := d.roots[i].path;
      assert p[|p| - 1] == index[k] && p[..|p| - 1] == c.dataDir && p[..|c.userdata|] == c.dataDir[..|c.userdata|];
    }
  }

  /** What a reset keeps or removes on a card is neither live content nor state of the console itself. */
  ghost predicate ApartFromPrimary(c: Config, s: Source) {
    && !IsLive(c, Snapshots(s.userdata)) && !IsLive(c, Versions(s.userdata))
    && Snapshots(s.userdata) !in PrimaryPaths(c) && Versions(s.userdata) !in PrimaryPaths(c)
  }

  lemma StatePaths(a: Path, b: Path)
    ensures Snapshots(a) == Snapshots(b) ==> a == b
    ensures Versions(a) == Versions(b) ==> a == b
    ensures Snapshots(a) != Versions(b)
    ensures StrictlyBelow(a, Snapshots(a)) && StrictlyBelow(a, Versions(a)) && Snapshots(a) != [] && Versions(a) != []
  {
    if |a| == |b| {
      assert Snapshots(a)[..|a|] == a && Snapshots(b)[..|b|] == b;
      assert Versions(a)[..|a|] == a && Versions(b)[..|b|] == b;
    }
    assert Snapshots(a)[|a| + 1] == "snapshots" && Versions(b)[|b| + 1] == "versions";
    assert Snapshots(a)[..|a|] == a && Versions(a)[..|a|] == a;
  }

  lemma {:induction false} SourceIs(c: Config, s: Source, i: nat, n: nat)
    requires i < n <= |c.sources| && c.sources[i] == s
    requires forall k, l :: 0 <= k < l < |c.sources| ==> c.sources[k].id != c.sources[l].id && c.sources[k].root != c.sources[l].root
    ensures SourceOf(c, s.id, n) == Some(s) && BaseOf(c, s.root, n) == Some(s.userdata)
  {
    if i < n - 1 {
      SourceIs(c, s, i, n - 1);
    }
  }

  lemma {:induction false} PrimaryBase(c: Config, n: nat)
    requires n <= |c.sources| && forall i :: 0 <= i < |c.sources| ==> c.sources[i].root != c.userdata
    ensures BaseOf(c, c.userdata, n) == Some(c.userdata)
  {
    if n > 0 {
      PrimaryBase(c, n - 1);
    }
  }

  ghost predicate DistinctCards(inventory: seq<Card>) {
    forall k, l :: 0 <= k < l < |inventory| && Known(inventory[k]) && Known(inventory[l]) ==>
      inventory[k].id != inventory[l].id && inventory[k].source.userdata != inventory[l].source.userdata
  }

  /** What the cards contribute comes from one card each, and nothing comes twice. */
  lemma {:induction false} RequiredCards(inventory: seq<Card>)
    requires DistinctCards(inventory)
    ensures forall r :: r in RequiredOf(inventory) ==> exists k :: RequiredFrom(inventory, k, r)
    ensures forall i, j :: 0 <= i < j < |RequiredOf(inventory)| ==> RequiredOf(inventory)[i].id != RequiredOf(inventory)[j].id
  {
    hide Known, Usable;
    if inventory != [] {
      var tail := inventory[1..];
      RequiredCards(tail);
      forall r | r in RequiredOf(tail)
        ensures exists k :: RequiredFrom(inventory, k, r)
        ensures Known(inventory[0]) ==> r.id != inventory[0].id
      {
        var k :| RequiredFrom(tail, k, r);
        assert RequiredFrom(inventory, k + 1, r);
      }
      if Known(inventory[0]) && Usable(inventory[0]) {
        assert RequiredFrom(inventory, 0, RequiredOf(inventory)[0]);
      }
    }
  }

  lemma {:induction false} RootCards(inventory: seq<Card>)
    requires DistinctCards(inventory)
    ensures forall r :: r in CardRootsOf(inventory) ==> exists k :: RootFrom(inventory, k, r)
    ensures forall i, j :: 0 <= i < j < |CardRootsOf(inventory)| ==> CardRootsOf(inventory)[i].path != CardRootsOf(inventory)[j].path
    ensures |CardRootsOf(inventory)| == 2 * |RequiredOf(inventory)|
    ensures forall r :: r in CardRootsOf(inventory) ==> IsCardPath(RequiredOf(inventory), r.path)
  {
    hide Known, Usable, Snapshots, Versions;
    if inventory != [] {
      var tail, head := inventory[1..], inventory[0].source.userdata;
      RootCards(tail);
      CardPathMore(RequiredOf(inventory)[..|RequiredOf(inventory)| - |RequiredOf(tail)|], RequiredOf(tail));
      forall r | r in CardRootsOf(tail)
        ensures exists k :: RootFrom(inventory, k, r)
        ensures Known(inventory[0]) ==> r.path != Snapshots(head) && r.path != Versions(head)
      {
        var k :| RootFrom(tail, k, r);
        assert RootFrom(inventory, k + 1, r);
        StatePaths(head, tail[k].source.userdata);
        StatePaths(tail[k].source.userdata, head);
      }
      StatePaths(head, head);
      if Known(inventory[0]) && Usable(inventory[0]) {
        var roots := CardRootsOf(inventory);
        assert RootFrom(inventory, 0, roots[0]) && RootFrom(inventory, 0, roots[1]);
        assert RequiredOf(inventory)[0].userdata == head;
        TwoRootsMore(roots[0], roots[1], CardRootsOf(tail));
      }
    }
  }

  lemma TwoRootsMore(a: Root, b: Root, rest: seq<Root>)
    requires a.path != b.path && forall r :: r in rest ==> r.path != a.path && r.path != b.path
    requires forall i, j :: 0 <= i < j < |rest| ==> rest[i].path != rest[j].path
    ensures forall i, j :: 0 <= i < j < |[a, b] + rest| ==> ([a, b] + rest)[i].path != ([a, b] + rest)[j].path
  {
    var all := [a, b] + rest;
    forall i, j | 0 <= i < j < |all|
      ensures all[i].path != all[j].path
    {
      assert j >= 2 ==> all[j] == rest[j - 2] && rest[j - 2] in rest;
      assert i >= 2 ==> all[i] == rest[i - 2];
    }
  }

  lemma TwoPathsMore(a: Path, b: Path, rest: seq<Path>)
    requires a != b && a !in rest && b !in rest
    requires forall i, j :: 0 <= i < j < |rest| ==> rest[i] != rest[j]
    ensures forall i, j :: 0 <= i < j < |[a, b] + rest| ==> ([a, b] + rest)[i] != ([a, b] + rest)[j]
  {
    var all := [a, b] + rest;
    forall i, j | 0 <= i < j < |all|
      ensures all[i] != all[j]
    {
      assert j >= 2 ==> all[j] == rest[j - 2] && rest[j - 2] in rest;
      assert i >= 2 ==> all[i] == rest[i - 2];
    }
  }

  lemma CardPathMore(a: seq<ResetCard>, b: seq<ResetCard>)
    ensures forall p :: IsCardPath(b, p) ==> IsCardPath(a + b, p)
  {
    forall p | IsCardPath(b, p)
      ensures IsCardPath(a + b, p)
    {
      var i :| 0 <= i < |b| && (p == Snapshots(b[i].userdata) || p == Versions(b[i].userdata));
      assert (a + b)[|a| + i] == b[i];
    }
  }

  lemma {:induction false} RetainedCards(inventory: seq<Card>)
    requires DistinctCards(inventory)
    ensures forall p :: p in RetainedOf(inventory) ==> exists k :: RetainedFrom(inventory, k, p)
    ensures forall i, j :: 0 <= i < j < |RetainedOf(inventory)| ==> RetainedOf(inventory)[i] != RetainedOf(inventory)[j]
  {
    hide Known, Usable, Snapshots, Versions;
    if inventory != [] {
      var tail, head := inventory[1..], inventory[0].source.userdata;
      RetainedCards(tail);
      forall p | p in RetainedOf(tail)
        ensures exists k :: RetainedFrom(inventory, k, p)
        ensures Known(inventory[0]) ==> p != Snapshots(head) && p != Versions(head)
      {
        var k :| RetainedFrom(tail, k, p);
        assert RetainedFrom(inventory, k + 1, p);
        StatePaths(head, tail[k].source.userdata);
        StatePaths(tail[k].source.userdata, head);
      }
      StatePaths(head, head);
      if Known(inventory[0]) && !Usable(inventory[0]) {
        assert RetainedFrom(inventory, 0, Snapshots(head)) && RetainedFrom(inventory, 0, Versions(head));
        TwoPathsMore(Snapshots(head), Versions(head), RetainedOf(tail));
      }
    }
  }

  ghost predicate RequiredFrom(inventory: seq<Card>, k: int, r: ResetCard) {
    && 0 <= k < |inventory| && Known(inventory[k]) && Usable(inventory[k])
    && r == ResetCard(inventory[k].id, inventory[k].source.id, inventory[k].source.root, inventory[k].source.userdata)
  }

  ghost predicate RootFrom(inventory: seq<Card>, k: int, r: Root) {
    && 0 <= k < |inventory| && Known(inventory[k]) && Usable(inventory[k])
    && r.filesystem == inventory[k].source.root && r.description == CARD_STATE
    && (r.path == Snapshots(inventory[k].source.userdata) || r.path == Versions(inventory[k].source.userdata))
  }

  ghost predicate RetainedFrom(inventory: seq<Card>, k: int, p: Path) {
    && 0 <= k < |inventory| && Known(inventory[k]) && !Usable(inventory[k])
    && (p == Snapshots(inventory[k].source.userdata) || p == Versions(inventory[k].source.userdata))
  }

  lemma SourceOfCard(c: Config, inventory: seq<Card>, k: nat)
    requires WellSetUp(c, inventory) && k < |inventory| && Known(inventory[k])
    ensures var s := inventory[k].source;
            && HexAnyCase(inventory[k].id) && s in c.sources && ApartFromPrimary(c, s)
            && SourceOf(c, s.id, |c.sources|) == Some(s) && BaseOf(c, s.root, |c.sources|) == Some(s.userdata)
            && IsSourcePath(c, Snapshots(s.userdata)) && IsSourcePath(c, Versions(s.userdata))
  {
    hide ApartFromPrimary, HexAnyCase, Known, Usable;
    var s := inventory[k].source;
    var i :| 0 <= i < |c.sources| && c.sources[i] == s;
    SourceIs(c, s, i, |c.sources|);
  }

  lemma CardRootIsValid(c: Config, inventory: seq<Card>, d: Document, r: Root, k: nat)
    requires WellSetUp(c, inventory) && RootFrom(inventory, k, r)
    requires !d.action.IndexOnly? && IsCardPath(d.required, r.path)
    ensures ValidRoot(c, d, r) && r.path !in PrimaryPaths(c)
  {
    hide Known, Usable, Snapshots, Versions, WellSetUp, PrimaryPaths;
    SourceOfCard(c, inventory, k);
    StatePaths(inventory[k].source.userdata, inventory[k].source.userdata);
  }

  lemma PrimaryRootIsValid(c: Config, inventory: seq<Card>, d: Document, r: Root, i: nat)
    requires WellSetUp(c, inventory) && i < 7 && r.path == PrimaryList(c)[i] && r.filesystem == c.userdata && r.description != ""
    requires !d.action.IndexOnly?
    ensures ValidRoot(c, d, r) && r.path in PrimaryPaths(c)
  {
    PrimaryBase(c, |c.sources|);
    assert r.path in PrimaryPaths(c) by {
      assert i == 0 || i == 1 || i == 2 || i == 3 || i == 4 || i == 5 || i == 6;
    }
  }

  lemma RetainedIsAllowed(c: Config, inventory: seq<Card>, d: Document, p: Path, k: nat)
    requires WellSetUp(c, inventory) && RetainedFrom(inventory, k, p)
    requires !d.action.IndexOnly? && d.required == RequiredOf(inventory)
    ensures AllowedRetained(c, d, p)
  {
    hide Known, Usable, Snapshots, Versions, RequiredOf, HexAnyCase, ApartFromPrimary;
    SourceOfCard(c, inventory, k);
    assert DistinctCards(inventory);
    RequiredCards(inventory);
    if IsCardPath(d.required, p) {
      var i :| 0 <= i < |d.required| && (p == Snapshots(d.required[i].userdata) || p == Versions(d.required[i].userdata));
      assert d.required[i] in RequiredOf(inventory);
      var l :| RequiredFrom(inventory, l, d.required[i]);
      StatePaths(inventory[k].source.userdata, inventory[l].source.userdata);
      StatePaths(inventory[l].source.userdata, inventory[k].source.userdata);
      assert false;
    }
  }

  /** The plan for a console that is well set up passes validation. */
  lemma WellSetUpIsValid(c: Config, inventory: seq<Card>, action: Action)
    requires WellSetUp(c, inventory) && !action.IndexOnly? && Complete(action, inventory)
    ensures ValidDocument(c, PlanFor(c, inventory, action))
  {
    hide *;
    var d := PlanFor(c, inventory, action);
    PlanParts(c, inventory, action);
    SetUpCards(c, inventory);
    RequiredAreValid(c, inventory, d);
    RetainedAreValid(c, inventory, d);
    RootCards(inventory);
    PlannedRoots(c, inventory, d, PrimaryRootsOf(c));
    AllValid(c, d);
  }

  lemma PlanParts(c: Config, inventory: seq<Card>, action: Action)
    ensures var d := PlanFor(c, inventory, action);
            && d.schema == 1 && d.actionId == seq(32, _ => '0') && d.action == action
            && d.roots == PrimaryRootsOf(c) + CardRootsOf(inventory)
            && d.required == RequiredOf(inventory) && d.retained == RetainedOf(inventory)
    ensures |PrimaryRootsOf(c)| == 7 && forall i :: 0 <= i < 7 ==>
              PrimaryRootsOf(c)[i].path == PrimaryList(c)[i] && PrimaryRootsOf(c)[i].filesystem == c.userdata
              && PrimaryRootsOf(c)[i].description != ""
    ensures Complete(action, inventory) && action.Full? ==>
              forall i :: 0 <= i < |inventory| && Known(inventory[i]) ==> Usable(inventory[i])
  {
    hide RequiredOf, RetainedOf, CardRootsOf, PrimaryList;
  }

  lemma SetUpCards(c: Config, inventory: seq<Card>)
    requires WellSetUp(c, inventory)
    ensures DistinctCards(inventory) && |RequiredOf(inventory)| <= 16 && |RetainedOf(inventory)| <= 32
  {
  }

  lemma AllValid(c: Config, d: Document)
    requires d.schema == 1 && d.actionId == seq(32, _ => '0') && !d.action.IndexOnly? && (d.action.Full? ==> d.retained == [])
    requires |d.roots| <= 64 && |d.required| <= 16 && |d.retained| <= 32
    requires forall i :: 0 <= i < |d.required| ==> CardMatches(c, d.required[i])
    requires forall i, j :: 0 <= i < j < |d.required| ==> d.required[i].id != d.required[j].id
    requires forall i :: 0 <= i < |d.roots| ==> ValidRoot(c, d, d.roots[i])
    requires forall i, j :: 0 <= i < j < |d.roots| ==> d.roots[i].path != d.roots[j].path
    requires forall i :: 0 <= i < |d.retained| ==> AllowedRetained(c, d, d.retained[i])
    requires forall i, j :: 0 <= i < j < |d.retained| ==> d.retained[i] != d.retained[j]
    ensures ValidDocument(c, d)
  {
    hide CardMatches, ValidRoot, AllowedRetained;
  }

  lemma RequiredAreValid(c: Config, inventory: seq<Card>, d: Document)
    requires WellSetUp(c, inventory) && d.required == RequiredOf(inventory)
    ensures forall i :: 0 <= i < |d.required| ==> CardMatches(c, d.required[i])
    ensures forall i, j :: 0 <= i < j < |d.required| ==> d.required[i].id != d.required[j].id
  {
    hide Known, Usable, RequiredOf, HexAnyCase, WellSetUp;
    SetUpCards(c, inventory);
    RequiredCards(inventory);
    forall i | 0 <= i < |d.required|
      ensures CardMatches(c, d.required[i])
    {
      assert d.required[i] in RequiredOf(inventory);
      var k :| RequiredFrom(inventory, k, d.required[i]);
      SourceOfCard(c, inventory, k);
    }
  }

  lemma RetainedAreValid(c: Config, inventory: seq<Card>, d: Document)
    requires WellSetUp(c, inventory) && !d.action.IndexOnly?
    requires d.required == RequiredOf(inventory) && d.retained == RetainedOf(inventory)
    requires d.action.Full? ==> forall i :: 0 <= i < |inventory| && Known(inventory[i]) ==> Usable(inventory[i])
    ensures forall i :: 0 <= i < |d.retained| ==> AllowedRetained(c, d, d.retained[i])
    ensures forall i, j :: 0 <= i < j < |d.retained| ==> d.retained[i] != d.retained[j]
    ensures d.action.Full? ==> d.retained == []
  {
    hide Known, Usable, RequiredOf, RetainedOf, WellSetUp, AllowedRetained, Snapshots, Versions;
    SetUpCards(c, inventory);
    RetainedCards(inventory);
    forall i | 0 <= i < |d.retained|
      ensures AllowedRetained(c, d, d.retained[i]) && !d.action.Full?
    {
      assert d.retained[i] in RetainedOf(inventory);
      var k :| RetainedFrom(inventory, k, d.retained[i]);
      RetainedIsAllowed(c, inventory, d, d.retained[i], k);
    }
    if d.retained != [] {
      assert AllowedRetained(c, d, d.retained[0]);
    }
  }

  lemma PlannedRoots(c: Config, inventory: seq<Card>, d: Document, primary: seq<Root>)
    requires WellSetUp(c, inventory) && !d.action.IndexOnly?
    requires d.roots == primary + CardRootsOf(inventory) && d.required == RequiredOf(inventory)
    requires |primary| == 7 && forall i :: 0 <= i < 7 ==>
               primary[i].path == PrimaryList(c)[i] && primary[i].filesystem == c.userdata && primary[i].description != ""
    ensures forall i :: 0 <= i < |d.roots| ==> ValidRoot(c, d, d.roots[i])
    ensures forall i, j :: 0 <= i < j < |d.roots| ==> d.roots[i].path != d.roots[j].path
  {
    hide Known, Usable, RequiredOf, CardRootsOf, WellSetUp, ValidRoot, Snapshots, Versions, PrimaryPaths, IsCardPath;
    SetUpCards(c, inventory);
    RootCards(inventory);
    PrimaryApart(c, inventory);
    var cards := CardRootsOf(inventory);
    forall i | 0 <= i < |d.roots|
      ensures ValidRoot(c, d, d.roots[i]) && (d.roots[i].path in PrimaryPaths(c) <==> i < 7)
    {
      if i < 7 {
        PrimaryRootIsValid(c, inventory, d, d.roots[i], i);
      } else {
        assert d.roots[i] == cards[i - 7] && cards[i - 7] in cards;
        var k :| RootFrom(inventory, k, d.roots[i]);
        CardRootIsValid(c, inventory, d, d.roots[i], k);
      }
    }
    forall i, j | 0 <= i < j < |d.roots|
      ensures d.roots[i].path != d.roots[j].path
    {
      if i >= 7 {
        assert cards[i - 7].path != cards[j - 7].path;
      } else if j < 7 {
        assert PrimaryList(c)[i] != PrimaryList(c)[j];
      }
    }
  }

  lemma PrimaryApart(c: Config, inventory: seq<Card>)
    requires WellSetUp(c, inventory)
    ensures forall i, j :: 0 <= i < j < 7 ==> PrimaryList(c)[i] != PrimaryList(c)[j]
  {
  }
}
