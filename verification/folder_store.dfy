/**
 * The control store: folder-control.json and the memory of the process that
 * owns it. A mutator changes memory, rewrites the whole document and reports
 * failure when any step of the rewrite fails; most then roll memory back.
 */
module FolderStore {
  import opened Durable
  import opened ControlTypes
  import opened Identifiers
  import F = Folders

  const MAX_FOLDERS: nat := 16
  const MAX_OFFERS: nat := 32
  const MAX_EPOCH: nat := 0xFFFF_FFFF_FFFF_FFFF

  datatype Offer = Offer(folder: string, device: string)

  /** The file as read: any schema number, and offers as a list. */
  datatype Document = Document(schema: nat, folders: map<string, Record>, offers: seq<Offer>, removal: string)

  /** The store as held in memory: offers by key. */
  datatype State = State(records: map<string, Record>, offers: map<string, Offer>, removal: string)

  /** The primary filesystem: the control document and the upstream configuration live on it together. */
  datatype Disk = Disk(control: Option<Document>, config: map<string, F.Folder>)

  datatype Outcome = Done | Kept | Refused | Failed

  // ------------------------------------------------------------------- names

  type Digest = string -> string

  function KindName(kind: Kind): (name: string)
    ensures name == "saves" <==> kind == Saves
    ensures name == "states" <==> kind == States
  {
    if kind.Saves? then "saves" else "states"
  }

  function Short(s: string, n: nat): string {
    if n <= |s| then s[..n] else s
  }

  function BoundFolderId(digest: Digest, card: string, kind: Kind): string {
    "leaf-" + KindName(kind) + "-" + Short(digest(card + KindName(kind)), 16)
  }

  function BoundMarker(digest: Digest, card: string, kind: Kind): string {
    ".leaf-" + KindName(kind) + "-" + Short(digest(card + KindName(kind)), 12)
  }

  /** The ids of the first schema were always derived from a card. */
  ghost predicate LegacyFolderId(s: string) {
    || (|s| == 27 && s[..11] == "leaf-saves-" && LowerHex(s[11..]))
    || (|s| == 28 && s[..12] == "leaf-states-" && LowerHex(s[12..]))
  }

  method IsLegacyFolderId(s: string) returns (ok: bool)
    ensures ok <==> LegacyFolderId(s)
  {
    ok := false;
    if |s| == 27 && s[..11] == "leaf-saves-" {
      ok := IsLowerHex(s[11..]);
    } else if |s| == 28 && s[..12] == "leaf-states-" {
      ok := IsLowerHex(s[12..]);
    }
  }

  // ---------------------------------------------------------------- validity

  function KeyOf(o: Offer): string {
    OfferKey(o.folder, o.device)
  }

  ghost predicate ValidPending(r: Record) {
    && !(r.pendingAdd && (r.pendingMembership.Some? || r.pendingStop))
    && !(r.pendingStop && r.pendingMembership.Some?)
    && (r.pendingMembership.Some? ==> NormalizeDeviceId(r.pendingMembership.value.device).Some?)
  }

  ghost predicate ValidRecord(digest: Digest, id: string, r: Record) {
    && ValidFolderId(id) && F.CompleteBinding(r)
    && ValidCardId(r.cardId) && r.markerName == BoundMarker(digest, r.cardId, r.kind)
    && ValidPending(r)
  }

  ghost predicate SameLocal(r: Record, r': Record) {
    r.cardId == r'.cardId && r.kind == r'.kind
  }

  ghost predicate ValidRecords(digest: Digest, records: map<string, Record>) {
    && (forall id :: id in records ==> ValidRecord(digest, id, records[id]))
    && (forall a, b :: a in records && b in records && SameLocal(records[a], records[b]) ==> a == b)
  }

  ghost predicate ValidOffer(key: string, o: Offer) {
    key == KeyOf(o) && ValidFolderId(o.folder) && CanonicalDeviceId(o.device)
  }

  /** The part of validity that reading establishes. */
  ghost predicate ValidRest(s: State) {
    && |s.offers| <= 32 && (forall k :: k in s.offers ==> ValidOffer(k, s.offers[k]))
    && (s.removal == "" || CanonicalDeviceId(s.removal))
  }

  ghost predicate ValidState(digest: Digest, s: State) {
    && |s.records| <= 16 && ValidRecords(digest, s.records)
    && ValidRest(s)
  }

  // ----------------------------------------------------- reading and writing

  ghost predicate OfferReadable(o: Offer) {
    NormalizeDeviceId(o.device).Some? && ValidFolderId(o.folder)
  }

  ghost function NormalOffer(o: Offer): Offer
    requires OfferReadable(o)
  {
    Offer(o.folder, NormalizeDeviceId(o.device).value)
  }

  ghost predicate FolderIdReadable(schema: nat, id: string) {
    if schema == 1 then LegacyFolderId(id) else ValidFolderId(id)
  }

  ghost predicate ReadableOffers(offers: seq<Offer>) {
    && (forall i :: 0 <= i < |offers| ==> OfferReadable(offers[i]))
    && (forall i, j :: 0 <= i < j < |offers| ==> KeyOf(NormalOffer(offers[i])) != KeyOf(NormalOffer(offers[j])))
  }

  /** The document can be decoded: what is checked while reading. */
  ghost predicate Readable(d: Document) {
    && 1 <= d.schema <= 2
    && |d.folders| <= 16 && (forall id :: id in d.folders ==> FolderIdReadable(d.schema, id))
    && |d.offers| <= 32 && ReadableOffers(d.offers)
    && (d.removal == "" || NormalizeDeviceId(d.removal).Some?)
  }

  /** The offers by key, after normalizing the devices of the first n. */
  ghost function OffersByKey(offers: seq<Offer>, n: nat): (m: map<string, Offer>)
    requires n <= |offers| && forall i :: 0 <= i < n ==> OfferReadable(offers[i])
  {
    if n == 0 then map[]
    else OffersByKey(offers, n - 1)[KeyOf(NormalOffer(offers[n - 1])) := NormalOffer(offers[n - 1])]
  }

  ghost function Meaning(d: Document): (s: State)
    requires Readable(d)
  {
    State(d.folders, OffersByKey(d.offers, |d.offers|), if d.removal == "" then "" else NormalizeDeviceId(d.removal).value)
  }

  /** d lists s: the current schema, the same folders, and every offer exactly once. */
  ghost predicate Encodes(d: Document, s: State) {
    && d.schema == 2 && d.folders == s.records && d.removal == s.removal
    && |d.offers| == |s.offers|
    && (forall i :: 0 <= i < |d.offers| ==> KeyOf(d.offers[i]) in s.offers && s.offers[KeyOf(d.offers[i])] == d.offers[i])
    && (forall i, j :: 0 <= i < j < |d.offers| ==> KeyOf(d.offers[i]) != KeyOf(d.offers[j]))
  }

  /** A start with nothing to migrate accepts the document. */
  ghost predicate Acceptable(digest: Digest, d: Document) {
    d.schema == 2 && Readable(d) && ValidRecords(digest, d.folders)
  }

  lemma CanonicalOffersReadThemselves(digest: Digest, d: Document, s: State)
    requires Encodes(d, s) && ValidState(digest, s)
    ensures forall i :: 0 <= i < |d.offers| ==> OfferReadable(d.offers[i]) && NormalOffer(d.offers[i]) == d.offers[i]
  {
    forall i | 0 <= i < |d.offers|
      ensures OfferReadable(d.offers[i]) && NormalOffer(d.offers[i]) == d.offers[i]
    {
      hide NormalizeDeviceId, CanonicalDeviceId;
      assert ValidOffer(KeyOf(d.offers[i]), d.offers[i]);
      NormalizingAgainChangesNothing(d.offers[i].device);
    }
  }

  /** Every offer of the state is somewhere in the list: the keys are distinct and as many. */
  lemma {:induction false} EveryOfferIsListed(d: Document, s: State, k: string)
    requires Encodes(d, s) && k in s.offers
    ensures exists i :: 0 <= i < |d.offers| && KeyOf(d.offers[i]) == k
  {
    hide KeyOf;
    DistinctKeysCount(d.offers, |d.offers|);
    var keys := KeysOf(d.offers, |d.offers|);
    assert keys <= s.offers.Keys;
    if k !in keys {
      assert keys <= s.offers.Keys - {k};
      SubsetSize(keys, s.offers.Keys - {k});
      assert false;
    }
  }

  ghost function KeysOf(offers: seq<Offer>, n: nat): (keys: set<string>)
    requires n <= |offers|
    ensures forall k :: k in keys <==> exists i :: 0 <= i < n && KeyOf(offers[i]) == k
  {
    if n == 0 then {} else KeysOf(offers, n - 1) + {KeyOf(offers[n - 1])}
  }

  lemma {:induction false} DistinctKeysCount(offers: seq<Offer>, n: nat)
    requires n <= |offers|
    requires forall i, j :: 0 <= i < j < |offers| ==> KeyOf(offers[i]) != KeyOf(offers[j])
    ensures |KeysOf(offers, n)| == n
  {
    hide KeyOf;
    if n > 0 {
      DistinctKeysCount(offers, n - 1);
    }
  }

  lemma {:induction false} SubsetSize<T>(a: set<T>, b: set<T>)
    requires a <= b
    ensures |a| <= |b|
  {
    if a != {} {
      var x :| x in a;
      SubsetSize(a - {x}, b - {x});
    }
  }

  /** Offers that are their own normal form come back under their own keys. */
  lemma {:induction false} ByKeyOf(d: Document, s: State, n: nat)
    requires Encodes(d, s) && n <= |d.offers|
    requires forall i :: 0 <= i < n ==> OfferReadable(d.offers[i]) && NormalOffer(d.offers[i]) == d.offers[i]
    ensures forall k :: k in OffersByKey(d.offers, n) ==> k in s.offers && s.offers[k] == OffersByKey(d.offers, n)[k]
    ensures forall i :: 0 <= i < n ==> KeyOf(d.offers[i]) in OffersByKey(d.offers, n)
  {
    hide NormalizeDeviceId, CanonicalDeviceId, ValidFolderId;
    if n > 0 {
      ByKeyOf(d, s, n - 1);
    }
  }

  lemma EncodedIsReadable(digest: Digest, d: Document, s: State)
    requires Encodes(d, s) && ValidState(digest, s)
    ensures Acceptable(digest, d)
  {
    hide NormalizeDeviceId, CanonicalDeviceId, ValidFolderId;
    CanonicalOffersReadThemselves(digest, d, s);
    if s.removal != "" {
      NormalizingAgainChangesNothing(s.removal);
    }
    forall id | id in d.folders
      ensures FolderIdReadable(2, id)
    {
      assert ValidRecord(digest, id, s.records[id]);
    }
  }

  /** Reading back what was written gives the same state, in whatever order the offers were listed. */
  lemma ReadBack(digest: Digest, d: Document, s: State)
    requires Encodes(d, s) && ValidState(digest, s)
    ensures Acceptable(digest, d)
    ensures Meaning(d) == s
  {
    hide NormalizeDeviceId, CanonicalDeviceId, ValidFolderId, Readable, ValidRecords;
    EncodedIsReadable(digest, d, s);
    CanonicalOffersReadThemselves(digest, d, s);
    ByKeyOf(d, s, |d.offers|);
    var m := OffersByKey(d.offers, |d.offers|);
    forall k | k in s.offers
      ensures k in m
    {
      EveryOfferIsListed(d, s, k);
    }
    assert m == s.offers;
    if s.removal != "" {
      NormalizingAgainChangesNothing(s.removal);
    }
  }

  /** One of the first n offers has this key once normalized. */
  ghost predicate Listed(offers: seq<Offer>, n: nat, key: string)
    requires n <= |offers| && forall i :: 0 <= i < n ==> OfferReadable(offers[i])
  {
    exists i :: 0 <= i < n && KeyOf(NormalOffer(offers[i])) == key
  }

  method ReadOffer(o: Offer) returns (r: Option<Offer>)
    ensures r == if OfferReadable(o) then Some(NormalOffer(o)) else None
  {
    hide NormalizeDeviceId, ValidFolderId;
    var device := NormalizeDeviceId(o.device);
    var named := IsFolderId(o.folder);
    if device.None? || !named {
      return None;
    }
    r := Some(Offer(o.folder, device.value));
  }

  method ReadOffers(offers: seq<Offer>) returns (r: Option<map<string, Offer>>)
    ensures r.Some? <==> ReadableOffers(offers)
    ensures r.Some? ==> r.value == OffersByKey(offers, |offers|)
  {
    hide NormalizeDeviceId, CanonicalDeviceId, ValidFolderId;
    var byKey: map<string, Offer> := map[];
    for n := 0 to |offers|
      invariant forall i :: 0 <= i < n ==> OfferReadable(offers[i])
      invariant byKey == OffersByKey(offers, n)
      invariant forall k :: k in byKey <==> Listed(offers, n, k)
      invariant forall i, j :: 0 <= i < j < n ==> KeyOf(NormalOffer(offers[i])) != KeyOf(NormalOffer(offers[j]))
    {
      var read := ReadOffer(offers[n]);
      if read.None? {
        return None;
      }
      var offer := read.value;
      if KeyOf(offer) in byKey {
        return None;
      }
      byKey := byKey[KeyOf(offer) := offer];
    }
    r := Some(byKey);
  }

  method ReadState(d: Document) returns (r: Option<State>)
    ensures r.Some? <==> Readable(d)
    ensures r.Some? ==> r.value == Meaning(d)
  {
    hide NormalizeDeviceId, CanonicalDeviceId, ValidFolderId, LegacyFolderId;
    if d.schema < 1 || d.schema > 2 || |d.folders| > MAX_FOLDERS || |d.offers| > MAX_OFFERS {
      return None;
    }
    var ids := d.folders.Keys;
    while ids != {}
      invariant ids <= d.folders.Keys
      invariant forall id :: id in d.folders && id !in ids ==> FolderIdReadable(d.schema, id)
      decreases |ids|
    {
      var id :| id in ids;
      ids := ids - {id};
      var named;
      if d.schema == 1 {
        named := IsLegacyFolderId(id);
      } else {
        named := IsFolderId(id);
      }
      if !named {
        return None;
      }
    }
    var offers := ReadOffers(d.offers);
    if offers.None? {
      return None;
    }
    var removal := "";
    if d.removal != "" {
      var normal := NormalizeDeviceId(d.removal);
      if normal.None? {
        return None;
      }
      removal := normal.value;
    }
    r := Some(State(d.folders, offers.value, removal));
  }

  method DocumentOf(s: State) returns (d: Document)
    requires forall k :: k in s.offers ==> k == KeyOf(s.offers[k])
    ensures Encodes(d, s)
  {
    var offers: seq<Offer> := [];
    var keys := s.offers.Keys;
    while keys != {}
      invariant keys <= s.offers.Keys && |offers| + |keys| == |s.offers|
      invariant forall i :: 0 <= i < |offers| ==>
                  && KeyOf(offers[i]) in s.offers && KeyOf(offers[i]) !in keys
                  && s.offers[KeyOf(offers[i])] == offers[i]
      invariant forall i, j :: 0 <= i < j < |offers| ==> KeyOf(offers[i]) != KeyOf(offers[j])
      decreases |keys|
    {
      var key :| key in keys;
      keys := keys - {key};
      offers := offers + [s.offers[key]];
    }
    d := Document(2, s.records, offers, s.removal);
  }

  method ValidateRecord(digest: Digest, id: string, r: Record) returns (ok: bool)
    ensures ok <==> ValidRecord(digest, id, r)
  {
    hide NormalizeDeviceId, BoundMarker, ValidFolderId, ValidCardId;
    ok := IsFolderId(id);
    if !ok || r.cardId == "" || r.markerName == "" {
      return false;
    }
    ok := IsCardId(r.cardId);
    if !ok || r.markerName != BoundMarker(digest, r.cardId, r.kind) {
      return false;
    }
    if r.pendingAdd && (r.pendingMembership.Some? || r.pendingStop) {
      return false;
    }
    if r.pendingMembership.Some? {
      if r.pendingStop {
        return false;
      }
      return NormalizeDeviceId(r.pendingMembership.value.device).Some?;
    }
    ok := true;
  }

  /** Checks every record, and the bindings against each other with one pass over a set of those seen. */
  method ValidateRecords(digest: Digest, records: map<string, Record>) returns (ok: bool)
    ensures ok <==> ValidRecords(digest, records)
  {
    hide ValidRecord;
    var seen: map<(string, Kind), string> := map[];
    var ids := records.Keys;
    while ids != {}
      invariant ids <= records.Keys
      invariant forall id :: id in records && id !in ids ==> ValidRecord(digest, id, records[id])
      invariant forall id :: id in records && id !in ids ==>
                  (records[id].cardId, records[id].kind) in seen && seen[(records[id].cardId, records[id].kind)] == id
      invariant forall b :: b in seen ==>
                  && seen[b] in records && seen[b] !in ids
                  && b == (records[seen[b]].cardId, records[seen[b]].kind)
      decreases |ids|
    {
      var id :| id in ids;
      var binding := (records[id].cardId, records[id].kind);
      var valid := ValidateRecord(digest, id, records[id]);
      if !valid {
        return false;
      }
      if binding in seen {
        assert SameLocal(records[id], records[seen[binding]]);
        return false;
      }
      seen := seen[binding := id];
      ids := ids - {id};
    }
    ok := true;
  }

  // ------------------------------------------------- the guard that is missing

  /** Beginning a membership change keeps the records valid exactly when no stop is pending. */
  lemma MembershipNeedsNoPendingStop(digest: Digest, records: map<string, Record>, id: string, intent: Intent)
    requires ValidRecords(digest, records) && id in records
    requires !records[id].pendingAdd && NormalizeDeviceId(intent.device).Some?
    ensures ValidRecords(digest, records[id := records[id].(pendingMembership := Some(intent))]) <==> !records[id].pendingStop
  {
    hide NormalizeDeviceId, CanonicalDeviceId;
    var after := records[id := records[id].(pendingMembership := Some(intent))];
    assert ValidRecord(digest, id, records[id]);
    if !records[id].pendingStop {
      forall a, b | a in after && b in after && SameLocal(after[a], after[b])
        ensures a == b
      {
        assert SameLocal(records[a], records[b]);
      }
    } else {
      assert !ValidPending(after[id]);
    }
  }

  /** Replacing a record by one with the same binding keeps the bindings unique. */
  lemma ReplaceKeepsValid(digest: Digest, records: map<string, Record>, id: string, r: Record)
    requires ValidRecords(digest, records) && id in records
    requires SameLocal(r, records[id]) && ValidRecord(digest, id, r)
    ensures ValidRecords(digest, records[id := r]) && |records[id := r]| == |records|
  {
    hide ValidRecord;
    var after := records[id := r];
    assert after.Keys == records.Keys;
    forall a, b | a in after && b in after && SameLocal(after[a], after[b])
      ensures a == b
    {
      assert SameLocal(records[a], records[b]);
    }
  }

  // ------------------------------------------------------- what a state admits

  lemma ReplaceIsValid(digest: Digest, s: State, id: string, r: Record)
    requires ValidState(digest, s) && id in s.records
    requires SameLocal(r, s.records[id]) && ValidRecord(digest, id, r)
    ensures ValidState(digest, s.(records := s.records[id := r]))
  {
    hide ValidRecord, ValidRecords, ValidOffer;
    ReplaceKeepsValid(digest, s.records, id, r);
  }

  lemma AddIsValid(digest: Digest, s: State, id: string, r: Record)
    requires ValidState(digest, s) && id !in s.records && |s.records| < MAX_FOLDERS
    requires ValidRecord(digest, id, r)
    requires forall a :: a in s.records ==> !SameLocal(s.records[a], r)
    ensures ValidState(digest, s.(records := s.records[id := r]))
  {
    hide ValidRecord, ValidOffer, SameLocal;
    assert s.records[id := r].Keys == s.records.Keys + {id};
    AddKeepsUnique(digest, s.records, id, r);
  }

  lemma AddKeepsUnique(digest: Digest, records: map<string, Record>, id: string, r: Record)
    requires ValidRecords(digest, records) && id !in records && ValidRecord(digest, id, r)
    requires forall a :: a in records ==> !SameLocal(records[a], r)
    ensures ValidRecords(digest, records[id := r])
  {
    hide ValidRecord, SameLocal;
    var after := records[id := r];
    forall a, b | a in after && b in after && SameLocal(after[a], after[b])
      ensures a == b
    {
      SameLocalIsSymmetric(after[a], after[b]);
      if a != id && b != id {
        assert SameLocal(records[a], records[b]);
      }
    }
  }

  lemma SameLocalIsSymmetric(r: Record, r': Record)
    ensures SameLocal(r, r') <==> SameLocal(r', r)
  {
  }

  lemma RemoveIsValid(digest: Digest, s: State, id: string)
    requires ValidState(digest, s) && id in s.records
    ensures ValidState(digest, s.(records := s.records - {id}))
  {
    hide ValidRecord, ValidOffer;
    var after := s.records - {id};
    assert after.Keys == s.records.Keys - {id};
    forall a, b | a in after && b in after && SameLocal(after[a], after[b])
      ensures a == b
    {
      assert SameLocal(s.records[a], s.records[b]);
    }
  }

  // ---------------------------------------------------- records without a binding

  ghost predicate Binds(digest: Digest, f: F.Folder, c: F.Card) {
    && ValidCardId(c.id)
    && BoundFolderId(digest, c.id, f.kind) == f.id && BoundMarker(digest, c.id, f.kind) == f.markerName
  }

  ghost predicate OnlyBinder(digest: Digest, f: F.Folder, inventory: seq<F.Card>, i: int) {
    && 0 <= i < |inventory| && Binds(digest, f, inventory[i])
    && forall j :: 0 <= j < |inventory| && Binds(digest, f, inventory[j]) ==> j == i
  }

  method Derives(digest: Digest, f: F.Folder, c: F.Card) returns (binds: bool)
    ensures binds <==> Binds(digest, f, c)
  {
    hide BoundMarker, BoundFolderId, ValidCardId;
    binds := IsCardId(c.id);
    if binds {
      binds := BoundFolderId(digest, c.id, f.kind) == f.id && BoundMarker(digest, c.id, f.kind) == f.markerName;
    }
  }

  /** The card an unbound folder belongs to: derived names must single out one inventory row. */
  method LegacyBinding(digest: Digest, f: F.Folder, inventory: seq<F.Card>) returns (card: Option<string>)
    ensures card.Some? <==> exists i :: OnlyBinder(digest, f, inventory, i)
    ensures forall i :: OnlyBinder(digest, f, inventory, i) ==> card == Some(inventory[i].id)
  {
    hide Binds;
    card := None;
    ghost var at := -1;
    for n := 0 to |inventory|
      invariant card.None? ==> forall j :: 0 <= j < n ==> !Binds(digest, f, inventory[j])
      invariant card.Some? ==>
                  && 0 <= at < n && Binds(digest, f, inventory[at]) && card.value == inventory[at].id
                  && forall j :: 0 <= j < n && Binds(digest, f, inventory[j]) ==> j == at
    {
      var binds := Derives(digest, f, inventory[n]);
      if binds {
        if card.Some? {
          return None;
        }
        card, at := Some(inventory[n].id), n;
      }
    }
    assert card.Some? ==> OnlyBinder(digest, f, inventory, at);
  }

  /** The record a configured folder starts from: the stored one with a usable epoch, or a new one that requires first sync. */
  function StartingRecord(stored: map<string, Record>, f: F.Folder): (r: Record)
    ensures r.epoch >= 1
    ensures f.id !in stored ==>
              r.firstSync && r.epoch == 1 && r.cardId == "" && r.markerName == "" && r.kind == f.kind
              && !r.manual && !r.pendingRescan && !r.pendingAdd && r.pendingMembership.None? && !r.pendingStop
    ensures f.id in stored ==> r == stored[f.id].(epoch := r.epoch) && (stored[f.id].epoch > 0 ==> r == stored[f.id])
  {
    if f.id !in stored then Record("", f.kind, "", false, true, 1, false, false, None, false)
    else if stored[f.id].epoch == 0 then stored[f.id].(epoch := 1)
    else stored[f.id]
  }

  ghost predicate Migrated(digest: Digest, stored: map<string, Record>, f: F.Folder, inventory: seq<F.Card>, r: Record) {
    var start := StartingRecord(stored, f);
    if F.CompleteBinding(start) then r == start
    else
      exists i :: OnlyBinder(digest, f, inventory, i)
        && r == start.(cardId := inventory[i].id, kind := f.kind, markerName := f.markerName)
  }

  lemma MigratedOne(digest: Digest, stored: map<string, Record>, f: F.Folder, inventory: seq<F.Card>, card: Option<string>)
    requires card.Some? <==> exists i :: OnlyBinder(digest, f, inventory, i)
    requires forall i :: OnlyBinder(digest, f, inventory, i) ==> card == Some(inventory[i].id)
    ensures F.CompleteBinding(StartingRecord(stored, f)) ==> Migrated(digest, stored, f, inventory, StartingRecord(stored, f))
    ensures !F.CompleteBinding(StartingRecord(stored, f)) && card.Some? ==>
              Migrated(digest, stored, f, inventory,
                StartingRecord(stored, f).(cardId := card.value, kind := f.kind, markerName := f.markerName))
  {
  }

  predicate Mentions(configured: seq<F.Folder>, n: nat, id: string)
    requires n <= |configured|
  {
    exists i :: 0 <= i < n && configured[i].id == id
  }

  lemma MentionsNext(configured: seq<F.Folder>, n: nat)
    requires n < |configured|
    ensures forall id :: Mentions(configured, n + 1, id) <==> Mentions(configured, n, id) || id == configured[n].id
  {
    assert configured[n].id == configured[n].id;
    forall id | Mentions(configured, n, id)
      ensures Mentions(configured, n + 1, id)
    {
      var i :| 0 <= i < n && configured[i].id == id;
    }
  }

  lemma NoneMentioned(configured: seq<F.Folder>)
    ensures configured == [] ==> forall id :: !Mentions(configured, |configured|, id)
  {
  }

  lemma AllMentioned(configured: seq<F.Folder>)
    ensures forall i :: 0 <= i < |configured| ==> Mentions(configured, |configured|, configured[i].id)
  {
  }

  lemma NotMentionedYet(configured: seq<F.Folder>, n: nat)
    requires n < |configured|
    requires forall i, j :: 0 <= i < j < |configured| ==> configured[i].id != configured[j].id
    ensures !Mentions(configured, n, configured[n].id)
  {
  }

  lemma {:induction false} FewMentioned(keys: set<string>, configured: seq<F.Folder>, n: nat)
    requires n <= |configured| && forall id :: id in keys ==> Mentions(configured, n, id)
    ensures |keys| <= n
  {
    if n == 0 {
      assert keys == {};
    } else {
      var rest := keys - {configured[n - 1].id};
      forall id | id in rest
        ensures Mentions(configured, n - 1, id)
      {
        assert Mentions(configured, n, id);
      }
      FewMentioned(rest, configured, n - 1);
    }
  }

  // -------------------------------------------------------------- the filesystem

  class Volume {
    var cell: Cell<Disk>
    /** What the latest process found; only a new process writes it. */
    ghost var found: Disk

    constructor (cell: Cell<Disk>)
      ensures this.cell == cell && found == cell.current
    {
      this.cell, this.found := cell, cell.current;
    }

    /** A new process starts. Where power was lost, it finds one of the possible states. */
    method NextProcess(powerLost: bool)
      modifies this
      ensures if powerLost then old(cell).Survives(cell) else cell == old(cell)
      ensures found == cell.current
    {
      if powerLost {
        var k: int := *;
        cell := Cell([], if 0 <= k < |cell.older| then cell.older[k] else cell.current);
      }
      found := cell.current;
    }
  }

  /** Whatever document a power loss leaves behind, the next start accepts it. */
  ghost predicate AllAcceptable(digest: Digest, cell: Cell<Disk>) {
    forall d :: cell.Possible(d) && d.control.Some? ==> Acceptable(digest, d.control.value)
  }

  /** What rewriting the document as s did to the disk; a failure may come before or after the rename. */
  ghost predicate Saved(before: Cell<Disk>, after: Cell<Disk>, o: Outcome, s: State) {
    match o
    case Done =>
      && after.Settled() && after.current.config == before.current.config
      && after.current.control.Some? && Encodes(after.current.control.value, s)
    case Failed =>
      after == before || exists d :: Encodes(d, s) && after == before.Write(before.current.(control := Some(d)))
    case _ => after == before
  }

  lemma SavedIsAcceptable(digest: Digest, before: Cell<Disk>, after: Cell<Disk>, o: Outcome, s: State)
    requires AllAcceptable(digest, before) && Saved(before, after, o, s)
    requires !o.Kept? && !o.Refused? ==> ValidState(digest, s)
    ensures AllAcceptable(digest, after)
  {
    hide ValidState, Acceptable, Encodes;
    match o {
      case Done =>
        EncodedIsReadable(digest, after.current.control.value, s);
      case Failed =>
        if after != before {
          var d :| Encodes(d, s) && after == before.Write(before.current.(control := Some(d)));
          EncodedIsReadable(digest, d, s);
          forall e | after.Possible(e) && e.control.Some?
            ensures Acceptable(digest, e.control.value)
          {
            WritePossible(before, before.current.(control := Some(d)), e);
          }
        }
      case _ =>
    }
  }

  /** The document in the current schema, if there is one. */
  predicate Current(control: Option<Document>) {
    control.Some? && control.value.schema == 2
  }

  ghost predicate Unreadable(control: Option<Document>) {
    control.Some? && !Readable(control.value)
  }

  ghost function StoredState(control: Option<Document>): State
    requires !Unreadable(control)
  {
    if control.Some? then Meaning(control.value) else State(map[], map[], "")
  }

  ghost predicate OlderAcceptable(digest: Digest, cell: Cell<Disk>) {
    forall d :: d in cell.older && d.control.Some? ==> Acceptable(digest, d.control.value)
  }

  lemma {:induction false} OffersByKeyAreValid(offers: seq<Offer>, n: nat)
    requires n <= |offers| && forall i :: 0 <= i < n ==> OfferReadable(offers[i])
    ensures |OffersByKey(offers, n)| <= n
    ensures forall k :: k in OffersByKey(offers, n) ==> ValidOffer(k, OffersByKey(offers, n)[k])
  {
    hide NormalizeDeviceId, CanonicalDeviceId, ValidFolderId;
    if n > 0 {
      OffersByKeyAreValid(offers, n - 1);
      var o := NormalOffer(offers[n - 1]);
      assert OfferReadable(offers[n - 1]);
      assert ValidOffer(KeyOf(o), o);
      var rest := OffersByKey(offers, n - 1);
      assert rest[KeyOf(o) := o].Keys == rest.Keys + {KeyOf(o)};
    }
  }

  lemma MeaningIsValid(d: Document)
    requires Readable(d)
    ensures ValidRest(Meaning(d))
  {
    hide CanonicalDeviceId, ValidFolderId;
    OffersByKeyAreValid(d.offers, |d.offers|);
  }

  lemma ReadableSchema(d: Document)
    requires Readable(d)
    ensures 1 <= d.schema <= 2
    ensures Meaning(d).records == d.folders && |d.folders| <= MAX_FOLDERS
  {
  }

  lemma NoRecordsAreValid(digest: Digest)
    ensures ValidRecords(digest, map[])
  {
  }

  lemma AcceptableIsStored(digest: Digest, control: Option<Document>)
    requires Current(control) && Acceptable(digest, control.value)
    ensures !Unreadable(control) && StoredState(control) == Meaning(control.value)
    ensures ValidRecords(digest, StoredState(control).records)
  {
  }

  lemma KeysMatch(s: State)
    requires ValidRest(s)
    ensures forall k :: k in s.offers ==> k == KeyOf(s.offers[k])
  {
    hide KeyOf, ValidFolderId, CanonicalDeviceId;
  }

  lemma StartIsValid(digest: Digest, before: Cell<Disk>, after: Cell<Disk>, o: Outcome, stored: State, schema: nat,
                     configured: seq<F.Folder>, s: State)
    requires !Unreadable(before.current.control) && stored == StoredState(before.current.control) && ValidRest(stored)
    requires schema == 2 <==> Current(before.current.control)
    requires Saved(before, after, o, s) && !o.Refused? && !o.Failed?
    requires ValidRecords(digest, s.records) && s.offers == stored.offers && s.removal == stored.removal
    requires schema != 2 ==> |s.records| <= |configured| <= MAX_FOLDERS && o.Done?
    requires configured == [] && schema == 2 ==> s == stored
    requires configured == [] || schema != 2
    requires OlderAcceptable(digest, before)
    ensures ValidState(digest, s) && AllAcceptable(digest, after)
  {
    hide ValidOffer, Encodes, ValidRecords;
    if schema == 2 {
      ReadableSchema(before.current.control.value);
    }
    assert ValidState(digest, s);
    match o {
      case Done => EncodedIsReadable(digest, after.current.control.value, s);
      case Kept => assert Acceptable(digest, before.current.control.value);
    }
  }

  // --------------------------------------------- facts about one record or offer

  /** A new folder has first sync before it, at the first epoch, and nothing else. */
  function NewRecord(f: F.Folder, card: string, pending: bool): (r: Record)
    ensures r.cardId == card && r.kind == f.kind && r.markerName == f.markerName
    ensures r.firstSync && r.epoch == 1 && r.pendingAdd == pending
    ensures !r.manual && !r.pendingRescan && r.pendingMembership.None? && !r.pendingStop
  {
    Record(card, f.kind, f.markerName, false, true, 1, false, pending, None, false)
  }

  function WithOffer(offers: map<string, Offer>, offer: Offer, ignored: bool): map<string, Offer> {
    if ignored then offers[KeyOf(offer) := offer] else offers - {KeyOf(offer)}
  }

  function WithoutDevice(offers: map<string, Offer>, device: string): map<string, Offer> {
    map k | k in offers && offers[k].device != device :: offers[k]
  }

  lemma SavedNothing(cell: Cell<Disk>, s: State)
    ensures Saved(cell, cell, Kept, s) && Saved(cell, cell, Refused, s)
  {
  }

  lemma StateKeysMatch(digest: Digest, s: State)
    requires ValidState(digest, s)
    ensures forall k :: k in s.offers ==> k == KeyOf(s.offers[k])
  {
    hide ValidRecords;
    KeysMatch(s);
  }

  lemma StateRecord(digest: Digest, s: State, id: string)
    requires ValidState(digest, s) && id in s.records
    ensures ValidRecord(digest, id, s.records[id])
  {
    hide ValidRest, ValidRecord;
  }

  /** An offer held under a key is the only offer with that key. */
  lemma StateOffer(digest: Digest, s: State, offer: Offer)
    requires ValidState(digest, s) && ValidFolderId(offer.folder)
    ensures KeyOf(offer) in s.offers ==> s.offers[KeyOf(offer)] == offer
  {
    hide ValidRecords, ValidFolderId, CanonicalDeviceId;
    if KeyOf(offer) in s.offers {
      var held := s.offers[KeyOf(offer)];
      assert ValidOffer(KeyOf(offer), held);
      OfferKeyIsInjective(offer.folder, offer.device, held.folder, held.device);
    }
  }

  lemma OfferUndone(offers: map<string, Offer>, offer: Offer, ignored: bool)
    requires KeyOf(offer) in offers <==> !ignored
    requires !ignored ==> offers[KeyOf(offer)] == offer
    ensures ignored ==> WithOffer(offers, offer, true) - {KeyOf(offer)} == offers
    ensures !ignored ==> WithOffer(offers, offer, false)[KeyOf(offer) := offer] == offers
  {
    hide KeyOf;
  }

  lemma NewRecordIsValid(digest: Digest, f: F.Folder, card: string, pending: bool)
    requires ValidFolderId(f.id) && ValidCardId(card) && f.markerName == BoundMarker(digest, card, f.kind)
    ensures ValidRecord(digest, f.id, NewRecord(f, card, pending))
  {
  }

  lemma NormalIsReadable(device: string)
    requires NormalizeDeviceId(device).Some?
    ensures CanonicalDeviceId(NormalizeDeviceId(device).value) && NormalizeDeviceId(device).value != ""
    ensures NormalizeDeviceId(NormalizeDeviceId(device).value) == NormalizeDeviceId(device)
  {
    NormalizingAgainChangesNothing(NormalizeDeviceId(device).value);
  }

  lemma WithOfferIsValid(digest: Digest, s: State, raw: Offer, ignored: bool)
    requires ValidState(digest, s) && OfferReadable(raw)
    requires ignored ==> |s.offers| < MAX_OFFERS
    ensures ValidState(digest, s.(offers := WithOffer(s.offers, NormalOffer(raw), ignored)))
  {
    hide ValidRecords, NormalizeDeviceId, CanonicalDeviceId, KeyOf;
    NormalIsReadable(raw.device);
    var key := KeyOf(NormalOffer(raw));
    var after := WithOffer(s.offers, NormalOffer(raw), ignored);
    SubsetSize(after.Keys, s.offers.Keys + {key});
    if !ignored {
      SubsetSize(after.Keys, s.offers.Keys);
    }
  }

  /** A record that is both being stopped and being shared makes the whole document unacceptable. */
  lemma StoppedAndShared(digest: Digest, d: Document, s: State, id: string)
    requires Encodes(d, s) && id in s.records
    requires s.records[id].pendingStop && s.records[id].pendingMembership.Some?
    ensures !ValidState(digest, s) && !Acceptable(digest, d)
  {
    hide NormalizeDeviceId, Readable;
    assert !ValidRecord(digest, id, s.records[id]);
  }

  // -------------------------------------------------------------------- the store

  class FolderControlStore {
    const digest: Digest
    const volume: Volume
    /** Whether this process is one in which every durable step succeeds and every request is answered. */
    const uncut: bool
    var records: map<string, Record>
    var offers: map<string, Offer>
    var removal: string

    constructor (digest: Digest, volume: Volume, uncut: bool)
      ensures this.digest == digest && this.volume == volume && this.uncut == uncut && Held() == State(map[], map[], "")
    {
      this.digest, this.volume, this.uncut := digest, volume, uncut;
      records, offers, removal := map[], map[], "";
    }

    function Held(): State
      reads this
    {
      State(records, offers, removal)
    }

    ghost predicate Valid()
      reads this, volume
    {
      ValidState(digest, Held()) && AllAcceptable(digest, volume.cell)
    }

    /** Writes a temporary, renames it over the document, and flushes the filesystem. */
    method Persist() returns (ok: bool)
      requires forall k :: k in offers ==> k == KeyOf(offers[k])
      modifies volume`cell
      ensures Saved(old(volume.cell), volume.cell, if ok then Done else Failed, Held())
      ensures uncut ==> ok
    {
      hide Encodes;
      ok := *;
      ok := ok || uncut;
      if !ok {
        return;
      }
      var d := DocumentOf(Held());
      volume.cell := volume.cell.Write(volume.cell.current.(control := Some(d)));
      ok := *;
      ok := ok || uncut;
      if ok {
        volume.cell := volume.cell.Flushed();
      }
    }

    // ---------------------------------------------------------------- starting

    /** The body of the loop over configured folders. */
    static method MigrateOne(digest: Digest, stored: map<string, Record>, f: F.Folder, inventory: seq<F.Card>)
      returns (record: Option<Record>)
      ensures record.Some? ==> Migrated(digest, stored, f, inventory, record.value)
      ensures record.None? ==>
                !F.CompleteBinding(StartingRecord(stored, f)) && !exists i :: OnlyBinder(digest, f, inventory, i)
    {
      hide Binds, OnlyBinder;
      var start := StartingRecord(stored, f);
      if F.CompleteBinding(start) {
        return Some(start);
      }
      var card := LegacyBinding(digest, f, inventory);
      if card.None? {
        return None;
      }
      MigratedOne(digest, stored, f, inventory, card);
      record := Some(start.(cardId := card.value, kind := f.kind, markerName := f.markerName));
    }

    /** Completes the records of configured folders; a first-schema document loses the others. */
    static method Migrate(digest: Digest, stored: map<string, Record>, schema: nat, configured: seq<F.Folder>, inventory: seq<F.Card>)
      returns (ok: bool, after: map<string, Record>, changed: bool)
      requires schema == 0 ==> stored == map[]
      requires schema <= 2
      requires forall i, j :: 0 <= i < j < |configured| ==> configured[i].id != configured[j].id
      ensures ok ==> forall i :: 0 <= i < |configured| ==>
                && configured[i].id in after
                && Migrated(digest, stored, configured[i], inventory, after[configured[i].id])
      ensures ok ==> forall id :: !Mentions(configured, |configured|, id) ==>
                && (id in after <==> schema == 2 && id in stored)
                && (id in after ==> after[id] == stored[id])
      ensures ok && schema != 2 ==> |after| <= |configured|
      ensures ok && !changed ==> schema == 2 && after == stored
      ensures configured == [] ==> ok && (schema != 1 ==> after == stored)
      ensures configured == [] && schema == 2 ==> !changed
    {
      hide Migrated, Mentions;
      ok, after, changed := true, stored, schema != 2;
      for n := 0 to |configured|
        invariant forall i :: 0 <= i < n ==>
                    && configured[i].id in after
                    && Migrated(digest, stored, configured[i], inventory, after[configured[i].id])
        invariant forall id :: !Mentions(configured, n, id) ==>
                    && (id in after <==> id in stored)
                    && (id in after ==> after[id] == stored[id])
        invariant !changed ==> schema == 2 && after == stored
        invariant configured == [] ==> after == stored && (changed <==> schema != 2)
      {
        var f := configured[n];
        NotMentionedYet(configured, n);
        var migrated := MigrateOne(digest, stored, f, inventory);
        if migrated.None? {
          return false, after, changed;
        }
        var record := migrated.value;
        changed := changed || f.id !in stored || stored[f.id] != record;
        after := after[f.id := record];
        MentionsNext(configured, n);
      }
      AllMentioned(configured);
      NoneMentioned(configured);
      if schema != 2 {
        after := map id | id in after && Mentions(configured, |configured|, id) :: after[id];
        FewMentioned(after.Keys, configured, |configured|);
      }
    }

    method Load() returns (ok: bool, stored: State, schema: nat)
      ensures ok <==> !Unreadable(volume.cell.current.control)
      ensures ok ==> stored == StoredState(volume.cell.current.control) && ValidRest(stored)
      ensures ok ==> schema <= 2 && (schema == 2 <==> Current(volume.cell.current.control))
      ensures schema == 0 ==> stored.records == map[]
    {
      hide Meaning, Readable, ValidOffer;
      var control := volume.cell.current.control;
      ok, stored, schema := true, State(map[], map[], ""), 0;
      if control.Some? {
        var read := ReadState(control.value);
        if read.None? {
          return false, stored, 0;
        }
        ReadableSchema(control.value);
        MeaningIsValid(control.value);
        stored, schema := read.value, control.value.schema;
      }
    }

    /** Reads the document, migrates it, and refuses anything that does not validate. */
    method Start(configured: seq<F.Folder>, inventory: seq<F.Card>) returns (o: Outcome)
      requires |configured| <= MAX_FOLDERS
      requires forall i, j :: 0 <= i < j < |configured| ==> configured[i].id != configured[j].id
      modifies this, volume`cell
      ensures uncut ==> !o.Failed?
      ensures o.Refused? ==> volume.cell == old(volume.cell)
      ensures !o.Refused? ==> Saved(old(volume.cell), volume.cell, o, Held())
      ensures old(Unreadable(volume.cell.current.control)) ==> o.Refused?
      ensures !o.Refused? && !old(Unreadable(volume.cell.current.control)) ==>
                && ValidRecords(digest, records)
                && offers == old(StoredState(volume.cell.current.control)).offers
                && removal == old(StoredState(volume.cell.current.control)).removal
                && (forall i :: 0 <= i < |configured| ==>
                      && configured[i].id in records
                      && Migrated(digest, old(StoredState(volume.cell.current.control)).records, configured[i], inventory,
                           records[configured[i].id]))
      ensures old(Current(volume.cell.current.control)) && old(Acceptable(digest, volume.cell.current.control.value))
              && configured == [] ==>
                o.Kept? && Held() == old(Meaning(volume.cell.current.control.value))
      ensures old(volume.cell.current.control).None? && configured == [] ==>
                (o.Done? || o.Failed?) && Held() == State(map[], map[], "")
      ensures (o.Done? || o.Kept?) && (configured == [] || !old(Current(volume.cell.current.control)))
              && old(OlderAcceptable(digest, volume.cell)) ==>
                Valid()
    {
      hide ValidRecord, ValidRecords, ValidRest, ValidState, Acceptable, Readable, Meaning, Migrated, Mentions, Encodes;
      hide OlderAcceptable, AllAcceptable, ValidOffer, KeyOf;
      ghost var before := volume.cell;
      if Current(before.current.control) && Acceptable(digest, before.current.control.value) {
        AcceptableIsStored(digest, before.current.control);
      }
      NoRecordsAreValid(digest);
      var readable, stored, schema := Load();
      if !readable {
        return Refused;
      }
      var ok, after, changed := Migrate(digest, stored.records, schema, configured, inventory);
      if !ok {
        return Refused;
      }
      ok := ValidateRecords(digest, after);
      if !ok {
        return Refused;
      }
      records, offers, removal := after, stored.offers, stored.removal;
      o := Kept;
      if changed {
        KeysMatch(stored);
        ok := Persist();
        o := if ok then Done else Failed;
      }
      if !o.Failed? && (configured == [] || schema != 2) && OlderAcceptable(digest, before) {
        StartIsValid(digest, before, volume.cell, o, stored, schema, configured, Held());
      }
    }

    // ---------------------------------------------------------------- mutators

    /** Replaces one record in memory and rewrites the document; memory keeps the change either way. */
    method StoreRecord(id: string, record: Record) returns (ok: bool)
      requires Valid() && id in records && SameLocal(record, records[id])
      modifies this, volume`cell
      ensures Held() == old(Held()).(records := old(records)[id := record])
      ensures uncut ==> ok
      ensures Saved(old(volume.cell), volume.cell, if ok then Done else Failed, Held())
      ensures ValidRecord(digest, id, record) ==> Valid()
    {
      hide ValidState, ValidRecord, AllAcceptable, Saved, Encodes;
      StateKeysMatch(digest, Held());
      ghost var s, before := Held(), volume.cell;
      records := records[id := record];
      ok := Persist();
      if ValidRecord(digest, id, record) {
        ReplaceIsValid(digest, s, id, record);
        SavedIsAcceptable(digest, before, volume.cell, if ok then Done else Failed, Held());
      }
    }

    method SetManual(id: string, manual: bool) returns (o: Outcome)
      requires Valid()
      modifies this, volume`cell
      ensures uncut ==> !o.Failed?
      ensures Valid()
      ensures o.Refused? <==> id !in old(records)
      ensures Saved(old(volume.cell), volume.cell, o, Held()) && !o.Kept?
      ensures Held() == if o.Refused? then old(Held())
                        else old(Held()).(records := old(records)[id := old(records)[id].(manual := manual)])
    {
      hide ValidState, AllAcceptable, Encodes, ValidFolderId, ValidCardId, CanonicalDeviceId, NormalizeDeviceId;
      if id !in records {
        return Refused;
      }
      StateRecord(digest, Held(), id);
      var ok := StoreRecord(id, records[id].(manual := manual));
      o := if ok then Done else Failed;
    }

    method SetPendingRescan(id: string, pending: bool) returns (o: Outcome)
      requires Valid()
      modifies this, volume`cell
      ensures uncut ==> !o.Failed?
      ensures Valid()
      ensures o.Refused? <==> id !in old(records)
      ensures Saved(old(volume.cell), volume.cell, o, Held()) && !o.Kept?
      ensures Held() == if o.Refused? then old(Held())
                        else old(Held()).(records := old(records)[id := old(records)[id].(pendingRescan := pending)])
    {
      hide ValidState, AllAcceptable, Encodes, ValidFolderId, ValidCardId, CanonicalDeviceId, NormalizeDeviceId;
      if id !in records {
        return Refused;
      }
      StateRecord(digest, Held(), id);
      var ok := StoreRecord(id, records[id].(pendingRescan := pending));
      o := if ok then Done else Failed;
    }

    method SetFirstSync(id: string, pending: bool) returns (o: Outcome)
      requires Valid()
      modifies this, volume`cell
      ensures uncut ==> !o.Failed?
      ensures Valid()
      ensures o.Refused? <==> id !in old(records)
      ensures o.Kept? <==> id in old(records) && old(records)[id].firstSync == pending
      ensures Saved(old(volume.cell), volume.cell, o, Held())
      ensures Held() == if o.Refused? then old(Held())
                        else old(Held()).(records := old(records)[id := old(records)[id].(firstSync := pending)])
    {
      hide ValidState, AllAcceptable, Encodes, ValidFolderId, ValidCardId, CanonicalDeviceId, NormalizeDeviceId;
      if id !in records {
        return Refused;
      }
      if records[id].firstSync == pending {
        assert records == records[id := records[id].(firstSync := pending)];
        return Kept;
      }
      StateRecord(digest, Held(), id);
      var ok := StoreRecord(id, records[id].(firstSync := pending));
      o := if ok then Done else Failed;
    }

    /** The next epoch, required; a 64-bit epoch never wraps around. */
    method RequireFirstSync(id: string) returns (o: Outcome)
      requires Valid()
      modifies this, volume`cell
      ensures uncut ==> !o.Failed?
      ensures Valid()
      ensures o.Refused? <==> id !in old(records) || old(records)[id].epoch == 0xFFFF_FFFF_FFFF_FFFF
      ensures Saved(old(volume.cell), volume.cell, o, Held()) && !o.Kept?
      ensures Held() == if o.Refused? then old(Held())
                        else old(Held()).(records := old(records)[id := old(records)[id].(firstSync := true, epoch := old(records)[id].epoch + 1)])
    {
      hide ValidState, AllAcceptable, Encodes, ValidFolderId, ValidCardId, CanonicalDeviceId, NormalizeDeviceId;
      if id !in records || records[id].epoch == MAX_EPOCH {
        return Refused;
      }
      StateRecord(digest, Held(), id);
      var ok := StoreRecord(id, records[id].(firstSync := true, epoch := records[id].epoch + 1));
      o := if ok then Done else Failed;
    }

    /** A new binding: refused beyond the limit, for a known folder, and for a card and kind already bound. */
    method Add(f: F.Folder, card: string, pending: bool) returns (o: Outcome)
      requires Valid()
      modifies this, volume`cell
      ensures uncut ==> !o.Failed?
      ensures Valid()
      ensures o.Refused? <==>
                || !ValidFolderId(f.id) || !ValidCardId(card) || f.markerName != BoundMarker(digest, card, f.kind)
                || f.id in old(records) || |old(records)| >= 16
                || exists a :: a in old(records) && SameLocal(old(records)[a], NewRecord(f, card, pending))
      ensures Saved(old(volume.cell), volume.cell, o, old(Held()).(records := old(records)[f.id := NewRecord(f, card, pending)]))
      ensures Held() == if o.Done? then old(Held()).(records := old(records)[f.id := NewRecord(f, card, pending)]) else old(Held())
      ensures !o.Kept?
    {
      hide ValidState, AllAcceptable, Encodes, ValidFolderId, ValidCardId, BoundMarker, Saved;
      var named := IsFolderId(f.id);
      var carded := IsCardId(card);
      if !named || !carded || f.markerName != BoundMarker(digest, card, f.kind) {
        SavedNothing(volume.cell, old(Held()).(records := old(records)[f.id := NewRecord(f, card, pending)]));
        return Refused;
      }
      var record := NewRecord(f, card, pending);
      ghost var s, before := Held(), volume.cell;
      ghost var next := s.(records := records[f.id := record]);
      SavedNothing(before, next);
      if f.id in records || |records| >= MAX_FOLDERS {
        return Refused;
      }
      var bound := BindingTaken(record);
      if bound {
        return Refused;
      }
      NewRecordIsValid(digest, f, card, pending);
      AddIsValid(digest, s, f.id, record);
      StateKeysMatch(digest, next);
      records := records[f.id := record];
      var ok := Persist();
      o := if ok then Done else Failed;
      SavedIsAcceptable(digest, before, volume.cell, o, next);
      if !ok {
        records := records - {f.id};
        assert records == s.records;
      }
    }

    method BindingTaken(record: Record) returns (taken: bool)
      ensures taken <==> exists a :: a in records && SameLocal(records[a], record)
    {
      var ids := records.Keys;
      taken := false;
      while ids != {} && !taken
        invariant ids <= records.Keys
        invariant !taken ==> forall a :: a in records && a !in ids ==> !SameLocal(records[a], record)
        invariant taken ==> exists a :: a in records && SameLocal(records[a], record)
        decreases |ids|
      {
        var id :| id in ids;
        ids := ids - {id};
        taken := records[id].cardId == record.cardId && records[id].kind == record.kind;
      }
    }

    method Activate(id: string) returns (o: Outcome)
      requires Valid()
      modifies this, volume`cell
      ensures uncut ==> !o.Failed?
      ensures Valid()
      ensures o.Refused? <==> id !in old(records)
      ensures o.Kept? <==> id in old(records) && !old(records)[id].pendingAdd
      ensures !o.Refused? ==>
                Saved(old(volume.cell), volume.cell, o, old(Held()).(records := old(records)[id := old(records)[id].(pendingAdd := false)]))
      ensures o.Refused? ==> volume.cell == old(volume.cell)
      ensures Held() == if o.Done? then old(Held()).(records := old(records)[id := old(records)[id].(pendingAdd := false)]) else old(Held())
    {
      hide ValidState, AllAcceptable, Encodes, ValidFolderId, ValidCardId, CanonicalDeviceId, NormalizeDeviceId;
      if id !in records {
        return Refused;
      }
      if !records[id].pendingAdd {
        return Kept;
      }
      StateRecord(digest, Held(), id);
      ghost var s := Held();
      var ok := StoreRecord(id, records[id].(pendingAdd := false));
      o := if ok then Done else Failed;
      if !ok {
        records := records[id := records[id].(pendingAdd := true)];
        assert records == s.records;
      }
    }

    method Remove(id: string) returns (o: Outcome)
      requires Valid()
      modifies this, volume`cell
      ensures uncut ==> !o.Failed?
      ensures Valid()
      ensures o.Kept? <==> id !in old(records)
      ensures !o.Refused?
      ensures Saved(old(volume.cell), volume.cell, o, old(Held()).(records := old(records) - {id}))
      ensures Held() == if o.Done? then old(Held()).(records := old(records) - {id}) else old(Held())
    {
      hide ValidState, AllAcceptable, Encodes;
      if id !in records {
        return Kept;
      }
      var record := records[id];
      ghost var s, before := Held(), volume.cell;
      RemoveIsValid(digest, s, id);
      records := records - {id};
      StateKeysMatch(digest, Held());
      var ok := Persist();
      o := if ok then Done else Failed;
      SavedIsAcceptable(digest, before, volume.cell, o, Held());
      if !ok {
        records := records[id := record];
        assert records == s.records;
      }
    }

    /**
     * Records a membership change before upstream is told. Nothing here looks at
     * a pending stop, and with one the document stored is refused by every later start.
     */
    method BeginMembership(id: string, device: string, operation: Operation) returns (o: Outcome)
      requires Valid()
      modifies this, volume`cell
      ensures uncut ==> !o.Failed?
      ensures o.Refused? <==>
                || NormalizeDeviceId(device).None? || id !in old(records) || old(records)[id].pendingAdd
                || (old(records)[id].pendingMembership.Some?
                    && old(records)[id].pendingMembership.value != Intent(operation, NormalizeDeviceId(device).value))
      ensures o.Kept? <==>
                && NormalizeDeviceId(device).Some? && id in old(records) && !old(records)[id].pendingAdd
                && old(records)[id].pendingMembership == Some(Intent(operation, NormalizeDeviceId(device).value))
      ensures o.Refused? || o.Kept? ==> Held() == old(Held()) && volume.cell == old(volume.cell)
      ensures o.Done? || o.Failed? ==>
                Saved(old(volume.cell), volume.cell, o, old(Held()).(records := old(records)[id :=
                  old(records)[id].(pendingMembership := Some(Intent(operation, NormalizeDeviceId(device).value)))]))
      ensures o.Done? ==> Held() == old(Held()).(records := old(records)[id :=
                  old(records)[id].(pendingMembership := Some(Intent(operation, NormalizeDeviceId(device).value)))])
      ensures o.Failed? ==> Held() == old(Held())
      ensures o.Refused? || o.Kept? || !old(records)[id].pendingStop ==> Valid()
      ensures o.Done? && old(records)[id].pendingStop ==>
                !ValidState(digest, Held()) && !Acceptable(digest, volume.cell.current.control.value)
    {
      hide ValidState, AllAcceptable, Encodes, ValidFolderId, ValidCardId, CanonicalDeviceId, NormalizeDeviceId, Acceptable;
      if NormalizeDeviceId(device).None? || id !in records || records[id].pendingAdd {
        return Refused;
      }
      var intent := Intent(operation, NormalizeDeviceId(device).value);
      if records[id].pendingMembership.Some? {
        return if records[id].pendingMembership.value == intent then Kept else Refused;
      }
      StateRecord(digest, Held(), id);
      NormalIsReadable(device);
      ghost var s := Held();
      var ok := StoreRecord(id, records[id].(pendingMembership := Some(intent)));
      o := if ok then Done else Failed;
      if ok && s.records[id].pendingStop {
        StoppedAndShared(digest, volume.cell.current.control.value, Held(), id);
      }
      if !ok {
        records := records[id := records[id].(pendingMembership := None)];
        assert records == s.records;
      }
    }

    method CompleteMembership(id: string) returns (o: Outcome)
      requires Valid()
      modifies this, volume`cell
      ensures uncut ==> !o.Failed?
      ensures Valid()
      ensures o.Refused? <==> id !in old(records) || old(records)[id].pendingMembership.None?
      ensures o.Refused? ==> volume.cell == old(volume.cell)
      ensures !o.Refused? ==>
                Saved(old(volume.cell), volume.cell, o, old(Held()).(records := old(records)[id := old(records)[id].(pendingMembership := None)]))
      ensures Held() == if o.Done? then old(Held()).(records := old(records)[id := old(records)[id].(pendingMembership := None)]) else old(Held())
      ensures !o.Kept?
    {
      hide ValidState, AllAcceptable, Encodes, ValidFolderId, ValidCardId, CanonicalDeviceId, NormalizeDeviceId;
      if id !in records || records[id].pendingMembership.None? {
        return Refused;
      }
      StateRecord(digest, Held(), id);
      var original := records[id];
      ghost var s := Held();
      var ok := StoreRecord(id, original.(pendingMembership := None));
      o := if ok then Done else Failed;
      if !ok {
        records := records[id := original];
        assert records == s.records;
      }
    }

    method BeginStop(id: string) returns (o: Outcome)
      requires Valid()
      modifies this, volume`cell
      ensures uncut ==> !o.Failed?
      ensures Valid()
      ensures o.Refused? <==> id !in old(records) || old(records)[id].pendingAdd || old(records)[id].pendingMembership.Some?
      ensures o.Kept? <==> id in old(records) && old(records)[id].pendingStop
      ensures o.Refused? ==> volume.cell == old(volume.cell)
      ensures !o.Refused? ==>
                Saved(old(volume.cell), volume.cell, o, old(Held()).(records := old(records)[id := old(records)[id].(pendingStop := true)]))
      ensures Held() == if o.Done? then old(Held()).(records := old(records)[id := old(records)[id].(pendingStop := true)]) else old(Held())
    {
      hide ValidState, AllAcceptable, Encodes, ValidFolderId, ValidCardId, CanonicalDeviceId, NormalizeDeviceId;
      if id in records {
        StateRecord(digest, Held(), id);
      }
      if id !in records || records[id].pendingAdd || records[id].pendingMembership.Some? {
        return Refused;
      }
      if records[id].pendingStop {
        return Kept;
      }
      ghost var s := Held();
      var ok := StoreRecord(id, records[id].(pendingStop := true));
      o := if ok then Done else Failed;
      if !ok {
        records := records[id := records[id].(pendingStop := false)];
        assert records == s.records;
      }
    }

    // ------------------------------------------------- offers and device removal

    method SetOfferIgnored(folder: string, device: string, ignored: bool) returns (o: Outcome)
      requires Valid()
      modifies this, volume`cell
      ensures uncut ==> !o.Failed?
      ensures Valid()
      ensures o.Refused? <==>
                || !OfferReadable(Offer(folder, device))
                || (ignored && KeyOf(NormalOffer(Offer(folder, device))) !in old(offers) && |old(offers)| >= 32)
      ensures o.Kept? <==>
                && OfferReadable(Offer(folder, device))
                && (ignored <==> KeyOf(NormalOffer(Offer(folder, device))) in old(offers))
      ensures o.Refused? ==> volume.cell == old(volume.cell)
      ensures !o.Refused? ==> Saved(old(volume.cell), volume.cell, o,
                old(Held()).(offers := WithOffer(old(offers), NormalOffer(Offer(folder, device)), ignored)))
      ensures Held() == if o.Done? then old(Held()).(offers := WithOffer(old(offers), NormalOffer(Offer(folder, device)), ignored))
                        else old(Held())
    {
      hide ValidState, AllAcceptable, Encodes, ValidFolderId, CanonicalDeviceId, NormalizeDeviceId, KeyOf, Saved, ValidOffer;
      var read := ReadOffer(Offer(folder, device));
      if read.None? {
        return Refused;
      }
      var offer := read.value;
      var key := KeyOf(offer);
      ghost var s, before := Held(), volume.cell;
      ghost var next := s.(offers := WithOffer(offers, offer, ignored));
      SavedNothing(before, next);
      if (key in offers) == ignored {
        return Kept;
      }
      if ignored && |offers| >= MAX_OFFERS {
        return Refused;
      }
      WithOfferIsValid(digest, s, Offer(folder, device), ignored);
      StateKeysMatch(digest, next);
      StateOffer(digest, s, offer);
      OfferUndone(offers, offer, ignored);
      if ignored {
        offers := offers[key := offer];
      } else {
        offers := offers - {key};
      }
      var ok := Persist();
      o := if ok then Done else Failed;
      SavedIsAcceptable(digest, before, volume.cell, o, next);
      if !ok {
        if ignored {
          offers := offers - {key};
        } else {
          offers := offers[key := offer];
        }
      }
    }

    method BeginDeviceRemoval(device: string) returns (o: Outcome)
      requires Valid()
      modifies this, volume`cell
      ensures uncut ==> !o.Failed?
      ensures Valid()
      ensures o.Refused? <==>
                || NormalizeDeviceId(device).None?
                || (old(removal) != "" && old(removal) != NormalizeDeviceId(device).value)
      ensures o.Kept? <==> NormalizeDeviceId(device).Some? && old(removal) == NormalizeDeviceId(device).value
      ensures o.Refused? ==> volume.cell == old(volume.cell)
      ensures !o.Refused? ==> Saved(old(volume.cell), volume.cell, o, old(Held()).(removal := NormalizeDeviceId(device).value))
      ensures Held() == if o.Done? then old(Held()).(removal := NormalizeDeviceId(device).value) else old(Held())
    {
      hide AllAcceptable, Encodes, ValidRecords, ValidOffer, CanonicalDeviceId, NormalizeDeviceId, Saved, KeyOf;
      if NormalizeDeviceId(device).None? {
        return Refused;
      }
      var id := NormalizeDeviceId(device).value;
      ghost var before, next := volume.cell, Held().(removal := id);
      SavedNothing(before, next);
      NormalIsReadable(device);
      if removal != "" {
        return if removal == id then Kept else Refused;
      }
      StateKeysMatch(digest, next);
      removal := id;
      var ok := Persist();
      o := if ok then Done else Failed;
      SavedIsAcceptable(digest, before, volume.cell, o, next);
      if !ok {
        removal := "";
      }
    }

    /** Forgets the removal and, in the same write, every ignored offer of that device. */
    method CompleteDeviceRemoval(device: string) returns (o: Outcome)
      requires Valid()
      modifies this, volume`cell
      ensures uncut ==> !o.Failed?
      ensures Valid()
      ensures o.Refused? <==> NormalizeDeviceId(device).None? || old(removal) != NormalizeDeviceId(device).value
      ensures o.Refused? ==> volume.cell == old(volume.cell)
      ensures !o.Refused? ==>
                Saved(old(volume.cell), volume.cell, o,
                      old(Held()).(removal := "", offers := WithoutDevice(old(offers), NormalizeDeviceId(device).value)))
      ensures Held() == if o.Done? then old(Held()).(removal := "", offers := WithoutDevice(old(offers), NormalizeDeviceId(device).value))
                        else old(Held())
      ensures !o.Kept?
    {
      hide AllAcceptable, Encodes, ValidRecords, ValidOffer, CanonicalDeviceId, NormalizeDeviceId, Saved, KeyOf;
      if NormalizeDeviceId(device).None? {
        return Refused;
      }
      var id := NormalizeDeviceId(device).value;
      if removal != id {
        return Refused;
      }
      var s := Held();
      ghost var before := volume.cell;
      ghost var next := s.(removal := "", offers := WithoutDevice(offers, id));
      SubsetSize(WithoutDevice(offers, id).Keys, offers.Keys);
      StateKeysMatch(digest, next);
      var kept := RemoveOffers(id);
      offers, removal := kept, "";
      var ok := Persist();
      o := if ok then Done else Failed;
      SavedIsAcceptable(digest, before, volume.cell, o, next);
      if !ok {
        offers, removal := s.offers, id;
      }
    }

    method RemoveOffers(device: string) returns (kept: map<string, Offer>)
      ensures kept == WithoutDevice(offers, device)
    {
      kept := offers;
      var keys := offers.Keys;
      while keys != {}
        invariant keys <= offers.Keys
        invariant forall k :: k in kept <==> k in offers && (k in keys || offers[k].device != device)
        invariant forall k :: k in kept ==> kept[k] == offers[k]
        decreases |keys|
      {
        var key :| key in keys;
        keys := keys - {key};
        if offers[key].device == device {
          kept := kept - {key};
        }
      }
    }
  }
}
