/** The registry of enrolled cards: three files that hold one map, and its reconciliation with what is mounted. */
module Registry {
  import opened Durable
  import opened Folders

  const MAX_REGISTRY_CARDS := 16

  datatype RegistryRecord = RegistryRecord(lastSource: string, retainedBytes: int)

  type Cards = map<string, RegistryRecord>

  datatype Slot = NoFile | Listing(cards: Cards) | Damaged(regular: bool)

  datatype Dir = Dir(current: Slot, temporary: Slot, backup: Slot)

  /** One row of the inspected sources. */
  datatype Live = Live(source: string, id: string, state: CardState, retainedBytes: int)

  ghost predicate ValidRecord(id: string, r: RegistryRecord) {
    id != "" && r.lastSource != "" && r.retainedBytes >= 0
  }

  ghost predicate ValidRegistry(cards: Cards) {
    |cards| <= 16 && forall id :: id in cards ==> ValidRecord(id, cards[id])
  }

  ghost predicate Readable(s: Slot) {
    s.Listing? && ValidRegistry(s.cards)
  }

  /** Something that is no regular file: it is never removed. */
  ghost predicate Unsafe(s: Slot) {
    s.Damaged? && !s.regular
  }

  /** What recovery would have to remove or replace is unsafe. */
  ghost predicate Obstructed(d: Dir) {
    || Unsafe(d.temporary)
    || (Readable(d.current) && Unsafe(d.backup))
    || (!Readable(d.current) && Readable(d.backup) && Unsafe(d.current))
  }

  /** readRegistry: the records of a file that lists at most sixteen valid ones. */
  method ReadRegistry(s: Slot) returns (r: Option<Cards>)
    ensures r == if Readable(s) then Some(s.cards) else None
  {
    if !s.Listing? || |s.cards| > MAX_REGISTRY_CARDS {
      return None;
    }
    var rest := s.cards.Keys;
    while rest != {}
      invariant rest <= s.cards.Keys
      invariant forall id :: id in s.cards && id !in rest ==> ValidRecord(id, s.cards[id])
      decreases |rest|
    {
      var id :| id in rest;
      rest := rest - {id};
      if id == "" || s.cards[id].lastSource == "" || s.cards[id].retainedBytes < 0 {
        return None;
      }
    }
    r := Some(s.cards);
  }

  /** The registry a directory stands for; None means no copy can be trusted. */
  ghost function Value(d: Dir): Option<Cards> {
    if Readable(d.current) then Some(d.current.cards)
    else if Readable(d.backup) then Some(d.backup.cards)
    else if d.current.NoFile? && d.backup.NoFile? then Some(map[])
    else None
  }

  ghost predicate KeepsValue(c: Cell<Dir>, c': Cell<Dir>) {
    forall d :: c'.Possible(d) ==> c.Possible(d) || Value(d) == Value(c.current)
  }

  /** In no state that may come back has an unsafe file been touched. */
  ghost predicate KeepsUnsafe(c: Cell<Dir>, c': Cell<Dir>) {
    forall d :: c'.Possible(d) ==>
      || c.Possible(d)
      || (&& (Unsafe(c.current.temporary) ==> d.temporary == c.current.temporary)
          && (Unsafe(c.current.backup) ==> d.backup == c.current.backup)
          && (Unsafe(c.current.current) ==> d.current == c.current.current))
  }

  /** A write ends with the old registry or the new one. */
  ghost predicate Writes(c: Cell<Dir>, cards: Cards, c': Cell<Dir>) {
    forall d :: c'.Possible(d) ==> c.Possible(d) || Value(d) in {Value(c.current), Some(cards)}
  }

  /** Whatever a cut or a power loss leaves: a recorded identity is still recorded. */
  ghost predicate NeverForgets(c: Cell<Dir>, c': Cell<Dir>) {
    forall d :: c'.Possible(d) && Value(c.current).Some? && Value(c.current).value != map[] ==>
      c.Possible(d) || (Value(d).Some? && Value(c.current).value.Keys <= Value(d).value.Keys)
  }

  // -------------------------------------------------- what the inventory must be

  predicate Counted(l: Live, id: string) {
    l.id == id && id != "" && (l.state == Enrolled || l.state == Duplicate)
  }

  function LiveCount(live: seq<Live>, id: string): (n: nat) {
    if live == [] then 0 else LiveCount(live[..|live| - 1], id) + (if Counted(live[|live| - 1], id) then 1 else 0)
  }

  lemma {:induction false} CountedMeansPresent(live: seq<Live>, id: string)
    ensures LiveCount(live, id) > 0 <==> exists i :: 0 <= i < |live| && Counted(live[i], id)
  {
    if live != [] {
      CountedMeansPresent(live[..|live| - 1], id);
    }
  }

  /** The row shows a mounted card with this identity. */
  ghost predicate Mounted(l: Live, id: string) {
    l.id == id && (l.state == Enrolled || l.state == Duplicate)
  }

  /** A card observed exactly once, enrolled: the only kind that updates the registry. */
  ghost predicate Observed(live: seq<Live>, i: int) {
    && 0 <= i < |live| && live[i].id != "" && live[i].state == Enrolled
    && forall j :: 0 <= j < |live| && j != i ==> !Mounted(live[j], live[i].id)
  }

  ghost predicate Anonymous(l: Live) {
    l.state == NotMounted && l.id == ""
  }

  /** The row of a recorded card that is not mounted. */
  ghost function Remembered(id: string, r: RegistryRecord): Live {
    Live(r.lastSource, id, NotMounted, r.retainedBytes)
  }

  /** Nothing is forgotten, and exactly the observed cards are recorded anew. */
  ghost predicate Merged(cards: Cards, live: seq<Live>, n: nat, merged: Cards) {
    && n <= |live|
    && cards.Keys <= merged.Keys
    && (forall id :: id in merged && id !in cards ==> exists i :: 0 <= i < n && Observed(live, i) && live[i].id == id)
    && (forall i :: 0 <= i < n && Observed(live, i) ==>
          live[i].id in merged && merged[live[i].id] == RegistryRecord(live[i].source, live[i].retainedBytes))
    && (forall id :: id in cards && (forall i :: 0 <= i < n ==> !(Observed(live, i) && live[i].id == id)) ==>
          merged[id] == cards[id])
  }

  /** Merging has one result. */
  lemma MergedIsOne(cards: Cards, live: seq<Live>, a: Cards, b: Cards)
    requires Merged(cards, live, |live|, a) && Merged(cards, live, |live|, b)
    ensures a == b
  {
    forall id
      ensures id in a <==> id in b
      ensures id in a ==> a[id] == b[id]
    {
      if i :| 0 <= i < |live| && Observed(live, i) && live[i].id == id {
      } else {
        assert id in a <==> id in cards;
        assert id in b <==> id in cards;
      }
    }
  }

  /** The bound on the write: whatever merging these cards gives is a registry that can be read back. */
  ghost predicate Fits(cards: Cards, live: seq<Live>) {
    forall merged :: Merged(cards, live, |live|, merged) ==> ValidRegistry(merged)
  }

  lemma MergedFacts(cards: Cards, live: seq<Live>, merged: Cards)
    requires Merged(cards, live, |live|, merged) && "" !in cards
    ensures cards.Keys <= merged.Keys && "" !in merged
    ensures Fits(cards, live) <==> ValidRegistry(merged)
  {
    forall other | Merged(cards, live, |live|, other)
      ensures other == merged
    {
      MergedIsOne(cards, live, other, merged);
    }
  }

  /** Rows change only where an anonymous absent slot is taken over by the card last seen there. */
  ghost predicate Extends(cards: Cards, live: seq<Live>, inventory: seq<Live>) {
    && |live| <= |inventory|
    && (forall i :: 0 <= i < |live| ==>
          inventory[i] == live[i]
          || (Anonymous(live[i]) && inventory[i].id in cards && inventory[i] == Remembered(inventory[i].id, cards[inventory[i].id])
              && inventory[i].source == live[i].source))
    && (forall i :: |live| <= i < |inventory| ==>
          inventory[i].id in cards && inventory[i] == Remembered(inventory[i].id, cards[inventory[i].id]))
  }

  ghost predicate Lists(inventory: seq<Live>, id: string) {
    exists i :: 0 <= i < |inventory| && inventory[i].id == id
  }

  /** This row is not one of the inspected sources any more. */
  ghost predicate Taken(live: seq<Live>, inventory: seq<Live>, i: int) {
    0 <= i < |inventory| && (i >= |live| || inventory[i] != live[i])
  }

  /** An inspected source of this name that is absent and has no identity. */
  ghost predicate Vacant(inventory: seq<Live>, i: int, source: string) {
    0 <= i < |inventory| && Anonymous(inventory[i]) && inventory[i].source == source
  }

  /**
   * Each identity of ids that no mounted card has is remembered in exactly one row,
   * nothing else is, and such a row is the first vacant one of its source, or comes
   * after all sources when there is none.
   */
  ghost predicate RememberedOnce(ids: set<string>, live: seq<Live>, inventory: seq<Live>) {
    && (forall i :: Taken(live, inventory, i) ==>
          inventory[i].id in ids && forall k :: 0 <= k < |live| ==> !Mounted(live[k], inventory[i].id))
    && (forall id :: id in ids && (forall k :: 0 <= k < |live| ==> !Mounted(live[k], id)) ==>
          exists i :: Taken(live, inventory, i) && inventory[i].id == id)
    && (forall i, j :: Taken(live, inventory, i) && Taken(live, inventory, j) && inventory[i].id == inventory[j].id ==> i == j)
    && (forall i, j :: Taken(live, inventory, i) && 0 <= j < i ==> !Vacant(inventory, j, inventory[i].source))
  }

  /** Rows of a mounted card are those inspected; a card observed once and enrolled is one row among those mounted. */
  lemma MountedAsInspected(cards: Cards, live: seq<Live>, inventory: seq<Live>, id: string)
    requires "" !in cards && Extends(cards, live, inventory) && RememberedOnce(cards.Keys, live, inventory)
    requires exists k :: 0 <= k < |live| && Mounted(live[k], id) && id != ""
    ensures forall i :: 0 <= i < |inventory| && inventory[i].id == id ==> i < |live| && inventory[i] == live[i]
    ensures forall i :: 0 <= i < |live| && live[i].id == id ==> inventory[i] == live[i]
    ensures forall i, j :: Observed(live, i) && live[i].id == id && 0 <= j < |inventory| && Mounted(inventory[j], id) ==> j == i
  {
    var k :| 0 <= k < |live| && Mounted(live[k], id);
    forall i | Taken(live, inventory, i)
      ensures inventory[i].id != id
    {
      assert !Mounted(live[k], inventory[i].id);
    }
  }

  /**
   * A card observed once and enrolled is in the inventory as it was inspected, and
   * no row but those inspected carries its identity.
   */
  ghost predicate ObservedAsInspected(live: seq<Live>, inventory: seq<Live>) {
    && |live| <= |inventory|
    && forall i :: Observed(live, i) ==>
         && inventory[i] == live[i]
         && (forall j :: 0 <= j < |inventory| && Mounted(inventory[j], live[i].id) ==> j == i)
         && forall j :: 0 <= j < |inventory| && inventory[j].id == live[i].id ==> j < |live| && inventory[j] == live[j]
  }

  lemma ObservedRows(cards: Cards, live: seq<Live>, inventory: seq<Live>)
    requires "" !in cards && Extends(cards, live, inventory) && RememberedOnce(cards.Keys, live, inventory)
    ensures ObservedAsInspected(live, inventory)
  {
    hide RememberedOnce;
    forall i | Observed(live, i)
      ensures inventory[i] == live[i]
      ensures forall j :: 0 <= j < |inventory| && Mounted(inventory[j], live[i].id) ==> j == i
      ensures forall j :: 0 <= j < |inventory| && inventory[j].id == live[i].id ==> j < |live| && inventory[j] == live[j]
    {
      assert Mounted(live[i], live[i].id);
      MountedAsInspected(cards, live, inventory, live[i].id);
    }
  }

  lemma CountedIsMounted(live: seq<Live>, id: string)
    ensures LiveCount(live, id) > 0 <==> id != "" && exists i :: 0 <= i < |live| && Mounted(live[i], id)
  {
    CountedMeansPresent(live, id);
    if id != "" && exists i :: 0 <= i < |live| && Mounted(live[i], id) {
      var i :| 0 <= i < |live| && Mounted(live[i], id);
      assert Counted(live[i], id);
    }
  }

  /** One counted row that is enrolled is a card observed once. */
  lemma CountedOnce(live: seq<Live>, i: int)
    requires 0 <= i < |live|
    ensures live[i].id != "" && LiveCount(live, live[i].id) == 1 && live[i].state == Enrolled <==> Observed(live, i)
  {
    if live[i].id != "" && live[i].state == Enrolled {
      assert Counted(live[i], live[i].id);
      CountedMeansPresent(live, live[i].id);
      if LiveCount(live, live[i].id) == 1 {
        forall j | 0 <= j < |live| && j != i
          ensures !Mounted(live[j], live[i].id)
        {
          if Mounted(live[j], live[i].id) {
            TwoRowsCountTwo(live, live[i].id, if i < j then i else j, if i < j then j else i);
          }
        }
      }
      if Observed(live, i) {
        OnlyOneCounts(live, live[i].id, i);
      }
    }
  }

  lemma {:induction false} OnlyOneCounts(live: seq<Live>, id: string, i: int)
    requires 0 <= i < |live| && forall j :: 0 <= j < |live| && j != i ==> !Counted(live[j], id)
    ensures LiveCount(live, id) <= 1
  {
    var rest := live[..|live| - 1];
    if i < |rest| {
      OnlyOneCounts(rest, id, i);
    } else {
      CountedMeansPresent(rest, id);
    }
  }

  lemma {:induction false} TwoRowsCountTwo(live: seq<Live>, id: string, i: int, j: int)
    requires 0 <= i < j < |live| && Counted(live[i], id) && Counted(live[j], id)
    ensures LiveCount(live, id) >= 2
  {
    var rest := live[..|live| - 1];
    if j < |live| - 1 {
      TwoRowsCountTwo(rest, id, i, j);
    } else {
      CountedMeansPresent(rest, id);
      assert Counted(rest[i], id);
    }
  }

  class RegistryFiles {
    var dir: Cell<Dir>

    constructor (dir: Cell<Dir>)
      ensures this.dir == dir
    {
      this.dir := dir;
    }

    /** One metadata step; in an uncut run it happens. */
    method Step(next: Dir, uncut: bool) returns (ok: bool)
      modifies this
      ensures dir == if ok then old(dir).Write(next) else old(dir)
      ensures uncut ==> ok
    {
      ok := *;
      ok := ok || uncut;
      if ok {
        dir := dir.Write(next);
      }
    }

    method Sync(uncut: bool) returns (ok: bool)
      modifies this
      ensures dir == if ok then old(dir).Flushed() else old(dir)
      ensures uncut ==> ok
    {
      ok := *;
      ok := ok || uncut;
      if ok {
        dir := dir.Flushed();
      }
    }

    /** Returns the registry, or refuses; the files afterwards stand for the same registry. */
    method Recover(uncut: bool) returns (ok: bool, cards: Cards)
      modifies this
      ensures KeepsValue(old(dir), dir) && Value(dir.current) == Value(old(dir).current)
      ensures KeepsUnsafe(old(dir), dir)
      ensures !Obstructed(old(dir).current) ==> !Obstructed(dir.current)
      ensures ok ==> Value(old(dir).current) == Some(cards) && Value(dir.current) == Some(cards)
      ensures ok ==> dir.current.temporary.NoFile? && (dir.Settled() || dir == old(dir))
      ensures ok ==> dir.current.current == Listing(cards) || (dir.current.current.NoFile? && dir.current.backup.NoFile?)
      ensures ok ==> dir.current.backup.NoFile? || Readable(dir.current.backup)
      ensures ok ==> dir.current.backup in {old(dir).current.backup, NoFile}
      ensures ok && !dir.current.current.NoFile? ==> dir.Settled()
      ensures Value(old(dir).current) == None ==> !ok && dir == old(dir)
      ensures ok ==> !Obstructed(old(dir).current)
      ensures uncut ==> (ok <==> Value(old(dir).current).Some? && !Obstructed(old(dir).current))
    {
      var d := dir.current;
      cards := map[];
      var current := ReadRegistry(d.current);
      if current.Some? {
        ok := KeepCurrent(uncut);
        cards := current.value;
        return;
      }
      var backup := ReadRegistry(d.backup);
      if backup.Some? {
        ok := RestoreBackup(uncut);
        cards := backup.value;
        return;
      }
      if !d.current.NoFile? || !d.backup.NoFile? {
        return false, map[];
      }
      ok := true;
      if !d.temporary.NoFile? {
        ok := !(d.temporary.Damaged? && !d.temporary.regular);
        if ok {
          ok := Step(d.(temporary := NoFile), uncut);
        }
        if ok {
          ok := Sync(uncut);
        }
      }
    }

    /** The steady file is good: drop leftovers, and confirm the filesystem in any case. */
    method KeepCurrent(uncut: bool) returns (ok: bool)
      requires Readable(dir.current.current)
      modifies this
      ensures KeepsValue(old(dir), dir) && Value(dir.current) == Value(old(dir).current)
      ensures KeepsUnsafe(old(dir), dir)
      ensures !Obstructed(old(dir).current) ==> !Obstructed(dir.current)
      ensures ok ==> dir.Settled() && dir.current == old(dir).current.(temporary := NoFile,
                backup := if Readable(old(dir).current.backup) then old(dir).current.backup else NoFile)
      ensures ok ==> !Obstructed(old(dir).current)
      ensures uncut && !Obstructed(old(dir).current) ==> ok
    {
      ok := true;
      var backup := ReadRegistry(dir.current.backup);
      if !dir.current.temporary.NoFile? {
        if dir.current.temporary.Damaged? && !dir.current.temporary.regular {
          return false;
        }
        ok := Step(dir.current.(temporary := NoFile), uncut);
        if !ok {
          return;
        }
      }
      if !dir.current.backup.NoFile? && backup.None? {
        if dir.current.backup.Damaged? && !dir.current.backup.regular {
          return false;
        }
        ok := Step(dir.current.(backup := NoFile), uncut);
        if !ok {
          return;
        }
      }
      ok := Sync(uncut);
    }

    method RestoreBackup(uncut: bool) returns (ok: bool)
      requires !Readable(dir.current.current) && Readable(dir.current.backup)
      modifies this
      ensures KeepsValue(old(dir), dir) && Value(dir.current) == Value(old(dir).current)
      ensures KeepsUnsafe(old(dir), dir)
      ensures !Obstructed(old(dir).current) ==> !Obstructed(dir.current)
      ensures ok ==> dir.Settled() && dir.current == Dir(old(dir).current.backup, NoFile, NoFile)
      ensures ok ==> !Obstructed(old(dir).current)
      ensures uncut && !Obstructed(old(dir).current) ==> ok
    {
      ok := true;
      if !dir.current.current.NoFile? {
        if dir.current.current.Damaged? && !dir.current.current.regular {
          return false;
        }
        ok := Step(dir.current.(current := NoFile), uncut);
        if !ok {
          return;
        }
      }
      if !dir.current.temporary.NoFile? {
        if dir.current.temporary.Damaged? && !dir.current.temporary.regular {
          return false;
        }
        ok := Step(dir.current.(temporary := NoFile), uncut);
        if !ok {
          return;
        }
      }
      ok := Step(dir.current.(current := dir.current.backup, backup := NoFile), uncut);
      if ok {
        ok := Sync(uncut);
      }
    }

    /**
     * Writes the whole registry. The size limit is only checked when the file is
     * read back, so an oversized registry is swapped in and then refused.
     */
    method Write(cards: Cards, uncut: bool) returns (ok: bool)
      requires dir.current.temporary.NoFile?
      requires Readable(dir.current.current) || (dir.current.current.NoFile? && dir.current.backup.NoFile?)
      requires dir.current.backup.NoFile? || Readable(dir.current.backup)
      modifies this
      ensures ValidRegistry(cards) ==> Writes(old(dir), cards, dir)
      ensures !ValidRegistry(cards) ==> !ok
      ensures !ValidRegistry(cards) && Readable(old(dir).current.current) ==> KeepsValue(old(dir), dir)
      ensures ok ==> dir.Settled() && dir.current.current == Listing(cards) && dir.current.temporary.NoFile?
      ensures uncut && ValidRegistry(cards) ==> ok
      ensures uncut ==> dir.current == Dir(Listing(cards), NoFile, old(dir).current.current)
      ensures uncut ==> (Value(dir.current).Some? <==> ValidRegistry(cards) || Readable(old(dir).current.current))
    {
      ok := Step(dir.current.(temporary := Damaged(true)), uncut);
      if ok {
        ok := Step(dir.current.(temporary := Listing(cards)), uncut);
      }
      if ok {
        ok := SwapIn(cards, uncut);
      }
      if ok {
        var reread := ReadRegistry(dir.current.current);
        ok := reread.Some?;
      }
    }

    method SwapIn(cards: Cards, uncut: bool) returns (ok: bool)
      requires dir.current.temporary == Listing(cards)
      requires Readable(dir.current.current) || (dir.current.current.NoFile? && dir.current.backup.NoFile?)
      modifies this
      ensures ValidRegistry(cards) ==> Writes(old(dir), cards, dir)
      ensures !ValidRegistry(cards) && Readable(old(dir).current.current) ==> KeepsValue(old(dir), dir)
      ensures ok ==> dir.Settled() && dir.current.current == Listing(cards) && dir.current.temporary.NoFile?
      ensures ok && Readable(old(dir).current.current) ==> dir.current.backup == old(dir).current.current
      ensures ok && old(dir).current.current.NoFile? ==> dir.current.backup.NoFile?
      ensures uncut ==> ok
    {
      ok := true;
      if !dir.current.backup.NoFile? {
        ok := Step(dir.current.(backup := NoFile), uncut);
        if !ok {
          return;
        }
      }
      if !dir.current.current.NoFile? {
        ok := Step(dir.current.(backup := dir.current.current, current := NoFile), uncut);
        if !ok {
          return;
        }
      }
      ok := Step(dir.current.(current := dir.current.temporary, temporary := NoFile), uncut);
      if ok {
        ok := Sync(uncut);
      }
    }

    /**
     * The bound on the write is exact: a write that runs to its end, then restarts
     * cut anywhere, then one that is not cut. Recovery returns a registry if and
     * only if the one written can be read back or there was one before; an
     * oversized first registry leaves no copy recovery would trust.
     */
    method WriteThenRestart(cards: Cards, restarts: nat) returns (ok: bool, registry: Cards)
      requires dir.current.temporary.NoFile?
      requires Readable(dir.current.current) || (dir.current.current.NoFile? && dir.current.backup.NoFile?)
      requires dir.current.backup.NoFile? || Readable(dir.current.backup)
      modifies this
      ensures ok <==> ValidRegistry(cards) || Readable(old(dir).current.current)
      ensures ok ==> Some(registry) == if ValidRegistry(cards) then Some(cards) else Value(old(dir).current)
    {
      var before := dir.current;
      var written := Write(cards, true);
      for i := 0 to restarts
        invariant Value(dir.current) ==
                    if ValidRegistry(cards) then Some(cards) else if Readable(before.current) then Value(before) else None
        invariant !Obstructed(dir.current)
      {
        var recovered, known := Recover(false);
      }
      ok, registry := Recover(true);
    }

    /** Recover, record the cards observed once, write if anything changed, and list every recorded identity. */
    method Reconcile(live: seq<Live>, uncut: bool) returns (ok: bool, inventory: seq<Live>)
      modifies this
      ensures NeverForgets(old(dir), dir)
      ensures ok ==> Value(old(dir).current).Some? && Value(dir.current).Some?
      ensures ok ==> Merged(Value(old(dir).current).value, live, |live|, Value(dir.current).value)
      ensures ok ==> Extends(Value(dir.current).value, live, inventory)
      ensures ok ==> RememberedOnce(Value(dir.current).value.Keys, live, inventory)
      ensures ok ==> forall id :: id in Value(dir.current).value ==> Lists(inventory, id)
      ensures ok ==> ObservedAsInspected(live, inventory)
      ensures uncut ==>
                (ok <==>
                   && Value(old(dir).current).Some? && !Obstructed(old(dir).current)
                   && Fits(Value(old(dir).current).value, live))
      ensures ok && Value(dir.current) == Value(old(dir).current) ==> dir.current.backup in {old(dir).current.backup, NoFile}
    {
      hide Merged, Fits, Extends, RememberedOnce, Lists, Obstructed, ObservedAsInspected;
      inventory := [];
      var registry;
      ok, registry := Recover(uncut);
      if !ok {
        return;
      }
      var records := Merge(registry, live);
      MergedFacts(registry, live, records);
      if records != registry {
        ok := Write(records, uncut);
        if !ok {
          return;
        }
      }
      inventory := BuildInventory(records, live);
      ObservedRows(records, live, inventory);
    }

    static method Merge(registry: Cards, live: seq<Live>) returns (records: Cards)
      ensures Merged(registry, live, |live|, records)
    {
      records := registry;
      for k := 0 to |live|
        invariant Merged(registry, live, k, records)
      {
        CountedOnce(live, k);
        if live[k].id != "" && LiveCount(live, live[k].id) == 1 && live[k].state == Enrolled {
          forall i | 0 <= i < k && Observed(live, i)
            ensures live[i].id != live[k].id
          {
            assert !Mounted(live[k], live[i].id);
          }
          records := records[live[k].id := RegistryRecord(live[k].source, live[k].retainedBytes)];
        }
      }
    }

    static method BuildInventory(records: Cards, live: seq<Live>) returns (inventory: seq<Live>)
      requires "" !in records
      ensures Extends(records, live, inventory) && RememberedOnce(records.Keys, live, inventory)
      ensures forall id :: id in records ==> Lists(inventory, id)
    {
      inventory := live;
      var rest := records.Keys;
      while rest != {}
        invariant rest <= records.Keys
        invariant Extends(records, live, inventory) && RememberedOnce(records.Keys - rest, live, inventory)
        decreases |rest|
      {
        var id :| id in rest;
        ghost var done := records.Keys - rest;
        rest := rest - {id};
        assert records.Keys - rest == done + {id};
        CountedIsMounted(live, id);
        if LiveCount(live, id) == 0 {
          inventory := AddRemembered(records, live, inventory, id, done);
        }
      }
      assert records.Keys - rest == records.Keys;
      AllListed(records, live, inventory);
    }

    static lemma AllListed(records: Cards, live: seq<Live>, inventory: seq<Live>)
      requires "" !in records && Extends(records, live, inventory) && RememberedOnce(records.Keys, live, inventory)
      ensures forall id :: id in records ==> Lists(inventory, id)
    {
      forall id | id in records
        ensures Lists(inventory, id)
      {
        if k :| 0 <= k < |live| && Mounted(live[k], id) {
          assert inventory[k].id == id;
        }
      }
    }

    /** Puts the remembered row in the first vacant slot of its source, or at the end. */
    static method AddRemembered(records: Cards, live: seq<Live>, inventory: seq<Live>, id: string, ghost done: set<string>)
      returns (r: seq<Live>)
      requires Extends(records, live, inventory) && RememberedOnce(done, live, inventory)
      requires id in records && id !in done && "" !in records && forall k :: 0 <= k < |live| ==> !Mounted(live[k], id)
      ensures Extends(records, live, r) && RememberedOnce(done + {id}, live, r)
    {
      var row := Live(records[id].lastSource, id, NotMounted, records[id].retainedBytes);
      for index := 0 to |inventory|
        invariant forall j :: 0 <= j < index ==> !Vacant(inventory, j, row.source)
      {
        var l := inventory[index];
        if l.source == records[id].lastSource && l.state == NotMounted && l.id == "" {
          r := inventory[index := row];
          OneMoreRemembered(records, live, inventory, r, index, id, done);
          return;
        }
      }
      r := inventory + [row];
      OneMoreRemembered(records, live, inventory, r, |inventory|, id, done);
    }

    static lemma OneMoreRemembered(records: Cards, live: seq<Live>, inventory: seq<Live>, r: seq<Live>, at: nat, id: string,
                                   done: set<string>)
      requires Extends(records, live, inventory) && RememberedOnce(done, live, inventory)
      requires id in records && id !in done && "" !in records && forall k :: 0 <= k < |live| ==> !Mounted(live[k], id)
      requires at < |r| && r[at] == Remembered(id, records[id])
      requires (at < |inventory| && r == inventory[at := r[at]] && Vacant(inventory, at, r[at].source))
               || (at == |inventory| && r == inventory + [r[at]])
      requires forall j :: 0 <= j < at ==> !Vacant(inventory, j, r[at].source)
      ensures Extends(records, live, r) && RememberedOnce(done + {id}, live, r)
    {
      assert at < |live| ==> inventory[at] == live[at];
      forall i | i != at
        ensures Taken(live, r, i) <==> Taken(live, inventory, i)
        ensures 0 <= i < |r| ==> r[i] == inventory[i]
      {
      }
      assert Taken(live, r, at);
      forall k | k in done && (forall l :: 0 <= l < |live| ==> !Mounted(live[l], k))
        ensures exists i :: Taken(live, r, i) && r[i].id == k
      {
        var i :| Taken(live, inventory, i) && inventory[i].id == k;
        assert i != at;
        assert Taken(live, r, i) && r[i].id == k;
      }
      forall i, j | Taken(live, r, i) && 0 <= j < i
        ensures !Vacant(r, j, r[i].source)
      {
        if j == at {
          assert r[at].id != "";
        } else if i == at {
          assert r[j] == inventory[j] && !Vacant(inventory, j, r[at].source);
        } else {
          assert Taken(live, inventory, i) && r[j] == inventory[j] && r[i] == inventory[i];
          assert !Vacant(inventory, j, inventory[i].source);
        }
      }
    }
  }

  // ------------------------------------------------------------------ whole runs

  ghost predicate WriteRun(cards: Cards, run: seq<Cell<Dir>>) {
    && |run| >= 2
    && Writes(run[0], cards, run[1])
    && forall i :: 1 <= i < |run| - 1 ==> KeepsValue(run[i], run[i + 1]) || run[i].Survives(run[i + 1])
  }

  /** A write, then any power losses and recoveries, each possibly cut: the old registry or the new one. */
  lemma {:induction false} WriteIsAtomic(cards: Cards, run: seq<Cell<Dir>>, i: nat, d: Dir)
    requires WriteRun(cards, run) && run[0].Settled() && 1 <= i < |run| && run[i].Possible(d)
    ensures Value(d) in {Value(run[0].current), Some(cards)}
  {
    if i > 1 {
      assert KeepsValue(run[i - 1], run[i - 1 + 1]) || run[i - 1].Survives(run[i - 1 + 1]);
      if run[i - 1].Possible(d) {
        WriteIsAtomic(cards, run, i - 1, d);
      } else {
        WriteIsAtomic(cards, run, i - 1, run[i - 1].current);
      }
    }
  }
}
