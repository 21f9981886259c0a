/**
 * The three config files and what recovery makes of them.
 *
 * A cell of directories stands for the config directory: metadata steps on one
 * directory survive a power loss as a prefix, so every possible directory is one
 * the code has passed through.
 */
module ConfigFiles {
  import opened Durable

  const MAX_CONFIG_BYTES := 8 * 1024 * 1024

  type Text = seq<int>

  datatype Slot = Missing | Regular(text: Text) | Irregular

  datatype Stamp = Stamp(upstreamVersion: string, configVersion: int, device: string, certificate: Text, key: Text)

  datatype StampSlot = NoStamp | Stamped(stamp: Stamp) | BadStamp

  /** The config directory: the three config slots, the identity, and its generation marker. */
  datatype Dir = Dir(
    config: Slot, temporary: Slot, backup: Slot,
    certificate: Slot, key: Slot, stamp: StampSlot, stampTemporary: StampSlot)

  datatype Outcome = Ready | Clean | NoKnownGood | Failed

  /** Inspecting refuses what is not a regular file of bounded size. */
  ghost predicate Inspectable(s: Slot) {
    s.Missing? || (s.Regular? && |s.text| <= 8_388_608)
  }

  ghost predicate Good(valid: Text -> bool, s: Slot) {
    s.Regular? && |s.text| <= 8_388_608 && valid(s.text)
  }

  /** The config this directory stands for: the steady file, or else the last known-good backup. */
  ghost function Value(valid: Text -> bool, d: Dir): Option<Text> {
    if Good(valid, d.config) then Some(d.config.text)
    else if Good(valid, d.backup) then Some(d.backup.text)
    else None
  }

  ghost predicate HasIdentity(d: Dir) {
    !d.certificate.Missing? || !d.key.Missing?
  }

  /** Only the three config slots differ. */
  ghost predicate OnlyConfig(d: Dir, d': Dir) {
    d' == d.(config := d'.config, temporary := d'.temporary, backup := d'.backup)
  }

  // ---------------------------------------------------- what the methods promise

  /** Recovery can look at all three files. */
  ghost predicate Readable(d: Dir) {
    Inspectable(d.config) && Inspectable(d.temporary) && Inspectable(d.backup)
  }

  /** Whatever may be on disk afterwards was there before or has the same value. */
  ghost predicate KeepsValue(valid: Text -> bool, c: Cell<Dir>, c': Cell<Dir>) {
    forall d :: c'.Possible(d) ==>
      c.Possible(d) || (Value(valid, d) == Value(valid, c.current) && OnlyConfig(c.current, d))
  }

  /** Recovery keeps the value, and what it could read stays readable. */
  ghost predicate Recovers(valid: Text -> bool, c: Cell<Dir>, c': Cell<Dir>) {
    && KeepsValue(valid, c, c')
    && (Readable(c.current) ==> forall d :: c'.Possible(d) ==> c.Possible(d) || Readable(d))
  }

  /** Without a power loss a reader finds the same value, and still in files it can inspect. */
  ghost predicate ShowsTheSame(valid: Text -> bool, d: Dir, d': Dir) {
    Value(valid, d') == Value(valid, d) && (Readable(d) ==> Readable(d')) && OnlyConfig(d, d')
  }

  /** A promotion moves from the current value to the new one, never to anything else. */
  ghost predicate Promotes(valid: Text -> bool, c: Cell<Dir>, contents: Text, c': Cell<Dir>) {
    && (forall d :: c'.Possible(d) ==>
          c.Possible(d)
          || (OnlyConfig(c.current, d) && Value(valid, d) in {Value(valid, c.current), Some(contents)}))
    && (Readable(c.current) && |contents| <= 8_388_608 ==>
          forall d :: c'.Possible(d) ==> c.Possible(d) || Readable(d))
  }

  class Directory {
    const valid: Text -> bool
    var dir: Cell<Dir>

    constructor (valid: Text -> bool, dir: Cell<Dir>)
      ensures this.valid == valid && this.dir == dir
    {
      this.valid, this.dir := valid, dir;
    }

    /** One metadata step: it happens or it fails and nothing changed; in an uncut run it happens. */
    method Step(next: Dir, uncut: bool) returns (ok: bool)
      modifies this
      ensures dir == if ok then old(dir).Write(next) else old(dir)
      ensures uncut ==> ok
    {
      ok := *;
      ok := ok || uncut;
      if ok {
        dir := dir.Write(next);
      }
    }

    method Sync(uncut: bool) returns (ok: bool)
      modifies this
      ensures dir == if ok then old(dir).Flushed() else old(dir)
      ensures uncut ==> ok
    {
      ok := *;
      ok := ok || uncut;
      if ok {
        dir := dir.Flushed();
      }
    }

    /** Power goes away and comes back: the directory shows one of its possible states. */
    method PowerLoss()
      modifies this
      ensures old(dir).Survives(dir)
    {
      var k: int := *;
      dir := Cell([], if 0 <= k < |dir.older| then dir.older[k] else dir.current);
    }

    /** inspectXML: what is there must be a regular file of bounded size, and may be a config. */
    method Inspect(s: Slot) returns (ok: bool, good: bool)
      ensures ok <==> Inspectable(s)
      ensures good <==> Good(valid, s)
    {
      good := false;
      if s.Missing? {
        return true, false;
      }
      if !s.Regular? || |s.text| > MAX_CONFIG_BYTES {
        return false, false;
      }
      return true, valid(s.text);
    }

    /** The SYNC-1 state table over config.xml, its temporary and its backup. */
    method RecoverConfig(uncut: bool) returns (r: Outcome, changed: bool)
      modifies this
      ensures Recovers(valid, old(dir), dir) && ShowsTheSame(valid, old(dir).current, dir.current)
      ensures r == Ready ==> Good(valid, dir.current.config) && dir.current.temporary.Missing?
      ensures r == Ready ==> Value(valid, old(dir).current) == Some(dir.current.config.text)
      ensures r == Ready ==> dir.current.backup.Missing? || Good(valid, dir.current.backup)
      ensures r in {Ready, Clean} && changed ==> dir.Settled()
      ensures r in {Ready, Clean} && !changed ==> dir == old(dir)
      ensures r in {Ready, Clean} ==> (changed <==> dir.current != old(dir).current)
      ensures r == Clean ==> dir.current == old(dir).current.(config := Missing, temporary := Missing, backup := Missing)
      ensures r in {Clean, NoKnownGood} ==> Value(valid, old(dir).current) == None
      ensures r == Clean ==> !HasIdentity(old(dir).current)
      ensures r == NoKnownGood ==> HasIdentity(old(dir).current) && dir == old(dir)
      ensures !Readable(old(dir).current) ==> r == Failed && dir == old(dir)
      ensures uncut && Readable(old(dir).current) ==>
                r == if Value(valid, old(dir).current).Some? then Ready
                     else if old(dir).current.certificate.Irregular? || old(dir).current.key.Irregular? then Failed
                     else if HasIdentity(old(dir).current) then NoKnownGood
                     else Clean
    {
      var d := dir.current;
      var readable, good := Inspect(d.config);
      if !readable {
        return Failed, false;
      }
      var temporaryReadable, _ := Inspect(d.temporary);
      if !temporaryReadable {
        return Failed, false;
      }
      var backupReadable, known := Inspect(d.backup);
      if !backupReadable {
        return Failed, false;
      }
      if good {
        r, changed := KeepConfig(known, uncut);
        return;
      }
      if known {
        r, changed := RestoreKnownGood(uncut);
        return;
      }
      if d.certificate.Irregular? || d.key.Irregular? {
        return Failed, false;
      }
      if d.certificate.Regular? || d.key.Regular? {
        return NoKnownGood, false;
      }
      r, changed := DiscardAll(uncut);
    }

    method KeepConfig(known: bool, uncut: bool) returns (r: Outcome, changed: bool)
      requires Good(valid, dir.current.config) && (known <==> Good(valid, dir.current.backup))
      modifies this
      ensures Recovers(valid, old(dir), dir) && ShowsTheSame(valid, old(dir).current, dir.current)
      ensures r == Ready || r == Failed
      ensures r == Ready ==> dir.current == old(dir).current.(temporary := Missing,
                backup := if Good(valid, old(dir).current.backup) then old(dir).current.backup else Missing)
      ensures r == Ready ==> if changed then dir.Settled() else dir == old(dir)
      ensures r != Failed ==> (changed <==> dir.current != old(dir).current)
      ensures uncut ==> r == Ready
    {
      changed := false;
      var ok := true;
      if !dir.current.temporary.Missing? {
        ok := Step(dir.current.(temporary := Missing), uncut);
        if !ok {
          return Failed, changed;
        }
        changed := true;
      }
      if !dir.current.backup.Missing? && !known {
        ok := Step(dir.current.(backup := Missing), uncut);
        if !ok {
          return Failed, changed;
        }
        changed := true;
      }
      if changed {
        ok := Sync(uncut);
      }
      r := if ok then Ready else Failed;
    }

    method RestoreKnownGood(uncut: bool) returns (r: Outcome, changed: bool)
      requires !Good(valid, dir.current.config) && Good(valid, dir.current.backup)
      modifies this
      ensures Recovers(valid, old(dir), dir) && ShowsTheSame(valid, old(dir).current, dir.current)
      ensures r == Ready || r == Failed
      ensures changed && (r == Ready ==> dir.Settled())
      ensures r == Ready ==> dir.current == old(dir).current.(config := old(dir).current.backup, temporary := Missing, backup := Missing)
      ensures r != Failed ==> (changed <==> dir.current != old(dir).current)
      ensures uncut ==> r == Ready
    {
      changed := true;
      var ok := true;
      if !dir.current.config.Missing? {
        ok := Step(dir.current.(config := Missing), uncut);
        if !ok {
          return Failed, true;
        }
      }
      if !dir.current.temporary.Missing? {
        ok := Step(dir.current.(temporary := Missing), uncut);
        if !ok {
          return Failed, true;
        }
      }
      ok := Step(dir.current.(config := dir.current.backup, backup := Missing), uncut);
      if ok {
        ok := Sync(uncut);
      }
      r := if ok then Ready else Failed;
    }

    method DiscardAll(uncut: bool) returns (r: Outcome, changed: bool)
      requires Value(valid, dir.current) == None
      modifies this
      ensures Recovers(valid, old(dir), dir) && ShowsTheSame(valid, old(dir).current, dir.current)
      ensures r == Clean || r == Failed
      ensures r == Clean ==> dir.current == old(dir).current.(config := Missing, temporary := Missing, backup := Missing)
      ensures r == Clean ==> if changed then dir.Settled() else dir == old(dir)
      ensures r != Failed ==> (changed <==> dir.current != old(dir).current)
      ensures uncut ==> r == Clean
    {
      changed := false;
      var ok := true;
      if !dir.current.config.Missing? {
        ok := Step(dir.current.(config := Missing), uncut);
        if !ok {
          return Failed, changed;
        }
        changed := true;
      }
      if !dir.current.temporary.Missing? {
        ok := Step(dir.current.(temporary := Missing), uncut);
        if !ok {
          return Failed, changed;
        }
        changed := true;
      }
      if !dir.current.backup.Missing? {
        ok := Step(dir.current.(backup := Missing), uncut);
        if !ok {
          return Failed, changed;
        }
        changed := true;
      }
      if changed {
        ok := Sync(uncut);
      }
      r := if ok then Clean else Failed;
    }

    /**
     * Promotes new contents through the temporary: verify it there, drop the old
     * backup, move the steady file to backup, move the temporary into place, flush,
     * verify again. A failed second verification puts the backup back; rereads says
     * what that one finds.
     */
    method Promote(contents: Text, verify: Text -> bool, rereads: bool, uncut: bool) returns (ok: bool)
      requires Good(valid, dir.current.config)
      requires verify(contents) ==> |contents| <= 8_388_608 && valid(contents)
      modifies this
      ensures Promotes(valid, old(dir), contents, dir)
      ensures !verify(contents) ==> !ok && KeepsValue(valid, old(dir), dir)
      ensures ok ==> dir.Settled() && dir.current == old(dir).current.(config := Regular(contents), temporary := Missing,
                                                                     backup := old(dir).current.config)
      ensures !old(dir).current.temporary.Missing? || old(dir).current.backup.Irregular? ==> !ok && dir == old(dir)
      ensures !rereads ==> !ok
      ensures uncut && old(dir).current.temporary.Missing? && !old(dir).current.backup.Irregular? && verify(contents) ==>
                (ok <==> rereads)
      ensures uncut && old(dir).current.temporary.Missing? && !old(dir).current.backup.Irregular? && verify(contents) && !rereads ==>
                dir.Settled() && dir.current == old(dir).current.(backup := Missing)
      ensures uncut && old(dir).current.temporary.Missing? && !old(dir).current.backup.Irregular? && !verify(contents) ==>
                dir.current == old(dir).current.(temporary := Regular(contents))
      ensures uncut && old(dir).current.temporary.Missing? && Readable(old(dir).current) ==>
                (Readable(dir.current) <==> |contents| <= 8_388_608)
    {
      if !dir.current.temporary.Missing? || dir.current.backup.Irregular? {
        return false;
      }
      ok := WriteTemporary(contents, uncut);
      if !ok || !verify(contents) {
        return false;
      }
      ok := SwapIn(uncut);
      if !ok {
        return;
      }
      if !rereads {
        var restored := RestoreBackup(uncut);
      }
      return rereads;
    }

    /**
     * A promotion cut anywhere, power lost, any number of recoveries cut anywhere
     * with power lost after each, and then one that is not cut: it reports Ready
     * with exactly the old config or exactly the new one.
     */
    method PromoteThenRecover(contents: Text, verify: Text -> bool, rereads: bool, attempts: nat) returns (r: Outcome)
      requires dir.Settled() && Good(valid, dir.current.config) && Readable(dir.current)
      requires verify(contents) ==> valid(contents)
      requires |contents| <= 8_388_608
      modifies this
      ensures r == Ready && dir.current.config in {old(dir).current.config, Regular(contents)}
      ensures dir.current.temporary.Missing? && OnlyConfig(old(dir).current, dir.current)
    {
      var before := dir.current;
      var ok := Promote(contents, verify, rereads, false);
      for i := 0 to attempts
        invariant Between(before, contents, dir)
      {
        PowerLoss();
        var _, _ := RecoverConfig(false);
      }
      PowerLoss();
      var changed;
      r, changed := RecoverConfig(true);
      assert dir.Possible(dir.current);
    }

    /**
     * The bound on the contents is exact: a promotion that runs to its end, then
     * restarts cut anywhere, then one that is not cut. Recovery gets the config
     * back if and only if the contents fit; larger ones stay in the temporary,
     * where every restart refuses to look at them.
     */
    method PromoteThenRestart(contents: Text, verify: Text -> bool, rereads: bool, restarts: nat) returns (r: Outcome)
      requires Good(valid, dir.current.config) && Readable(dir.current) && dir.current.temporary.Missing?
      requires verify(contents) ==> |contents| <= 8_388_608 && valid(contents)
      modifies this
      ensures r == Ready <==> |contents| <= 8_388_608
      ensures r == Ready ==>
                dir.current.config == if verify(contents) && rereads then Regular(contents) else old(dir).current.config
      ensures |contents| > 8_388_608 ==>
                r == Failed && dir.current == old(dir).current.(temporary := Regular(contents))
    {
      var before := dir.current;
      var ok := Promote(contents, verify, rereads, true);
      for i := 0 to restarts
        invariant Readable(dir.current) <==> |contents| <= 8_388_608
        invariant Value(valid, dir.current) == Some(if verify(contents) && rereads then contents else before.config.text)
        invariant |contents| > 8_388_608 ==> dir.current == before.(temporary := Regular(contents))
      {
        var _, _ := RecoverConfig(false);
      }
      var changed;
      r, changed := RecoverConfig(true);
    }

    /** Every state that may come back can be read and stands for the old or the new config. */
    ghost predicate Between(before: Dir, contents: Text, c: Cell<Dir>)
      requires before.config.Regular?
    {
      forall d :: c.Possible(d) ==>
        Readable(d) && OnlyConfig(before, d) && Value(valid, d) in {Some(before.config.text), Some(contents)}
    }

    /** Creating, writing and flushing the temporary; a cut may leave any prefix of it. */
    method WriteTemporary(contents: Text, uncut: bool) returns (ok: bool)
      requires dir.current.temporary.Missing? && Good(valid, dir.current.config)
      modifies this
      ensures KeepsValue(valid, old(dir), dir) && Promotes(valid, old(dir), contents, dir)
      ensures dir.current == old(dir).current.(temporary := dir.current.temporary)
      ensures ok ==> dir.current.temporary == Regular(contents)
      ensures uncut ==> ok
    {
      ok := Step(dir.current.(temporary := Regular([])), uncut);
      if !ok {
        return;
      }
      var written := 0;
      while written < |contents|
        invariant ok
        invariant written <= |contents|
        invariant KeepsValue(valid, old(dir), dir) && Promotes(valid, old(dir), contents, dir)
        invariant dir.current == old(dir).current.(temporary := Regular(contents[..written]))
      {
        written := written + 1;
        ok := Step(dir.current.(temporary := Regular(contents[..written])), uncut);
        if !ok {
          return;
        }
      }
      assert contents[..|contents|] == contents;
    }

    method SwapIn(uncut: bool) returns (ok: bool)
      requires Good(valid, dir.current.config) && Good(valid, dir.current.temporary)
      modifies this
      ensures Promotes(valid, old(dir), old(dir).current.temporary.text, dir)
      ensures ok ==> dir.Settled() && dir.current == old(dir).current.(config := old(dir).current.temporary, temporary := Missing,
                                                                     backup := old(dir).current.config)
      ensures uncut ==> ok
    {
      ok := true;
      if !dir.current.backup.Missing? {
        ok := Step(dir.current.(backup := Missing), uncut);
        if !ok {
          return;
        }
      }
      ok := Step(dir.current.(backup := dir.current.config, config := Missing), uncut);
      if !ok {
        return;
      }
      ok := Step(dir.current.(config := dir.current.temporary, temporary := Missing), uncut);
      if ok {
        ok := Sync(uncut);
      }
    }

    /** Undoes a promotion whose result could not be verified; every step may fail, and the cause is reported anyway. */
    method RestoreBackup(uncut: bool) returns (ok: bool)
      requires Good(valid, dir.current.backup)
      modifies this
      ensures forall d :: dir.Possible(d) ==>
                old(dir).Possible(d)
                || (OnlyConfig(old(dir).current, d) && (Readable(old(dir).current) ==> Readable(d))
                    && Value(valid, d) in {Value(valid, old(dir).current), Some(old(dir).current.backup.text)})
      ensures ok ==>
                && dir.Settled() && dir.current.temporary in {Missing, old(dir).current.temporary}
                && dir.current == old(dir).current.(config := old(dir).current.backup, backup := Missing,
                                                    temporary := dir.current.temporary)
      ensures uncut ==> ok && dir.current.temporary.Missing?
    {
      ok := true;
      if !dir.current.temporary.Missing? {
        ok := Step(dir.current.(temporary := Missing), uncut);
      }
      if !dir.current.config.Missing? {
        ok := Step(dir.current.(config := Missing), uncut);
        if !ok {
          return;
        }
      }
      ok := Step(dir.current.(config := dir.current.backup, backup := Missing), uncut);
      if ok {
        ok := Sync(uncut);
      }
    }
  }

  // ------------------------------------------------------------------ whole runs

  /** A promotion, then any number of power losses and recoveries, each possibly cut anywhere. */
  ghost predicate PromotionRun(valid: Text -> bool, contents: Text, run: seq<Cell<Dir>>) {
    && |run| >= 2
    && Promotes(valid, run[0], contents, run[1])
    && forall i :: 1 <= i < |run| - 1 ==> Recovers(valid, run[i], run[i + 1]) || run[i].Survives(run[i + 1])
  }

  /** Whatever happens, the config is exactly the old one or exactly the new one, and nothing else in the directory moved. */
  lemma {:induction false} PromotionIsAtomic(valid: Text -> bool, contents: Text, run: seq<Cell<Dir>>, i: nat, d: Dir)
    requires PromotionRun(valid, contents, run) && run[0].Settled() && 1 <= i < |run| && run[i].Possible(d)
    ensures Value(valid, d) in {Value(valid, run[0].current), Some(contents)}
    ensures OnlyConfig(run[0].current, d)
  {
    if i > 1 {
      assert Recovers(valid, run[i - 1], run[i - 1 + 1]) || run[i - 1].Survives(run[i - 1 + 1]);
      if run[i - 1].Possible(d) {
        PromotionIsAtomic(valid, contents, run, i - 1, d);
      } else {
        PromotionIsAtomic(valid, contents, run, i - 1, run[i - 1].current);
      }
    }
  }

  /** So a recovery that reports Ready has put back the old config or kept the new one; recovery cannot lose it. */
  lemma RecoveryAfterPromotion(valid: Text -> bool, contents: Text, run: seq<Cell<Dir>>, i: nat)
    requires PromotionRun(valid, contents, run) && run[0].Settled() && 1 <= i < |run|
    requires Value(valid, run[0].current).Some?
    ensures Value(valid, run[i].current).Some?
    ensures Value(valid, run[i].current).value in {Value(valid, run[0].current).value, contents}
  {
    PromotionIsAtomic(valid, contents, run, i, run[i].current);
  }

  /**
   * Startup never gets stuck on a file too large to inspect, provided the new
   * contents fit; Directory.PromoteThenRestart shows that the bound is exact.
   */
  lemma {:induction false} PromotionStaysReadable(valid: Text -> bool, contents: Text, run: seq<Cell<Dir>>, i: nat, d: Dir)
    requires PromotionRun(valid, contents, run) && run[0].Settled() && 1 <= i < |run| && run[i].Possible(d)
    requires Readable(run[0].current) && |contents| <= 8_388_608
    ensures Readable(d)
  {
    if i > 1 {
      assert Recovers(valid, run[i - 1], run[i - 1 + 1]) || run[i - 1].Survives(run[i - 1 + 1]);
      PromotionStaysReadable(valid, contents, run, i - 1, run[i - 1].current);
      if run[i - 1].Possible(d) {
        PromotionStaysReadable(valid, contents, run, i - 1, d);
      }
    }
  }
}
