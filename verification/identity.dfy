/** Migrating an older config with the pinned generator, without ever touching the device identity. */
module Identity {
  import opened Durable
  import opened ConfigFiles

  datatype Generated = Generated(config: Text, certificate: Text, key: Text)

  /** What one device migrates from and to: the identity is fixed, the config and its marker move once. */
  datatype Migration = Migration(before: Text, after: Text, stamp: Stamp, newStamp: Stamp, certificate: Text, key: Text)

  /** A directory some run of the migration may leave behind. */
  ghost predicate OnTheWay(valid: Text -> bool, m: Migration, d: Dir) {
    && Readable(d) && d.certificate == Regular(m.certificate) && d.key == Regular(m.key)
    && Value(valid, d) in {Some(m.before), Some(m.after)}
    && d.stamp in {Stamped(m.stamp), Stamped(m.newStamp)}
    && (d.stamp == Stamped(m.newStamp) && m.newStamp != m.stamp ==> Value(valid, d) == Some(m.after))
  }

  ghost predicate AllOnTheWay(valid: Text -> bool, m: Migration, c: Cell<Dir>) {
    forall d :: c.Possible(d) ==> OnTheWay(valid, m, d)
  }

  lemma RecoveryStaysOnTheWay(valid: Text -> bool, m: Migration, c: Cell<Dir>, c': Cell<Dir>)
    requires AllOnTheWay(valid, m, c) && Recovers(valid, c, c')
    ensures AllOnTheWay(valid, m, c')
  {
    forall d | c'.Possible(d)
      ensures OnTheWay(valid, m, d)
    {
      assert OnTheWay(valid, m, c.current);
    }
  }

  lemma PowerLossStaysOnTheWay(valid: Text -> bool, m: Migration, c: Cell<Dir>, c': Cell<Dir>)
    requires AllOnTheWay(valid, m, c) && c.Survives(c')
    ensures AllOnTheWay(valid, m, c')
  {
  }

  class Migrator {
    const files: Directory
    const target: string
    const version: Text -> int
    const device: Text -> string
    const generate: (Text, Text, Text) -> Generated

    constructor (files: Directory, target: string, version: Text -> int, device: Text -> string,
                 generate: (Text, Text, Text) -> Generated)
      ensures this.files == files && this.target == target && this.version == version
      ensures this.device == device && this.generate == generate
    {
      this.files, this.target, this.version, this.device, this.generate := files, target, version, device, generate;
    }

    ghost function Inspect(upstreamVersion: string, config: Text, certificate: Text, key: Text): Stamp {
      Stamp(upstreamVersion, version(config), device(certificate), certificate, key)
    }

    /** The assumption about the pinned generator: what it makes of a config is a fixpoint of it. */
    ghost predicate Planned(m: Migration) {
      && m.stamp.device == device(m.certificate) && m.stamp.certificate == m.certificate && m.stamp.key == m.key
      && m.newStamp == Inspect(target, m.after, m.certificate, m.key)
      && Good(files.valid, Regular(m.before))
      && generate(m.before, m.certificate, m.key).config == m.after
      && generate(m.after, m.certificate, m.key).config == m.after
    }

    /** The generator writes a valid config and keeps the identity it is given, as a migration that succeeds requires. */
    ghost predicate Faithful(m: Migration) {
      && Good(files.valid, Regular(m.after))
      && generate(m.before, m.certificate, m.key) == Generated(m.after, m.certificate, m.key)
      && generate(m.after, m.certificate, m.key) == Generated(m.after, m.certificate, m.key)
    }

    /** Nothing to do: the marker already names the pinned version and the version of this config. */
    ghost predicate UpToDate(stamp: Stamp, config: Text) {
      stamp.upstreamVersion == target && stamp.configVersion == version(config)
    }

    /**
     * Any number of startups cut anywhere, power lost after each, and then one that
     * is not cut: config and marker agree on the new version, or on the old one if
     * it was the pinned one already.
     */
    method AnyStartups(attempts: nat, ghost m: Migration) returns (ok: bool)
      requires Planned(m) && Faithful(m) && AllOnTheWay(files.valid, m, files.dir)
      modifies files
      ensures ok && Migrated(m) && AllOnTheWay(files.valid, m, files.dir)
    {
      for i := 0 to attempts
        invariant AllOnTheWay(files.valid, m, files.dir)
      {
        NeverMismatched(m);
        ok := Startup(false, m);
        ghost var left := files.dir;
        files.PowerLoss();
        PowerLossStaysOnTheWay(files.valid, m, left, files.dir);
      }
      NeverMismatched(m);
      ok := Startup(true, m);
    }

    lemma NeverMismatched(m: Migration)
      requires Planned(m) && AllOnTheWay(files.valid, m, files.dir)
      ensures !Mismatched(files.dir.current)
    {
      assert OnTheWay(files.valid, m, files.dir.current);
    }

    /** Certificate, key and marker do not belong together. */
    ghost predicate Mismatched(d: Dir) {
      !(&& d.certificate.Regular? && d.key.Regular? && d.stamp.Stamped?
        && d.stamp.stamp.device == device(d.certificate.text)
        && d.stamp.stamp.certificate == d.certificate.text && d.stamp.stamp.key == d.key.text)
    }

    /**
     * One startup: recover the config files, then validate or migrate. An identity
     * that does not match its marker is refused, and nothing of it is touched.
     */
    method Startup(uncut: bool, ghost m: Migration) returns (ok: bool)
      requires Mismatched(files.dir.current) || (Planned(m) && AllOnTheWay(files.valid, m, files.dir))
      modifies files
      ensures old(Mismatched(files.dir.current)) ==>
                !ok && Recovers(files.valid, old(files.dir), files.dir) && OnlyConfig(old(files.dir.current), files.dir.current)
      ensures old(!Mismatched(files.dir.current)) ==>
                && AllOnTheWay(files.valid, m, files.dir)
                && (ok ==> Migrated(m) && MigratedFrom(m, old(files.dir.current)))
                && (uncut && Faithful(m) ==> ok)
    {
      ghost var before := files.dir;
      var r, _ := files.RecoverConfig(uncut);
      if !Mismatched(before.current) {
        assert OnTheWay(files.valid, m, before.current);
        RecoveryStaysOnTheWay(files.valid, m, before, files.dir);
      }
      if r != Ready {
        return false;
      }
      ok := ValidateOrMigrate(uncut, m);
    }

    /** The end of every successful startup: config and marker agree, and a needed migration has happened. */
    ghost predicate Migrated(m: Migration)
      reads files
    {
      var d := files.dir.current;
      && d.config == Regular(if UpToDate(m.stamp, m.before) then Value(files.valid, d).GetOr(m.before) else m.after)
      && d.stamp.Stamped? && UpToDate(d.stamp.stamp, Value(files.valid, d).GetOr(m.before))
      && d.certificate == Regular(m.certificate) && d.key == Regular(m.key)
    }

    /** A config whose marker was up to date is kept as found, with its marker; any other is the new one, with the new marker. */
    ghost predicate MigratedFrom(m: Migration, found: Dir)
      reads files
    {
      var d := files.dir.current;
      && Value(files.valid, found).Some? && found.stamp.Stamped?
      && if UpToDate(found.stamp.stamp, Value(files.valid, found).value)
         then d.config == Regular(Value(files.valid, found).value) && d.stamp == found.stamp
         else d.config == Regular(m.after) && d.stamp == Stamped(m.newStamp)
    }

    method ValidateOrMigrate(uncut: bool, ghost m: Migration) returns (ok: bool)
      requires Mismatched(files.dir.current) || (Planned(m) && AllOnTheWay(files.valid, m, files.dir))
      requires Good(files.valid, files.dir.current.config) && files.dir.current.temporary.Missing?
      requires !files.dir.current.backup.Irregular?
      modifies files
      ensures old(Mismatched(files.dir.current)) ==> !ok && files.dir == old(files.dir)
      ensures old(!Mismatched(files.dir.current)) ==>
                && AllOnTheWay(files.valid, m, files.dir)
                && (ok ==> Migrated(m) && MigratedFrom(m, old(files.dir.current)))
                && (uncut && Faithful(m) ==> ok)
    {
      var d := files.dir.current;
      if !d.stamp.Stamped? || !d.certificate.Regular? || !d.key.Regular? {
        return false;
      }
      var stamp := d.stamp.stamp;
      if stamp.device != device(d.certificate.text) || stamp.certificate != d.certificate.text || stamp.key != d.key.text {
        return false;
      }
      assert OnTheWay(files.valid, m, d);
      if stamp.upstreamVersion == target && stamp.configVersion == version(d.config.text) {
        return true;
      }
      ok := Migrate(stamp, uncut, m);
    }

    /** What the generator makes of this config is valid and has the identity it was given. */
    ghost predicate KeepsIdentity(m: Migration, config: Text) {
      var out := generate(config, m.certificate, m.key);
      out.certificate == m.certificate && out.key == m.key && Good(files.valid, Regular(out.config))
    }

    /** Works on copies; the live certificate and key are only compared. */
    method Migrate(original: Stamp, uncut: bool, ghost m: Migration) returns (ok: bool)
      requires Planned(m) && AllOnTheWay(files.valid, m, files.dir)
      requires Good(files.valid, files.dir.current.config) && files.dir.current.temporary.Missing?
      requires !files.dir.current.backup.Irregular?
      requires files.dir.current.stamp == Stamped(original) && !UpToDate(original, files.dir.current.config.text)
      modifies files
      ensures AllOnTheWay(files.valid, m, files.dir)
      ensures ok ==> Migrated(m)
      ensures ok ==> MigratedFrom(m, old(files.dir.current))
      ensures old(!KeepsIdentity(m, files.dir.current.config.text)) ==> !ok && files.dir == old(files.dir)
      ensures uncut && Faithful(m) ==> ok
    {
      var d := files.dir.current;
      assert OnTheWay(files.valid, m, d);
      var ran := *;
      ran := ran || uncut;
      if !ran {
        return false;
      }
      var out := generate(d.config.text, d.certificate.text, d.key.text);
      if device(out.certificate) != original.device || out.certificate != original.certificate || out.key != original.key {
        return false;
      }
      var _, good := files.Inspect(Regular(out.config));
      if !good {
        return false;
      }
      assert out.config == m.after && original == m.stamp;
      var rereads := *;
      rereads := rereads || uncut;
      ghost var before := files.dir;
      ok := files.Promote(out.config, t => t == out.config, rereads, uncut);
      PromotionStaysOnTheWay(m, before, files.dir);
      if !ok {
        return;
      }
      var agrees := *;
      agrees := agrees || uncut;
      if !agrees {
        ghost var promoted := files.dir;
        var restored := files.RestoreBackup(uncut);
        RestoreStaysOnTheWay(m, promoted, files.dir);
        return false;
      }
      ok := ReplaceStamp(Stamp(target, version(out.config), device(out.certificate), out.certificate, out.key), uncut, m);
      assert OnTheWay(files.valid, m, files.dir.current);
    }

    lemma PromotionStaysOnTheWay(m: Migration, c: Cell<Dir>, c': Cell<Dir>)
      requires AllOnTheWay(files.valid, m, c) && Promotes(files.valid, c, m.after, c')
      requires |m.after| <= 8_388_608
      requires c.current.stamp == Stamped(m.stamp)
      ensures AllOnTheWay(files.valid, m, c')
    {
      forall d | c'.Possible(d)
        ensures OnTheWay(files.valid, m, d)
      {
        assert OnTheWay(files.valid, m, c.current);
      }
    }

    lemma RestoreStaysOnTheWay(m: Migration, c: Cell<Dir>, c': Cell<Dir>)
      requires AllOnTheWay(files.valid, m, c) && c.current.stamp == Stamped(m.stamp) && c.current.backup.Regular?
      requires c.current.backup.text in {m.before, m.after}
      requires forall d :: c'.Possible(d) ==>
                 c.Possible(d)
                 || (OnlyConfig(c.current, d) && (Readable(c.current) ==> Readable(d))
                     && Value(files.valid, d) in {Value(files.valid, c.current), Some(c.current.backup.text)})
      ensures AllOnTheWay(files.valid, m, c')
    {
      forall d | c'.Possible(d)
        ensures OnTheWay(files.valid, m, d)
      {
        assert OnTheWay(files.valid, m, c.current);
      }
    }

    /** The marker follows the promoted config, by way of its own temporary. */
    method ReplaceStamp(stamp: Stamp, uncut: bool, ghost m: Migration) returns (ok: bool)
      requires Planned(m) && stamp == m.newStamp && Good(files.valid, Regular(m.after))
      requires files.dir.Settled() && OnTheWay(files.valid, m, files.dir.current)
      requires files.dir.current.config == Regular(m.after)
      modifies files
      ensures AllOnTheWay(files.valid, m, files.dir)
      ensures ok ==> files.dir.Settled() && files.dir.current.stamp == Stamped(stamp) && files.dir.current.config == Regular(m.after)
      ensures uncut ==> ok
    {
      ok := true;
      if files.dir.current.stampTemporary != NoStamp {
        ok := files.Step(files.dir.current.(stampTemporary := NoStamp), uncut);
        if !ok {
          return;
        }
      }
      ok := files.Step(files.dir.current.(stampTemporary := BadStamp), uncut);
      if !ok {
        return;
      }
      ok := files.Step(files.dir.current.(stampTemporary := Stamped(stamp)), uncut);
      if !ok {
        return;
      }
      ok := files.Step(files.dir.current.(stamp := Stamped(stamp), stampTemporary := NoStamp), uncut);
      if ok {
        ok := files.Sync(uncut);
      }
    }
  }
}
