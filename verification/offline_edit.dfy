/**
 * The editor of a committed configuration: disable the process group, set the
 * pauses, and have the result read back before it may be promoted.
 */
module OfflineEdit {
  import opened Durable
  import opened XmlContent
  import P = XmlPauses
  import V = XmlVerify
  import S = XmlScalars
  import SF = XmlScalarFacts

  const ABOVE_OPTIONS: S.Path := ["configuration"]
  const OPTIONS: S.Path := ["configuration", "options"]
  const PRIORITY: S.Path := ["configuration", "options", "setLowPriority"]
  const HARDENING: S.Replacements := [S.Replacement(OPTIONS, "setLowPriority", "false")]

  lemma HardeningIsSimple()
    ensures S.DistinctPaths(HARDENING) && SF.Independent(HARDENING) && S.BelowRoot(HARDENING)
    ensures HARDENING[0].At() == PRIORITY
  {
  }

  // ------------------------------------------------------- the flag as it is read

  function Fold(values: seq<Content>, sofar: V.Flag): V.Flag {
    if values == [] then sofar else Fold(values[1..], V.Later(sofar, V.FlagOf(TextOf(values[0]))))
  }

  lemma {:induction false} FoldAppend(a: seq<Content>, b: seq<Content>, sofar: V.Flag)
    ensures Fold(a + b, sofar) == Fold(b, Fold(a, sofar))
  {
    if a == [] {
      assert a + b == b;
    } else {
      assert (a + b)[1..] == a[1..] + b;
      FoldAppend(a[1..], b, V.Later(sofar, V.FlagOf(TextOf(a[0]))));
    }
  }

  /** Reading a flag looks at the children of that name, the last one deciding. */
  lemma {:induction false} ReadFlagIsFold(c: Content, above: S.Path, name: string, sofar: V.Flag)
    ensures V.ReadFlag(c, name, sofar) == Fold(SF.At(c, above, above + [name]), sofar)
  {
    hide V.Later, V.FlagOf;
    match c
    case Empty =>
    case Text(_, rest) => ReadFlagIsFold(rest, above, name, sofar);
    case Comment(_, rest) => ReadFlagIsFold(rest, above, name, sofar);
    case Element(n, _, inside, rest) =>
      SF.NothingShorter(inside, above + [n], above + [name]);
      var own := if n == name then [inside] else [];
      assert (above + [n] == above + [name]) <==> n == name by {
        assert (above + [n])[|above|] == n && (above + [name])[|above|] == name;
      }
      assert SF.At(c, above, above + [name]) == own + SF.At(rest, above, above + [name]);
      FoldAppend(own, SF.At(rest, above, above + [name]), sofar);
      var next := if n == name then V.Later(sofar, V.FlagOf(TextOf(inside))) else sofar;
      assert Fold(own, sofar) == next;
      ReadFlagIsFold(rest, above, name, next);
  }

  lemma {:induction false} LowPriorityIsFold(c: Content, sofar: V.Flag)
    ensures V.LowPriority(c, sofar) == Fold(SF.At(c, ABOVE_OPTIONS, PRIORITY), sofar)
  {
    hide V.ReadFlag;
    match c
    case Empty =>
    case Text(_, rest) => LowPriorityIsFold(rest, sofar);
    case Comment(_, rest) => LowPriorityIsFold(rest, sofar);
    case Element(n, _, inside, rest) =>
      var path := ABOVE_OPTIONS + [n];
      var own := SF.At(inside, path, PRIORITY);
      assert path != PRIORITY;
      FoldAppend(own, SF.At(rest, ABOVE_OPTIONS, PRIORITY), sofar);
      assert SF.At(c, ABOVE_OPTIONS, PRIORITY) == own + SF.At(rest, ABOVE_OPTIONS, PRIORITY);
      if n == "options" {
        ReadFlagIsFold(inside, OPTIONS, "setLowPriority", sofar);
        assert path == OPTIONS && OPTIONS + ["setLowPriority"] == PRIORITY;
        LowPriorityIsFold(rest, V.ReadFlag(inside, "setLowPriority", sofar));
      } else {
        assert path[1] == n && PRIORITY[..2][1] == "options";
        ElsewhereNothing(inside, path, PRIORITY);
        LowPriorityIsFold(rest, sofar);
      }
  }

  /** Off the way to p nothing is at p. */
  lemma {:induction false} ElsewhereNothing(c: Content, above: S.Path, p: S.Path)
    requires |above| <= |p| && above != p[..|above|]
    ensures SF.At(c, above, p) == []
  {
    if !c.Empty? {
      ElsewhereNothing(c.rest, above, p);
      if c.Element? {
        var path := above + [c.name];
        assert path != p;
        if |path| <= |p| {
          assert path[..|above|] == above && p[..|path|][..|above|] == p[..|above|];
          ElsewhereNothing(c.inside, path, p);
        } else {
          SF.NothingShorter(c.inside, path, p);
        }
      }
    }
  }

  // ----------------------------------------------------------- the hardened document

  lemma {:induction false} OneRootStays(rs: S.Replacements, c: Content, seen: set<S.Path>)
    ensures S.EditContent(rs, c, [], seen).Some? ==>
              var e := S.EditContent(rs, c, [], seen).value.0;
              && (S.Roots(c) == 0 ==> Flat(e))
              && (S.Roots(c) == 1 ==> V.OneConfiguration(e))
  {
    hide S.EditElement;
    match c
    case Empty =>
    case Text(_, rest) => OneRootStays(rs, rest, seen);
    case Comment(_, rest) => OneRootStays(rs, rest, seen);
    case Element(name, _, inside, rest) =>
      var e := S.EditElement(rs, name, inside, [], seen);
      OnlyConfiguration(rs, name, inside, seen);
      if e.Some? {
        OneRootStays(rs, rest, e.value.1);
      }
  }

  lemma OnlyConfiguration(rs: S.Replacements, name: string, inside: Content, seen: set<S.Path>)
    ensures S.EditElement(rs, name, inside, [], seen).Some? ==> name == "configuration"
  {
  }

  lemma {:induction false} BelowTheRoot(c: Content, p: S.Path)
    requires V.OneConfiguration(c) && |p| >= 2
    ensures SF.At(c, [], p) == SF.At(V.Root(c).inside, ABOVE_OPTIONS, p)
  {
    if c.Element? {
      SF.NothingInFlat(c.rest, [], p);
      assert [] + [c.name] == ABOVE_OPTIONS;
    } else {
      BelowTheRoot(c.rest, p);
    }
  }

  function Hardened(c: Content): Content
    requires S.EditContent(HARDENING, c, [], {}).Some?
  {
    S.Replaced(HARDENING, c)
  }

  function HardenedInside(c: Content): Content
    requires S.EditContent(HARDENING, c, [], {}).Some?
  {
    if V.Root(Hardened(c)).Element? then V.Root(Hardened(c)).inside else Empty
  }

  /** The hardened document has one root and is read with low priority off. */
  lemma HardenedIsRead(c: Content)
    requires S.Replaceable(HARDENING, c)
    ensures V.OneConfiguration(Hardened(c))
    ensures V.LowPriority(V.Root(Hardened(c)).inside, V.Absent) == V.Present(false)
  {
    hide S.EditContent, SF.At, V.LowPriority, V.FlagOf;
    OneRootStays(HARDENING, c, {});
    HardeningIsSimple();
    SF.EveryFieldOnce(HARDENING, c, 0);
    BelowTheRoot(Hardened(c), PRIORITY);
    LowPriorityIsFold(V.Root(Hardened(c)).inside, V.Absent);
    V.BoolTextReads(false);
    var value := Text("false", Empty);
    assert [value][1..] == [] && [value][0] == value;
  }

  // ------------------------------------------------------------------- the editor

  /** The document the editor would write. */
  function Edited(d: P.Desired, c: Content): Content
    requires S.EditContent(HARDENING, c, [], {}).Some?
  {
    if P.DocumentDiffers(d, Hardened(c)) then P.PauseDocument(d, Hardened(c)) else Hardened(c)
  }

  ghost predicate Accepts(d: P.Desired, c: Content) {
    && S.Replaceable(HARDENING, c)
    && P.Editable(d, Hardened(c))
    && V.Verified(d, Edited(d, c))
  }

  /**
   * Both passes over the tokens of a document and the read-back. When the id
   * attributes are unambiguous the only way to fail the read-back is a folder
   * outside the desired set whose flag does not decode.
   */
  method ApplyOfflinePauseSet(c: Content, desired: P.Desired) returns (r: Option<P.Edit>)
    ensures r.Some? <==> Accepts(desired, c)
    ensures r.Some? ==>
              && r.value.tokens == Tokens(Edited(desired, c))
              && (r.value.changed <==> r.value.tokens != Tokens(c) || P.DocumentDiffers(desired, Hardened(c)))
    ensures S.Replaceable(HARDENING, c) && P.Editable(desired, Hardened(c)) && V.IdsUnambiguous(HardenedInside(c)) ==>
              (r.Some? <==> V.OthersReadable(desired, HardenedInside(c)))
  {
    hide S.Replaceable, S.EditContent, S.Replaced, P.Editable, P.PauseDocument, P.DocumentDiffers, V.Verified, Tokens;
    hide V.OneConfiguration, V.IdsUnambiguous, V.OthersReadable, V.LowPriority;
    var hardened := S.ReplaceXmlScalars(Tokens(c), HARDENING);
    if hardened.None? {
      return None;
    }
    HardenedIsThere(c);
    assert hardened.value == Tokens(Hardened(c));
    var rewritten := P.ReplaceManagedFolderPauses(hardened.value, desired);
    if rewritten.None? {
      return None;
    }
    var h := Hardened(c);
    assert rewritten.value.changed <==> P.DocumentDiffers(desired, h);
    if rewritten.value.changed {
      assert rewritten.value.tokens == Tokens(P.PauseDocument(desired, h));
      assert Edited(desired, c) == P.PauseDocument(desired, h);
    } else {
      assert rewritten.value.tokens == Tokens(h);
      assert Edited(desired, c) == h;
    }
    WhenVerified(desired, c);
    var ok := V.VerifyPauseSet(Edited(desired, c), desired);
    r := if ok then Some(P.Edit(rewritten.value.tokens, Tokens(c) != hardened.value || rewritten.value.changed)) else None;
  }

  lemma HardenedIsThere(c: Content)
    requires S.Replaceable(HARDENING, c)
    ensures S.EditContent(HARDENING, c, [], {}).Some?
  {
  }

  lemma WhenVerified(d: P.Desired, c: Content)
    requires S.Replaceable(HARDENING, c) && P.Editable(d, Hardened(c))
    ensures V.IdsUnambiguous(HardenedInside(c)) ==>
              (V.Verified(d, Edited(d, c)) <==> V.OthersReadable(d, HardenedInside(c)))
  {
    hide S.EditContent, P.Editable, P.PauseDocument, P.DocumentDiffers, V.Verified, V.IdsUnambiguous, V.OthersReadable, V.LowPriority;
    hide V.OneConfiguration, S.Replaceable, S.Replaced;
    HardenedIsThere(c);
    HardenedIsRead(c);
    var h := Hardened(c);
    if V.IdsUnambiguous(HardenedInside(c)) {
      if P.DocumentDiffers(d, h) {
        V.EditVerifies(d, h);
      } else {
        V.SettledVerifies(d, h);
      }
    }
  }
}
