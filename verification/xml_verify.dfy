/**
 * What the pause edit achieves: nothing but the paused fields of managed folders
 * changes, a second edit finds nothing to do, and a separate reader of the
 * finished configuration sees every managed folder as wanted.
 */
module XmlVerify {
  import opened Durable
  import opened XmlContent
  import opened XmlPauses
  import I = Identifiers

  // ------------------------------------------------------------ nothing else changes

  function WithoutPaused(c: Content): Content {
    match c
    case Empty => Empty
    case Text(text, rest) => Text(text, WithoutPaused(rest))
    case Comment(text, rest) => Comment(text, WithoutPaused(rest))
    case Element(name, attributes, inside, rest) =>
      if name == "paused" then WithoutPaused(rest) else Element(name, attributes, inside, WithoutPaused(rest))
  }

  function FoldersWithoutPaused(d: Desired, c: Content): Content {
    match c
    case Empty => Empty
    case Text(text, rest) => Text(text, FoldersWithoutPaused(d, rest))
    case Comment(text, rest) => Comment(text, FoldersWithoutPaused(d, rest))
    case Element(name, attributes, inside, rest) =>
      Element(name, attributes, if Managed(d, name, attributes) then WithoutPaused(inside) else inside, FoldersWithoutPaused(d, rest))
  }

  /** The document with the paused fields of managed folders taken out. */
  function DocumentWithoutPaused(d: Desired, c: Content): Content {
    match c
    case Empty => Empty
    case Text(text, rest) => Text(text, DocumentWithoutPaused(d, rest))
    case Comment(text, rest) => Comment(text, DocumentWithoutPaused(d, rest))
    case Element(name, attributes, inside, rest) =>
      Element(name, attributes, if name == "configuration" then FoldersWithoutPaused(d, inside) else inside,
        DocumentWithoutPaused(d, rest))
  }

  lemma {:induction false} FolderKept(c: Content, value: bool)
    ensures WithoutPaused(SetPaused(c, value)) == WithoutPaused(c)
    ensures WithoutPaused(Then(c, Scalar("paused", [], BoolText(value), Empty))) == WithoutPaused(c)
  {
    if !c.Empty? {
      FolderKept(c.rest, value);
    }
  }

  lemma {:induction false} FoldersKept(d: Desired, c: Content)
    ensures FoldersWithoutPaused(d, PauseFolders(d, c)) == FoldersWithoutPaused(d, c)
  {
    if !c.Empty? {
      FoldersKept(d, c.rest);
      if c.Element? && Managed(d, c.name, c.attributes) {
        FolderKept(c.inside, d[FolderId(c.attributes)]);
      }
    }
  }

  /** Outside the paused fields of managed folders the edited document is the document, token for token. */
  lemma {:induction false} EverythingElseIsKept(d: Desired, c: Content)
    ensures DocumentWithoutPaused(d, PauseDocument(d, c)) == DocumentWithoutPaused(d, c)
  {
    if !c.Empty? {
      EverythingElseIsKept(d, c.rest);
      if c.Element? {
        FoldersKept(d, c.inside);
      }
    }
  }

  // ------------------------------------------------------------ a second edit

  lemma BoolTextIsTrim(value: bool)
    ensures I.TrimSpace(BoolText(value)) == BoolText(value)
    ensures TextOf(Text(BoolText(value), Empty)) == BoolText(value) && Flat(Text(BoolText(value), Empty))
  {
  }

  lemma {:induction false} FolderSettled(c: Content, value: bool)
    ensures !Differs(SetPaused(c, value), value) && SetPaused(SetPaused(c, value), value) == SetPaused(c, value)
    ensures PausedFields(SetPaused(c, value)) == PausedFields(c) && PausedFlat(SetPaused(c, value))
    ensures PausedFields(c) == 0 ==>
              && PausedFields(Then(c, Scalar("paused", [], BoolText(value), Empty))) == 1
              && PausedFlat(Then(c, Scalar("paused", [], BoolText(value), Empty)))
              && !Differs(Then(c, Scalar("paused", [], BoolText(value), Empty)), value)
              && SetPaused(Then(c, Scalar("paused", [], BoolText(value), Empty)), value)
                   == Then(c, Scalar("paused", [], BoolText(value), Empty))
  {
    hide I.TrimSpace, BoolText;
    BoolTextIsTrim(value);
    if !c.Empty? {
      FolderSettled(c.rest, value);
    }
  }

  /** A managed folder after the edit: one paused field, saying so. */
  lemma PausedFolder(c: Content, value: bool)
    requires PausedFields(c) <= 1
    ensures PausedFields(PauseFolder(c, value)) == 1 && PausedFlat(PauseFolder(c, value))
    ensures !FolderDiffers(PauseFolder(c, value), value)
    ensures PauseFolder(PauseFolder(c, value), value) == PauseFolder(c, value)
  {
    FolderSettled(c, value);
  }

  lemma {:induction false} FoldersSettled(d: Desired, c: Content)
    requires FoldersEditable(d, c)
    ensures FoldersEditable(d, PauseFolders(d, c)) && !FoldersDiffer(d, PauseFolders(d, c))
    ensures ManagedIds(d, PauseFolders(d, c)) == ManagedIds(d, c)
    ensures PauseFolders(d, PauseFolders(d, c)) == PauseFolders(d, c)
  {
    hide PauseFolder, FolderDiffers;
    if !c.Empty? {
      FoldersSettled(d, c.rest);
      if c.Element? && Managed(d, c.name, c.attributes) {
        PausedFolder(c.inside, d[FolderId(c.attributes)]);
      }
    }
  }

  lemma {:induction false} DocumentSettled(d: Desired, c: Content)
    requires DocumentFoldersEditable(d, c)
    ensures DocumentFoldersEditable(d, PauseDocument(d, c)) && !DocumentDiffers(d, PauseDocument(d, c))
    ensures DocumentIds(d, PauseDocument(d, c)) == DocumentIds(d, c)
    ensures PauseDocument(d, PauseDocument(d, c)) == PauseDocument(d, c)
  {
    if !c.Empty? {
      DocumentSettled(d, c.rest);
      if c.Element? && c.name == "configuration" {
        FoldersSettled(d, c.inside);
      }
    }
  }

  /** The edited document can be edited again, and then nothing changes. */
  lemma SecondEditChangesNothing(d: Desired, c: Content)
    requires Editable(d, c)
    ensures Editable(d, PauseDocument(d, c)) && !DocumentDiffers(d, PauseDocument(d, c))
    ensures PauseDocument(d, PauseDocument(d, c)) == PauseDocument(d, c)
  {
    DocumentSettled(d, c);
  }

  /** Running the pass on its own output: no change, whatever the first run did. */
  method EditTwice(c: Content, desired: Desired) returns (first: Option<Edit>, second: Option<Edit>)
    ensures first.Some? <==> Editable(desired, c)
    ensures first.Some? ==> second == Some(Edit(first.value.tokens, false))
  {
    hide Editable, DocumentDiffers, PauseDocument, Tokens;
    second := None;
    first := ReplaceManagedFolderPauses(Tokens(c), desired);
    if first.Some? {
      SecondEditChangesNothing(desired, c);
      ghost var edited := if first.value.changed then PauseDocument(desired, c) else c;
      assert first.value.tokens == Tokens(edited);
      second := ReplaceManagedFolderPauses(first.value.tokens, desired);
    }
  }

  // ------------------------------------------------------------ a separate reader

  /** A boolean field as decoded into an optional flag: later fields replace earlier ones, a bad one spoils the read. */
  datatype Flag = Absent | Broken | Present(value: bool)

  function ParseBool(s: string): Option<bool> {
    if s in ["1", "t", "T", "TRUE", "true", "True"] then Some(true)
    else if s in ["0", "f", "F", "FALSE", "false", "False"] then Some(false)
    else None
  }

  function FlagOf(text: string): Flag {
    if text == "" then Present(false)
    else match ParseBool(I.TrimSpace(text))
      case Some(b) => Present(b)
      case None => Broken
  }

  function Later(earlier: Flag, later: Flag): Flag {
    if earlier.Broken? || later.Absent? then earlier else later
  }

  /** The flag called name among the children. */
  function ReadFlag(c: Content, name: string, sofar: Flag): Flag {
    match c
    case Empty => sofar
    case Text(_, rest) => ReadFlag(rest, name, sofar)
    case Comment(_, rest) => ReadFlag(rest, name, sofar)
    case Element(n, _, inside, rest) =>
      ReadFlag(rest, name, if n == name then Later(sofar, FlagOf(TextOf(inside))) else sofar)
  }

  /** The last attribute of a name is the one decoded. */
  function LastAttribute(attributes: seq<Attribute>, name: string): string {
    if attributes == [] then ""
    else if attributes[|attributes| - 1].name == name then attributes[|attributes| - 1].value
    else LastAttribute(attributes[..|attributes| - 1], name)
  }

  datatype FolderRead = FolderRead(id: string, paused: Flag)

  function FolderReads(c: Content): seq<FolderRead> {
    match c
    case Empty => []
    case Text(_, rest) => FolderReads(rest)
    case Comment(_, rest) => FolderReads(rest)
    case Element(name, attributes, inside, rest) =>
      (if name == "folder" then [FolderRead(LastAttribute(attributes, "id"), ReadFlag(inside, "paused", Absent))] else [])
      + FolderReads(rest)
  }

  function LowPriority(c: Content, sofar: Flag): Flag {
    match c
    case Empty => sofar
    case Text(_, rest) => LowPriority(rest, sofar)
    case Comment(_, rest) => LowPriority(rest, sofar)
    case Element(name, _, inside, rest) =>
      LowPriority(rest, if name == "options" then ReadFlag(inside, "setLowPriority", sofar) else sofar)
  }

  /** The first element of the document. */
  function Root(c: Content): Content {
    match c
    case Empty => Empty
    case Text(_, rest) => Root(rest)
    case Comment(_, rest) => Root(rest)
    case Element(_, _, _, _) => c
  }

  function ManagedReads(d: Desired, rows: seq<FolderRead>, n: nat): seq<string>
    requires n <= |rows|
  {
    if n == 0 then []
    else ManagedReads(d, rows, n - 1) + (if rows[n - 1].id in d then [rows[n - 1].id] else [])
  }

  predicate Decodes(rows: seq<FolderRead>) {
    forall i :: 0 <= i < |rows| ==> !rows[i].paused.Broken?
  }

  predicate AsWanted(d: Desired, rows: seq<FolderRead>) {
    forall i :: 0 <= i < |rows| && rows[i].id in d ==> rows[i].paused == Present(d[rows[i].id])
  }

  /** The configuration decodes, keeps its process group, and shows each managed folder once and as wanted. */
  ghost predicate Verified(d: Desired, c: Content) {
    var root := Root(c);
    && root.Element? && root.name == "configuration"
    && LowPriority(root.inside, Absent) == Present(false)
    && var rows := FolderReads(root.inside);
       && Decodes(rows)
       && Distinct(ManagedReads(d, rows, |rows|))
       && (forall id :: id in d ==> id in ManagedReads(d, rows, |rows|))
       && AsWanted(d, rows)
  }

  method VerifyPauseSet(c: Content, desired: Desired) returns (ok: bool)
    ensures ok <==> Verified(desired, c)
  {
    hide FolderReads, LowPriority;
    var root := Root(c);
    if !root.Element? || root.name != "configuration" {
      return false;
    }
    if LowPriority(root.inside, Absent) != Present(false) {
      return false;
    }
    var rows := FolderReads(root.inside);
    for i := 0 to |rows|
      invariant forall j :: 0 <= j < i ==> !rows[j].paused.Broken?
    {
      if rows[i].paused.Broken? {
        return false;
      }
    }
    var found: set<string> := {};
    for i := 0 to |rows|
      invariant found == Found(ManagedReads(desired, rows, i))
      invariant Distinct(ManagedReads(desired, rows, i))
      invariant forall j :: 0 <= j < i && rows[j].id in desired ==> rows[j].paused == Present(desired[rows[j].id])
    {
      var id := rows[i].id;
      if id in desired {
        OneMore(ManagedReads(desired, rows, i), id);
        if id in found || rows[i].paused != Present(desired[id]) {
          LaterNotDistinct(desired, rows, i + 1, |rows|);
          return false;
        }
        found := found + {id};
      } else {
        assert ManagedReads(desired, rows, i + 1) == ManagedReads(desired, rows, i);
      }
    }
    ok := desired.Keys <= found;
  }

  lemma OneMore(ids: seq<string>, id: string)
    requires Distinct(ids)
    ensures Found(ids + [id]) == Found(ids) + {id}
    ensures Distinct(ids + [id]) <==> id !in ids
  {
    if id in ids {
      var i :| 0 <= i < |ids| && ids[i] == id;
      assert (ids + [id])[i] == (ids + [id])[|ids|];
    }
  }

  lemma {:induction false} LaterNotDistinct(d: Desired, rows: seq<FolderRead>, i: nat, n: nat)
    requires i <= n <= |rows|
    ensures !Distinct(ManagedReads(d, rows, i)) ==> !Distinct(ManagedReads(d, rows, n))
  {
    if i < n {
      LaterNotDistinct(d, rows, i, n - 1);
      var before := ManagedReads(d, rows, n - 1);
      if !Distinct(before) {
        var j, k :| 0 <= j < k < |before| && before[j] == before[k];
        assert ManagedReads(d, rows, n)[j] == ManagedReads(d, rows, n)[k];
      }
    }
  }

  // ------------------------------------------------- the edit satisfies the reader

  /** The document has one root, the configuration. */
  predicate OneConfiguration(c: Content): (one: bool)
    ensures one ==> Root(c).Element?
  {
    match c
    case Empty => false
    case Text(_, rest) => OneConfiguration(rest)
    case Comment(_, rest) => OneConfiguration(rest)
    case Element(name, _, _, rest) => name == "configuration" && Flat(rest)
  }

  /** Folder elements name their id once, so the first and the last id attribute are the same. */
  predicate IdsUnambiguous(c: Content) {
    match c
    case Empty => true
    case Text(_, rest) => IdsUnambiguous(rest)
    case Comment(_, rest) => IdsUnambiguous(rest)
    case Element(name, attributes, _, rest) =>
      (name == "folder" ==> LastAttribute(attributes, "id") == AttributeValue(attributes, "id")) && IdsUnambiguous(rest)
  }

  /** Every folder the edit leaves alone has paused fields that decode. */
  predicate OthersReadable(d: Desired, c: Content) {
    match c
    case Empty => true
    case Text(_, rest) => OthersReadable(d, rest)
    case Comment(_, rest) => OthersReadable(d, rest)
    case Element(name, attributes, inside, rest) =>
      && (name == "folder" && FolderId(attributes) !in d ==> !ReadFlag(inside, "paused", Absent).Broken?)
      && OthersReadable(d, rest)
  }

  /** What a reader should see of each folder of the edited configuration. */
  function Expected(d: Desired, c: Content): seq<FolderRead> {
    match c
    case Empty => []
    case Text(_, rest) => Expected(d, rest)
    case Comment(_, rest) => Expected(d, rest)
    case Element(name, attributes, inside, rest) =>
      (if name == "folder"
       then [FolderRead(FolderId(attributes),
               if FolderId(attributes) in d then Present(d[FolderId(attributes)]) else ReadFlag(inside, "paused", Absent))]
       else [])
      + Expected(d, rest)
  }

  lemma {:induction false} NoFlagRead(c: Content, sofar: Flag)
    requires PausedFields(c) == 0
    ensures ReadFlag(c, "paused", sofar) == sofar
  {
    if !c.Empty? {
      NoFlagRead(c.rest, sofar);
    }
  }

  lemma BoolTextReads(value: bool)
    ensures FlagOf(TextOf(Text(BoolText(value), Empty))) == Present(value)
  {
    BoolTextIsTrim(value);
    hide I.TrimSpace;
    assert BoolText(value) != "";
    if value {
      assert BoolText(value) == "true";
    } else {
      assert BoolText(value) == "false";
    }
  }

  /** A field that already says what is wanted, blanks aside, is read so. */
  lemma SaidIsRead(text: string, value: bool)
    requires I.TrimSpace(text) == BoolText(value)
    ensures FlagOf(text) == Present(value)
  {
    assert I.TrimSpace("") == "";
  }

  lemma {:induction false} PausedRead(c: Content, value: bool)
    requires PausedFields(c) == 1 && !Differs(c, value)
    ensures ReadFlag(c, "paused", Absent) == Present(value)
  {
    hide FlagOf, BoolText, I.TrimSpace;
    if c.Element? && c.name == "paused" {
      SaidIsRead(TextOf(c.inside), value);
      NoFlagRead(c.rest, Present(value));
    } else {
      PausedRead(c.rest, value);
    }
  }

  lemma {:induction false} ReadsAsExpected(d: Desired, c: Content)
    requires FoldersEditable(d, c) && !FoldersDiffer(d, c) && IdsUnambiguous(c)
    ensures FolderReads(c) == Expected(d, c)
  {
    hide ReadFlag, LastAttribute, AttributeValue, Differs;
    if !c.Empty? {
      ReadsAsExpected(d, c.rest);
      if c.Element? && Managed(d, c.name, c.attributes) {
        PausedRead(c.inside, d[FolderId(c.attributes)]);
      }
    }
  }

  lemma {:induction false} OthersKept(d: Desired, c: Content)
    ensures IdsUnambiguous(PauseFolders(d, c)) <==> IdsUnambiguous(c)
    ensures OthersReadable(d, PauseFolders(d, c)) <==> OthersReadable(d, c)
  {
    hide ReadFlag, LastAttribute, AttributeValue, PauseFolder;
    if !c.Empty? {
      OthersKept(d, c.rest);
    }
  }

  /** All managed ids among the rows, front to back. */
  lemma {:induction false} ManagedSplit(d: Desired, a: seq<FolderRead>, b: seq<FolderRead>, n: nat)
    requires n <= |b|
    ensures ManagedReads(d, a + b, |a| + n) == ManagedReads(d, a, |a|) + ManagedReads(d, b, n)
  {
    if n == 0 {
      ManagedPrefix(d, a, b, |a|);
    } else {
      ManagedSplit(d, a, b, n - 1);
      assert (a + b)[|a| + n - 1] == b[n - 1];
    }
  }

  lemma {:induction false} ManagedPrefix(d: Desired, a: seq<FolderRead>, b: seq<FolderRead>, n: nat)
    requires n <= |a|
    ensures ManagedReads(d, a + b, n) == ManagedReads(d, a, n)
  {
    if n > 0 {
      ManagedPrefix(d, a, b, n - 1);
    }
  }

  lemma ManagedFirst(d: Desired, row: FolderRead, more: seq<FolderRead>)
    ensures ManagedReads(d, [row] + more, |more| + 1) == (if row.id in d then [row.id] else []) + ManagedReads(d, more, |more|)
  {
    ManagedSplit(d, [row], more, |more|);
    var one := [row];
    assert ManagedReads(d, one, 0) == [] && one[0] == row && |one| == 1;
    assert ManagedReads(d, one, 1) == if row.id in d then [row.id] else [];
  }

  lemma {:induction false} ExpectedIds(d: Desired, c: Content)
    ensures ManagedReads(d, Expected(d, c), |Expected(d, c)|) == ManagedIds(d, c)
  {
    hide ReadFlag, AttributeValue, ManagedReads;
    match c
    case Empty =>
      NoReads(d);
    case Element(name, attributes, inside, rest) =>
      ExpectedIds(d, rest);
      if name == "folder" {
        ManagedFirst(d, Expected(d, c)[0], Expected(d, rest));
        assert Expected(d, c) == [Expected(d, c)[0]] + Expected(d, rest);
      } else {
        assert Expected(d, c) == Expected(d, rest) && ManagedIds(d, c) == ManagedIds(d, rest);
      }
    case _ =>
      ExpectedIds(d, c.rest);
  }

  lemma NoReads(d: Desired)
    ensures ManagedReads(d, [], 0) == []
  {
  }

  lemma OneRowMore(d: Desired, row: FolderRead, more: seq<FolderRead>)
    ensures Decodes([row] + more) <==> !row.paused.Broken? && Decodes(more)
    ensures AsWanted(d, [row] + more) <==> AsWanted(d, [row]) && AsWanted(d, more)
  {
    var rows := [row] + more;
    assert rows[0] == row && forall i :: 0 < i < |rows| ==> rows[i] == more[i - 1];
    if Decodes(rows) {
      forall i | 0 <= i < |more|
        ensures !more[i].paused.Broken?
      {
        assert rows[i + 1] == more[i];
      }
    }
    if AsWanted(d, rows) {
      OneRow(d, row);
      forall i | 0 <= i < |more| && more[i].id in d
        ensures more[i].paused == Present(d[more[i].id])
      {
        assert rows[i + 1] == more[i];
      }
    }
    OneRow(d, row);
  }

  lemma {:induction false} ExpectedRows(d: Desired, c: Content)
    ensures AsWanted(d, Expected(d, c)) && (Decodes(Expected(d, c)) <==> OthersReadable(d, c))
  {
    hide ReadFlag, AttributeValue;
    if !c.Empty? {
      hide AsWanted, Decodes;
      ExpectedRows(d, c.rest);
      if c.Element? && c.name == "folder" {
        var row := Expected(d, c)[0];
        OneRowMore(d, row, Expected(d, c.rest));
        OneRow(d, row);
      } else {
        assert Expected(d, c) == Expected(d, c.rest);
      }
    }
  }

  lemma OneRow(d: Desired, row: FolderRead)
    ensures AsWanted(d, [row]) <==> (row.id in d ==> row.paused == Present(d[row.id]))
  {
    assert [row][0] == row;
  }

  lemma {:induction false} OneRoot(d: Desired, c: Content)
    requires OneConfiguration(c)
    ensures Root(c).Element? && Root(c).name == "configuration"
    ensures DocumentIds(d, c) == ManagedIds(d, Root(c).inside)
    ensures DocumentFoldersEditable(d, c) <==> FoldersEditable(d, Root(c).inside)
    ensures Root(PauseDocument(d, c)).Element? && Root(PauseDocument(d, c)).name == "configuration"
    ensures Root(PauseDocument(d, c)).inside == PauseFolders(d, Root(c).inside)
    ensures DocumentDiffers(d, c) <==> FoldersDiffer(d, Root(c).inside)
    ensures OneConfiguration(PauseDocument(d, c))
  {
    if c.Element? {
      NoFolders(d, c.rest);
      assert ManagedIds(d, c.inside) + [] == ManagedIds(d, c.inside);
    } else {
      OneRoot(d, c.rest);
    }
  }

  lemma {:induction false} NoFolders(d: Desired, c: Content)
    requires Flat(c)
    ensures DocumentIds(d, c) == [] && DocumentFoldersEditable(d, c) && !DocumentDiffers(d, c)
    ensures Flat(PauseDocument(d, c))
  {
    if !c.Empty? {
      NoFolders(d, c.rest);
    }
  }

  lemma {:induction false} PriorityKept(d: Desired, c: Content, sofar: Flag)
    ensures LowPriority(PauseFolders(d, c), sofar) == LowPriority(c, sofar)
  {
    hide PauseFolder, ReadFlag;
    match c
    case Empty =>
    case Element(name, attributes, inside, rest) =>
      PriorityKept(d, rest, if name == "options" then ReadFlag(inside, "setLowPriority", sofar) else sofar);
    case _ => PriorityKept(d, c.rest, sofar);
  }

  /**
   * The reader accepts a configuration with nothing left to edit exactly when
   * every folder the edit does not touch decodes. It reads those too, so one bad
   * flag in a folder the service does not manage is enough for it to refuse.
   */
  lemma SettledVerifies(d: Desired, c: Content)
    requires Editable(d, c) && !DocumentDiffers(d, c)
    requires OneConfiguration(c) && IdsUnambiguous(Root(c).inside)
    requires LowPriority(Root(c).inside, Absent) == Present(false)
    ensures Verified(d, c) <==> OthersReadable(d, Root(c).inside)
  {
    hide ReadFlag, LowPriority, PauseDocument, PauseFolders, FolderReads, IdsUnambiguous, OthersReadable, Expected;
    hide ManagedReads, ManagedIds, FoldersEditable, Root, DocumentIds, DocumentFoldersEditable, FoldersDiffer, DocumentDiffers;
    hide OneConfiguration;
    OneRoot(d, c);
    var inside := Root(c).inside;
    ReadsAsExpected(d, inside);
    ExpectedIds(d, inside);
    ExpectedRows(d, inside);
  }

  lemma EditVerifies(d: Desired, c: Content)
    requires Editable(d, c) && OneConfiguration(c) && IdsUnambiguous(Root(c).inside)
    requires LowPriority(Root(c).inside, Absent) == Present(false)
    ensures Verified(d, PauseDocument(d, c)) <==> OthersReadable(d, Root(c).inside)
  {
    hide LowPriority, PauseDocument, PauseFolders, IdsUnambiguous, OthersReadable, Verified, Editable, Root, DocumentDiffers;
    hide OneConfiguration;
    SecondEditChangesNothing(d, c);
    OneRoot(d, c);
    OthersKept(d, Root(c).inside);
    PriorityKept(d, Root(c).inside, Absent);
    SettledVerifies(d, PauseDocument(d, c));
  }

  /** A folder nobody manages, whose flag no decoder knows. */
  const OTHER := Element("folder", [Attribute("id", "b")], Scalar("paused", [], "yes", Empty), OPTIONS)
  const OPTIONS := Element("options", [], Scalar("setLowPriority", [], "false", Empty), Empty)
  const MINE := Element("folder", [Attribute("id", "a")], Scalar("paused", [], "true", Empty), OTHER)
  const CONFIGURATION := Element("configuration", [], MINE, Empty)

  lemma OneBadFlagRefusesTheEdit()
    ensures var d := map["a" := true];
            Editable(d, CONFIGURATION) && OneConfiguration(CONFIGURATION) && !Verified(d, PauseDocument(d, CONFIGURATION))
  {
    hide FlagOf, AttributeValue, LastAttribute, ReadFlag, Verified, PauseDocument, PausedFields, PausedFlat;
    var d := map["a" := true];
    MineIsEditable(d);
    PriorityIsFalse();
    IdsAreUnambiguous();
    BadFlag();
    assert FolderId([Attribute("id", "b")]) !in d by {
      IdOf("b");
      assert "a"[0] != "b"[0];
    }
    assert !OthersReadable(d, OTHER);
    EditVerifies(d, CONFIGURATION);
  }

  lemma IdOf(id: string)
    ensures AttributeValue([Attribute("id", id)], "id") == id && LastAttribute([Attribute("id", id)], "id") == id
  {
  }

  lemma MineIsEditable(d: Desired)
    requires d == map["a" := true]
    ensures Editable(d, CONFIGURATION) && OneConfiguration(CONFIGURATION)
  {
    hide AttributeValue;
    IdOf("a");
    IdOf("b");
    assert "a"[0] != "b"[0];
    assert ManagedIds(d, OPTIONS) == [] && FoldersEditable(d, OPTIONS);
    assert ManagedIds(d, OTHER) == [] && FoldersEditable(d, OTHER);
    assert ManagedIds(d, MINE) == ["a"];
    assert DocumentIds(d, CONFIGURATION) == ["a"];
    assert Flat(Text("true", Empty)) && PausedFlat(Scalar("paused", [], "true", Empty));
    assert PausedFields(Scalar("paused", [], "true", Empty)) == 1;
    assert FoldersEditable(d, MINE) && DocumentFoldersEditable(d, CONFIGURATION);
  }

  lemma IdsAreUnambiguous()
    ensures IdsUnambiguous(MINE)
  {
    hide AttributeValue, LastAttribute;
    IdOf("a");
    IdOf("b");
    assert IdsUnambiguous(OTHER);
  }

  lemma BadFlag()
    ensures ReadFlag(Scalar("paused", [], "yes", Empty), "paused", Absent) == Broken
  {
    assert I.TrimSpace("yes") == "yes" by {
      assert I.TrimLeft("yes") == "yes";
      assert I.TrimRight("yes") == "yes";
    }
    assert TextOf(Text("yes", Empty)) == "yes";
  }

  lemma PriorityIsFalse()
    ensures LowPriority(MINE, Absent) == Present(false)
  {
    hide FlagOf;
    BoolTextReads(false);
    assert ReadFlag(Scalar("setLowPriority", [], "false", Empty), "setLowPriority", Absent) == Present(false);
    assert LowPriority(OTHER, Absent) == Present(false);
  }
}
