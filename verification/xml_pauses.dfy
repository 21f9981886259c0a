/**
 * The offline pause edit: one pass over the tokens of the upstream
 * configuration that sets the paused field of every managed folder.
 */
module XmlPauses {
  import opened Durable
  import opened XmlContent
  import I = Identifiers

  type Desired = map<string, bool>

  function BoolText(b: bool): string {
    if b then "true" else "false"
  }

  // ------------------------------------------------------------ the edit of a tree

  function FolderId(attributes: seq<Attribute>): string {
    AttributeValue(attributes, "id")
  }

  predicate Managed(d: Desired, name: string, attributes: seq<Attribute>) {
    name == "folder" && FolderId(attributes) in d
  }

  /** The ids of the managed folders, in document order. */
  function ManagedIds(d: Desired, c: Content): seq<string> {
    match c
    case Empty => []
    case Text(_, rest) => ManagedIds(d, rest)
    case Comment(_, rest) => ManagedIds(d, rest)
    case Element(name, attributes, _, rest) =>
      (if Managed(d, name, attributes) then [FolderId(attributes)] else []) + ManagedIds(d, rest)
  }

  function PausedFields(c: Content): nat {
    match c
    case Empty => 0
    case Text(_, rest) => PausedFields(rest)
    case Comment(_, rest) => PausedFields(rest)
    case Element(name, _, _, rest) => (if name == "paused" then 1 else 0) + PausedFields(rest)
  }

  /** Every paused field is a scalar. */
  predicate PausedFlat(c: Content) {
    match c
    case Empty => true
    case Text(_, rest) => PausedFlat(rest)
    case Comment(_, rest) => PausedFlat(rest)
    case Element(name, _, inside, rest) => (name == "paused" ==> Flat(inside)) && PausedFlat(rest)
  }

  /** Every managed folder has at most one paused field, and it is a scalar. */
  predicate FoldersEditable(d: Desired, c: Content) {
    match c
    case Empty => true
    case Text(_, rest) => FoldersEditable(d, rest)
    case Comment(_, rest) => FoldersEditable(d, rest)
    case Element(name, attributes, inside, rest) =>
      && (Managed(d, name, attributes) ==> PausedFields(inside) <= 1 && PausedFlat(inside))
      && FoldersEditable(d, rest)
  }

  /** Gives every paused field of a folder the wanted value. */
  function SetPaused(c: Content, value: bool): Content {
    match c
    case Empty => Empty
    case Text(text, rest) => Text(text, SetPaused(rest, value))
    case Comment(text, rest) => Comment(text, SetPaused(rest, value))
    case Element(name, attributes, inside, rest) =>
      if name == "paused" then Scalar(name, attributes, BoolText(value), SetPaused(rest, value))
      else Element(name, attributes, inside, SetPaused(rest, value))
  }

  /** The folder with its paused field set, or added at the end. */
  function PauseFolder(c: Content, value: bool): Content {
    if PausedFields(c) > 0 then SetPaused(c, value)
    else Then(c, Scalar("paused", [], BoolText(value), Empty))
  }

  function PauseFolders(d: Desired, c: Content): Content {
    match c
    case Empty => Empty
    case Text(text, rest) => Text(text, PauseFolders(d, rest))
    case Comment(text, rest) => Comment(text, PauseFolders(d, rest))
    case Element(name, attributes, inside, rest) =>
      Element(name, attributes,
        if Managed(d, name, attributes) then PauseFolder(inside, d[FolderId(attributes)]) else inside,
        PauseFolders(d, rest))
  }

  /** The document: folders are the children of its configuration element. */
  function PauseDocument(d: Desired, c: Content): Content {
    match c
    case Empty => Empty
    case Text(text, rest) => Text(text, PauseDocument(d, rest))
    case Comment(text, rest) => Comment(text, PauseDocument(d, rest))
    case Element(name, attributes, inside, rest) =>
      Element(name, attributes, if name == "configuration" then PauseFolders(d, inside) else inside, PauseDocument(d, rest))
  }

  function DocumentIds(d: Desired, c: Content): seq<string> {
    match c
    case Empty => []
    case Text(_, rest) => DocumentIds(d, rest)
    case Comment(_, rest) => DocumentIds(d, rest)
    case Element(name, _, inside, rest) =>
      (if name == "configuration" then ManagedIds(d, inside) else []) + DocumentIds(d, rest)
  }

  predicate DocumentFoldersEditable(d: Desired, c: Content) {
    match c
    case Empty => true
    case Text(_, rest) => DocumentFoldersEditable(d, rest)
    case Comment(_, rest) => DocumentFoldersEditable(d, rest)
    case Element(name, _, inside, rest) =>
      (name == "configuration" ==> FoldersEditable(d, inside)) && DocumentFoldersEditable(d, rest)
  }

  ghost predicate Distinct(ids: seq<string>) {
    forall i, j :: 0 <= i < j < |ids| ==> ids[i] != ids[j]
  }

  /** The document can be edited: every managed folder is there exactly once and its paused field is unambiguous. */
  ghost predicate Editable(d: Desired, c: Content) {
    && "" !in d
    && Distinct(DocumentIds(d, c)) && (forall id :: id in d ==> id in DocumentIds(d, c))
    && DocumentFoldersEditable(d, c)
  }

  // ----------------------------------------------- what counts as a change

  /** Some paused field of the folder does not already say so. */
  predicate Differs(c: Content, value: bool) {
    match c
    case Empty => false
    case Text(_, rest) => Differs(rest, value)
    case Comment(_, rest) => Differs(rest, value)
    case Element(name, _, inside, rest) =>
      (name == "paused" && I.TrimSpace(TextOf(inside)) != BoolText(value)) || Differs(rest, value)
  }

  predicate FolderDiffers(c: Content, value: bool) {
    PausedFields(c) == 0 || Differs(c, value)
  }

  predicate FoldersDiffer(d: Desired, c: Content) {
    match c
    case Empty => false
    case Text(_, rest) => FoldersDiffer(d, rest)
    case Comment(_, rest) => FoldersDiffer(d, rest)
    case Element(name, attributes, inside, rest) =>
      (Managed(d, name, attributes) && FolderDiffers(inside, d[FolderId(attributes)])) || FoldersDiffer(d, rest)
  }

  predicate DocumentDiffers(d: Desired, c: Content) {
    match c
    case Empty => false
    case Text(_, rest) => DocumentDiffers(d, rest)
    case Comment(_, rest) => DocumentDiffers(d, rest)
    case Element(name, _, inside, rest) =>
      (name == "configuration" && FoldersDiffer(d, inside)) || DocumentDiffers(d, rest)
  }

  // ------------------------------------------------------------ the machine

  /** The state of the pass: active is the managed folder it is inside, or nothing. */
  datatype Machine = Machine(stack: seq<string>, found: set<string>, active: string, seen: bool, changed: bool)

  type Outcome = Pass<Machine>

  const START := Machine([], {}, "", false, false)

  predicate Ready(d: Desired, m: Machine) {
    m.active == "" || m.active in d
  }

  predicate AtFolder(m: Machine, name: string) {
    |m.stack| == 1 && m.stack[0] == "configuration" && name == "folder"
  }

  predicate InFolder(m: Machine) {
    m.active != "" && |m.stack| == 2 && m.stack[1] == "folder"
  }

  predicate Again(d: Desired, m: Machine, name: string, attributes: seq<Attribute>) {
    AtFolder(m, name) && FolderId(attributes) in d && FolderId(attributes) in m.found
  }

  function Enter(d: Desired, m: Machine, name: string, attributes: seq<Attribute>): Machine {
    if AtFolder(m, name) && FolderId(attributes) in d
    then m.(found := m.found + {FolderId(attributes)}, active := FolderId(attributes), seen := false)
    else m
  }

  function Leave(m: Machine): Machine {
    if InFolder(m) then m.(active := "", seen := false, changed := m.changed || !m.seen) else m
  }

  function PausedTokens(attributes: seq<Attribute>, value: bool): seq<Token> {
    [Start("paused", attributes), Chars(BoolText(value)), End("paused")]
  }

  /** The paused field a folder still lacks when its closing tag comes. */
  function Missing(d: Desired, m: Machine): seq<Token>
    requires Ready(d, m)
  {
    if InFolder(m) && !m.seen then PausedTokens([], d[m.active]) else []
  }

  /** The pass over the remaining tokens: the final state and what is written on the way. */
  function Run(d: Desired, m: Machine, ts: seq<Token>): Outcome
    requires Ready(d, m)
    decreases |ts|
  {
    if ts == [] then Some((m, []))
    else match ts[0]
      case Start(name, attributes) =>
        if Again(d, m, name, attributes) then None
        else
          var entered := Enter(d, m, name, attributes);
          if InFolder(entered) && name == "paused" then
            if entered.seen || ReadScalar(ts[1..], name).None? then None
            else
              var (text, n) := ReadScalar(ts[1..], name).value;
              var after := entered.(seen := true, changed := entered.changed || I.TrimSpace(text) != BoolText(d[entered.active]));
              if n + 1 > |ts| then None
              else Prepend(PausedTokens(attributes, d[entered.active]), Run(d, after, ts[n + 1..]))
          else Prepend([ts[0]], Run(d, entered.(stack := entered.stack + [name]), ts[1..]))
      case End(name) =>
        if |m.stack| == 0 || m.stack[|m.stack| - 1] != name then None
        else Prepend(Missing(d, m) + [ts[0]], Run(d, Leave(m).(stack := m.stack[..|m.stack| - 1]), ts[1..]))
      case _ => Prepend([ts[0]], Run(d, m, ts[1..]))
  }

  // ---------------------------------------------------- the machine, token by token

  lemma StepPlain(d: Desired, m: Machine, c: Content, more: seq<Token>)
    requires Ready(d, m) && (c.Text? || c.Comment?)
    ensures Run(d, m, Tokens(c) + more) == Prepend([First(c)], Run(d, m, Tokens(c.rest) + more))
    ensures Tokens(c) == [First(c)] + Tokens(c.rest)
  {
    PlainFirst(c, more);
    assert ([First(c)] + (Tokens(c.rest) + more))[1..] == Tokens(c.rest) + more;
  }

  lemma StepOpen(d: Desired, m: Machine, name: string, attributes: seq<Attribute>, ts: seq<Token>)
    requires Ready(d, m) && !(InFolder(Enter(d, m, name, attributes)) && name == "paused")
    ensures Run(d, m, [Start(name, attributes)] + ts) ==
              if Again(d, m, name, attributes) then None
              else Prepend([Start(name, attributes)],
                     Run(d, Enter(d, m, name, attributes).(stack := Enter(d, m, name, attributes).stack + [name]), ts))
  {
    assert ([Start(name, attributes)] + ts)[1..] == ts;
  }

  lemma StepClose(d: Desired, m: Machine, above: seq<string>, name: string, ts: seq<Token>)
    requires Ready(d, m) && m.stack == above + [name]
    ensures Run(d, m, [End(name)] + ts) == Prepend(Missing(d, m) + [End(name)], Run(d, Leave(m).(stack := above), ts))
  {
    assert ([End(name)] + ts)[1..] == ts;
    assert m.stack[..|m.stack| - 1] == above;
  }

  function AfterPaused(d: Desired, m: Machine, inside: Content): Machine
    requires m.active in d
  {
    m.(seen := true, changed := m.changed || I.TrimSpace(TextOf(inside)) != BoolText(d[m.active]))
  }

  lemma StepPaused(d: Desired, m: Machine, c: Content, more: seq<Token>)
    requires Ready(d, m) && InFolder(m) && c.Element? && c.name == "paused"
    ensures Run(d, m, Tokens(c) + more) ==
              if m.seen || !Flat(c.inside) then None
              else Prepend(PausedTokens(c.attributes, d[m.active]), Run(d, AfterPaused(d, m, c.inside), Tokens(c.rest) + more))
  {
    hide I.TrimSpace, BoolText, Tokens, Prepend, PausedTokens;
    ScalarTokens(c, more);
    ReadScalarOfContent(c.inside, c.name, Tokens(c.rest) + more);
  }

  // ---------------------------------------------------- the machine against the tree

  /** Nowhere near a managed folder. */
  predicate Quiet(m: Machine) {
    || |m.stack| >= 3
    || (m.active == "" && |m.stack| == 2)
    || (m.active == "" && |m.stack| == 1 && m.stack[0] != "configuration")
  }

  /** Away from managed folders everything is copied. */
  lemma {:induction false} QuietCopies(d: Desired, m: Machine, c: Content, more: seq<Token>)
    requires Ready(d, m) && Quiet(m)
    ensures Run(d, m, Tokens(c) + more) == Prepend(Tokens(c), Run(d, m, more))
    decreases c
  {
    hide Run, Prepend;
    match c
    case Empty =>
      PrependNothing(Run(d, m, more));
      assert Tokens(c) + more == more;
    case Element(name, attributes, inside, rest) =>
      QuietCopies(d, m.(stack := m.stack + [name]), inside, [End(name)] + (Tokens(rest) + more));
      QuietCopies(d, m, rest, more);
      QuietElement(d, m, c, more);
    case _ =>
      StepPlain(d, m, c, more);
      QuietCopies(d, m, c.rest, more);
      Prepend2([First(c)], Tokens(c.rest), Run(d, m, more));
  }

  lemma QuietElement(d: Desired, m: Machine, c: Content, more: seq<Token>)
    requires Ready(d, m) && Quiet(m) && c.Element?
    requires var pushed := m.(stack := m.stack + [c.name]); var tail := [End(c.name)] + (Tokens(c.rest) + more);
             Run(d, pushed, Tokens(c.inside) + tail) == Prepend(Tokens(c.inside), Run(d, pushed, tail))
    requires Run(d, m, Tokens(c.rest) + more) == Prepend(Tokens(c.rest), Run(d, m, more))
    ensures Run(d, m, Tokens(c) + more) == Prepend(Tokens(c), Run(d, m, more))
  {
    hide Run, Prepend, Tokens;
    var pushed := m.(stack := m.stack + [c.name]);
    var tail := [End(c.name)] + (Tokens(c.rest) + more);
    Opened(c, more);
    StepOpen(d, m, c.name, c.attributes, Tokens(c.inside) + tail);
    StepClose(d, pushed, m.stack, c.name, Tokens(c.rest) + more);
    assert Leave(pushed).(stack := m.stack) == m && Missing(d, pushed) + [End(c.name)] == [End(c.name)];
    Prepend4([Start(c.name, c.attributes)], Tokens(c.inside), [End(c.name)], Tokens(c.rest), Run(d, m, more));
  }

  /** Inside a managed folder its paused field is rewritten, or refused when it is there twice or is no scalar. */
  lemma {:induction false} InsideFolder(d: Desired, m: Machine, c: Content, more: seq<Token>)
    requires m.active != "" && m.active in d && m.stack == ["configuration", "folder"]
    ensures Run(d, m, Tokens(c) + more) ==
              if PausedFlat(c) && PausedFields(c) + (if m.seen then 1 else 0) <= 1
              then Prepend(Tokens(SetPaused(c, d[m.active])),
                     Run(d, m.(seen := m.seen || PausedFields(c) > 0, changed := m.changed || Differs(c, d[m.active])), more))
              else None
    decreases c
  {
    hide Run, Prepend, I.TrimSpace, BoolText;
    var value := d[m.active];
    match c
    case Empty =>
      PrependNothing(Run(d, m, more));
      assert Tokens(c) + more == more;
    case Element(name, attributes, inside, rest) =>
      if name == "paused" {
        StepPaused(d, m, c, more);
        if !m.seen && Flat(inside) {
          InsideFolder(d, AfterPaused(d, m, inside), rest, more);
          PausedTokensOf(attributes, value, SetPaused(rest, value));
          Prepend2(PausedTokens(attributes, value), Tokens(SetPaused(rest, value)),
            Run(d, m.(seen := true, changed := m.changed || Differs(c, value)), more));
          PrependNone<Machine>(PausedTokens(attributes, value));
        }
      } else {
        OtherInside(d, m, c, more);
        InsideFolder(d, m, rest, more);
        var before := [Start(name, attributes)] + Tokens(inside) + [End(name)];
        Prepend2(before, Tokens(SetPaused(rest, value)),
          Run(d, m.(seen := m.seen || PausedFields(c) > 0, changed := m.changed || Differs(c, value)), more));
        PrependNone<Machine>(before);
      }
    case _ =>
      StepPlain(d, m, c, more);
      InsideFolder(d, m, c.rest, more);
      Prepend2([First(c)], Tokens(SetPaused(c.rest, value)),
        Run(d, m.(seen := m.seen || PausedFields(c) > 0, changed := m.changed || Differs(c, value)), more));
      PrependNone<Machine>([First(c)]);
  }

  lemma PausedTokensOf(attributes: seq<Attribute>, value: bool, rest: Content)
    ensures Tokens(Scalar("paused", attributes, BoolText(value), rest)) == PausedTokens(attributes, value) + Tokens(rest)
  {
    hide BoolText;
    assert Tokens(Text(BoolText(value), Empty)) == [Chars(BoolText(value))];
  }

  lemma OtherInside(d: Desired, m: Machine, c: Content, more: seq<Token>)
    requires m.active != "" && m.active in d && m.stack == ["configuration", "folder"]
    requires c.Element? && c.name != "paused"
    ensures Run(d, m, Tokens(c) + more) ==
              Prepend([Start(c.name, c.attributes)] + Tokens(c.inside) + [End(c.name)], Run(d, m, Tokens(c.rest) + more))
  {
    hide Run, Prepend, Tokens;
    var tail := [End(c.name)] + (Tokens(c.rest) + more);
    var pushed := m.(stack := m.stack + [c.name]);
    Opened(c, more);
    StepOpen(d, m, c.name, c.attributes, Tokens(c.inside) + tail);
    QuietCopies(d, pushed, c.inside, tail);
    StepClose(d, pushed, m.stack, c.name, Tokens(c.rest) + more);
    assert Leave(pushed).(stack := m.stack) == m && Missing(d, pushed) + [End(c.name)] == [End(c.name)];
    Prepend2(Tokens(c.inside), [End(c.name)], Run(d, m, Tokens(c.rest) + more));
    Prepend2([Start(c.name, c.attributes)], Tokens(c.inside) + [End(c.name)], Run(d, m, Tokens(c.rest) + more));
    assert [Start(c.name, c.attributes)] + (Tokens(c.inside) + [End(c.name)])
        == [Start(c.name, c.attributes)] + Tokens(c.inside) + [End(c.name)];
  }

  ghost predicate Fresh(ids: seq<string>, found: set<string>) {
    Distinct(ids) && forall id :: id in ids ==> id !in found
  }

  function Found(ids: seq<string>): set<string> {
    set id | id in ids
  }

  lemma FreshSplit(a: seq<string>, b: seq<string>, found: set<string>)
    ensures Fresh(a + b, found) <==> Fresh(a, found) && Fresh(b, found + Found(a))
    ensures Found(a + b) == Found(a) + Found(b)
  {
    var c := a + b;
    assert forall i :: 0 <= i < |a| ==> c[i] == a[i];
    assert forall i :: 0 <= i < |b| ==> c[|a| + i] == b[i];
    if Fresh(c, found) {
      forall i, j | 0 <= i < j < |b|
        ensures b[i] != b[j]
      {
        assert c[|a| + i] != c[|a| + j];
      }
      forall id | id in b
        ensures id !in found && id !in a
      {
        var j :| 0 <= j < |b| && b[j] == id;
        assert forall i :: 0 <= i < |a| ==> c[i] != c[|a| + j];
      }
    } else if Fresh(a, found) && Fresh(b, found + Found(a)) {
      forall i, j | 0 <= i < j < |c|
        ensures c[i] != c[j]
      {
        if i < |a| <= j {
          assert a[i] in a && b[j - |a|] in b;
        } else if |a| <= i {
          assert c[i] == b[i - |a|] && c[j] == b[j - |a|];
        }
      }
    }
  }

  /** The folders of one configuration element. */
  lemma {:induction false} InsideConfiguration(d: Desired, m: Machine, c: Content, more: seq<Token>)
    requires "" !in d && m.active == "" && !m.seen && m.stack == ["configuration"]
    ensures Run(d, m, Tokens(c) + more) ==
              if FoldersEditable(d, c) && Fresh(ManagedIds(d, c), m.found)
              then Prepend(Tokens(PauseFolders(d, c)),
                     Run(d, m.(found := m.found + Found(ManagedIds(d, c)), changed := m.changed || FoldersDiffer(d, c)), more))
              else None
    decreases c
  {
    hide Run, Prepend, Fresh, Found;
    var end := m.(found := m.found + Found(ManagedIds(d, c)), changed := m.changed || FoldersDiffer(d, c));
    match c
    case Empty =>
      PrependNothing(Run(d, m, more));
      NothingFound(m.found);
      assert Tokens(c) + more == more;
    case Element(name, attributes, inside, rest) =>
      var ids := if Managed(d, name, attributes) then [FolderId(attributes)] else [];
      FreshSplit(ids, ManagedIds(d, rest), m.found);
      NothingFound(m.found);
      OneFound(FolderId(attributes), m.found);
      FoldersElement(d, m, c, more);
      if FolderOk(d, m.found, c) {
        var next := AfterFolder(d, m, c);
        InsideConfiguration(d, next, rest, more);
        assert m.found + Found(ids) + Found(ManagedIds(d, rest)) == m.found + Found(ids + ManagedIds(d, rest));
        PrependNone<Machine>(FolderTokens(d, c));
        Prepend2(FolderTokens(d, c), Tokens(PauseFolders(d, rest)), Run(d, end, more));
        FolderTokensOf(d, c);
      }
    case _ =>
      StepPlain(d, m, c, more);
      InsideConfiguration(d, m, c.rest, more);
      Prepend2([First(c)], Tokens(PauseFolders(d, c.rest)), Run(d, end, more));
      PrependNone<Machine>([First(c)]);
  }

  lemma NothingFound(found: set<string>)
    ensures Fresh([], found) && found + Found([]) == found
  {
  }

  lemma OneFound(id: string, found: set<string>)
    ensures Fresh([id], found) <==> id !in found
    ensures Found([id]) == {id}
  {
    assert forall k :: k in [id] <==> k == id;
  }

  /** One child of the configuration element can be passed. */
  ghost predicate FolderOk(d: Desired, found: set<string>, c: Content)
    requires c.Element?
  {
    Managed(d, c.name, c.attributes) ==>
      FolderId(c.attributes) !in found && PausedFields(c.inside) <= 1 && PausedFlat(c.inside)
  }

  function AfterFolder(d: Desired, m: Machine, c: Content): Machine
    requires c.Element?
  {
    if Managed(d, c.name, c.attributes)
    then m.(found := m.found + {FolderId(c.attributes)},
            changed := m.changed || FolderDiffers(c.inside, d[FolderId(c.attributes)]))
    else m
  }

  function PausedInside(d: Desired, c: Content): Content
    requires c.Element?
  {
    if Managed(d, c.name, c.attributes) then PauseFolder(c.inside, d[FolderId(c.attributes)]) else c.inside
  }

  function FolderTokens(d: Desired, c: Content): seq<Token>
    requires c.Element?
  {
    [Start(c.name, c.attributes)] + Tokens(PausedInside(d, c)) + [End(c.name)]
  }

  lemma FolderTokensOf(d: Desired, c: Content)
    requires c.Element?
    ensures Tokens(PauseFolders(d, c)) == FolderTokens(d, c) + Tokens(PauseFolders(d, c.rest))
  {
  }

  lemma FoldersElement(d: Desired, m: Machine, c: Content, more: seq<Token>)
    requires "" !in d && m.active == "" && !m.seen && m.stack == ["configuration"] && c.Element?
    ensures Run(d, m, Tokens(c) + more) ==
              if FolderOk(d, m.found, c)
              then Prepend(FolderTokens(d, c), Run(d, AfterFolder(d, m, c), Tokens(c.rest) + more)) else None
  {
    hide Run, Prepend, Tokens, PauseFolder;
    var tail := [End(c.name)] + (Tokens(c.rest) + more);
    Opened(c, more);
    StepOpen(d, m, c.name, c.attributes, Tokens(c.inside) + tail);
    if Managed(d, c.name, c.attributes) {
      ManagedElement(d, m, c, more);
    } else {
      var pushed := m.(stack := m.stack + [c.name]);
      QuietCopies(d, pushed, c.inside, tail);
      StepClose(d, pushed, m.stack, c.name, Tokens(c.rest) + more);
      assert Leave(pushed).(stack := m.stack) == m && Missing(d, pushed) + [End(c.name)] == [End(c.name)];
      Prepend3([Start(c.name, c.attributes)], Tokens(c.inside), [End(c.name)], Run(d, m, Tokens(c.rest) + more));
    }
  }

  lemma ManagedElement(d: Desired, m: Machine, c: Content, more: seq<Token>)
    requires "" !in d && m.active == "" && !m.seen && m.stack == ["configuration"]
    requires c.Element? && Managed(d, c.name, c.attributes)
    ensures Run(d, m, Tokens(c) + more) ==
              if FolderOk(d, m.found, c)
              then Prepend(FolderTokens(d, c), Run(d, AfterFolder(d, m, c), Tokens(c.rest) + more)) else None
  {
    hide Run, Prepend, Tokens, PausedFlat, Differs, SetPaused;
    var id := FolderId(c.attributes);
    var tail := [End(c.name)] + (Tokens(c.rest) + more);
    Opened(c, more);
    StepOpen(d, m, c.name, c.attributes, Tokens(c.inside) + tail);
    PrependNone<Machine>([Start(c.name, c.attributes)]);
    if id !in m.found {
      var entered := m.(stack := ["configuration", "folder"], found := m.found + {id}, active := id);
      assert m.stack + ["folder"] == ["configuration", "folder"];
      assert Enter(d, m, c.name, c.attributes).(stack := m.stack + [c.name]) == entered;
      InsideFolder(d, entered, c.inside, tail);
      if PausedFlat(c.inside) && PausedFields(c.inside) <= 1 {
        var passed := entered.(seen := PausedFields(c.inside) > 0, changed := m.changed || Differs(c.inside, d[id]));
        StepClose(d, passed, ["configuration"], "folder", Tokens(c.rest) + more);
        FolderFinished(d, c.inside, d[id]);
        Prepend3([Start(c.name, c.attributes)], Tokens(SetPaused(c.inside, d[id])), Missing(d, passed) + [End(c.name)],
          Run(d, AfterFolder(d, m, c), Tokens(c.rest) + more));
        assert [Start(c.name, c.attributes)] + Tokens(SetPaused(c.inside, d[id])) + (Missing(d, passed) + [End(c.name)])
            == FolderTokens(d, c);
      }
    }
  }

  /** What the closing tag adds is what the edited folder has at its end. */
  lemma {:induction false} FolderFinished(d: Desired, c: Content, value: bool)
    ensures PausedFields(c) > 0 ==> Tokens(PauseFolder(c, value)) == Tokens(SetPaused(c, value))
    ensures PausedFields(c) == 0 ==>
              SetPaused(c, value) == c && !Differs(c, value)
              && Tokens(PauseFolder(c, value)) == Tokens(SetPaused(c, value)) + PausedTokens([], value)
  {
    if PausedFields(c) == 0 {
      NoPausedField(c, value);
      TokensOfThen(c, Scalar("paused", [], BoolText(value), Empty));
      PausedTokensOf([], value, Empty);
      assert PausedTokens([], value) + Tokens(Empty) == PausedTokens([], value);
    }
  }

  lemma {:induction false} NoPausedField(c: Content, value: bool)
    requires PausedFields(c) == 0
    ensures SetPaused(c, value) == c && !Differs(c, value)
  {
    match c
    case Empty =>
    case Text(_, rest) => NoPausedField(rest, value);
    case Comment(_, rest) => NoPausedField(rest, value);
    case Element(_, _, _, rest) => NoPausedField(rest, value);
  }

  /** The whole document. */
  lemma {:induction false} InsideDocument(d: Desired, m: Machine, c: Content)
    requires "" !in d && m.active == "" && !m.seen && m.stack == []
    ensures Run(d, m, Tokens(c)) ==
              if DocumentFoldersEditable(d, c) && Fresh(DocumentIds(d, c), m.found)
              then Some((m.(found := m.found + Found(DocumentIds(d, c)), changed := m.changed || DocumentDiffers(d, c)),
                         Tokens(PauseDocument(d, c))))
              else None
    decreases c
  {
    hide Run, Prepend, Fresh, Found;
    match c
    case Empty =>
      NothingFound(m.found);
      NoMoreTokens(d, m);
    case Element(name, attributes, inside, rest) =>
      var ids := if name == "configuration" then ManagedIds(d, inside) else [];
      FreshSplit(ids, DocumentIds(d, rest), m.found);
      NothingFound(m.found);
      DocumentElement(d, m, c);
      if name == "configuration" ==> FoldersEditable(d, inside) && Fresh(ids, m.found) {
        var next := if name == "configuration"
          then m.(found := m.found + Found(ids), changed := m.changed || FoldersDiffer(d, inside)) else m;
        InsideDocument(d, next, rest);
        assert m.found + Found(ids) + Found(DocumentIds(d, rest)) == m.found + Found(ids + DocumentIds(d, rest));
        PrependNone<Machine>(ElementTokens(d, c));
        PrependSome(ElementTokens(d, c), Run(d, next, Tokens(rest)));
        ElementTokensOf(d, c);
      }
    case _ =>
      StepPlain(d, m, c, []);
      assert Tokens(c) + [] == Tokens(c) && Tokens(c.rest) + [] == Tokens(c.rest);
      InsideDocument(d, m, c.rest);
      PrependNone<Machine>([First(c)]);
      PrependSome([First(c)], Run(d, m, Tokens(c.rest)));
  }

  lemma NoMoreTokens(d: Desired, m: Machine)
    requires Ready(d, m)
    ensures Run(d, m, []) == Some((m, []))
  {
  }

  function ElementInside(d: Desired, c: Content): Content
    requires c.Element?
  {
    if c.name == "configuration" then PauseFolders(d, c.inside) else c.inside
  }

  function ElementTokens(d: Desired, c: Content): seq<Token>
    requires c.Element?
  {
    [Start(c.name, c.attributes)] + Tokens(ElementInside(d, c)) + [End(c.name)]
  }

  lemma ElementTokensOf(d: Desired, c: Content)
    requires c.Element?
    ensures Tokens(PauseDocument(d, c)) == ElementTokens(d, c) + Tokens(PauseDocument(d, c.rest))
  {
  }

  lemma DocumentElement(d: Desired, m: Machine, c: Content)
    requires "" !in d && m.active == "" && !m.seen && m.stack == [] && c.Element?
    ensures Run(d, m, Tokens(c)) ==
              if c.name == "configuration" && !(FoldersEditable(d, c.inside) && Fresh(ManagedIds(d, c.inside), m.found)) then None
              else
                var next := if c.name == "configuration"
                  then m.(found := m.found + Found(ManagedIds(d, c.inside)), changed := m.changed || FoldersDiffer(d, c.inside)) else m;
                Prepend(ElementTokens(d, c), Run(d, next, Tokens(c.rest)))
  {
    hide Run, Prepend, Tokens, Fresh, Found;
    var tail := [End(c.name)] + Tokens(c.rest);
    assert Tokens(c) + [] == Tokens(c) && Tokens(c.rest) + [] == Tokens(c.rest);
    Opened(c, []);
    StepOpen(d, m, c.name, c.attributes, Tokens(c.inside) + tail);
    PrependNone<Machine>([Start(c.name, c.attributes)]);
    var pushed := m.(stack := [c.name]);
    assert m.stack + [c.name] == [c.name] && [] + [c.name] == [c.name];
    if c.name == "configuration" {
      InsideConfiguration(d, pushed, c.inside, tail);
      var next := m.(found := m.found + Found(ManagedIds(d, c.inside)), changed := m.changed || FoldersDiffer(d, c.inside));
      var passed := next.(stack := [c.name]);
      StepClose(d, passed, [], c.name, Tokens(c.rest));
      assert Leave(passed).(stack := []) == next && Missing(d, passed) + [End(c.name)] == [End(c.name)];
      Prepend3([Start(c.name, c.attributes)], Tokens(ElementInside(d, c)), [End(c.name)], Run(d, next, Tokens(c.rest)));
    } else {
      QuietCopies(d, pushed, c.inside, tail);
      StepClose(d, pushed, [], c.name, Tokens(c.rest));
      assert Leave(pushed).(stack := []) == m && Missing(d, pushed) + [End(c.name)] == [End(c.name)];
      Prepend3([Start(c.name, c.attributes)], Tokens(c.inside), [End(c.name)], Run(d, m, Tokens(c.rest)));
    }
  }

  // ---------------------------------------------------------------- the pass itself

  lemma RunNothing(d: Desired, m: Machine, tokens: seq<Token>)
    requires Ready(d, m)
    ensures Run(d, m, tokens) == Prepend([], Run(d, m, tokens[0..]))
  {
    assert tokens[0..] == tokens;
    PrependNothing(Run(d, m, tokens));
  }

  /** One turn of the loop at position i. */
  function Turn(d: Desired, m: Machine, tokens: seq<Token>, i: nat): Outcome
    requires Ready(d, m) && i < |tokens|
  {
    match tokens[i]
    case Start(name, attributes) =>
      if Again(d, m, name, attributes) then None
      else
        var entered := Enter(d, m, name, attributes);
        if InFolder(entered) && name == "paused" then
          if entered.seen || ReadScalar(tokens[i + 1..], name).None? then None
          else
            var (text, n) := ReadScalar(tokens[i + 1..], name).value;
            var after := entered.(seen := true, changed := entered.changed || I.TrimSpace(text) != BoolText(d[entered.active]));
            if i + 1 + n > |tokens| then None
            else Prepend(PausedTokens(attributes, d[entered.active]), Run(d, after, tokens[i + 1 + n..]))
        else Prepend([tokens[i]], Run(d, entered.(stack := entered.stack + [name]), tokens[i + 1..]))
    case End(name) =>
      if |m.stack| == 0 || m.stack[|m.stack| - 1] != name then None
      else Prepend(Missing(d, m) + [tokens[i]], Run(d, Leave(m).(stack := m.stack[..|m.stack| - 1]), tokens[i + 1..]))
    case _ => Prepend([tokens[i]], Run(d, m, tokens[i + 1..]))
  }

  lemma RunOne(d: Desired, m: Machine, tokens: seq<Token>, i: nat)
    requires Ready(d, m) && i < |tokens|
    ensures Run(d, m, tokens[i..]) == Turn(d, m, tokens, i)
  {
    hide Prepend, I.TrimSpace, BoolText, PausedTokens;
    var ts := tokens[i..];
    assert ts[0] == tokens[i] && ts[1..] == tokens[i + 1..];
    match tokens[i]
    case Start(name, attributes) =>
      var r := ReadScalar(ts[1..], name);
      if r.Some? && r.value.1 + 1 <= |ts| {
        assert ts[r.value.1 + 1..] == tokens[i + 1 + r.value.1..];
      }
    case _ =>
  }

  lemma OpenTurn(d: Desired, m: Machine, tokens: seq<Token>, i: nat, out: seq<Token>)
    requires Ready(d, m) && i < |tokens| && tokens[i].Start?
    requires !Again(d, m, tokens[i].name, tokens[i].attributes)
    requires !(InFolder(Enter(d, m, tokens[i].name, tokens[i].attributes)) && tokens[i].name == "paused")
    ensures var entered := Enter(d, m, tokens[i].name, tokens[i].attributes);
            Prepend(out, Run(d, m, tokens[i..]))
              == Prepend(out + [tokens[i]], Run(d, entered.(stack := entered.stack + [tokens[i].name]), tokens[i + 1..]))
  {
    hide Run, Prepend;
    RunOne(d, m, tokens, i);
    var entered := Enter(d, m, tokens[i].name, tokens[i].attributes);
    Prepend2(out, [tokens[i]], Run(d, entered.(stack := entered.stack + [tokens[i].name]), tokens[i + 1..]));
  }

  lemma PausedTurn(d: Desired, m: Machine, tokens: seq<Token>, i: nat, out: seq<Token>, text: string, next: nat)
    requires Ready(d, m) && i < |tokens| && tokens[i].Start? && tokens[i].name == "paused"
    requires InFolder(m) && !m.seen && i < next <= |tokens|
    requires ReadScalar(tokens[i + 1..], "paused") == Some((text, next - i - 1))
    ensures Prepend(out, Run(d, m, tokens[i..])) ==
              Prepend(out + PausedTokens(tokens[i].attributes, d[m.active]),
                Run(d, m.(seen := true, changed := m.changed || I.TrimSpace(text) != BoolText(d[m.active])), tokens[next..]))
  {
    hide Run, Prepend, PausedTokens, I.TrimSpace, BoolText, ReadScalar;
    RunOne(d, m, tokens, i);
    Prepend2(out, PausedTokens(tokens[i].attributes, d[m.active]),
      Run(d, m.(seen := true, changed := m.changed || I.TrimSpace(text) != BoolText(d[m.active])), tokens[next..]));
  }

  lemma CloseTurn(d: Desired, m: Machine, tokens: seq<Token>, i: nat, out: seq<Token>)
    requires Ready(d, m) && i < |tokens| && tokens[i].End?
    requires |m.stack| > 0 && m.stack[|m.stack| - 1] == tokens[i].name
    ensures Prepend(out, Run(d, m, tokens[i..])) ==
              Prepend(out + Missing(d, m) + [tokens[i]],
                Run(d, Leave(m).(stack := m.stack[..|m.stack| - 1]), tokens[i + 1..]))
  {
    hide Run, Prepend, Missing;
    RunOne(d, m, tokens, i);
    Prepend3(out, Missing(d, m), [tokens[i]], Run(d, Leave(m).(stack := m.stack[..|m.stack| - 1]), tokens[i + 1..]));
    Prepend2(Missing(d, m), [tokens[i]], Run(d, Leave(m).(stack := m.stack[..|m.stack| - 1]), tokens[i + 1..]));
  }

  lemma PlainTurn(d: Desired, m: Machine, tokens: seq<Token>, i: nat, out: seq<Token>)
    requires Ready(d, m) && i < |tokens| && (tokens[i].Chars? || tokens[i].Misc?)
    ensures Prepend(out, Run(d, m, tokens[i..])) == Prepend(out + [tokens[i]], Run(d, m, tokens[i + 1..]))
  {
    hide Run, Prepend;
    RunOne(d, m, tokens, i);
    Prepend2(out, [tokens[i]], Run(d, m, tokens[i + 1..]));
  }

  predicate RefusesAt(d: Desired, m: Machine, tokens: seq<Token>, i: nat)
    requires i < |tokens|
  {
    match tokens[i]
    case Start(name, attributes) =>
      || Again(d, m, name, attributes)
      || (&& InFolder(Enter(d, m, name, attributes)) && name == "paused"
          && (Enter(d, m, name, attributes).seen || ReadScalar(tokens[i + 1..], name).None?))
    case End(name) => |m.stack| == 0 || m.stack[|m.stack| - 1] != name
    case _ => false
  }

  /** Where the pass refuses, no document with these tokens can be edited. */
  lemma RefusedTurn(d: Desired, m: Machine, tokens: seq<Token>, i: nat, out: seq<Token>)
    requires "" !in d && Ready(d, m) && i < |tokens| && Run(d, START, tokens) == Prepend(out, Run(d, m, tokens[i..]))
    requires RefusesAt(d, m, tokens, i)
    ensures forall c :: tokens == Tokens(c) ==> !Editable(d, c)
  {
    hide Run, Prepend, Editable, Tokens;
    RunOne(d, m, tokens, i);
    Refused(d, tokens, out);
  }

  lemma RunEnds(d: Desired, m: Machine, tokens: seq<Token>, out: seq<Token>)
    requires Ready(d, m) && Run(d, START, tokens) == Prepend(out, Run(d, m, tokens[|tokens|..]))
    ensures Run(d, START, tokens) == Some((m, out))
  {
    assert tokens[|tokens|..] == [] && out + [] == out;
  }

  /** On the tokens of a document the pass is the edit of the tree. */
  lemma RunOnDocument(d: Desired, c: Content)
    requires "" !in d
    ensures Run(d, START, Tokens(c)) ==
              if DocumentFoldersEditable(d, c) && Distinct(DocumentIds(d, c))
              then Some((START.(found := Found(DocumentIds(d, c)), changed := DocumentDiffers(d, c)), Tokens(PauseDocument(d, c))))
              else None
  {
    hide Run, Found;
    InsideDocument(d, START, c);
    assert START.found + Found(DocumentIds(d, c)) == Found(DocumentIds(d, c));
  }

  lemma Refused(d: Desired, tokens: seq<Token>, out: seq<Token>)
    requires "" !in d && Run(d, START, tokens) == Prepend(out, None)
    ensures forall c :: tokens == Tokens(c) ==> !Editable(d, c)
  {
    hide Run;
    forall c | tokens == Tokens(c)
      ensures !Editable(d, c)
    {
      RunOnDocument(d, c);
    }
  }

  lemma NotEverything(d: Desired, tokens: seq<Token>, m: Machine, out: seq<Token>)
    requires "" !in d && Run(d, START, tokens) == Some((m, out))
    requires m.stack != [] || exists id :: id in d && id !in m.found
    ensures forall c :: tokens == Tokens(c) ==> !Editable(d, c)
  {
    hide Run, DocumentIds, DocumentFoldersEditable, DocumentDiffers;
    forall c | tokens == Tokens(c)
      ensures !Editable(d, c)
    {
      RunOnDocument(d, c);
    }
  }

  lemma Everything(d: Desired, tokens: seq<Token>, m: Machine, out: seq<Token>)
    requires "" !in d && Run(d, START, tokens) == Some((m, out))
    requires m.stack == [] && forall id :: id in d ==> id in m.found
    ensures forall c :: tokens == Tokens(c) ==>
              Editable(d, c) && (m.changed <==> DocumentDiffers(d, c)) && out == Tokens(PauseDocument(d, c))
  {
    hide Run, DocumentIds, DocumentFoldersEditable, DocumentDiffers, PauseDocument;
    forall c | tokens == Tokens(c)
      ensures Editable(d, c) && (m.changed <==> DocumentDiffers(d, c)) && out == Tokens(PauseDocument(d, c))
    {
      RunOnDocument(d, c);
    }
  }

  lemma {:induction false} NothingIn(c: Content)
    ensures ManagedIds(map[], c) == [] && FoldersEditable(map[], c) && !FoldersDiffer(map[], c)
  {
    if !c.Empty? {
      NothingIn(c.rest);
    }
  }

  lemma {:induction false} NothingInDocument(c: Content)
    ensures DocumentIds(map[], c) == [] && DocumentFoldersEditable(map[], c) && !DocumentDiffers(map[], c)
  {
    if !c.Empty? {
      NothingInDocument(c.rest);
      if c.Element? {
        NothingIn(c.inside);
      }
    }
  }

  lemma NothingDesired(tokens: seq<Token>)
    ensures forall c :: tokens == Tokens(c) ==> Editable(map[], c) && !DocumentDiffers(map[], c)
  {
    forall c | tokens == Tokens(c)
      ensures Editable(map[], c) && !DocumentDiffers(map[], c)
    {
      NothingInDocument(c);
    }
  }

  lemma EmptyIdRefused(d: Desired, tokens: seq<Token>)
    requires "" in d
    ensures forall c :: tokens == Tokens(c) ==> !Editable(d, c)
  {
    hide Tokens, DocumentIds, DocumentFoldersEditable;
  }

  datatype Edit = Edit(tokens: seq<Token>, changed: bool)

  /**
   * One loop over the tokens with a stack of open elements. On the tokens of a
   * document it succeeds exactly when the document can be edited, and then writes
   * the edited document, or hands back what it read when nothing differed.
   */
  method ReplaceManagedFolderPauses(tokens: seq<Token>, desired: Desired) returns (r: Option<Edit>)
    ensures forall c :: tokens == Tokens(c) ==> (r.Some? <==> Editable(desired, c))
    ensures forall c :: tokens == Tokens(c) && r.Some? ==>
              && (r.value.changed <==> DocumentDiffers(desired, c))
              && (r.value.changed ==> r.value.tokens == Tokens(PauseDocument(desired, c)))
    ensures r.Some? && !r.value.changed ==> r.value.tokens == tokens
  {
    hide Run, Prepend, Editable, DocumentDiffers, DocumentIds, DocumentFoldersEditable, PauseDocument, Tokens;
    hide I.TrimSpace, BoolText, AttributeValue, ReadScalar;
    if desired == map[] {
      NothingDesired(tokens);
      return Some(Edit(tokens, false));
    }
    if "" in desired {
      EmptyIdRefused(desired, tokens);
      return None;
    }
    var stack: seq<string>, found: set<string>, active, seen, changed, out: seq<Token> := [], {}, "", false, false, [];
    var i := 0;
    RunNothing(desired, START, tokens);
    while i < |tokens|
      invariant i <= |tokens| && (active == "" || active in desired)
      invariant Run(desired, START, tokens) ==
                  Prepend(out, Run(desired, Machine(stack, found, active, seen, changed), tokens[i..]))
      decreases |tokens| - i
    {
      ghost var m := Machine(stack, found, active, seen, changed);
      match tokens[i] {
        case Start(name, attributes) =>
          if |stack| == 1 && stack[0] == "configuration" && name == "folder" {
            var id := AttributeValue(attributes, "id");
            if id in desired {
              if id in found {
                RefusedTurn(desired, m, tokens, i, out);
                return None;
              }
              found, active, seen := found + {id}, id, false;
            }
          }
          if active != "" && |stack| == 2 && stack[1] == "folder" && name == "paused" {
            if seen {
              RefusedTurn(desired, m, tokens, i, out);
              return None;
            }
            var text, next := ConsumeScalar(tokens, i + 1, name);
            if text.None? {
              RefusedTurn(desired, m, tokens, i, out);
              return None;
            }
            PausedTurn(desired, m, tokens, i, out, text.value, next);
            var value := BoolText(desired[active]);
            seen, changed := true, changed || I.TrimSpace(text.value) != value;
            out := out + [Start("paused", attributes), Chars(value), End("paused")];
            i := next;
            continue;
          }
          OpenTurn(desired, m, tokens, i, out);
          stack := stack + [name];
          out := out + [tokens[i]];
        case End(name) =>
          if |stack| == 0 || stack[|stack| - 1] != name {
            RefusedTurn(desired, m, tokens, i, out);
            return None;
          }
          CloseTurn(desired, m, tokens, i, out);
          ghost var was := out;
          if active != "" && |stack| == 2 && stack[1] == "folder" {
            if !seen {
              out := out + [Start("paused", []), Chars(BoolText(desired[active])), End("paused")];
              changed := true;
            }
            active, seen := "", false;
          }
          assert out == was + Missing(desired, m);
          stack := stack[..|stack| - 1];
          out := out + [tokens[i]];
        case _ =>
          PlainTurn(desired, m, tokens, i, out);
          out := out + [tokens[i]];
      }
      i := i + 1;
    }
    RunEnds(desired, Machine(stack, found, active, seen, changed), tokens, out);
    if stack != [] || exists id :: id in desired && id !in found {
      NotEverything(desired, tokens, Machine(stack, found, active, seen, changed), out);
      return None;
    }
    Everything(desired, tokens, Machine(stack, found, active, seen, changed), out);
    r := Some(if changed then Edit(out, true) else Edit(tokens, false));
  }
}
