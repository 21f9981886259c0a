/**
 * The scalar edit: one pass over the tokens of a configuration that gives fixed
 * values to fields named by their path, adding those that are missing to the
 * first element that should hold them.
 */
module XmlScalars {
  import opened Durable
  import opened XmlContent

  type Path = seq<string>

  datatype Replacement = Replacement(parent: Path, name: string, value: string) {
    function At(): Path {
      parent + [name]
    }
  }

  type Replacements = seq<Replacement>

  /** The callers' lists: fields somewhere below the root. */
  predicate BelowRoot(rs: Replacements) {
    forall i :: 0 <= i < |rs| ==> rs[i].parent != []
  }

  ghost predicate DistinctPaths(rs: Replacements) {
    forall i, j :: 0 <= i < j < |rs| ==> rs[i].At() != rs[j].At()
  }

  predicate IsManaged(rs: Replacements, path: Path) {
    exists i :: 0 <= i < |rs| && rs[i].At() == path
  }

  function ValueOf(rs: Replacements, path: Path): string
    requires IsManaged(rs, path)
  {
    if rs[0].At() == path then rs[0].value else ValueOf(rs[1..], path)
  }

  // ------------------------------------------------------------ the edit of a tree

  /** The fields still unseen that belong into the element at this path, in the order of the list. */
  function Lacking(rs: Replacements, parent: Path, seen: set<Path>): Replacements {
    if rs == [] then []
    else if rs[0].parent == parent && rs[0].At() !in seen
    then [rs[0]] + Lacking(rs[1..], parent, seen + {rs[0].At()})
    else Lacking(rs[1..], parent, seen)
  }

  function PathsOf(rs: Replacements): set<Path> {
    set i | 0 <= i < |rs| :: rs[i].At()
  }

  function Fields(rs: Replacements): Content {
    if rs == [] then Empty else Scalar(rs[0].name, [], rs[0].value, Fields(rs[1..]))
  }

  /** The edited content at a path with the fields seen by then; nothing where the pass refuses. */
  function EditContent(rs: Replacements, c: Content, above: Path, seen: set<Path>): Option<(Content, set<Path>)>
    decreases c, 0
  {
    match c
    case Empty => Some((Empty, seen))
    case Text(text, rest) =>
      (match EditContent(rs, rest, above, seen)
       case None => None
       case Some((rest', s)) => Some((Text(text, rest'), s)))
    case Comment(text, rest) =>
      (match EditContent(rs, rest, above, seen)
       case None => None
       case Some((rest', s)) => Some((Comment(text, rest'), s)))
    case Element(name, attributes, inside, rest) =>
      match EditElement(rs, name, inside, above, seen)
      case None => None
      case Some((inside', s)) =>
        match EditContent(rs, rest, above, s)
        case None => None
        case Some((rest', s')) => Some((Element(name, attributes, inside', rest'), s'))
  }

  /** What an element holds after the edit. */
  function EditElement(rs: Replacements, name: string, inside: Content, above: Path, seen: set<Path>): Option<(Content, set<Path>)>
    decreases inside, 1
  {
    var path := above + [name];
    if above == [] && name != "configuration" then None
    else if IsManaged(rs, path) then
      if path in seen || !Flat(inside) then None else Some((Text(ValueOf(rs, path), Empty), seen + {path}))
    else
      match EditContent(rs, inside, path, seen)
      case None => None
      case Some((inside', s)) =>
        var lacking := Lacking(rs, path, s);
        Some((Then(inside', Fields(lacking)), s + PathsOf(lacking)))
  }

  function Roots(c: Content): nat {
    match c
    case Empty => 0
    case Text(_, rest) => Roots(rest)
    case Comment(_, rest) => Roots(rest)
    case Element(_, _, _, rest) => 1 + Roots(rest)
  }

  ghost predicate Replaceable(rs: Replacements, c: Content) {
    && DistinctPaths(rs)
    && EditContent(rs, c, [], {}).Some?
    && Roots(c) == 1
    && forall i :: 0 <= i < |rs| ==> rs[i].At() in EditContent(rs, c, [], {}).value.1
  }

  function Replaced(rs: Replacements, c: Content): Content
    requires EditContent(rs, c, [], {}).Some?
  {
    EditContent(rs, c, [], {}).value.0
  }

  // ------------------------------------------------------------ the machine

  datatype Machine = Machine(stack: Path, seen: set<Path>, roots: nat)

  const START := Machine([], {}, 0)

  function FieldTokens(rs: Replacements): seq<Token> {
    if rs == [] then [] else [Start(rs[0].name, []), Chars(rs[0].value), End(rs[0].name)] + FieldTokens(rs[1..])
  }

  lemma {:induction false} TokensOfFields(rs: Replacements)
    ensures Tokens(Fields(rs)) == FieldTokens(rs)
  {
    if rs != [] {
      TokensOfFields(rs[1..]);
      assert Tokens(Text(rs[0].value, Empty)) == [Chars(rs[0].value)];
    }
  }

  function Counted(m: Machine): Machine {
    if m.stack == [] then m.(roots := m.roots + 1) else m
  }

  predicate RefusesOpen(rs: Replacements, m: Machine, name: string, following: seq<Token>) {
    || (m.stack == [] && name != "configuration")
    || (IsManaged(rs, m.stack + [name]) && (m.stack + [name] in m.seen || ReadScalar(following, name).None?))
  }

  function Run(rs: Replacements, m: Machine, ts: seq<Token>): Pass<Machine>
    decreases |ts|
  {
    if ts == [] then Some((m, []))
    else match ts[0]
      case Start(name, attributes) =>
        if RefusesOpen(rs, m, name, ts[1..]) then None
        else
          var path := m.stack + [name];
          if IsManaged(rs, path) then
            var n := ReadScalar(ts[1..], name).value.1;
            if n + 1 > |ts| then None
            else Prepend([ts[0], Chars(ValueOf(rs, path)), End(name)],
                   Run(rs, Counted(m).(seen := m.seen + {path}), ts[n + 1..]))
          else Prepend([ts[0]], Run(rs, Counted(m).(stack := path), ts[1..]))
      case End(name) =>
        if |m.stack| == 0 || m.stack[|m.stack| - 1] != name then None
        else
          var lacking := Lacking(rs, m.stack, m.seen);
          Prepend(FieldTokens(lacking) + [ts[0]],
            Run(rs, m.(stack := m.stack[..|m.stack| - 1], seen := m.seen + PathsOf(lacking)), ts[1..]))
      case _ => Prepend([ts[0]], Run(rs, m, ts[1..]))
  }

  // ---------------------------------------------------- the machine, token by token

  lemma StepPlain(rs: Replacements, m: Machine, c: Content, more: seq<Token>)
    requires c.Text? || c.Comment?
    ensures Run(rs, m, Tokens(c) + more) == Prepend([First(c)], Run(rs, m, Tokens(c.rest) + more))
    ensures Tokens(c) == [First(c)] + Tokens(c.rest)
  {
    PlainFirst(c, more);
    assert ([First(c)] + (Tokens(c.rest) + more))[1..] == Tokens(c.rest) + more;
  }

  lemma StepOpen(rs: Replacements, m: Machine, name: string, attributes: seq<Attribute>, ts: seq<Token>)
    requires !IsManaged(rs, m.stack + [name])
    ensures Run(rs, m, [Start(name, attributes)] + ts) ==
              if m.stack == [] && name != "configuration" then None
              else Prepend([Start(name, attributes)], Run(rs, Counted(m).(stack := m.stack + [name]), ts))
  {
    hide IsManaged;
    assert ([Start(name, attributes)] + ts)[1..] == ts;
  }

  lemma StepScalar(rs: Replacements, m: Machine, c: Content, more: seq<Token>)
    requires c.Element? && IsManaged(rs, m.stack + [c.name])
    ensures Run(rs, m, Tokens(c) + more) ==
              if (m.stack == [] && c.name != "configuration") || m.stack + [c.name] in m.seen || !Flat(c.inside) then None
              else Prepend([Start(c.name, c.attributes), Chars(ValueOf(rs, m.stack + [c.name])), End(c.name)],
                     Run(rs, Counted(m).(seen := m.seen + {m.stack + [c.name]}), Tokens(c.rest) + more))
  {
    hide IsManaged, Tokens, Prepend, ValueOf;
    ScalarTokens(c, more);
    ReadScalarOfContent(c.inside, c.name, Tokens(c.rest) + more);
  }

  lemma StepClose(rs: Replacements, m: Machine, above: Path, name: string, ts: seq<Token>)
    requires m.stack == above + [name]
    ensures var lacking := Lacking(rs, m.stack, m.seen);
            Run(rs, m, [End(name)] + ts) ==
              Prepend(FieldTokens(lacking) + [End(name)], Run(rs, m.(stack := above, seen := m.seen + PathsOf(lacking)), ts))
  {
    hide Lacking, PathsOf, FieldTokens;
    assert ([End(name)] + ts)[1..] == ts;
    assert m.stack[..|m.stack| - 1] == above;
  }

  // ---------------------------------------------------- the machine against the tree

  function Grown(m: Machine, c: Content, seen: set<Path>): Machine {
    m.(seen := seen, roots := if m.stack == [] then m.roots + Roots(c) else m.roots)
  }

  predicate RunsAsEdited(rs: Replacements, m: Machine, c: Content, more: seq<Token>) {
    match EditContent(rs, c, m.stack, m.seen)
    case None => Run(rs, m, Tokens(c) + more) == None
    case Some((edited, seen)) => Run(rs, m, Tokens(c) + more) == Prepend(Tokens(edited), Run(rs, Grown(m, c, seen), more))
  }

  /** On the tokens of any content the pass is the edit of the tree. */
  lemma {:induction false} RunIsEdit(rs: Replacements, m: Machine, c: Content, more: seq<Token>)
    ensures RunsAsEdited(rs, m, c, more)
    decreases c
  {
    hide Run, Prepend, IsManaged;
    match c
    case Empty =>
      PrependNothing(Run(rs, m, more));
      assert Tokens(c) + more == more;
      assert Grown(m, c, m.seen) == m;
    case Element(name, attributes, inside, rest) =>
      if !IsManaged(rs, m.stack + [name]) && !(m.stack == [] && name != "configuration") {
        RunIsEdit(rs, Counted(m).(stack := m.stack + [name]), inside, [End(name)] + (Tokens(rest) + more));
      }
      ElementIsEdit(rs, m, c, more);
      var after := EditElement(rs, name, inside, m.stack, m.seen);
      if after.Some? {
        var next := Counted(m).(seen := after.value.1);
        RunIsEdit(rs, next, rest, more);
        var tail := EditContent(rs, rest, m.stack, next.seen);
        if tail.Some? {
          assert Grown(next, rest, tail.value.1) == Grown(m, c, tail.value.1);
          Prepend2(ElementTokens(name, attributes, after.value.0), Tokens(tail.value.0), Run(rs, Grown(m, c, tail.value.1), more));
        }
        PrependNone<Machine>(ElementTokens(name, attributes, after.value.0));
      }
    case _ =>
      StepPlain(rs, m, c, more);
      RunIsEdit(rs, m, c.rest, more);
      PrependNone<Machine>([First(c)]);
      var tail := EditContent(rs, c.rest, m.stack, m.seen);
      if tail.Some? {
        assert Grown(m, c.rest, tail.value.1) == Grown(m, c, tail.value.1);
        Prepend2([First(c)], Tokens(tail.value.0), Run(rs, Grown(m, c, tail.value.1), more));
      }
  }

  function ElementTokens(name: string, attributes: seq<Attribute>, inside: Content): seq<Token> {
    [Start(name, attributes)] + Tokens(inside) + [End(name)]
  }

  predicate ElementRunsAsEdited(rs: Replacements, m: Machine, c: Content, more: seq<Token>)
    requires c.Element?
  {
    match EditElement(rs, c.name, c.inside, m.stack, m.seen)
    case None => Run(rs, m, Tokens(c) + more) == None
    case Some((inside, seen)) =>
      Run(rs, m, Tokens(c) + more)
        == Prepend(ElementTokens(c.name, c.attributes, inside), Run(rs, Counted(m).(seen := seen), Tokens(c.rest) + more))
  }

  lemma ElementIsEdit(rs: Replacements, m: Machine, c: Content, more: seq<Token>)
    requires c.Element?
    requires !IsManaged(rs, m.stack + [c.name]) && !(m.stack == [] && c.name != "configuration") ==>
               RunsAsEdited(rs, Counted(m).(stack := m.stack + [c.name]), c.inside, [End(c.name)] + (Tokens(c.rest) + more))
    ensures ElementRunsAsEdited(rs, m, c, more)
  {
    hide Run, Prepend, IsManaged, ValueOf, Lacking, PathsOf, Then, Fields, FieldTokens;
    var path := m.stack + [c.name];
    if IsManaged(rs, path) {
      StepScalar(rs, m, c, more);
      assert Tokens(Text(ValueOf(rs, path), Empty)) == [Chars(ValueOf(rs, path))];
      assert ElementTokens(c.name, c.attributes, Text(ValueOf(rs, path), Empty))
          == [Start(c.name, c.attributes), Chars(ValueOf(rs, path)), End(c.name)];
    } else {
      var tail := [End(c.name)] + (Tokens(c.rest) + more);
      Opened(c, more);
      StepOpen(rs, m, c.name, c.attributes, Tokens(c.inside) + tail);
      PrependNone<Machine>([Start(c.name, c.attributes)]);
      var pushed := Counted(m).(stack := path);
      var after := EditContent(rs, c.inside, path, m.seen);
      if !(m.stack == [] && c.name != "configuration") && after.Some? {
        ElementCloses(rs, m, c, more, after.value.0, after.value.1);
      }
    }
  }

  lemma ElementCloses(rs: Replacements, m: Machine, c: Content, more: seq<Token>, inside: Content, seen: set<Path>)
    requires c.Element?
    ensures var path := m.stack + [c.name]; var lacking := Lacking(rs, path, seen);
            Prepend([Start(c.name, c.attributes)], Prepend(Tokens(inside),
              Run(rs, Grown(Counted(m).(stack := path), c.inside, seen), [End(c.name)] + (Tokens(c.rest) + more))))
              == Prepend(ElementTokens(c.name, c.attributes, Then(inside, Fields(lacking))),
                   Run(rs, Counted(m).(seen := seen + PathsOf(lacking)), Tokens(c.rest) + more))
  {
    hide Run, Prepend, IsManaged, Lacking, PathsOf, Then, Fields, FieldTokens;
    var path := m.stack + [c.name];
    var lacking := Lacking(rs, path, seen);
    var passed := Grown(Counted(m).(stack := path), c.inside, seen);
    var next := Counted(m).(seen := seen + PathsOf(lacking));
    assert passed.(stack := m.stack, seen := seen + PathsOf(lacking)) == next;
    StepClose(rs, passed, m.stack, c.name, Tokens(c.rest) + more);
    Prepend3([Start(c.name, c.attributes)], Tokens(inside), FieldTokens(lacking) + [End(c.name)],
      Run(rs, next, Tokens(c.rest) + more));
    TokensOfThen(inside, Fields(lacking));
    TokensOfFields(lacking);
    assert [Start(c.name, c.attributes)] + Tokens(inside) + (FieldTokens(lacking) + [End(c.name)])
        == ElementTokens(c.name, c.attributes, Then(inside, Fields(lacking)));
  }

  // ---------------------------------------------------------------- the pass itself

  lemma RunOnDocument(rs: Replacements, c: Content)
    ensures Run(rs, START, Tokens(c)) ==
              match EditContent(rs, c, [], {})
              case None => None
              case Some((edited, seen)) => Some((Machine([], seen, Roots(c)), Tokens(edited)))
  {
    hide EditContent;
    RunIsEdit(rs, START, c, []);
    assert Tokens(c) + [] == Tokens(c);
    var e := EditContent(rs, c, [], {});
    if e.Some? {
      assert Grown(START, c, e.value.1) == Machine([], e.value.1, Roots(c));
      assert Tokens(e.value.0) + [] == Tokens(e.value.0);
    }
  }

  lemma RunNothing(rs: Replacements, tokens: seq<Token>)
    ensures Run(rs, START, tokens) == Prepend([], Run(rs, START, tokens[0..]))
  {
    assert tokens[0..] == tokens;
    PrependNothing(Run(rs, START, tokens));
  }

  lemma RunEnds(rs: Replacements, m: Machine, tokens: seq<Token>, out: seq<Token>)
    requires Run(rs, START, tokens) == Prepend(out, Run(rs, m, tokens[|tokens|..]))
    ensures Run(rs, START, tokens) == Some((m, out))
  {
    assert tokens[|tokens|..] == [] && out + [] == out;
  }

  lemma Shifted(tokens: seq<Token>, i: nat, n: nat)
    requires i + n <= |tokens|
    ensures tokens[i..][n..] == tokens[i + n..]
  {
  }

  lemma OpenTurn(rs: Replacements, m: Machine, tokens: seq<Token>, i: nat, out: seq<Token>)
    requires i < |tokens| && tokens[i].Start? && !IsManaged(rs, m.stack + [tokens[i].name])
    requires !(m.stack == [] && tokens[i].name != "configuration")
    ensures Prepend(out, Run(rs, m, tokens[i..]))
              == Prepend(out + [tokens[i]], Run(rs, Counted(m).(stack := m.stack + [tokens[i].name]), tokens[i + 1..]))
  {
    hide Prepend, IsManaged;
    Shifted(tokens, i, 1);
    Prepend2(out, [tokens[i]], Run(rs, Counted(m).(stack := m.stack + [tokens[i].name]), tokens[i + 1..]));
  }

  lemma ScalarTurn(rs: Replacements, m: Machine, tokens: seq<Token>, i: nat, out: seq<Token>, text: string, next: nat)
    requires i < |tokens| && tokens[i].Start? && IsManaged(rs, m.stack + [tokens[i].name])
    requires m.stack + [tokens[i].name] !in m.seen && !(m.stack == [] && tokens[i].name != "configuration")
    requires i < next <= |tokens| && ReadScalar(tokens[i + 1..], tokens[i].name) == Some((text, next - i - 1))
    ensures var path := m.stack + [tokens[i].name];
            Prepend(out, Run(rs, m, tokens[i..]))
              == Prepend(out + [tokens[i], Chars(ValueOf(rs, path)), End(tokens[i].name)],
                   Run(rs, Counted(m).(seen := m.seen + {path}), tokens[next..]))
  {
    hide Prepend, IsManaged, ReadScalar, ValueOf;
    var path := m.stack + [tokens[i].name];
    Shifted(tokens, i, 1);
    Shifted(tokens, i, next - i);
    Prepend2(out, [tokens[i], Chars(ValueOf(rs, path)), End(tokens[i].name)],
      Run(rs, Counted(m).(seen := m.seen + {path}), tokens[next..]));
  }

  lemma CloseTurn(rs: Replacements, m: Machine, tokens: seq<Token>, i: nat, out: seq<Token>)
    requires i < |tokens| && tokens[i].End? && |m.stack| > 0 && m.stack[|m.stack| - 1] == tokens[i].name
    ensures var lacking := Lacking(rs, m.stack, m.seen);
            Prepend(out, Run(rs, m, tokens[i..])) ==
              Prepend(out + FieldTokens(lacking) + [tokens[i]],
                Run(rs, m.(stack := m.stack[..|m.stack| - 1], seen := m.seen + PathsOf(lacking)), tokens[i + 1..]))
  {
    hide Prepend, Lacking, FieldTokens, PathsOf;
    var lacking := Lacking(rs, m.stack, m.seen);
    var next := m.(stack := m.stack[..|m.stack| - 1], seen := m.seen + PathsOf(lacking));
    Shifted(tokens, i, 1);
    Prepend3(out, FieldTokens(lacking), [tokens[i]], Run(rs, next, tokens[i + 1..]));
    Prepend2(FieldTokens(lacking), [tokens[i]], Run(rs, next, tokens[i + 1..]));
  }

  lemma PlainTurn(rs: Replacements, m: Machine, tokens: seq<Token>, i: nat, out: seq<Token>)
    requires i < |tokens| && (tokens[i].Chars? || tokens[i].Misc?)
    ensures Prepend(out, Run(rs, m, tokens[i..])) == Prepend(out + [tokens[i]], Run(rs, m, tokens[i + 1..]))
  {
    hide Prepend;
    Shifted(tokens, i, 1);
    Prepend2(out, [tokens[i]], Run(rs, m, tokens[i + 1..]));
  }

  predicate RefusesAt(rs: Replacements, m: Machine, tokens: seq<Token>, i: nat)
    requires i < |tokens|
  {
    match tokens[i]
    case Start(name, _) => RefusesOpen(rs, m, name, tokens[i + 1..])
    case End(name) => |m.stack| == 0 || m.stack[|m.stack| - 1] != name
    case _ => false
  }

  /** Where the pass refuses, no document with these tokens can be edited. */
  lemma RefusedTurn(rs: Replacements, m: Machine, tokens: seq<Token>, i: nat, out: seq<Token>)
    requires i < |tokens| && Run(rs, START, tokens) == Prepend(out, Run(rs, m, tokens[i..])) && RefusesAt(rs, m, tokens, i)
    ensures forall c :: tokens == Tokens(c) ==> !Replaceable(rs, c)
  {
    hide IsManaged, ReadScalar, EditContent;
    Shifted(tokens, i, 1);
    assert Run(rs, m, tokens[i..]) == None;
    forall c | tokens == Tokens(c)
      ensures !Replaceable(rs, c)
    {
      RunOnDocument(rs, c);
    }
  }

  lemma Finished(rs: Replacements, m: Machine, tokens: seq<Token>, out: seq<Token>)
    requires Run(rs, START, tokens) == Some((m, out)) && DistinctPaths(rs)
    ensures forall c :: tokens == Tokens(c) ==>
              && (Replaceable(rs, c) <==> m.roots == 1 && m.stack == [] && forall i :: 0 <= i < |rs| ==> rs[i].At() in m.seen)
              && EditContent(rs, c, [], {}).Some? && out == Tokens(Replaced(rs, c))
  {
    hide Run, EditContent;
    forall c | tokens == Tokens(c)
      ensures && (Replaceable(rs, c) <==> m.roots == 1 && m.stack == [] && forall i :: 0 <= i < |rs| ==> rs[i].At() in m.seen)
              && EditContent(rs, c, [], {}).Some? && out == Tokens(Replaced(rs, c))
    {
      RunOnDocument(rs, c);
    }
  }

  /** The list by path, unless a path is there twice. */
  method Index(rs: Replacements) returns (byPath: Option<map<Path, string>>)
    ensures byPath.Some? <==> DistinctPaths(rs)
    ensures byPath.Some? ==> forall p :: p in byPath.value <==> IsManaged(rs, p)
    ensures byPath.Some? ==> forall p :: p in byPath.value ==> byPath.value[p] == ValueOf(rs, p)
  {
    var m: map<Path, string> := map[];
    var i := |rs|;
    while i > 0
      invariant 0 <= i <= |rs|
      invariant forall p :: p in m <==> IsManaged(rs[i..], p)
      invariant forall p :: p in m ==> m[p] == ValueOf(rs[i..], p)
      invariant DistinctPaths(rs[i..])
    {
      var path := rs[i - 1].At();
      OneMore(rs, i - 1);
      if path in m {
        return None;
      }
      m := m[path := rs[i - 1].value];
      i := i - 1;
    }
    assert rs[0..] == rs;
    byPath := Some(m);
  }

  lemma OneMore(rs: Replacements, i: nat)
    requires i < |rs|
    ensures forall p :: IsManaged(rs[i..], p) <==> p == rs[i].At() || IsManaged(rs[i + 1..], p)
    ensures forall p :: IsManaged(rs[i..], p) ==>
              ValueOf(rs[i..], p) == if p == rs[i].At() then rs[i].value else ValueOf(rs[i + 1..], p)
    ensures DistinctPaths(rs[i + 1..]) ==> (DistinctPaths(rs[i..]) <==> !IsManaged(rs[i + 1..], rs[i].At()))
    ensures DistinctPaths(rs) ==> DistinctPaths(rs[i..])
  {
    var a, b := rs[i..], rs[i + 1..];
    assert a == [rs[i]] + b && a[1..] == b;
    assert forall k :: 0 <= k < |b| ==> b[k] == a[k + 1];
    assert forall k :: 0 < k < |a| ==> a[k] == b[k - 1];
    assert forall k :: 0 <= k < |a| ==> a[k] == rs[i + k];
  }

  /** Writes the fields the closing element lacks and marks them seen. */
  method InsertLacking(rs: Replacements, parent: Path, seen: set<Path>, out: seq<Token>) returns (seen': set<Path>, out': seq<Token>)
    ensures seen' == seen + PathsOf(Lacking(rs, parent, seen))
    ensures out' == out + FieldTokens(Lacking(rs, parent, seen))
  {
    seen', out' := seen, out;
    assert rs[0..] == rs;
    for i := 0 to |rs|
      invariant seen' + PathsOf(Lacking(rs[i..], parent, seen')) == seen + PathsOf(Lacking(rs, parent, seen))
      invariant out' + FieldTokens(Lacking(rs[i..], parent, seen')) == out + FieldTokens(Lacking(rs, parent, seen))
    {
      assert rs[i..][1..] == rs[i + 1..];
      if rs[i].At() in seen' || rs[i].parent != parent {
        continue;
      }
      LackingOne(rs[i], Lacking(rs[i + 1..], parent, seen' + {rs[i].At()}));
      out' := out' + [Start(rs[i].name, []), Chars(rs[i].value), End(rs[i].name)];
      seen' := seen' + {rs[i].At()};
    }
  }

  lemma LackingOne(r: Replacement, more: Replacements)
    ensures PathsOf([r] + more) == {r.At()} + PathsOf(more)
    ensures FieldTokens([r] + more) == [Start(r.name, []), Chars(r.value), End(r.name)] + FieldTokens(more)
  {
    var all := [r] + more;
    assert all[1..] == more && all[0] == r;
    assert forall i :: 0 < i < |all| ==> all[i] == more[i - 1];
    forall i | 0 <= i < |more|
      ensures more[i].At() in PathsOf(all)
    {
      assert all[i + 1] == more[i];
    }
  }

  /**
   * One loop over the tokens with a stack of open elements. On the tokens of a
   * document it succeeds exactly when the document can be edited, and then writes
   * the edited document.
   */
  method ReplaceXmlScalars(tokens: seq<Token>, rs: Replacements) returns (r: Option<seq<Token>>)
    ensures forall c :: tokens == Tokens(c) ==> (r.Some? <==> Replaceable(rs, c))
    ensures forall c :: tokens == Tokens(c) && r.Some? ==> Replaceable(rs, c) && r.value == Tokens(Replaced(rs, c))
  {
    hide Run, Prepend, Replaceable, Replaced, EditContent, Tokens, IsManaged, ValueOf, ReadScalar, Lacking, FieldTokens, PathsOf;
    var byPath := Index(rs);
    if byPath.None? {
      NotDistinct(rs);
      return None;
    }
    var stack: Path, seen: set<Path>, roots, out: seq<Token> := [], {}, 0, [];
    var i := 0;
    RunNothing(rs, tokens);
    while i < |tokens|
      invariant i <= |tokens|
      invariant Run(rs, START, tokens) == Prepend(out, Run(rs, Machine(stack, seen, roots), tokens[i..]))
      decreases |tokens| - i
    {
      ghost var m := Machine(stack, seen, roots);
      match tokens[i] {
        case Start(name, attributes) =>
          if |stack| == 0 {
            if name != "configuration" {
              RefusedTurn(rs, m, tokens, i, out);
              return None;
            }
            roots := roots + 1;
          }
          var path := stack + [name];
          if path in byPath.value {
            if path in seen {
              RefusedTurn(rs, m, tokens, i, out);
              return None;
            }
            var text, next := ConsumeScalar(tokens, i + 1, name);
            if text.None? {
              RefusedTurn(rs, m, tokens, i, out);
              return None;
            }
            ScalarTurn(rs, m, tokens, i, out, text.value, next);
            seen := seen + {path};
            out := out + [tokens[i], Chars(byPath.value[path]), End(name)];
            i := next;
            continue;
          }
          OpenTurn(rs, m, tokens, i, out);
          stack := path;
          out := out + [tokens[i]];
        case End(name) =>
          if |stack| == 0 || stack[|stack| - 1] != name {
            RefusedTurn(rs, m, tokens, i, out);
            return None;
          }
          CloseTurn(rs, m, tokens, i, out);
          seen, out := InsertLacking(rs, stack, seen, out);
          stack := stack[..|stack| - 1];
          out := out + [tokens[i]];
        case _ =>
          PlainTurn(rs, m, tokens, i, out);
          out := out + [tokens[i]];
      }
      i := i + 1;
    }
    RunEnds(rs, Machine(stack, seen, roots), tokens, out);
    Finished(rs, Machine(stack, seen, roots), tokens, out);
    if roots != 1 || |stack| != 0 || exists k :: 0 <= k < |rs| && rs[k].At() !in seen {
      return None;
    }
    r := Some(out);
  }

  lemma NotDistinct(rs: Replacements)
    requires !DistinctPaths(rs)
    ensures forall c :: !Replaceable(rs, c)
  {
  }
}
