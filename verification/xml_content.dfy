/** XML as a stream of tokens and as a tree, and the text values read from it. */
module XmlContent {
  import opened Durable

  datatype Attribute = Attribute(name: string, value: string)

  datatype Token =
    | Start(name: string, attributes: seq<Attribute>)
    | End(name: string)
    | Chars(text: string)
    | Misc(text: string)

  /** What stands between two tags: a text, a comment or the like, or an element, and then what follows it. */
  datatype Content =
    | Empty
    | Text(text: string, rest: Content)
    | Comment(text: string, rest: Content)
    | Element(name: string, attributes: seq<Attribute>, inside: Content, rest: Content)

  function Tokens(c: Content): seq<Token> {
    match c
    case Empty => []
    case Text(text, rest) => [Chars(text)] + Tokens(rest)
    case Comment(text, rest) => [Misc(text)] + Tokens(rest)
    case Element(name, attributes, inside, rest) =>
      [Start(name, attributes)] + Tokens(inside) + [End(name)] + Tokens(rest)
  }

  /** c followed by d. */
  function Then(c: Content, d: Content): Content {
    match c
    case Empty => d
    case Text(text, rest) => Text(text, Then(rest, d))
    case Comment(text, rest) => Comment(text, Then(rest, d))
    case Element(name, attributes, inside, rest) => Element(name, attributes, inside, Then(rest, d))
  }

  lemma {:induction false} TokensOfThen(c: Content, d: Content)
    ensures Tokens(Then(c, d)) == Tokens(c) + Tokens(d)
  {
    match c
    case Empty =>
    case Text(text, rest) => TokensOfThen(rest, d);
    case Comment(text, rest) => TokensOfThen(rest, d);
    case Element(name, attributes, inside, rest) =>
      TokensOfThen(rest, d);
      assert Tokens(Then(c, d)) == [Start(name, attributes)] + Tokens(inside) + [End(name)] + (Tokens(rest) + Tokens(d));
  }

  /** No element: what a scalar may contain. */
  predicate Flat(c: Content) {
    match c
    case Empty => true
    case Text(_, rest) => Flat(rest)
    case Comment(_, rest) => Flat(rest)
    case Element(_, _, _, _) => false
  }

  function TextOf(c: Content): string {
    match c
    case Empty => ""
    case Text(text, rest) => text + TextOf(rest)
    case Comment(_, rest) => TextOf(rest)
    case Element(_, _, _, rest) => TextOf(rest)
  }

  function Scalar(name: string, attributes: seq<Attribute>, value: string, rest: Content): Content {
    Element(name, attributes, Text(value, Empty), rest)
  }

  function AttributeValue(attributes: seq<Attribute>, name: string): string {
    if attributes == [] then ""
    else if attributes[0].name == name then attributes[0].value
    else AttributeValue(attributes[1..], name)
  }

  // ------------------------------------------------------------ reading a scalar

  /** The text up to the closing tag and how many tokens that took; nothing for a nested element or another tag. */
  function ReadScalar(ts: seq<Token>, name: string): Option<(string, nat)> {
    if ts == [] then None
    else match ts[0]
      case Start(_, _) => None
      case End(n) => if n == name then Some(("", 1)) else None
      case Chars(text) =>
        (match ReadScalar(ts[1..], name)
         case None => None
         case Some((more, n)) => Some((text + more, n + 1)))
      case Misc(_) =>
        (match ReadScalar(ts[1..], name)
         case None => None
         case Some((more, n)) => Some((more, n + 1)))
  }

  /** On the tokens of an element the scalar is the element's text, exactly when it is flat. */
  lemma {:induction false} ReadScalarOfContent(c: Content, name: string, more: seq<Token>)
    ensures ReadScalar(Tokens(c) + [End(name)] + more, name) ==
              if Flat(c) then Some((TextOf(c), |Tokens(c)| + 1)) else None
  {
    var ts := Tokens(c) + [End(name)] + more;
    match c
    case Empty =>
    case Text(text, rest) =>
      assert ts[1..] == Tokens(rest) + [End(name)] + more;
      ReadScalarOfContent(rest, name, more);
    case Comment(text, rest) =>
      assert ts[1..] == Tokens(rest) + [End(name)] + more;
      ReadScalarOfContent(rest, name, more);
    case Element(n, attributes, inside, rest) =>
      assert ts[0] == Start(n, attributes);
  }

  lemma {:induction false} ReadScalarBound(ts: seq<Token>, name: string)
    ensures ReadScalar(ts, name).Some? ==> 1 <= ReadScalar(ts, name).value.1 <= |ts|
  {
    if ts != [] {
      ReadScalarBound(ts[1..], name);
    }
  }

  /** The loop that reads a scalar token by token. */
  method ConsumeScalar(ts: seq<Token>, from: nat, name: string) returns (r: Option<string>, next: nat)
    requires from <= |ts|
    ensures r.Some? <==> ReadScalar(ts[from..], name).Some?
    ensures r.Some? ==>
              && r.value == ReadScalar(ts[from..], name).value.0
              && next == from + ReadScalar(ts[from..], name).value.1 && from < next <= |ts|
  {
    var text := "";
    next := from;
    ghost var whole := ReadScalar(ts[from..], name);
    assert whole.Some? ==> "" + whole.value.0 == whole.value.0;
    while next < |ts|
      invariant from <= next <= |ts|
      invariant ReadScalar(ts[from..], name) ==
                  match ReadScalar(ts[next..], name)
                  case None => None
                  case Some((more, n)) => Some((text + more, next - from + n))
    {
      assert ts[next..][1..] == ts[next + 1..];
      match ts[next]
      case Chars(more) =>
        AppendInside(text, more, ReadScalar(ts[next + 1..], name));
        text := text + more;
        next := next + 1;
      case Misc(_) =>
        next := next + 1;
      case Start(_, _) =>
        return None, next;
      case End(n) =>
        next := next + 1;
        r := if n == name then Some(text) else None;
        return;
    }
    r := None;
  }

  lemma AppendInside(text: string, more: string, tail: Option<(string, nat)>)
    ensures tail.Some? ==> text + (more + tail.value.0) == text + more + tail.value.0
  {
  }

  // ------------------------------------------------------------ passes over tokens

  /** Where a pass over tokens ends: its final state and what it has written, unless it refused. */
  type Pass<M> = Option<(M, seq<Token>)>

  function Prepend<M>(ts: seq<Token>, r: Pass<M>): Pass<M> {
    match r
    case None => None
    case Some((m, out)) => Some((m, ts + out))
  }

  lemma PrependNothing<M>(r: Pass<M>)
    ensures Prepend([], r) == r
  {
    if r.Some? {
      assert [] + r.value.1 == r.value.1;
    }
  }

  lemma PrependNone<M>(ts: seq<Token>)
    ensures Prepend<M>(ts, None) == None
  {
  }

  lemma PrependSome<M>(ts: seq<Token>, r: Pass<M>)
    ensures r.Some? ==> Prepend(ts, r) == Some((r.value.0, ts + r.value.1))
  {
  }

  lemma Prepend2<M>(a: seq<Token>, b: seq<Token>, r: Pass<M>)
    ensures Prepend(a, Prepend(b, r)) == Prepend(a + b, r)
  {
    if r.Some? {
      assert a + (b + r.value.1) == a + b + r.value.1;
    }
  }

  lemma Prepend3<M>(a: seq<Token>, b: seq<Token>, c: seq<Token>, r: Pass<M>)
    ensures Prepend(a, Prepend(b, Prepend(c, r))) == Prepend(a + b + c, r)
  {
    hide Prepend;
    Prepend2(a, b, Prepend(c, r));
    Prepend2(a + b, c, r);
  }

  lemma Prepend4<M>(a: seq<Token>, b: seq<Token>, c: seq<Token>, e: seq<Token>, r: Pass<M>)
    ensures Prepend(a, Prepend(b, Prepend(c, Prepend(e, r)))) == Prepend(a + b + c + e, r)
  {
    hide Prepend;
    Prepend3(a, b, c, Prepend(e, r));
    Prepend2(a + b + c, e, r);
  }

  function First(c: Content): Token
    requires c.Text? || c.Comment?
  {
    if c.Text? then Chars(c.text) else Misc(c.text)
  }

  lemma PlainFirst(c: Content, more: seq<Token>)
    requires c.Text? || c.Comment?
    ensures Tokens(c) + more == [First(c)] + (Tokens(c.rest) + more) && Tokens(c) == [First(c)] + Tokens(c.rest)
  {
  }

  /** An element read as a scalar: where its text starts and where what follows it starts. */
  lemma ScalarTokens(c: Content, more: seq<Token>)
    requires c.Element?
    ensures var ts := Tokens(c) + more; var n := |Tokens(c.inside)|;
            && |ts| >= n + 2 && ts[0] == Start(c.name, c.attributes)
            && ts[1..] == Tokens(c.inside) + [End(c.name)] + (Tokens(c.rest) + more)
            && ts[n + 2..] == Tokens(c.rest) + more
  {
    Opened(c, more);
    hide Tokens;
    Sliced(Start(c.name, c.attributes), Tokens(c.inside), End(c.name), Tokens(c.rest) + more);
  }

  lemma Sliced(first: Token, inside: seq<Token>, last: Token, following: seq<Token>)
    ensures var ts := [first] + (inside + ([last] + following));
            && |ts| >= |inside| + 2 && ts[0] == first
            && ts[1..] == inside + [last] + following && ts[|inside| + 2..] == following
  {
    var head := [first] + inside + [last];
    assert [first] + (inside + ([last] + following)) == head + following;
    assert inside + ([last] + following) == inside + [last] + following;
  }

  /** The tokens of an element and what follows it, one tag at a time. */
  lemma Opened(c: Content, more: seq<Token>)
    requires c.Element?
    ensures Tokens(c) + more ==
              [Start(c.name, c.attributes)] + (Tokens(c.inside) + ([End(c.name)] + (Tokens(c.rest) + more)))
    ensures Tokens(c) == [Start(c.name, c.attributes)] + Tokens(c.inside) + [End(c.name)] + Tokens(c.rest)
  {
  }
}
