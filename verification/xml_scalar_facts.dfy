/**
 * What the scalar edit achieves: every field once and with its value, everything
 * else kept, nothing left for a second edit, and exactly when it refuses.
 */
module XmlScalarFacts {
  import opened Durable
  import opened XmlContent
  import opened XmlScalars

  /** What the elements at path p hold, in document order, for content found below above. */
  function At(c: Content, above: Path, p: Path): seq<Content> {
    match c
    case Empty => []
    case Text(_, rest) => At(rest, above, p)
    case Comment(_, rest) => At(rest, above, p)
    case Element(name, _, inside, rest) =>
      (if above + [name] == p then [inside] else []) + At(inside, above + [name], p) + At(rest, above, p)
  }

  lemma {:induction false} AtThen(a: Content, b: Content, above: Path, p: Path)
    ensures At(Then(a, b), above, p) == At(a, above, p) + At(b, above, p)
  {
    match a
    case Empty =>
      assert [] + At(b, above, p) == At(b, above, p);
    case Text(_, rest) => AtThen(rest, b, above, p);
    case Comment(_, rest) => AtThen(rest, b, above, p);
    case Element(name, _, inside, rest) =>
      AtThen(rest, b, above, p);
      var own := (if above + [name] == p then [inside] else []) + At(inside, above + [name], p);
      assert own + (At(rest, above, p) + At(b, above, p)) == own + At(rest, above, p) + At(b, above, p);
  }

  /** Only longer paths lie below. */
  lemma {:induction false} NothingShorter(c: Content, above: Path, p: Path)
    requires |p| <= |above|
    ensures At(c, above, p) == []
  {
    if !c.Empty? {
      NothingShorter(c.rest, above, p);
      if c.Element? {
        NothingShorter(c.inside, above + [c.name], p);
      }
    }
  }

  // ------------------------------------------------------------ the fields added

  lemma {:induction false} LackingFacts(rs: Replacements, parent: Path, seen: set<Path>)
    ensures forall r :: r in Lacking(rs, parent, seen) ==> r in rs && r.parent == parent && r.At() !in seen
    ensures DistinctPaths(Lacking(rs, parent, seen))
    ensures forall r :: r in rs && r.parent == parent && r.At() !in seen ==> r.At() in PathsOf(Lacking(rs, parent, seen))
  {
    if rs != [] {
      if rs[0].parent == parent && rs[0].At() !in seen {
        var more := Lacking(rs[1..], parent, seen + {rs[0].At()});
        LackingFacts(rs[1..], parent, seen + {rs[0].At()});
        var all := [rs[0]] + more;
        assert all[0] == rs[0];
        forall i, j | 0 <= i < j < |all|
          ensures all[i].At() != all[j].At()
        {
          assert all[j] == more[j - 1] && more[j - 1] in more;
          if i > 0 {
            assert all[i] == more[i - 1];
          }
        }
        LackingOne(rs[0], more);
        assert forall r :: r in rs ==> r == rs[0] || r in rs[1..];
      } else {
        LackingFacts(rs[1..], parent, seen);
        assert forall r :: r in rs ==> r == rs[0] || r in rs[1..];
      }
    }
  }

  lemma {:induction false} ValueOfOne(rs: Replacements, r: Replacement)
    requires DistinctPaths(rs) && r in rs
    ensures IsManaged(rs, r.At()) && ValueOf(rs, r.At()) == r.value
  {
    var i :| 0 <= i < |rs| && rs[i] == r;
    if rs[0].At() == r.At() {
      assert i == 0;
    } else {
      assert rs[1..][i - 1] == r;
      assert forall j, k :: 0 <= j < k < |rs[1..]| ==> rs[1..][j].At() != rs[1..][k].At() by {
        assert forall j :: 0 <= j < |rs[1..]| ==> rs[1..][j] == rs[j + 1];
      }
      ValueOfOne(rs[1..], r);
    }
  }

  lemma FirstIsAlone(l: Replacements)
    requires DistinctPaths(l) && l != []
    ensures DistinctPaths(l[1..]) && l[0].At() !in PathsOf(l[1..])
    ensures PathsOf(l) == {l[0].At()} + PathsOf(l[1..])
    ensures forall r :: r in l <==> r == l[0] || r in l[1..]
    ensures forall r :: r in l ==> r.At() in PathsOf(l)
  {
    var more := l[1..];
    assert l == [l[0]] + more;
    assert forall i :: 0 <= i < |more| ==> more[i] == l[i + 1];
    LackingOne(l[0], more);
  }

  /** Added fields: each path of the list once, holding its value. */
  lemma {:induction false} AtFields(l: Replacements, parent: Path, p: Path)
    requires DistinctPaths(l) && forall r :: r in l ==> r.parent == parent
    ensures p !in PathsOf(l) ==> At(Fields(l), parent, p) == []
    ensures forall r :: r in l && r.At() == p ==> At(Fields(l), parent, p) == [Text(r.value, Empty)]
  {
    if l != [] {
      hide PathsOf, DistinctPaths;
      FirstIsAlone(l);
      AtFields(l[1..], parent, p);
      assert At(Text(l[0].value, Empty), parent + [l[0].name], p) == [];
      if l[1..] != [] {
        FirstIsAlone(l[1..]);
      }
    }
  }

  // ------------------------------------------------------------ each field once

  /** What the edited content shows at a managed path. */
  ghost predicate ShowsOnce(rs: Replacements, e: Content, above: Path, seen: set<Path>, after: set<Path>, p: Path)
    requires IsManaged(rs, p)
  {
    && (p in seen ==> p in after)
    && At(e, above, p) == if p in after && p !in seen then [Text(ValueOf(rs, p), Empty)] else []
  }

  lemma {:induction false} EditShowsOnce(rs: Replacements, c: Content, above: Path, seen: set<Path>, p: Path)
    requires DistinctPaths(rs) && IsManaged(rs, p)
    ensures EditContent(rs, c, above, seen).Some? ==>
              ShowsOnce(rs, EditContent(rs, c, above, seen).value.0, above, seen, EditContent(rs, c, above, seen).value.1, p)
    decreases c, 0
  {
    hide IsManaged, ValueOf, Lacking, PathsOf, Fields, DistinctPaths;
    match c
    case Empty =>
    case Text(_, rest) => EditShowsOnce(rs, rest, above, seen, p);
    case Comment(_, rest) => EditShowsOnce(rs, rest, above, seen, p);
    case Element(name, attributes, inside, rest) =>
      ElementShowsOnce(rs, name, inside, above, seen, p);
      var e := EditElement(rs, name, inside, above, seen);
      if e.Some? {
        EditShowsOnce(rs, rest, above, e.value.1, p);
      }
  }

  function AtElement(name: string, inside: Content, above: Path, p: Path): seq<Content> {
    (if above + [name] == p then [inside] else []) + At(inside, above + [name], p)
  }

  lemma {:induction false} ElementShowsOnce(rs: Replacements, name: string, inside: Content, above: Path, seen: set<Path>, p: Path)
    requires DistinctPaths(rs) && IsManaged(rs, p)
    ensures var e := EditElement(rs, name, inside, above, seen);
            e.Some? ==>
              && (p in seen ==> p in e.value.1)
              && AtElement(name, e.value.0, above, p) == if p in e.value.1 && p !in seen then [Text(ValueOf(rs, p), Empty)] else []
    decreases inside, 1
  {
    hide IsManaged, ValueOf, Lacking, PathsOf, Fields, DistinctPaths;
    var path := above + [name];
    if IsManaged(rs, path) {
      assert At(Text(ValueOf(rs, path), Empty), path, p) == [];
    } else {
      EditShowsOnce(rs, inside, path, seen, p);
      var e := EditContent(rs, inside, path, seen);
      if e.Some? {
        FieldsShowOnce(rs, path, e.value.1, p);
        AtThen(e.value.0, Fields(Lacking(rs, path, e.value.1)), path, p);
      }
    }
  }

  lemma FieldsShowOnce(rs: Replacements, parent: Path, seen: set<Path>, p: Path)
    requires DistinctPaths(rs) && IsManaged(rs, p)
    ensures var lacking := Lacking(rs, parent, seen);
            && At(Fields(lacking), parent, p) == (if p in PathsOf(lacking) then [Text(ValueOf(rs, p), Empty)] else [])
            && (p in seen ==> p !in PathsOf(lacking))
  {
    hide Lacking, ValueOf, Fields;
    var lacking := Lacking(rs, parent, seen);
    LackingFacts(rs, parent, seen);
    AtFields(lacking, parent, p);
    if p in PathsOf(lacking) {
      var i :| 0 <= i < |lacking| && lacking[i].At() == p;
      assert lacking[i] in lacking;
      ValueOfOne(rs, lacking[i]);
    }
  }

  /** Every field of the list is in the edited document exactly once and holds exactly its value. */
  lemma EveryFieldOnce(rs: Replacements, c: Content, i: nat)
    requires Replaceable(rs, c) && i < |rs|
    ensures At(Replaced(rs, c), [], rs[i].At()) == [Text(rs[i].value, Empty)]
  {
    hide EditContent, ValueOf;
    ValueOfOne(rs, rs[i]);
    EditShowsOnce(rs, c, [], {}, rs[i].At());
  }

  // ------------------------------------------------------------ everything else

  /** The content without the elements at managed paths. */
  function Without(rs: Replacements, c: Content, above: Path): Content {
    match c
    case Empty => Empty
    case Text(text, rest) => Text(text, Without(rs, rest, above))
    case Comment(text, rest) => Comment(text, Without(rs, rest, above))
    case Element(name, attributes, inside, rest) =>
      if IsManaged(rs, above + [name]) then Without(rs, rest, above)
      else Element(name, attributes, Without(rs, inside, above + [name]), Without(rs, rest, above))
  }

  lemma {:induction false} WithoutFields(rs: Replacements, c: Content, l: Replacements, above: Path)
    requires forall r :: r in l ==> r in rs && r.parent == above
    ensures Without(rs, Then(c, Fields(l)), above) == Without(rs, c, above)
    decreases c, |l|
  {
    if !c.Empty? {
      WithoutFields(rs, c.rest, l, above);
    } else if l != [] {
      assert l[0] in l;
      assert forall r :: r in l[1..] ==> r in l;
      WithoutFields(rs, c, l[1..], above);
    }
  }

  /** Outside the managed fields the edited content is the content, in its order. */
  lemma {:induction false} EditKeepsTheRest(rs: Replacements, c: Content, above: Path, seen: set<Path>)
    ensures EditContent(rs, c, above, seen).Some? ==>
              Without(rs, EditContent(rs, c, above, seen).value.0, above) == Without(rs, c, above)
    decreases c
  {
    hide IsManaged, ValueOf, Lacking, PathsOf, Fields;
    match c
    case Empty =>
    case Text(_, rest) => EditKeepsTheRest(rs, rest, above, seen);
    case Comment(_, rest) => EditKeepsTheRest(rs, rest, above, seen);
    case Element(name, attributes, inside, rest) =>
      var path := above + [name];
      var e := EditElement(rs, name, inside, above, seen);
      if e.Some? {
        EditKeepsTheRest(rs, rest, above, e.value.1);
        if !IsManaged(rs, path) {
          EditKeepsTheRest(rs, inside, path, seen);
          var f := EditContent(rs, inside, path, seen);
          LackingFacts(rs, path, f.value.1);
          WithoutFields(rs, f.value.0, Lacking(rs, path, f.value.1), path);
        }
      }
  }

  lemma DocumentKeepsTheRest(rs: Replacements, c: Content)
    requires Replaceable(rs, c)
    ensures Without(rs, Replaced(rs, c), []) == Without(rs, c, [])
  {
    EditKeepsTheRest(rs, c, [], {});
  }

  // ------------------------------------------------------------ a second edit

  /** Editing a, and what follows it, one after the other. */
  lemma {:induction false} EditThen(rs: Replacements, a: Content, b: Content, above: Path, seen: set<Path>)
    ensures EditContent(rs, Then(a, b), above, seen) ==
              match EditContent(rs, a, above, seen)
              case None => None
              case Some((a', s)) =>
                match EditContent(rs, b, above, s)
                case None => None
                case Some((b', s')) => Some((Then(a', b'), s'))
    decreases a
  {
    hide IsManaged, EditElement;
    match a
    case Empty =>
    case Text(_, rest) => EditThen(rs, rest, b, above, seen);
    case Comment(_, rest) => EditThen(rs, rest, b, above, seen);
    case Element(name, _, inside, rest) =>
      var e := EditElement(rs, name, inside, above, seen);
      if e.Some? {
        EditThen(rs, rest, b, above, e.value.1);
      }
  }

  /** Fields just added are found again as they are. */
  lemma {:induction false} EditFields(rs: Replacements, l: Replacements, above: Path, seen: set<Path>)
    requires DistinctPaths(rs) && DistinctPaths(l) && above != []
    requires forall r :: r in l ==> r in rs && r.parent == above && r.At() !in seen
    ensures EditContent(rs, Fields(l), above, seen) == Some((Fields(l), seen + PathsOf(l)))
  {
    if l != [] {
      hide PathsOf, DistinctPaths, IsManaged, ValueOf;
      FirstIsAlone(l);
      if l[1..] != [] {
        FirstIsAlone(l[1..]);
      }
      ValueOfOne(rs, l[0]);
      assert Flat(Text(l[0].value, Empty));
      EditFields(rs, l[1..], above, seen + {l[0].At()});
      assert seen + {l[0].At()} + PathsOf(l[1..]) == seen + PathsOf(l);
    } else {
      assert seen + PathsOf(l) == seen;
    }
  }

  lemma {:induction false} NothingLacking(rs: Replacements, parent: Path, seen: set<Path>)
    requires forall r :: r in rs && r.parent == parent ==> r.At() in seen
    ensures Lacking(rs, parent, seen) == []
  {
    if rs != [] {
      assert rs[0] in rs && forall r :: r in rs[1..] ==> r in rs;
      NothingLacking(rs[1..], parent, seen);
    }
  }

  /** A second edit from the same point finds everything in place. */
  lemma {:induction false} EditTwice(rs: Replacements, c: Content, above: Path, seen: set<Path>)
    requires DistinctPaths(rs)
    ensures EditContent(rs, c, above, seen).Some? ==>
              EditContent(rs, EditContent(rs, c, above, seen).value.0, above, seen) == EditContent(rs, c, above, seen)
    decreases c, 0
  {
    hide EditElement, DistinctPaths;
    match c
    case Empty =>
    case Text(_, rest) => EditTwice(rs, rest, above, seen);
    case Comment(_, rest) => EditTwice(rs, rest, above, seen);
    case Element(name, _, inside, rest) =>
      ElementTwice(rs, name, inside, above, seen);
      var e := EditElement(rs, name, inside, above, seen);
      if e.Some? {
        EditTwice(rs, rest, above, e.value.1);
      }
  }

  lemma {:induction false} ElementTwice(rs: Replacements, name: string, inside: Content, above: Path, seen: set<Path>)
    requires DistinctPaths(rs)
    ensures EditElement(rs, name, inside, above, seen).Some? ==>
              EditElement(rs, name, EditElement(rs, name, inside, above, seen).value.0, above, seen)
                == EditElement(rs, name, inside, above, seen)
    decreases inside, 1
  {
    hide IsManaged, ValueOf, Lacking, PathsOf, Fields, DistinctPaths, Then, EditContent;
    var path := above + [name];
    if IsManaged(rs, path) {
      assert Flat(Text(ValueOf(rs, path), Empty));
    } else {
      EditTwice(rs, inside, path, seen);
      var e := EditContent(rs, inside, path, seen);
      if e.Some? {
        var lacking := Lacking(rs, path, e.value.1);
        LackingFacts(rs, path, e.value.1);
        EditThen(rs, e.value.0, Fields(lacking), path, seen);
        EditFields(rs, lacking, path, e.value.1);
        NothingLacking(rs, path, e.value.1 + PathsOf(lacking));
        NoFields(e.value.0, Fields(lacking), e.value.1 + PathsOf(lacking));
      }
    }
  }

  lemma NoFields(a: Content, b: Content, seen: set<Path>)
    ensures Then(Then(a, b), Fields([])) == Then(a, b) && seen + PathsOf([]) == seen
  {
    ThenNothing(Then(a, b));
  }

  lemma {:induction false} ThenNothing(a: Content)
    ensures Then(a, Empty) == a
  {
    if !a.Empty? {
      ThenNothing(a.rest);
    }
  }

  /** The edited document can be edited again, and nothing changes. */
  lemma SecondEditChangesNothing(rs: Replacements, c: Content)
    requires Replaceable(rs, c)
    ensures Replaceable(rs, Replaced(rs, c)) && Replaced(rs, Replaced(rs, c)) == Replaced(rs, c)
  {
    hide EditContent;
    EditTwice(rs, c, [], {});
    RootsKept(rs, c, {});
  }

  lemma {:induction false} RootsKept(rs: Replacements, c: Content, seen: set<Path>)
    ensures EditContent(rs, c, [], seen).Some? ==> Roots(EditContent(rs, c, [], seen).value.0) == Roots(c)
  {
    hide EditElement;
    match c
    case Empty =>
    case Text(_, rest) => RootsKept(rs, rest, seen);
    case Comment(_, rest) => RootsKept(rs, rest, seen);
    case Element(name, _, inside, rest) =>
      var e := EditElement(rs, name, inside, [], seen);
      if e.Some? {
        RootsKept(rs, rest, e.value.1);
      }
  }

  // ------------------------------------------------------------ when it refuses

  function Children(c: Content, name: string): nat {
    match c
    case Empty => 0
    case Text(_, rest) => Children(rest, name)
    case Comment(_, rest) => Children(rest, name)
    case Element(n, _, _, rest) => (if n == name then 1 else 0) + Children(rest, name)
  }

  /** The roots are configurations and every managed element is a scalar. */
  predicate Sound(rs: Replacements, c: Content, above: Path) {
    match c
    case Empty => true
    case Text(_, rest) => Sound(rs, rest, above)
    case Comment(_, rest) => Sound(rs, rest, above)
    case Element(name, _, inside, rest) =>
      && (above == [] ==> name == "configuration")
      && (if IsManaged(rs, above + [name]) then Flat(inside) else Sound(rs, inside, above + [name]))
      && Sound(rs, rest, above)
  }

  /** No field of the list is to be put into another field of the list. */
  ghost predicate Independent(rs: Replacements) {
    forall r, s :: r in rs && s in rs ==> s.parent != r.At()
  }

  /** The elements that may hold the field: there is one, the first holds it at most once, the others not at all. */
  ghost predicate FirstHolds(parents: seq<Content>, name: string) {
    && parents != [] && Children(parents[0], name) <= 1
    && forall k :: 1 <= k < |parents| ==> Children(parents[k], name) == 0
  }

  /** Whether the field has been seen after one such element, unless it is there once too often. */
  function Hold(c: Content, name: string, seen: bool): Option<bool> {
    if Children(c, name) == 0 then Some(seen)
    else if Children(c, name) == 1 && !seen then Some(true)
    else None
  }

  function Track(parents: seq<Content>, name: string, seen: bool): Option<bool> {
    if parents == [] then Some(seen)
    else if Hold(parents[0], name, seen).None? then None
    else Track(parents[1..], name, true)
  }

  lemma {:induction false} TrackAppend(a: seq<Content>, b: seq<Content>, name: string, seen: bool)
    ensures Track(a + b, name, seen) == if Track(a, name, seen).None? then None else Track(b, name, Track(a, name, seen).value)
  {
    if a == [] {
      assert a + b == b;
    } else {
      assert (a + b)[1..] == a[1..] + b;
      TrackAppend(a[1..], b, name, true);
    }
  }

  lemma {:induction false} TrackMeans(parents: seq<Content>, name: string)
    ensures Track(parents, name, false) == Some(true) <==> FirstHolds(parents, name)
  {
    if parents != [] {
      TrackSeen(parents[1..], name);
      assert forall k :: 0 <= k < |parents[1..]| ==> parents[1..][k] == parents[k + 1];
      assert forall k :: 1 <= k < |parents| ==> parents[k] == parents[1..][k - 1];
    }
  }

  lemma {:induction false} TrackSeen(parents: seq<Content>, name: string)
    ensures Track(parents, name, true) == Some(true) <==> forall k :: 0 <= k < |parents| ==> Children(parents[k], name) == 0
    ensures Track(parents, name, true).Some? ==> Track(parents, name, true) == Some(true)
  {
    if parents != [] {
      TrackSeen(parents[1..], name);
      assert forall k :: 0 <= k < |parents[1..]| ==> parents[1..][k] == parents[k + 1];
      assert forall k :: 1 <= k < |parents| ==> parents[k] == parents[1..][k - 1];
    }
  }

  /** One field, followed through content found below above. */
  function Follow(c: Content, above: Path, r: Replacement, seen: bool): Option<bool> {
    if above == r.parent then Hold(c, r.name, seen) else Track(At(c, above, r.parent), r.name, seen)
  }

  function FollowElement(name: string, inside: Content, above: Path, r: Replacement, seen: bool): Option<bool> {
    var path := above + [name];
    if path == r.At() then if seen then None else Some(true)
    else if path == r.parent then if Hold(inside, r.name, seen).None? then None else Some(true)
    else Track(At(inside, path, r.parent), r.name, seen)
  }

  lemma FollowOne(c: Content, above: Path, r: Replacement, seen: bool)
    requires c.Element?
    ensures Follow(c, above, r, seen) ==
              var e := FollowElement(c.name, c.inside, above, r, seen);
              if e.None? then None else Follow(c.rest, above, r, e.value)
  {
    var path := above + [c.name];
    if above == r.parent {
      NothingShorter(c.inside, path, r.parent);
      assert path == r.At() <==> c.name == r.name by {
        assert path[|above|] == c.name && r.At()[|above|] == r.name;
      }
    } else {
      assert path != r.At() by {
        assert path[..|path| - 1] == above && r.At()[..|r.At()| - 1] == r.parent;
      }
      if path == r.parent {
        NothingShorter(c.inside, path, r.parent);
        assert At(c, above, r.parent) == [c.inside] + At(c.rest, above, r.parent);
      } else {
        assert At(c, above, r.parent) == At(c.inside, path, r.parent) + At(c.rest, above, r.parent);
        TrackAppend(At(c.inside, path, r.parent), At(c.rest, above, r.parent), r.name, seen);
      }
    }
  }

  /** The pass agrees with following each field alone. */
  ghost predicate ContentAgrees(rs: Replacements, c: Content, above: Path, seen: set<Path>) {
    var e := EditContent(rs, c, above, seen);
    && (e.Some? <==> Sound(rs, c, above) && forall r :: r in rs ==> Follow(c, above, r, r.At() in seen).Some?)
    && (e.Some? ==> forall r :: r in rs ==> (r.At() in e.value.1 <==> Follow(c, above, r, r.At() in seen).value))
  }

  predicate SoundElement(rs: Replacements, name: string, inside: Content, above: Path) {
    && (above == [] ==> name == "configuration")
    && (if IsManaged(rs, above + [name]) then Flat(inside) else Sound(rs, inside, above + [name]))
  }

  ghost predicate ElementAgrees(rs: Replacements, name: string, inside: Content, above: Path, seen: set<Path>) {
    var e := EditElement(rs, name, inside, above, seen);
    && (e.Some? <==>
          && SoundElement(rs, name, inside, above)
          && forall r :: r in rs ==> FollowElement(name, inside, above, r, r.At() in seen).Some?)
    && (e.Some? ==> forall r :: r in rs ==> (r.At() in e.value.1 <==> FollowElement(name, inside, above, r, r.At() in seen).value))
  }

  lemma {:induction false} EditAgrees(rs: Replacements, c: Content, above: Path, seen: set<Path>)
    requires DistinctPaths(rs) && Independent(rs) && BelowRoot(rs)
    ensures ContentAgrees(rs, c, above, seen)
    decreases c, 0
  {
    hide EditElement, FollowElement, IsManaged, DistinctPaths, Independent, BelowRoot;
    match c
    case Empty =>
    case Text(_, rest) => EditAgrees(rs, rest, above, seen);
    case Comment(_, rest) => EditAgrees(rs, rest, above, seen);
    case Element(name, _, inside, rest) =>
      ElementEditAgrees(rs, name, inside, above, seen);
      var e := EditElement(rs, name, inside, above, seen);
      forall r | r in rs
        ensures Follow(c, above, r, r.At() in seen) ==
                  var f := FollowElement(name, inside, above, r, r.At() in seen);
                  if f.None? then None else Follow(rest, above, r, f.value)
      {
        FollowOne(c, above, r, r.At() in seen);
      }
      if e.Some? {
        EditAgrees(rs, rest, above, e.value.1);
        TogetherAgree(rs, c, above, seen);
      }
  }

  lemma TogetherAgree(rs: Replacements, c: Content, above: Path, seen: set<Path>)
    requires c.Element? && ElementAgrees(rs, c.name, c.inside, above, seen)
    requires EditElement(rs, c.name, c.inside, above, seen).Some?
    requires ContentAgrees(rs, c.rest, above, EditElement(rs, c.name, c.inside, above, seen).value.1)
    requires forall r :: r in rs ==>
               Follow(c, above, r, r.At() in seen) ==
                 var f := FollowElement(c.name, c.inside, above, r, r.At() in seen);
                 if f.None? then None else Follow(c.rest, above, r, f.value)
    ensures ContentAgrees(rs, c, above, seen)
  {
    hide EditElement, FollowElement, IsManaged, Follow;
    var s := EditElement(rs, c.name, c.inside, above, seen).value.1;
    forall r | r in rs
      ensures Follow(c, above, r, r.At() in seen) == Follow(c.rest, above, r, r.At() in s)
    {
    }
  }

  lemma {:induction false} ElementEditAgrees(rs: Replacements, name: string, inside: Content, above: Path, seen: set<Path>)
    requires DistinctPaths(rs) && Independent(rs) && BelowRoot(rs)
    ensures ElementAgrees(rs, name, inside, above, seen)
    decreases inside, 1
  {
    var path := above + [name];
    if IsManaged(rs, path) {
      ManagedAgrees(rs, name, inside, above, seen);
    } else {
      EditAgrees(rs, inside, path, seen);
      PlainAgrees(rs, name, inside, above, seen);
    }
  }

  lemma {:induction false} NothingInFlat(c: Content, above: Path, p: Path)
    requires Flat(c)
    ensures At(c, above, p) == []
  {
    if !c.Empty? {
      NothingInFlat(c.rest, above, p);
    }
  }

  lemma ManagedAgrees(rs: Replacements, name: string, inside: Content, above: Path, seen: set<Path>)
    requires Independent(rs) && IsManaged(rs, above + [name])
    ensures ElementAgrees(rs, name, inside, above, seen)
  {
    hide Sound, ValueOf, EditContent;
    var path := above + [name];
    var i :| 0 <= i < |rs| && rs[i].At() == path;
    assert rs[i] in rs;
    if Flat(inside) {
      forall r | r in rs
        ensures FollowElement(name, inside, above, r, r.At() in seen) ==
                  if r.At() == path then (if path in seen then None else Some(true)) else Some(r.At() in seen)
      {
        NothingInFlat(inside, path, r.parent);
        assert r.parent != rs[i].At();
      }
    }
  }

  lemma PlainAgrees(rs: Replacements, name: string, inside: Content, above: Path, seen: set<Path>)
    requires BelowRoot(rs) && !IsManaged(rs, above + [name]) && ContentAgrees(rs, inside, above + [name], seen)
    ensures ElementAgrees(rs, name, inside, above, seen)
  {
    hide Sound, EditContent, Hold, Track, Lacking, At;
    var path := above + [name];
    var e := EditContent(rs, inside, path, seen);
    forall r | r in rs
      ensures r.At() != path
    {
      var i :| 0 <= i < |rs| && rs[i] == r;
      assert rs[i].At() == r.At();
    }
    if e.Some? {
      LackingFacts(rs, path, e.value.1);
      forall r | r in rs
        ensures r.At() in PathsOf(Lacking(rs, path, e.value.1)) <==> r.parent == path && r.At() !in e.value.1
      {
        OnlyOwnFields(rs, path, e.value.1, r);
      }
    }
  }

  lemma OnlyOwnFields(rs: Replacements, parent: Path, seen: set<Path>, r: Replacement)
    requires r in rs
    ensures r.At() in PathsOf(Lacking(rs, parent, seen)) <==> r.parent == parent && r.At() !in seen
  {
    var lacking := Lacking(rs, parent, seen);
    LackingFacts(rs, parent, seen);
    if r.At() in PathsOf(lacking) {
      var i :| 0 <= i < |lacking| && lacking[i].At() == r.At();
      assert lacking[i] in lacking;
      assert r.parent == r.At()[..|r.At()| - 1] == lacking[i].parent;
    }
  }

  /**
   * The edit succeeds exactly when there is one configuration, every managed
   * element is a scalar, and each field has an element to be in: the first such
   * element holds it at most once and no later one holds it.
   */
  lemma ReplaceableMeans(rs: Replacements, c: Content)
    requires DistinctPaths(rs) && Independent(rs) && BelowRoot(rs)
    ensures Replaceable(rs, c) <==>
              && Roots(c) == 1 && Sound(rs, c, [])
              && forall r :: r in rs ==> FirstHolds(At(c, [], r.parent), r.name)
  {
    hide EditContent, Sound, At, FirstHolds;
    EditAgrees(rs, c, [], {});
    forall r | r in rs
      ensures r.parent != [] && (Follow(c, [], r, false) == Some(true) <==> FirstHolds(At(c, [], r.parent), r.name))
    {
      TrackMeans(At(c, [], r.parent), r.name);
    }
    assert forall i :: 0 <= i < |rs| ==> rs[i] in rs;
  }
}
