/** Identifiers that cross the controller boundary. */
module Identifiers {
  import opened Durable

  ghost predicate FolderChar(c: char) {
    'a' <= c <= 'z' || 'A' <= c <= 'Z' || '0' <= c <= '9' || c in "._:-"
  }

  ghost predicate ValidFolderId(s: string) {
    1 <= |s| <= 64 && forall i :: 0 <= i < |s| ==> FolderChar(s[i])
  }

  ghost predicate ValidCardId(s: string) {
    |s| == 32 && LowerHex(s)
  }

  ghost predicate LowerHex(s: string) {
    forall i :: 0 <= i < |s| ==> '0' <= s[i] <= '9' || 'a' <= s[i] <= 'f'
  }

  method IsFolderId(s: string) returns (ok: bool)
    ensures ok <==> ValidFolderId(s)
  {
    if |s| < 1 || |s| > 64 {
      return false;
    }
    for n := 0 to |s|
      invariant forall i :: 0 <= i < n ==> FolderChar(s[i])
    {
      var c := s[n];
      var letter := ('a' <= c && c <= 'z') || ('A' <= c && c <= 'Z');
      if !letter && !('0' <= c && c <= '9') && c != '.' && c != '_' && c != ':' && c != '-' {
        return false;
      }
    }
    ok := true;
  }

  method IsLowerHex(s: string) returns (ok: bool)
    ensures ok <==> LowerHex(s)
  {
    for n := 0 to |s|
      invariant forall i :: 0 <= i < n ==> '0' <= s[i] <= '9' || 'a' <= s[i] <= 'f'
    {
      if (s[n] < '0' || s[n] > '9') && (s[n] < 'a' || s[n] > 'f') {
        return false;
      }
    }
    ok := true;
  }

  method IsCardId(s: string) returns (ok: bool)
    ensures ok <==> ValidCardId(s)
  {
    if |s| != 32 {
      return false;
    }
    ok := IsLowerHex(s);
  }

  // ------------------------------------------------------------- device ids

  predicate Space(c: char): (space: bool)
    ensures space <==> c == ' ' || 9 <= c as int <= 13
  {
    c in " \t\n\r" || c == 11 as char || c == 12 as char
  }

  function TrimLeft(s: string): (r: string) {
    if s != [] && Space(s[0]) then TrimLeft(s[1..]) else s
  }

  function TrimRight(s: string): (r: string) {
    if s != [] && Space(s[|s| - 1]) then TrimRight(s[..|s| - 1]) else s
  }

  function TrimSpace(s: string): string {
    TrimRight(TrimLeft(s))
  }

  function UpperChar(c: char): (u: char)
    ensures u == c || ('a' <= c <= 'z' && 'A' <= u <= 'Z')
  {
    if 'a' <= c <= 'z' then c - 32 as char else c
  }

  function Upper(s: string): (r: string)
    ensures |r| == |s| && forall i :: 0 <= i < |s| ==> r[i] == UpperChar(s[i])
  {
    seq(|s|, i requires 0 <= i < |s| => UpperChar(s[i]))
  }

  predicate HasPrefixFold(s: string, prefix: string) {
    |prefix| <= |s| && Upper(s[..|prefix|]) == Upper(prefix)
  }

  const LONG_PREFIX := "syncthing://device/"
  const SHORT_PREFIX := "syncthing://"

  function StripScheme(s: string): string {
    if HasPrefixFold(s, LONG_PREFIX) then s[|LONG_PREFIX|..]
    else if HasPrefixFold(s, SHORT_PREFIX) then s[|SHORT_PREFIX|..]
    else s
  }

  function CutQuery(s: string): (r: string)
    ensures (forall i :: 0 <= i < |s| ==> s[i] != '?' && s[i] != '#') ==> r == s
  {
    if s == [] then []
    else if s[0] == '?' || s[0] == '#' then []
    else
      assert s == [s[0]] + s[1..];
      [s[0]] + CutQuery(s[1..])
  }

  predicate DeviceChar(c: char) {
    'A' <= c <= 'Z' || '2' <= c <= '7'
  }

  /** Eight groups of seven base-32 characters. */
  predicate CanonicalDeviceId(s: string) {
    |s| == 63 && forall i :: 0 <= i < 63 ==> if i % 8 == 7 then s[i] == '-' else DeviceChar(s[i])
  }

  function NormalizeDeviceId(s: string): (r: Option<string>)
    ensures r.Some? ==> CanonicalDeviceId(r.value)
  {
    var id := Upper(TrimSpace(CutQuery(StripScheme(TrimSpace(s)))));
    if CanonicalDeviceId(id) then Some(id) else None
  }

  /** A normalized id is its own normal form, so ids compare equal however often they pass the boundary. */
  lemma NormalizingAgainChangesNothing(s: string)
    requires CanonicalDeviceId(s)
    ensures NormalizeDeviceId(s) == Some(s)
  {
    assert TrimLeft(s) == s && TrimRight(s) == s;
    assert Upper(s[..12])[7] == '-' && Upper(SHORT_PREFIX)[7] == 'N';
    assert Upper(s[..19])[7] == '-' && Upper(LONG_PREFIX)[7] == 'N';
    assert StripScheme(s) == s;
    assert CutQuery(s) == s;
    assert Upper(s) == s;
  }

  lemma {:induction false} SpaceBefore(lead: string, s: string)
    requires forall i :: 0 <= i < |lead| ==> Space(lead[i])
    requires s != [] && !Space(s[0])
    ensures TrimLeft(lead + s) == s
  {
    if lead != [] {
      assert (lead + s)[1..] == lead[1..] + s;
      SpaceBefore(lead[1..], s);
    } else {
      assert lead + s == s;
    }
  }

  /** Trimming stops at what is no space. */
  lemma {:induction false} SpaceAfter(s: string, tail: string)
    requires s != [] && !Space(s[|s| - 1])
    ensures TrimRight(s + tail) == s + TrimRight(tail)
  {
    if tail != [] {
      assert (s + tail)[..|s + tail| - 1] == s + tail[..|tail| - 1];
      SpaceAfter(s, tail[..|tail| - 1]);
    } else {
      assert s + tail == s;
    }
  }

  lemma {:induction false} AllSpace(s: string)
    requires forall i :: 0 <= i < |s| ==> Space(s[i])
    ensures TrimRight(s) == ""
  {
    if s != [] {
      AllSpace(s[..|s| - 1]);
    }
  }

  lemma {:induction false} CutAtQuery(id: string, query: string)
    requires forall i :: 0 <= i < |id| ==> id[i] != '?' && id[i] != '#'
    requires query == "" || query[0] == '?' || query[0] == '#'
    ensures CutQuery(id + query) == id
  {
    if id != [] {
      assert (id + query)[1..] == id[1..] + query;
      CutAtQuery(id[1..], query);
    } else {
      assert id + query == query;
    }
  }

  ghost predicate Scheme(s: string) {
    s == "" || Upper(s) == "SYNCTHING://DEVICE/" || Upper(s) == "SYNCTHING://"
  }

  lemma Prefixes()
    ensures Upper(LONG_PREFIX) == "SYNCTHING://DEVICE/" && Upper(SHORT_PREFIX) == "SYNCTHING://"
  {
    forall i | 0 <= i < |LONG_PREFIX|
      ensures Upper(LONG_PREFIX)[i] == "SYNCTHING://DEVICE/"[i]
    {
    }
    forall i | 0 <= i < |SHORT_PREFIX|
      ensures Upper(SHORT_PREFIX)[i] == "SYNCTHING://"[i]
    {
    }
  }

  lemma CanonicalChars(id: string)
    requires CanonicalDeviceId(Upper(id))
    ensures |id| == 63 && forall i :: 0 <= i < 63 ==> !Space(id[i]) && id[i] != '?' && id[i] != '#' && id[i] != '/'
    ensures id[7] == '-' && TrimSpace(id) == id
  {
    forall i | 0 <= i < 63
      ensures !Space(id[i]) && id[i] != '?' && id[i] != '#' && id[i] != '/'
    {
      assert Upper(id)[i] == UpperChar(id[i]);
    }
    assert Upper(id)[7] == UpperChar(id[7]);
  }

  lemma WithoutScheme(scheme: string, id: string, query: string)
    requires Scheme(scheme) && CanonicalDeviceId(Upper(id))
    ensures StripScheme(scheme + id + query) == id + query
  {
    CanonicalChars(id);
    Prefixes();
    var s := scheme + id + query;
    assert s[|scheme|..] == id + query && s[..|scheme|] == scheme;
    if scheme == "" {
      assert s == id + query;
      assert Upper(s[..12])[7] == '-' && Upper(SHORT_PREFIX)[7] == 'N';
      assert Upper(s[..19])[7] == '-' && Upper(LONG_PREFIX)[7] == 'N';
    } else if |scheme| == 12 {
      assert Upper(s[..19])[18] == UpperChar(id[6]) && Upper(LONG_PREFIX)[18] == '/';
      assert Upper(id)[6] == UpperChar(id[6]);
    }
  }

  /**
   * However an id is written, in any case, as a link of either scheme, with a query
   * or a fragment and with space around it, it is read as the one canonical id.
   */
  lemma ReadInAnyForm(lead: string, scheme: string, id: string, query: string, trail: string)
    requires forall i :: 0 <= i < |lead| ==> Space(lead[i])
    requires forall i :: 0 <= i < |trail| ==> Space(trail[i])
    requires Scheme(scheme) && CanonicalDeviceId(Upper(id))
    requires query == "" || query[0] == '?' || query[0] == '#'
    ensures NormalizeDeviceId(lead + scheme + id + query + trail) == Some(Upper(id))
  {
    CanonicalChars(id);
    Prefixes();
    var core := scheme + id;
    assert core[0] == if scheme == "" then id[0] else scheme[0];
    assert scheme != "" ==> UpperChar(scheme[0]) == Upper(scheme)[0] == 'S';
    assert core[|core| - 1] == id[62];
    assert lead + scheme + id + query + trail == lead + (core + (query + trail));
    SpaceBefore(lead, core + (query + trail));
    SpaceAfter(core, query + trail);
    var rest := TrimRight(query + trail);
    assert rest == "" || rest[0] == '?' || rest[0] == '#' by {
      if query == "" {
        assert query + trail == trail;
        AllSpace(trail);
      } else {
        assert query + trail == [query[0]] + (query[1..] + trail);
        SpaceAfter([query[0]], query[1..] + trail);
      }
    }
    WithoutScheme(scheme, id, rest);
    assert core + rest == scheme + id + rest;
    CutAtQuery(id, rest);
  }

  // ----------------------------------------------------------- offer keys

  function OfferKey(folder: string, device: string): string {
    folder + "\n" + device
  }

  /** The newline separates: no folder id contains one. */
  lemma OfferKeyIsInjective(f: string, d: string, f': string, d': string)
    requires ValidFolderId(f) && ValidFolderId(f') && OfferKey(f, d) == OfferKey(f', d')
    ensures f == f' && d == d'
  {
    var k := OfferKey(f, d);
    assert k[|f|] == '\n' && k[|f'|] == '\n';
    assert forall i :: 0 <= i < |f| ==> k[i] == f[i] && FolderChar(k[i]);
    assert forall i :: 0 <= i < |f'| ==> k[i] == f'[i] && FolderChar(k[i]);
    assert k[..|f|] == f && k[..|f'|] == f';
    assert k[|f| + 1..] == d && k[|f'| + 1..] == d';
  }
}
