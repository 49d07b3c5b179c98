/** Joining a monitor's URL and its keep-alive path (app/urls.py). */
module Urls {
  import opened Common

  /** The characters `str.strip` removes. */
  predicate Space(c: char) {
    || '\U{09}' <= c <= '\U{0D}' || '\U{1C}' <= c <= ' ' || c in {'\U{85}', '\U{A0}', '\U{1680}'}
    || '\U{2000}' <= c <= '\U{200A}' || c in {'\U{2028}', '\U{2029}', '\U{202F}', '\U{205F}', '\U{3000}'}
  }

  function TrimRight(s: string, drop: char -> bool): (r: string)
    ensures r <= s
    ensures r != [] ==> !drop(r[|r| - 1])
    ensures forall i :: |r| <= i < |s| ==> drop(s[i])
  {
    if s != [] && drop(s[|s| - 1]) then TrimRight(s[..|s| - 1], drop) else s
  }

  function TrimLeft(s: string, drop: char -> bool): (r: string)
    ensures |r| <= |s| && s[|s| - |r|..] == r
    ensures r != [] ==> !drop(r[0])
    ensures forall i :: 0 <= i < |s| - |r| ==> drop(s[i])
  {
    if s != [] && drop(s[0]) then TrimLeft(s[1..], drop) else s
  }

  function Strip(s: string): string {
    TrimLeft(TrimRight(s, Space), Space)
  }

  predicate Slash(c: char) {
    c == '/'
  }

  function SafeJoinUrl(base: string, path: Option<string>): string {
    if path.None? || Strip(path.value) == "" then base
    else TrimRight(base, Slash) + "/" + TrimLeft(Strip(path.value), Slash)
  }

  // ----- The authority of a URL (section 3.2 of RFC 3986) -----

  predicate SchemeAt(url: string, i: nat) {
    i + 3 <= |url| && url[i] == ':' && url[i + 1] == '/' && url[i + 2] == '/'
  }

  predicate EndsAuthority(c: char) {
    c in {'/', '?', '#'}
  }

  function SchemeEnd(url: string, from: nat): (i: nat)
    requires from <= |url|
    ensures from <= i <= |url| && (i < |url| ==> SchemeAt(url, i))
    ensures forall j :: from <= j < i ==> !SchemeAt(url, j)
    decreases |url| - from
  {
    if from == |url| || SchemeAt(url, from) then from else SchemeEnd(url, from + 1)
  }

  function AuthorityEnd(url: string, from: nat): (i: nat)
    requires from <= |url|
    ensures from <= i <= |url| && (i < |url| ==> EndsAuthority(url[i]))
    ensures forall j :: from <= j < i ==> !EndsAuthority(url[j])
    decreases |url| - from
  {
    if from == |url| || EndsAuthority(url[from]) then from else AuthorityEnd(url, from + 1)
  }

  /** What follows the first `://`, up to the path, the query or the fragment. */
  function Authority(url: string): string {
    var i := SchemeEnd(url, 0);
    if i == |url| then "" else url[i + 3..AuthorityEnd(url, i + 3)]
  }

  /** Whatever the path is, the joined URL names the host that the monitor's own URL names. */
  lemma JoinKeepsAuthority(base: string, path: Option<string>)
    requires Authority(base) != ""
    ensures Authority(SafeJoinUrl(base, path)) == Authority(base)
  {
    hide Strip, Space, TrimLeft, TrimRight, Authority, SchemeEnd, AuthorityEnd;
    if SafeJoinUrl(base, path) != base {
      AuthorityStays(base);
      SlashExtends(base, TrimRight(base, Slash), TrimLeft(Strip(path.value), Slash));
    }
  }

  lemma AuthorityStays(base: string)
    requires Authority(base) != ""
    ensures SchemeEnd(base, 0) + 3 <= |base| && AuthorityEnd(base, SchemeEnd(base, 0) + 3) <= |TrimRight(base, Slash)|
  {
    hide SchemeEnd, AuthorityEnd, TrimRight, SchemeAt;
    assert SchemeEnd(base, 0) + 3 <= |base| by {
      SchemeFits(base);
    }
    var end := AuthorityEnd(base, SchemeEnd(base, 0) + 3);
    assert !EndsAuthority(base[end - 1]);
    assert !Slash(base[end - 1]);
  }

  lemma SchemeFits(url: string)
    requires Authority(url) != ""
    ensures SchemeEnd(url, 0) + 3 <= |url|
  {
  }

  /** What was cut from the end, and a slash with anything after it, leave the authority as it was. */
  lemma SlashExtends(base: string, kept: string, tail: string)
    requires Authority(base) != "" && kept <= base
    requires SchemeEnd(base, 0) + 3 <= |base| && AuthorityEnd(base, SchemeEnd(base, 0) + 3) <= |kept|
    ensures Authority(kept + "/" + tail) == Authority(base)
  {
    hide *;
    var i := SchemeEnd(base, 0);
    var end := AuthorityEnd(base, i + 3);
    var joined := kept + "/" + tail;
    JoinedChars(base, kept, tail);
    SameScheme(base, joined, i, |kept|);
    SlashEnds();
    SameEnd(base, joined, i + 3, end, |kept|);
    SamePart(base, joined, i + 3, end);
    AuthorityAt(base, i, end);
    AuthorityAt(joined, i, end);
  }

  lemma JoinedChars(base: string, kept: string, tail: string)
    requires kept <= base
    ensures var joined := kept + "/" + tail;
            |kept| < |joined| && joined[|kept|] == '/' && forall j :: 0 <= j < |kept| ==> joined[j] == base[j]
  {
  }

  lemma SameScheme(a: string, b: string, i: nat, same: nat)
    requires i == SchemeEnd(a, 0) && i + 3 <= same <= |a| && same <= |b| && forall j :: 0 <= j < same ==> b[j] == a[j]
    ensures SchemeEnd(b, 0) == i
  {
    hide SchemeEnd;
    assert SchemeAt(a, i);
    forall j: nat | j < i
      ensures !SchemeAt(b, j)
    {
      assert !SchemeAt(a, j);
    }
    SchemeIs(b, i);
  }

  lemma SamePart(a: string, b: string, from: nat, to: nat)
    requires from <= to <= |a| && to <= |b| && forall j :: 0 <= j < to ==> b[j] == a[j]
    ensures b[from..to] == a[from..to]
  {
  }

  lemma AuthorityAt(url: string, i: nat, end: nat)
    requires i + 3 <= |url| && SchemeEnd(url, 0) == i && AuthorityEnd(url, i + 3) == end
    ensures Authority(url) == url[i + 3..end]
  {
    hide SchemeEnd, AuthorityEnd;
  }

  lemma SchemeIs(url: string, i: nat)
    requires SchemeAt(url, i) && forall j: nat :: j < i ==> !SchemeAt(url, j)
    ensures SchemeEnd(url, 0) == i
  {
    assert i < |url|;
    hide SchemeAt;
  }

  lemma SameEnd(a: string, b: string, from: nat, end: nat, same: nat)
    requires from <= |a| && AuthorityEnd(a, from) == end <= same <= |a| && same < |b| && EndsAuthority(b[same])
    requires forall j :: 0 <= j < same ==> b[j] == a[j]
    ensures from <= |b| && AuthorityEnd(b, from) == end
  {
    hide EndsAuthority;
    assert EndsAuthority(b[end]);
    forall j | from <= j < end
      ensures !EndsAuthority(b[j])
    {
      assert !EndsAuthority(a[j]);
    }
  }

  lemma SlashEnds()
    ensures EndsAuthority('/')
  {
  }

  // ----- The joined path -----

  /** A path that does not start with a space is appended as it stands, but for trailing spaces, exactly when
      it starts with one slash and not with two. */
  lemma JoinAppends(base: string, path: string)
    requires path != "" && !Space(path[0])
    ensures SafeJoinUrl(base, Some(path)) == TrimRight(base, Slash) + TrimRight(path, Space)
            <==> path[0] == '/' && !(|path| > 1 && path[1] == '/')
  {
    hide *;
    var trimmed, kept := TrimRight(path, Space), TrimRight(base, Slash);
    TrimmedPath(base, path);
    SlashRestored(trimmed);
    SameTail(kept, "/" + TrimLeft(trimmed, Slash), trimmed);
  }

  /** What joining does to a path, for every monitor URL: it appends the path as it stands. */
  ghost predicate AppendsAsItStands(path: string) {
    forall base :: SafeJoinUrl(base, Some(path)) == TrimRight(base, Slash) + TrimRight(path, Space)
  }

  lemma AppendedExactlyWithOneSlash(path: string)
    requires path != "" && !Space(path[0])
    ensures AppendsAsItStands(path) <==> "/" <= path && !("//" <= path)
  {
    hide SafeJoinUrl, TrimRight, Space;
    forall base: string
      ensures SafeJoinUrl(base, Some(path)) == TrimRight(base, Slash) + TrimRight(path, Space)
              <==> path[0] == '/' && !(|path| > 1 && path[1] == '/')
    {
      JoinAppends(base, path);
    }
    assert "/" <= path <==> path[0] == '/';
    assert "//" <= path <==> |path| > 1 && path[0] == '/' && path[1] == '/';
    var some := SafeJoinUrl("", Some(path));
  }

  lemma TrimmedPath(base: string, path: string)
    requires path != "" && !Space(path[0])
    ensures var trimmed := TrimRight(path, Space);
            && trimmed != "" && trimmed[0] == path[0]
            && (|path| > 1 && path[1] == '/' <==> |trimmed| > 1 && trimmed[1] == '/')
            && SafeJoinUrl(base, Some(path)) == TrimRight(base, Slash) + ("/" + TrimLeft(trimmed, Slash))
  {
    hide Space, TrimLeft, TrimRight;
    SlashIsNoSpace();
    var trimmed, kept := TrimRight(path, Space), TrimRight(base, Slash);
    assert |trimmed| < |path| ==> Space(path[|trimmed|]);
    NothingToTrim(trimmed);
    SameJoin(kept, TrimLeft(trimmed, Slash));
  }

  lemma NothingToTrim(s: string)
    requires s != "" && !Space(s[0])
    ensures TrimLeft(s, Space) == s
  {
  }

  lemma SameJoin(kept: string, tail: string)
    ensures kept + "/" + tail == kept + ("/" + tail)
  {
  }

  /** A path without a leading slash gets one. */
  lemma JoinInsertsSlash(base: string, path: string)
    requires path != "" && !Space(path[0]) && path[0] != '/'
    ensures SafeJoinUrl(base, Some(path)) == TrimRight(base, Slash) + ("/" + TrimRight(path, Space))
  {
    hide Space;
    TrimmedPath(base, path);
  }

  /** No path, or one of spaces only, leaves the URL as it is. */
  lemma JoinOfNothing(base: string, path: string)
    requires forall i :: 0 <= i < |path| ==> Space(path[i])
    ensures SafeJoinUrl(base, None) == SafeJoinUrl(base, Some(path)) == base
  {
    hide Space;
    assert TrimRight(path, Space) == "";
  }

  lemma SlashIsNoSpace()
    ensures !Space('/')
  {
  }

  lemma SlashRestored(path: string)
    requires path != ""
    ensures "/" + TrimLeft(path, Slash) == path <==> path[0] == '/' && !(|path| > 1 && path[1] == '/')
  {
    var tail := TrimLeft(path, Slash);
    if path[0] == '/' {
      assert path == "/" + path[1..];
      assert tail == TrimLeft(path[1..], Slash);
      assert "/" + tail == path ==> tail == path[1..];
    }
  }

  lemma SameTail(kept: string, a: string, b: string)
    ensures kept + a == kept + b <==> a == b
  {
    if kept + a == kept + b {
      assert a == (kept + a)[|kept|..] == (kept + b)[|kept|..] == b;
    }
  }
}
