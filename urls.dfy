/**
 * The part of Go's net/url that the favicon resolver relies on: splitting a
 * reference into scheme, opaque part, user information, host, path, query
 * and fragment, printing a URL back, and the "not absolute" test.
 */
module Urls {
  import opened Wrappers
  import opened Strs

  /**
   * A parsed URL, field for field as url.URL holds it: the scheme, the opaque
   * part of a scheme followed by anything but '/', the user information
   * (None when there is no '@'), the host with its port, the path, the raw
   * query (None when the text has no '?', Some("") for a lone trailing '?')
   * and the fragment. Nothing is unescaped.
   */
  datatype Url = Url(scheme: string, opaquePart: string, user: Option<string>, host: string, path: string,
                     query: Option<string>, fragment: string)

  predicate IsLetter(c: char) { 'a' <= c <= 'z' || 'A' <= c <= 'Z' }

  /** A character url.getScheme accepts after the first letter of a scheme. */
  predicate IsSchemeChar(c: char) { IsLetter(c) || IsDigit(c) || c in "+-." }

  /** A scheme: a letter, then letters, digits, '+', '-' or '.'. */
  predicate IsScheme(t: string) {
    t != [] && IsLetter(t[0]) && forall k :: 0 < k < |t| ==> IsSchemeChar(t[k])
  }

  /** `s` starts with a scheme followed by ':'. */
  predicate HasScheme(s: string) {
    exists j :: 0 < j < |s| && s[j] == ':' && IsScheme(s[..j])
  }

  /**
   * url.getScheme, scanning from position `i`; the result is (scheme, rest).
   * It fails exactly on a leading ':'. Otherwise the scheme is the text
   * before the first ':' when that text is a scheme, and empty, with the
   * whole input as the rest, when there is no such text.
   */
  function SchemeFrom(s: string, i: nat): (r: Result<(string, string)>)
    requires i <= |s|
    requires forall k :: 0 <= k < i ==> IsLetter(s[k]) || (0 < k && IsSchemeChar(s[k]))
    ensures r.Err? <==> i == 0 && s != [] && s[0] == ':'
    ensures r.Ok? && r.value.0 != [] ==> IsScheme(r.value.0) && s == r.value.0 + ":" + r.value.1
    ensures r.Ok? && r.value.0 == [] ==> r.value.1 == s && !HasScheme(s)
    decreases |s| - i
  {
    if i == |s| then
      assert !HasScheme(s) by {
        forall j | 0 < j < |s| ensures s[j] != ':' {
          assert IsLetter(s[j]) || IsSchemeChar(s[j]);
        }
      }
      Ok(([], s))
    else if IsLetter(s[i]) then SchemeFrom(s, i + 1)
    else if IsDigit(s[i]) || s[i] in "+-." then
      if i == 0 then
        assert !HasScheme(s) by {
          forall j | 0 < j < |s| ensures !IsScheme(s[..j]) {
            assert s[..j][0] == s[0];
          }
        }
        Ok(([], s))
      else SchemeFrom(s, i + 1)
    else if s[i] == ':' then
      if i == 0 then Err("missing protocol scheme")
      else
        assert s == s[..i] + ":" + s[i + 1..];
        assert forall k :: 0 < k < i ==> s[..i][k] == s[k];
        Ok((s[..i], s[i + 1..]))
    else
      assert !HasScheme(s) by {
        forall j | 0 <= j < i ensures s[j] != ':' {
          assert IsLetter(s[j]) || IsSchemeChar(s[j]);
        }
        forall j | 0 < j < |s| && s[j] == ':' ensures !IsScheme(s[..j]) {
          if j > i {
            assert s[..j][i] == s[i];
          }
        }
      }
      Ok(([], s))
  }

  /** The first path segment: everything before the first '/'. */
  function FirstSegment(s: string): string {
    if '/' in s then s[..IndexOf(s, '/')] else s
  }

  /**
   * The `split(s, c, true)` of net/url: the text before the first `c` and
   * the text after it, or `s` and None when `c` does not occur.
   */
  function Cut(s: string, c: char): (r: (string, Option<string>))
    ensures c !in r.0
    ensures r.1.None? <==> c !in s
    ensures r.1.None? ==> r.0 == s
    ensures r.1.Some? ==> s == r.0 + [c] + r.1.value
  {
    if c in s then
      var i := IndexOf(s, c);
      assert s == s[..i] + [c] + s[i + 1..];
      (s[..i], Some(s[i + 1..]))
    else (s, None)
  }

  /** A control byte: below 0x20, or DEL. */
  predicate IsControl(c: char) { c < ' ' || c == '\U{7F}' }

  /** url.stringContainsCTLByte is false. */
  predicate NoControl(s: string) { forall k :: 0 <= k < |s| ==> !IsControl(s[k]) }

  predicate IsHex(c: char) { IsDigit(c) || 'a' <= c <= 'f' || 'A' <= c <= 'F' }

  /** The '%' at `i` starts an escape: two hexadecimal digits follow it. */
  predicate EscapeAt(s: string, i: nat)
    requires i < |s|
  {
    i + 2 < |s| && IsHex(s[i + 1]) && IsHex(s[i + 2])
  }

  /** url.unescape accepts a path, a fragment or user information: every '%' starts an escape. */
  predicate ValidEscapes(s: string) {
    forall i :: 0 <= i < |s| && s[i] == '%' ==> EscapeAt(s, i)
  }

  /** An ASCII character that url.shouldEscape leaves alone in a host. */
  predicate IsHostChar(c: char) {
    IsLetter(c) || IsDigit(c) || c in "!$&'()*+,;=:[]<>\"-_.~"
  }

  /**
   * What url.unescape in host mode accepts at `i`: an escape whose first
   * digit is 8 or more, or "%25"; an ASCII character a host may hold; any
   * non-ASCII character.
   */
  predicate HostCharAt(h: string, i: nat)
    requires i < |h|
  {
    if h[i] == '%' then EscapeAt(h, i) && (!('0' <= h[i + 1] <= '7') || h[i + 1..i + 3] == "25")
    else h[i] >= '\U{80}' || IsHostChar(h[i])
  }

  /** url.validOptionalPort: empty, or ':' followed by digits only. */
  predicate ValidOptionalPort(p: string) {
    p == [] || (p[0] == ':' && forall k :: 1 <= k < |p| ==> IsDigit(p[k]))
  }

  /**
   * The port check of url.parseHost: what follows the last ']' of a
   * bracketed host, else what starts at the last ':' of the host, is an
   * optional port; a bracketed host needs its ']'.
   */
  predicate ValidPortOf(h: string) {
    if HasPrefix(h, "[") then
      var i := LastIndex(h, ']');
      0 <= i && ValidOptionalPort(h[i + 1..])
    else
      var i := LastIndex(h, ':');
      i < 0 || ValidOptionalPort(h[i..])
  }

  /** url.parseHost accepts `h`: its port and every one of its characters. */
  predicate ValidHost(h: string) {
    ValidPortOf(h) && forall i :: 0 <= i < |h| ==> HostCharAt(h, i)
  }

  /** A character url.validUserinfo allows. */
  predicate IsUserinfoChar(c: char) {
    IsLetter(c) || IsDigit(c) || c in "-._:~!$&'()*+,;=%@"
  }

  /** url.validUserinfo accepts `u` and url.unescape accepts it: allowed characters and valid escapes only. */
  predicate ValidUserinfo(u: string) {
    (forall k :: 0 <= k < |u| ==> IsUserinfoChar(u[k])) && ValidEscapes(u)
  }

  /**
   * url.parseAuthority accepts `a`: the host after its last '@' parses, and
   * the user information before it is valid.
   */
  predicate ValidAuthority(a: string) {
    var i := LastIndex(a, '@');
    if i < 0 then ValidHost(a)
    else ValidHost(a[i + 1..]) && ValidUserinfo(a[..i])
  }

  /**
   * What follows "//": the authority up to the next '/', which must be one
   * parseAuthority accepts, and the path from that '/' on, which must hold
   * only valid escapes.
   */
  function AuthorityAndPath(rest: string): (r: Option<(Option<string>, string, string)>)
    ensures r.Some? ==> ValidHost(r.value.1) && '@' !in r.value.1 && '/' !in r.value.1
    ensures r.Some? && r.value.0.Some? ==> ValidUserinfo(r.value.0.value)
    ensures r.Some? ==> (r.value.2 == [] || r.value.2[0] == '/') && ValidEscapes(r.value.2)
  {
    var cut := if '/' in rest then IndexOf(rest, '/') else |rest|;
    var a := rest[..cut];
    if ValidAuthority(a) && ValidEscapes(rest[cut..]) then
      var (user, host) := SplitAuthority(a);
      Some((user, host, rest[cut..]))
    else None
  }

  /**
   * The split url.parseAuthority makes at the last '@': the user information
   * before it, if any, and the host after it.
   */
  function SplitAuthority(a: string): (r: (Option<string>, string))
    requires ValidAuthority(a)
    ensures a == UserPrefix(r.0) + r.1
    ensures ValidHost(r.1) && '@' !in r.1
    ensures r.0.Some? ==> ValidUserinfo(r.0.value)
  {
    var i := LastIndex(a, '@');
    if i < 0 then (None, a)
    else
      assert a == a[..i] + "@" + a[i + 1..];
      (Some(a[..i]), a[i + 1..])
  }

  /**
   * url.Parse. The fragment is cut off at the first '#' and the query at the
   * first '?' before anything else is read. Fails on a control character
   * before the fragment, a bad escape in the fragment, a leading ':', a
   * relative reference whose first path segment holds a colon, an authority
   * after "//" that parseAuthority refuses and a bad escape in the path. A
   * scheme followed by anything but '/' is kept unchecked, as Go keeps it as
   * an opaque URL.
   */
  function Parse(s: string): (r: Option<Url>)
    ensures s != [] && s[0] == ':' ==> r.None?
    ensures r.Some? ==> ValidEscapes(r.value.fragment)
    ensures r.Some? ==> ValidHost(r.value.host) && '@' !in r.value.host && '/' !in r.value.host
    ensures r.Some? && r.value.user.Some? ==> ValidUserinfo(r.value.user.value)
    ensures r.Some? && r.value.opaquePart != [] ==> r.value.scheme != [] && r.value.user.None? && r.value.host == [] && r.value.path == []
    ensures r.Some? && r.value.scheme != [] && r.value.opaquePart == [] ==> r.value.path == [] || r.value.path[0] == '/'
    ensures r.Some? && r.value.scheme == [] ==> ValidEscapes(r.value.path)
    ensures r.Some? && r.value.scheme == [] && !HasPrefix(r.value.path, "/") ==> ':' !in FirstSegment(r.value.path)
  {
    var (beforeFragment, fragment) := Cut(s, '#');
    var frag := if fragment.Some? then fragment.value else [];
    if !NoControl(beforeFragment) || !ValidEscapes(frag) then None
    else
      match SchemeFrom(beforeFragment, 0)
      case Err(_) => None
      case Ok((scheme, afterScheme)) =>
        var (rest, query) := Cut(afterScheme, '?');
        if scheme != [] && !HasPrefix(rest, "/") then Some(Url(Lower(scheme), rest, None, [], [], query, frag))
        else
          match HostAndPath(scheme, rest)
          case None => None
          case Some((user, host, path)) => Some(Url(Lower(scheme), [], user, host, path, query, frag))
  }

  /**
   * The user information, the host and the path url.parse reads from what
   * follows the scheme, once the query is cut off and when the text is not
   * opaque: a scheme-less reference fails when its first segment holds a
   * colon; after "//" the authority runs to the next '/', must be one
   * parseAuthority accepts, and splits at its last '@'; the path must hold
   * only valid escapes.
   */
  function HostAndPath(scheme: string, rest: string): (r: Option<(Option<string>, string, string)>)
    requires scheme == [] || HasPrefix(rest, "/")
    ensures r.Some? ==> ValidHost(r.value.1) && '@' !in r.value.1 && '/' !in r.value.1
    ensures r.Some? && r.value.0.Some? ==> ValidUserinfo(r.value.0.value)
    ensures r.Some? && scheme != [] ==> r.value.2 == [] || r.value.2[0] == '/'
    ensures r.Some? && scheme == [] ==> ValidEscapes(r.value.2)
    ensures r.Some? && scheme == [] && !HasPrefix(r.value.2, "/") ==> ':' !in FirstSegment(r.value.2)
  {
    if scheme == [] && !HasPrefix(rest, "/") && ':' in FirstSegment(rest) then None
    else if (scheme != [] || !HasPrefix(rest, "///")) && HasPrefix(rest, "//") then AuthorityAndPath(rest[2..])
    else if ValidEscapes(rest) then Some((None, [], rest))
    else None
  }

  /** Cutting at a character whose first occurrence is at `i`. */
  lemma CutAt(s: string, c: char, i: nat)
    requires i < |s| && s[i] == c && forall k :: 0 <= k < i ==> s[k] != c
    ensures Cut(s, c) == (s[..i], Some(s[i + 1..]))
  {
    var j := IndexOf(s, c);
  }

  /**
   * A text that starts at `i` with scheme characters and then reaches its
   * end or a character that is neither a scheme character nor ':' has no
   * scheme.
   */
  lemma {:induction false} NoScheme(s: string, i: nat, j: nat)
    requires i <= j <= |s|
    requires forall k :: 0 <= k < i ==> IsLetter(s[k]) || (0 < k && IsSchemeChar(s[k]))
    requires forall k :: i <= k < j ==> IsSchemeChar(s[k])
    requires j == |s| || (!IsSchemeChar(s[j]) && s[j] != ':')
    ensures SchemeFrom(s, i) == Ok(([], s))
    decreases j - i
  {
    if i < j && (IsLetter(s[i]) || 0 < i) {
      NoScheme(s, i + 1, j);
    }
  }

  /**
   * A text that starts with a letter, then scheme characters up to a ':' at
   * `j`, has the scheme before that ':' and the rest after it.
   */
  lemma {:induction false} SchemeUpTo(s: string, i: nat, j: nat)
    requires i <= j < |s| && 0 < j && s[j] == ':'
    requires IsLetter(s[0]) && forall k :: 0 < k < j ==> IsSchemeChar(s[k])
    ensures SchemeFrom(s, i) == Ok((s[..j], s[j + 1..]))
    decreases j - i
  {
    if i < j {
      SchemeUpTo(s, i + 1, j);
    }
  }

  /**
   * How Parse reads a relative path reference, given its fragment cut, its
   * lack of scheme and its query cut, when nothing before the fragment is a
   * control character and the path and the fragment hold only valid escapes.
   */
  lemma ParseRelativePath(s: string, u: string, frag: Option<string>, path: string, q: Option<string>)
    requires Cut(s, '#') == (u, frag) && SchemeFrom(u, 0) == Ok(([], u)) && Cut(u, '?') == (path, q)
    requires !HasPrefix(path, "/") && ':' !in FirstSegment(path)
    requires NoControl(u) && ValidEscapes(path) && (frag.Some? ==> ValidEscapes(frag.value))
    ensures Parse(s) == Some(Url([], [], None, [], path, q, if frag.Some? then frag.value else []))
  {
    assert Lower([]) == [];
    RelativeHostAndPath(path);
  }

  /** A scheme-less path with no leading '/', no colon in its first segment and only valid escapes has no host and is kept whole. */
  lemma RelativeHostAndPath(path: string)
    requires !HasPrefix(path, "/") && ':' !in FirstSegment(path) && ValidEscapes(path)
    ensures HostAndPath([], path) == Some((None, [], path))
  {
    assert !HasPrefix(path, "//") by {
      if 2 <= |path| {
        assert path[..2][0] == path[..1][0];
      }
    }
  }

  /**
   * How Parse reads "//host" without a path after a scheme (or none), given
   * its query cut, when nothing before the fragment is a control character
   * and the host is one parseAuthority accepts.
   */
  lemma ParseNetworkPath(s: string, scheme: string, afterScheme: string, host: string, q: Option<string>)
    requires Cut(s, '#') == (s, None) && SchemeFrom(s, 0) == Ok((scheme, afterScheme))
    requires Cut(afterScheme, '?') == ("//" + host, q)
    requires '/' !in host && '@' !in host && NoControl(s) && ValidAuthority(host)
    ensures Parse(s) == Some(Url(Lower(scheme), [], None, host, [], q, []))
  {
    NetworkPathHost(scheme, host);
  }

  /** After "//", a host that parseAuthority accepts and that holds no '/' and no '@' is the whole authority, with no user information and an empty path. */
  lemma NetworkPathHost(scheme: string, host: string)
    requires '/' !in host && '@' !in host && ValidAuthority(host)
    ensures HostAndPath(scheme, "//" + host) == Some((None, host, []))
  {
    var rest := "//" + host;
    assert HasPrefix(rest, "/") && HasPrefix(rest, "//") && rest[2..] == host;
    assert host[..|host|] == host && host[|host|..] == [];
    assert !HasPrefix(rest, "///") by {
      if |rest| >= 3 {
        assert rest[2] == host[0];
      }
    }
  }

  /** A colon in the query does not make a relative reference look like a malformed scheme. */
  lemma QueryColonReference(s: string)
    requires s == "icon.png?v=1:2"
    ensures Parse(s) == Some(Url("", "", None, "", "icon.png", Some("v=1:2"), ""))
  {
    IconPngQueryParts(s);
    IconPngIsPath("icon.png");
    ParseRelativePath(s, s, None, "icon.png", Some("v=1:2"));
  }

  /** The cuts of "icon.png?v=1:2": no fragment, no scheme, no control character, the path "icon.png" and the query "v=1:2". */
  lemma IconPngQueryParts(s: string)
    requires s == "icon.png?v=1:2"
    ensures Cut(s, '#') == (s, None) && SchemeFrom(s, 0) == Ok(([], s)) && NoControl(s)
    ensures Cut(s, '?') == ("icon.png", Some("v=1:2"))
  {
    assert forall k :: 0 <= k < |s| ==> s[k] != '#' && !IsControl(s[k]);
    NoScheme(s, 0, 8);
    CutAt(s, '?', 8);
    assert s[..8] == "icon.png" && s[9..] == "v=1:2";
  }

  /** "icon.png" has no leading '/', no colon and no escape: a plain relative path. */
  lemma IconPngIsPath(u: string)
    requires u == "icon.png"
    ensures !HasPrefix(u, "/") && ':' !in FirstSegment(u) && ValidEscapes(u)
  {
    assert forall k :: 0 <= k < |u| ==> u[k] != '/' && u[k] != ':' && u[k] != '%';
    assert u[..1][0] == 'i';
  }

  /** Nor does a colon in the fragment. */
  lemma FragmentColonReference(s: string)
    requires s == "favicon.ico#a:b"
    ensures Parse(s) == Some(Url("", "", None, "", "favicon.ico", None, "a:b"))
  {
    FaviconFragmentParts(s);
    FaviconIcoIsPath("favicon.ico");
    ParseRelativePath(s, "favicon.ico", Some("a:b"), "favicon.ico", None);
  }

  /** The fragment cut of "favicon.ico#a:b": the reference "favicon.ico" and the fragment "a:b", which holds no escape. */
  lemma FaviconFragmentParts(s: string)
    requires s == "favicon.ico#a:b"
    ensures Cut(s, '#') == ("favicon.ico", Some("a:b")) && ValidEscapes("a:b")
  {
    CutAt(s, '#', 11);
    assert s[..11] == "favicon.ico" && s[12..] == "a:b";
    assert forall k :: 0 <= k < |"a:b"| ==> "a:b"[k] != '%';
  }

  /** "favicon.ico" has no scheme, no query, no colon, no control character and no escape: a plain relative path. */
  lemma FaviconIcoIsPath(u: string)
    requires u == "favicon.ico"
    ensures SchemeFrom(u, 0) == Ok(([], u)) && Cut(u, '?') == (u, None)
    ensures !HasPrefix(u, "/") && ':' !in FirstSegment(u)
    ensures NoControl(u) && ValidEscapes(u)
  {
    NoScheme(u, 0, 11);
    assert forall k :: 0 <= k < |u| ==> u[k] != '?' && u[k] != '/' && u[k] != ':' && u[k] != '%' && !IsControl(u[k]);
  }

  /** The host of a network-path reference ends at the query, not only at a '/'. */
  lemma QueryEndsHost(s: string)
    requires s == "//cdn?x/y"
    ensures Parse(s) == Some(Url("", "", None, "cdn", "", Some("x/y"), ""))
  {
    CdnQueryParts(s);
    assert Lower([]) == [];
    ParseNetworkPath(s, [], s, "cdn", Some("x/y"));
  }

  /** The parts of "//cdn?x/y": no fragment, no scheme, no control character, "//cdn" before the query "x/y", and "cdn" a host parseAuthority accepts. */
  lemma CdnQueryParts(s: string)
    requires s == "//cdn?x/y"
    ensures Cut(s, '#') == (s, None) && SchemeFrom(s, 0) == Ok(([], s)) && NoControl(s)
    ensures Cut(s, '?') == ("//" + "cdn", Some("x/y"))
    ensures '/' !in "cdn" && '@' !in "cdn" && ValidAuthority("cdn")
  {
    assert forall k :: 0 <= k < |s| ==> s[k] != '#' && !IsControl(s[k]);
    NoScheme(s, 0, 0);
    CutAt(s, '?', 5);
    assert s[..5] == "//" + "cdn" && s[6..] == "x/y";
    var h := "cdn";
    assert forall k :: 0 <= k < |h| ==> IsLetter(h[k]);
    LetterAuthority(h);
  }

  /** A host name of letters only is an authority parseAuthority accepts. */
  lemma LetterAuthority(a: string)
    requires forall k :: 0 <= k < |a| ==> IsLetter(a[k])
    ensures ValidAuthority(a) && '/' !in a && '@' !in a
  {
    assert '@' !in a && ':' !in a && '/' !in a;
    assert forall k :: 0 <= k < |a| ==> HostCharAt(a, k);
    assert !HasPrefix(a, "[") by {
      if 1 <= |a| {
        assert a[..1][0] == a[0];
      }
    }
  }

  /** A host name of letters, then ':' at `n` and a decimal port, is an authority parseAuthority accepts. */
  lemma NamePortAuthority(a: string, n: nat)
    requires n < |a| && a[n] == ':'
    requires forall k :: 0 <= k < n ==> IsLetter(a[k])
    requires forall k :: n < k < |a| ==> IsDigit(a[k])
    ensures ValidAuthority(a) && '@' !in a
  {
    forall k | 0 <= k < |a|
      ensures a[k] != '@' && HostCharAt(a, k) && (k != n ==> a[k] != ':')
    {
      assert IsLetter(a[k]) || IsDigit(a[k]) || a[k] == ':';
    }
    assert LastIndex(a, ':') == n;
    assert !HasPrefix(a, "[") by {
      assert a[..1][0] == a[0];
    }
  }

  /** A scheme-less relative reference whose path holds a bad escape is refused, as url.setPath refuses it. */
  lemma RelativePathRejected(s: string)
    requires Cut(s, '#') == (s, None) && SchemeFrom(s, 0) == Ok(([], s)) && Cut(s, '?') == (s, None)
    requires !HasPrefix(s, "/") && !ValidEscapes(s)
    ensures Parse(s).None?
  {
    PathEscapeRejected(s);
  }

  /** A scheme-less path with no leading '/' and a bad escape makes the host and path fail. */
  lemma PathEscapeRejected(path: string)
    requires !HasPrefix(path, "/") && !ValidEscapes(path)
    ensures HostAndPath([], path).None?
  {
    assert !HasPrefix(path, "//") by {
      if 2 <= |path| {
        assert path[..2][0] == path[..1][0];
      }
    }
  }

  /** A network-path reference whose authority parseAuthority refuses is refused. */
  lemma NetworkPathRejected(s: string, auth: string, path: string)
    requires Cut(s, '#') == (s, None) && SchemeFrom(s, 0) == Ok(([], s)) && Cut(s, '?') == (s, None)
    requires s == "//" + auth + path && auth != [] && '/' !in auth && HasPrefix(path, "/")
    requires !ValidAuthority(auth)
    ensures Parse(s).None?
  {
    AuthorityRejected(s, auth, path);
  }

  /** After "//", an authority that parseAuthority refuses makes the host and path fail. */
  lemma AuthorityRejected(s: string, auth: string, path: string)
    requires s == "//" + auth + path && auth != [] && '/' !in auth && HasPrefix(path, "/")
    requires !ValidAuthority(auth)
    ensures HostAndPath([], s).None?
  {
    AuthorityThenPath(s, auth, path);
  }

  /** In "//" + auth + path, with no '/' in a non-empty auth and a path that starts with one, the authority HostAndPath reads is auth. */
  lemma AuthorityThenPath(s: string, auth: string, path: string)
    requires s == "//" + auth + path && auth != [] && '/' !in auth && HasPrefix(path, "/")
    ensures HasPrefix(s, "/") && HasPrefix(s, "//") && !HasPrefix(s, "///")
    ensures '/' in s[2..] && IndexOf(s[2..], '/') == |auth| && s[2..][..|auth|] == auth
  {
    var rest := s[2..];
    assert rest == auth + path;
    assert s[..1] == "/" && s[..2] == "//" && s[..3][2] == auth[0];
    assert rest[|auth|] == path[0] == path[..1][0];
    IndexOfAt(rest, '/', |auth|);
    assert rest[..|auth|] == auth;
  }

  /** IndexOf finds the first occurrence. */
  lemma IndexOfAt(s: string, c: char, i: nat)
    requires i < |s| && s[i] == c && forall k :: 0 <= k < i ==> s[k] != c
    ensures c in s && IndexOf(s, c) == i
  {
    var j := IndexOf(s, c);
  }

  /** "a%zz.png": '%' is not followed by two hexadecimal digits, so url.Parse fails and the tag is skipped. */
  lemma BadEscapeRejected(s: string)
    requires s == "a%zz.png"
    ensures Parse(s).None?
  {
    assert forall k :: 0 <= k < |s| ==> s[k] != '#' && s[k] != '?';
    NoScheme(s, 0, 1);
    assert s[1] == '%' && !EscapeAt(s, 1);
    RelativePathRejected(s);
  }

  /** "//cdn:abc/x.png": the port after the last ':' is not a number, so url.Parse fails. */
  lemma BadPortRejected(s: string)
    requires s == "//cdn:abc/x.png"
    ensures Parse(s).None?
  {
    assert forall k :: 0 <= k < |s| ==> s[k] != '#' && s[k] != '?';
    PlainNetworkPath(s);
    assert s == "//" + "cdn:abc" + "/x.png";
    BadPortAuthority("cdn:abc");
    NetworkPathRejected(s, "cdn:abc", "/x.png");
  }

  /** "cdn:abc" holds no '@', and what follows its last ':' is not a port. */
  lemma BadPortAuthority(a: string)
    requires a == "cdn:abc"
    ensures !ValidAuthority(a)
  {
    assert forall k :: 0 <= k < |a| ==> a[k] != '@';
    assert LastIndex(a, ':') == 3 by {
      assert a[3] == ':' && ':' !in a[4..];
    }
    assert a[3..] == ":abc" && !IsDigit(a[4]);
  }

  /** "//a b/x.png": a host may not hold a space, so url.Parse fails. */
  lemma BadHostCharRejected(s: string)
    requires s == "//a b/x.png"
    ensures Parse(s).None?
  {
    assert forall k :: 0 <= k < |s| ==> s[k] != '#' && s[k] != '?';
    PlainNetworkPath(s);
    assert s == "//" + "a b" + "/x.png";
    BadCharAuthority("a b");
    NetworkPathRejected(s, "a b", "/x.png");
  }

  /** "a b" holds no '@', and its space is a character no host may hold. */
  lemma BadCharAuthority(a: string)
    requires a == "a b"
    ensures !ValidAuthority(a)
  {
    assert forall k :: 0 <= k < |a| ==> a[k] != '@';
    assert !HostCharAt(a, 1);
  }

  /** A reference that starts with "//" and holds no '#' and no '?' has no fragment, no scheme and no query. */
  lemma PlainNetworkPath(s: string)
    requires HasPrefix(s, "//") && '#' !in s && '?' !in s
    ensures Cut(s, '#') == (s, None) && SchemeFrom(s, 0) == Ok(([], s)) && Cut(s, '?') == (s, None)
  {
    assert s[0] == s[..2][0];
    NoScheme(s, 0, 0);
  }

  /**
   * A scheme followed by anything but '/' is opaque: url.Parse keeps what
   * follows the ':' up to the query unchecked, and String writes the scheme,
   * ':' and that text back with the query.
   */
  lemma ParseOpaque(s: string, scheme: string, afterScheme: string, rest: string, q: Option<string>)
    requires Cut(s, '#') == (s, None) && NoControl(s) && SchemeFrom(s, 0) == Ok((scheme, afterScheme)) && scheme != []
    requires Cut(afterScheme, '?') == (rest, q) && rest != [] && !HasPrefix(rest, "/")
    ensures Parse(s) == Some(Url(Lower(scheme), rest, None, [], [], q, []))
    ensures ToString(Parse(s).value) == Lower(scheme) + ":" + afterScheme
  {
    var u := Url(Lower(scheme), rest, None, [], [], q, []);
    assert ToString(u) == Lower(scheme) + ":" + rest + QueryAndFragment(u);
  }

  /** "http:foo.png" is opaque: no host, and it prints back as it came. */
  lemma OpaqueReference(s: string)
    requires s == "http:foo.png"
    ensures Parse(s) == Some(Url("http", "foo.png", None, [], [], None, []))
    ensures ToString(Parse(s).value) == s
  {
    OpaqueParts(s);
    ParseOpaque(s, "http", "foo.png", "foo.png", None);
  }

  /** The parts of "http:foo.png": no fragment, no control character, the scheme "http" in lower case, and "foo.png" with no query and no leading '/'. */
  lemma OpaqueParts(s: string)
    requires s == "http:foo.png"
    ensures Cut(s, '#') == (s, None) && NoControl(s)
    ensures SchemeFrom(s, 0) == Ok(("http", "foo.png")) && Lower("http") == "http"
    ensures Cut("foo.png", '?') == ("foo.png", None) && !HasPrefix("foo.png", "/")
  {
    assert forall k :: 0 <= k < |s| ==> s[k] != '#' && !IsControl(s[k]);
    assert forall k :: 0 < k < 4 ==> IsSchemeChar(s[k]);
    SchemeUpTo(s, 0, 4);
    assert s[..4] == "http" && s[5..] == "foo.png";
    OpaqueRest("foo.png");
    HttpLower("http");
  }

  /** "foo.png" holds no '?' and does not start with '/'. */
  lemma OpaqueRest(r: string)
    requires r == "foo.png"
    ensures Cut(r, '?') == (r, None) && !HasPrefix(r, "/")
  {
    assert r[..1][0] == 'f';
  }

  /** "http" is already in lower case. */
  lemma HttpLower(h: string)
    requires h == "http"
    ensures Lower(h) == h
  {
    assert forall k :: 0 <= k < |h| ==> LowerChar(h[k]) == h[k];
  }

  /**
   * How Parse reads "//" + auth + path without a scheme, a query or a
   * fragment, when the authority is one parseAuthority accepts and the path
   * holds only valid escapes: the authority gives the user information and
   * the host.
   */
  lemma ParseAuthorityPath(s: string, auth: string, path: string)
    requires Cut(s, '#') == (s, None) && SchemeFrom(s, 0) == Ok(([], s)) && Cut(s, '?') == (s, None) && NoControl(s)
    requires s == "//" + auth + path && auth != [] && '/' !in auth && HasPrefix(path, "/")
    requires ValidAuthority(auth) && ValidEscapes(path)
    ensures Parse(s) == Some(Url([], [], SplitAuthority(auth).0, SplitAuthority(auth).1, path, None, []))
  {
    AuthorityThenPath(s, auth, path);
    assert s[2..][|auth|..] == path;
    assert Lower([]) == [];
  }

  /**
   * "//u@cdn/x": the authority splits at its '@' into the user information
   * "u" and the host "cdn", and the path is "/x".
   */
  lemma UserinfoReference(s: string)
    requires s == "//u@cdn/x"
    ensures Parse(s) == Some(Url([], [], Some("u"), "cdn", "/x", None, []))
  {
    assert forall k :: 0 <= k < |s| ==> s[k] != '#' && s[k] != '?' && !IsControl(s[k]);
    PlainNetworkPath(s);
    assert s == "//" + "u@cdn" + "/x";
    UserinfoAuthority("u@cdn");
    assert forall k :: 0 <= k < |"/x"| ==> "/x"[k] != '%';
    assert "/x"[..1] == "/";
    ParseAuthorityPath(s, "u@cdn", "/x");
  }

  /** "u@cdn" holds no '/' and is an authority parseAuthority accepts, with the user information "u" and the host "cdn". */
  lemma UserinfoAuthority(a: string)
    requires a == "u@cdn"
    ensures ValidAuthority(a) && '/' !in a && SplitAuthority(a) == (Some("u"), "cdn")
  {
    assert LastIndex(a, '@') == 1 by {
      assert a[1] == '@' && '@' !in a[2..];
    }
    assert a[..1] == "u" && a[2..] == "cdn";
    var h := "cdn";
    assert forall k :: 0 <= k < |h| ==> IsLetter(h[k]);
    LetterAuthority(h);
    assert IsUserinfoChar('u');
  }

  /** url.URL.IsAbs. */
  predicate IsAbs(u: Url) { u.scheme != [] }

  /**
   * url.URL.String, without percent-escaping: the scheme and ':', then the
   * opaque part if there is one; otherwise "//" when there is a host, user
   * information or a path after a scheme or a host, the user information and
   * '@', the host, a '/' between a host and a path that does not start with
   * one, "./" before a bare path whose first segment holds a colon, and the
   * path; then the query and a non-empty fragment.
   */
  function ToString(u: Url): string {
    (if u.scheme != [] then u.scheme + ":" else [])
    + (if u.opaquePart != [] then u.opaquePart else Hierarchical(u))
    + QueryAndFragment(u)
  }

  /** What url.URL.String writes for a URL that is not opaque, after the scheme and before the query. */
  function Hierarchical(u: Url): string {
    var authority :=
      if u.scheme != [] || u.host != [] || u.user.Some? then
        (if u.host != [] || u.path != [] || u.user.Some? then "//" else []) + UserPrefix(u.user) + u.host
      else [];
    var slash := if u.host != [] && u.path != [] && u.path[0] != '/' then "/" else [];
    var dot := if u.scheme == [] && authority == [] && ':' in FirstSegment(u.path) then "./" else [];
    authority + slash + dot + u.path
  }

  /** The user information and '@', when there is user information. */
  function UserPrefix(user: Option<string>): string {
    if user.Some? then user.value + "@" else []
  }

  /** What url.URL.String writes after the path: '?' and the query if there is one, '#' and a non-empty fragment. */
  function QueryAndFragment(u: Url): string {
    (if u.query.Some? then "?" + u.query.value else [])
    + (if u.fragment != [] then "#" + u.fragment else [])
  }
}
