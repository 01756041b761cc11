/**
 * The icon resolver of pkg/favicon/favicon.go. An HTML document is the
 * sequence of its elements (name and attributes); every HTTP download is
 * looked up in a `Web`, a map from URL string to what the server answered.
 */
module Favicon {
  import opened Wrappers
  import opened Strs
  import opened Urls

  datatype Icon = Icon(width: nat, height: nat, remoteUrl: string, filePath: string,
                       mimeType: string, size: nat, pageTitle: string)

  /** An HTML element as goquery sees it: lower-case tag name and attributes. */
  datatype Tag = Tag(name: string, attrs: map<string, string>)

  /**
   * The answer to one icon download: status code, Content-Type, whether
   * that Content-Type parses as a media type (mime.ExtensionsByType fails
   * only when it does not, an empty header included; an unregistered type
   * is accepted), and the temporary file the body was copied to with its
   * byte size.
   */
  datatype Fetched = Fetched(status: int, contentType: string, mediaTypeParses: bool, filePath: string, size: nat)

  /** URL string to answer; a URL that is absent failed or timed out. */
  type Web = map<string, Fetched>

  /**
   * The answer to the page request: status, the final request URL, the
   * parsed document (None when goquery fails) and the page title.
   */
  datatype Page = Page(status: int, url: Url, doc: Option<seq<Tag>>, title: string)

  const LinkRels: seq<string> := ["icon", "shortcut icon", "apple-touch-icon", "apple-touch-icon-precomposed"]
  const MetaNames: seq<string> := ["msapplication-TileImage", "og:image"]

  // ---------------------------------------------------------------------
  // Tag filters
  // ---------------------------------------------------------------------

  predicate IsIconLink(t: Tag) {
    t.name == "link" && "rel" in t.attrs && Lower(t.attrs["rel"]) in LinkRels
  }

  /** The value a <meta> is classified by: `name` if present, else `property`. */
  function MetaType(t: Tag): Option<string> {
    if "name" in t.attrs then Some(t.attrs["name"])
    else if "property" in t.attrs then Some(t.attrs["property"])
    else None
  }

  predicate IsIconMeta(t: Tag) {
    && t.name == "meta"
    && MetaType(t).Some?
    && (Lower(MetaType(t).value) == Lower(MetaNames[0]) || Lower(MetaType(t).value) == Lower(MetaNames[1]))
  }

  function LinkTags(doc: seq<Tag>): seq<Tag> {
    if doc == [] then []
    else LinkTags(doc[..|doc| - 1]) + (if IsIconLink(doc[|doc| - 1]) then [doc[|doc| - 1]] else [])
  }

  function MetaTags(doc: seq<Tag>): seq<Tag> {
    if doc == [] then []
    else MetaTags(doc[..|doc| - 1]) + (if IsIconMeta(doc[|doc| - 1]) then [doc[|doc| - 1]] else [])
  }

  /** The tags to fetch: icon links in document order, then icon metas in document order. */
  function IconTags(doc: seq<Tag>): seq<Tag> {
    LinkTags(doc) + MetaTags(doc)
  }

  lemma {:induction false} LinkTagsExactly(doc: seq<Tag>)
    ensures forall t :: t in LinkTags(doc) <==> t in doc && IsIconLink(t)
  {
    if doc != [] {
      LinkTagsExactly(doc[..|doc| - 1]);
      assert doc == doc[..|doc| - 1] + [doc[|doc| - 1]];
    }
  }

  lemma {:induction false} MetaTagsExactly(doc: seq<Tag>)
    ensures forall t :: t in MetaTags(doc) <==> t in doc && IsIconMeta(t)
  {
    if doc != [] {
      MetaTagsExactly(doc[..|doc| - 1]);
      assert doc == doc[..|doc| - 1] + [doc[|doc| - 1]];
    }
  }

  /** A tag is fetched iff it is an icon <link> or an icon <meta> of the document. */
  lemma IconTagsExactly(doc: seq<Tag>)
    ensures forall t :: t in IconTags(doc) <==> t in doc && (IsIconLink(t) || IsIconMeta(t))
  {
    LinkTagsExactly(doc);
    MetaTagsExactly(doc);
  }

  /** Go lowers U+0130 to 'i', so a <link> whose `rel` is "\U{0130}con" is an icon link. */
  lemma DottedCapitalIconLink(t: Tag)
    requires t.name == "link" && t.attrs == map["rel" := "\U{0130}con"]
    ensures IsIconLink(t)
  {
    assert Lower("\U{0130}con") == "icon";
  }

  /** A <meta> whose `name` is not an icon name is rejected whatever its `property` says. */
  lemma NameShadowsProperty(t: Tag)
    requires t.name == "meta" && "name" in t.attrs && "property" in t.attrs
    requires Lower(t.attrs["name"]) != "msapplication-tileimage" && Lower(t.attrs["name"]) != "og:image"
    ensures !IsIconMeta(t)
  {
    assert Lower(MetaNames[0]) == "msapplication-tileimage";
    assert Lower(MetaNames[1]) == "og:image";
  }

  /** Collects the link tags, then the meta tags, as the two Each callbacks do. */
  method CollectIconTags(doc: seq<Tag>) returns (tagsToFetch: seq<Tag>)
    ensures tagsToFetch == IconTags(doc)
  {
    tagsToFetch := [];
    var i := 0;
    while i < |doc|
      invariant 0 <= i <= |doc|
      invariant tagsToFetch == LinkTags(doc[..i])
    {
      assert doc[..i + 1][..i] == doc[..i];
      if IsIconLink(doc[i]) {
        tagsToFetch := tagsToFetch + [doc[i]];
      }
      i := i + 1;
    }
    assert doc[..|doc|] == doc;
    var links := tagsToFetch;
    i := 0;
    while i < |doc|
      invariant 0 <= i <= |doc|
      invariant tagsToFetch == links + MetaTags(doc[..i])
    {
      assert doc[..i + 1][..i] == doc[..i];
      var t := doc[i];
      var metaType := MetaType(t);
      if t.name == "meta" && metaType.Some? {
        var lowered := Lower(metaType.value);
        if lowered == Lower(MetaNames[0]) || lowered == Lower(MetaNames[1]) {
          tagsToFetch := tagsToFetch + [t];
        }
      }
      i := i + 1;
    }
  }

  // ---------------------------------------------------------------------
  // URL source, normalisation and download
  // ---------------------------------------------------------------------

  /** tagMetaUrlGetter: `href` if present, else `content`, else no URL. */
  function TagUrl(t: Tag): (r: Option<string>)
    ensures r.Some? <==> "href" in t.attrs || "content" in t.attrs
    ensures "href" in t.attrs ==> r == Some(t.attrs["href"])
    ensures "href" !in t.attrs && "content" in t.attrs ==> r == Some(t.attrs["content"])
  {
    if "href" in t.attrs then Some(t.attrs["href"])
    else if "content" in t.attrs then Some(t.attrs["content"])
    else None
  }

  /** A reference that is not absolute takes the page's scheme and host; its user information, path, query and fragment are kept. */
  function Resolve(u: Url, base: Url): Url {
    if IsAbs(u) then u else u.(scheme := base.scheme, host := base.host)
  }

  /**
   * getIconFromUrl: fails when the URL has no host (net/http refuses such a
   * request before sending it), on a transport error, on a status of 400 or
   * more, or on a Content-Type that is not a media type.
   */
  function GetIconFromUrl(u: Url, web: Web): (r: Option<Icon>)
    ensures r.Some? <==> u.host != [] && ToString(u) in web && web[ToString(u)].status < 400 && web[ToString(u)].mediaTypeParses
    ensures r.Some? ==> r.value.remoteUrl == ToString(u) && r.value.size == web[ToString(u)].size
                        && r.value.width == 0 && r.value.height == 0 && r.value.pageTitle == []
  {
    var s := ToString(u);
    if u.host == [] then None
    else if s !in web then None
    else if web[s].status >= 400 then None
    else if !web[s].mediaTypeParses then None
    else Some(Icon(0, 0, s, web[s].filePath, web[s].contentType, web[s].size, []))
  }

  /** defaultIcon: `favicon.ico` at the page's scheme and host. */
  function DefaultIcon(base: Url, web: Web): Option<Icon> {
    GetIconFromUrl(Url(base.scheme, [], None, base.host, "favicon.ico", None, []), web)
  }

  lemma DefaultIconUrl(base: Url, web: Web)
    requires base.scheme != [] && base.host != []
    ensures DefaultIcon(base, web).Some? ==>
      DefaultIcon(base, web).value.remoteUrl == base.scheme + "://" + base.host + "/favicon.ico"
  {
    FaviconAt(Url(base.scheme, [], None, base.host, "favicon.ico", None, []));
  }

  /** `<scheme>://<host>/favicon.ico` is how String writes the URL defaultIcon builds. */
  lemma FaviconAt(u: Url)
    requires u == Url(u.scheme, [], None, u.host, "favicon.ico", None, [])
    requires u.scheme != [] && u.host != []
    ensures ToString(u) == u.scheme + "://" + u.host + "/favicon.ico"
  {
    assert u.path[0] != '/';
    assert Hierarchical(u) == "//" + u.host + "/" + "favicon.ico";
    assert QueryAndFragment(u) == [];
  }

  /** The expectation of TestDefaultIcon. */
  lemma GoogleDefaultIconUrl(base: Url, web: Web)
    requires base == Url("http", [], None, "www.google.com", "", None, [])
    ensures DefaultIcon(base, web).Some? ==> DefaultIcon(base, web).value.remoteUrl == "http://www.google.com/favicon.ico"
  {
    DefaultIconUrl(base, web);
    assert "http" + "://" + "www.google.com" + "/favicon.ico" == "http://www.google.com/favicon.ico";
  }

  /** One tag's icon, as the body of the download loop of tagMetaIcons computes it. */
  function TagIcon(t: Tag, base: Url, web: Web): Option<Icon> {
    match TagUrl(t)
    case None => None
    case Some(raw) =>
      var trimmed := TrimSpace(raw);
      if trimmed == [] || HasPrefix(trimmed, "data:image/") then None
      else
        match Parse(trimmed)
        case None => None
        case Some(u) =>
          var dims := Dimensions(t, raw);
          match GetIconFromUrl(Resolve(u, base), web)
          case None => None
          case Some(d) => Some(Icon(dims.0, dims.1, d.remoteUrl, d.filePath, d.mimeType, d.size, []))
  }

  /** A link whose URL is "a%zz.png" yields no icon: url.Parse refuses the bad escape, so the loop skips the tag. */
  lemma BadEscapeTagSkipped(t: Tag, base: Url, web: Web)
    requires TagUrl(t) == Some("a%zz.png")
    ensures TagIcon(t, base, web).None?
  {
    BadEscapeLink("a%zz.png");
  }

  /** "a%zz.png" trims to itself and does not parse. */
  lemma BadEscapeLink(raw: string)
    requires raw == "a%zz.png"
    ensures TrimSpace(raw) == raw && Parse(raw).None?
  {
    assert !IsSpace(raw[0]) && !IsSpace(raw[|raw| - 1]);
    BadEscapeRejected(raw);
  }

  /**
   * A link whose URL is "http:foo.png" yields no icon: it is opaque and
   * absolute, so it is not resolved, and its printed form "http:foo.png" has
   * no host, which net/http refuses.
   */
  lemma OpaqueTagSkipped(t: Tag, base: Url, web: Web)
    requires TagUrl(t) == Some("http:foo.png")
    ensures TagIcon(t, base, web).None?
  {
    var raw := "http:foo.png";
    OpaqueLink(raw);
    OpaqueReference(raw);
    HostlessTagSkipped(t, base, web, Url("http", "foo.png", None, [], [], None, []));
  }

  /** A tag whose URL parses to one that still has no host after resolution yields no icon. */
  lemma HostlessTagSkipped(t: Tag, base: Url, web: Web, u: Url)
    requires TagUrl(t).Some? && Parse(TrimSpace(TagUrl(t).value)) == Some(u)
    requires Resolve(u, base).host == []
    ensures TagIcon(t, base, web).None?
  {
    assert GetIconFromUrl(Resolve(u, base), web).None?;
  }

  /** "http:foo.png" is its own trimmed form and is not inline image data. */
  lemma OpaqueLink(raw: string)
    requires raw == "http:foo.png"
    ensures TrimSpace(raw) == raw && raw != [] && !HasPrefix(raw, "data:image/")
  {
    assert !IsSpace(raw[0]) && !IsSpace(raw[|raw| - 1]);
    assert raw[..11][0] != "data:image/"[0];
  }

  /**
   * What an accepted tag icon is: its URL source is present, non-empty after
   * trimming and not inline image data, and the icon was downloaded from that
   * reference resolved against the page, with a status below 400. Its
   * dimensions are those `Dimensions` reads from the tag and its untrimmed
   * URL.
   */
  lemma TagIconAccepted(t: Tag, base: Url, web: Web)
    requires TagIcon(t, base, web).Some?
    ensures TagUrl(t).Some?
    ensures var trimmed := TrimSpace(TagUrl(t).value);
      && trimmed != [] && !HasPrefix(trimmed, "data:image/")
      && Parse(trimmed).Some?
      && Resolve(Parse(trimmed).value, base).host != []
      && TagIcon(t, base, web).value.remoteUrl == ToString(Resolve(Parse(trimmed).value, base))
      && TagIcon(t, base, web).value.remoteUrl in web
      && web[TagIcon(t, base, web).value.remoteUrl].status < 400
      && TagIcon(t, base, web).value.size == web[TagIcon(t, base, web).value.remoteUrl].size
    ensures (TagIcon(t, base, web).value.width, TagIcon(t, base, web).value.height) == Dimensions(t, TagUrl(t).value)
  {
  }

  /**
   * A relative path reference ("public/img/fav32.png") is fetched from the
   * page's scheme and host with the path appended after a slash.
   */
  lemma RelativeReference(u: Url, base: Url)
    requires u.scheme == [] && u.opaquePart == [] && u.path != [] && u.path[0] != '/'
    requires base.scheme != [] && base.host != []
    ensures ToString(Resolve(u, base)) == base.scheme + "://" + UserPrefix(u.user) + base.host + "/" + u.path + QueryAndFragment(u)
  {
  }

  /**
   * A network-path or rooted reference ("//cdn/x", "/x") is fetched from the
   * page's scheme and host, keeping its own user information, as
   * favicon.go:148-151 overwrite only the scheme and the host.
   */
  lemma RootedReference(u: Url, base: Url)
    requires u.scheme == [] && u.opaquePart == [] && (u.path == [] || u.path[0] == '/')
    requires base.scheme != [] && base.host != []
    ensures ToString(Resolve(u, base)) == base.scheme + "://" + UserPrefix(u.user) + base.host + u.path + QueryAndFragment(u)
  {
  }

  /** "//u@cdn/x" is fetched as http://u@<page host>/x: the user information survives the resolution, the host does not. */
  lemma UserinfoKept(s: string, base: Url)
    requires s == "//u@cdn/x"
    requires base.scheme != [] && base.host != []
    ensures Parse(s).Some?
    ensures ToString(Resolve(Parse(s).value, base)) == base.scheme + "://u@" + base.host + "/x"
  {
    UserinfoReference(s);
    UserinfoResolved(Url([], [], Some("u"), "cdn", "/x", None, []), base);
  }

  /** The parsed form of "//u@cdn/x", resolved against the page and printed. */
  lemma UserinfoResolved(u: Url, base: Url)
    requires u == Url([], [], Some("u"), "cdn", "/x", None, [])
    requires base.scheme != [] && base.host != []
    ensures ToString(Resolve(u, base)) == base.scheme + "://u@" + base.host + "/x"
  {
    RootedReference(u, base);
    assert UserPrefix(u.user) == "u@" && QueryAndFragment(u) == [];
    assert "://" + "u@" == "://u@";
  }

  /** A query-only reference ("?v=2") is fetched from the page's scheme and host, with no '/' before the query. */
  lemma QueryOnlyReference(q: string, base: Url)
    requires base.scheme != [] && base.host != []
    ensures ToString(Resolve(Url([], [], None, [], [], Some(q), []), base)) == base.scheme + "://" + base.host + "?" + q
  {
  }

  /** The download loop after one more tag: the icons so far, then that tag's icon if it yields one. */
  lemma TagIconsStep(tags: seq<Tag>, i: nat, base: Url, web: Web)
    requires i < |tags|
    ensures var icon := TagIcon(tags[i], base, web);
      TagIcons(tags[..i + 1], base, web) == TagIcons(tags[..i], base, web) + (if icon.Some? then [icon.value] else [])
  {
    assert tags[..i + 1][..i] == tags[..i];
  }

  /** The download loop of tagMetaIcons: one icon per tag that yields one, in tag order. */
  function TagIcons(tags: seq<Tag>, base: Url, web: Web): seq<Icon> {
    if tags == [] then []
    else
      var last := TagIcon(tags[|tags| - 1], base, web);
      TagIcons(tags[..|tags| - 1], base, web) + (if last.Some? then [last.value] else [])
  }

  lemma {:induction false} TagIconsFromTags(tags: seq<Tag>, base: Url, web: Web)
    ensures forall ic :: ic in TagIcons(tags, base, web) ==> exists t :: t in tags && TagIcon(t, base, web) == Some(ic)
    ensures forall t :: t in tags && TagIcon(t, base, web).Some? ==> TagIcon(t, base, web).value in TagIcons(tags, base, web)
  {
    if tags != [] {
      TagIconsFromTags(tags[..|tags| - 1], base, web);
      assert tags == tags[..|tags| - 1] + [tags[|tags| - 1]];
    }
  }

  /** tagMetaIcons: fails only when the document cannot be parsed. */
  method TagMetaIcons(page: Page, web: Web) returns (r: Result<seq<Icon>>)
    ensures page.doc.None? <==> r.Err?
    ensures page.doc.Some? ==> r.value == TagIcons(IconTags(page.doc.value), page.url, web)
  {
    if page.doc.None? {
      return Err("cannot parse document");
    }
    var tagsToFetch := CollectIconTags(page.doc.value);
    var icons: seq<Icon> := [];
    var i := 0;
    while i < |tagsToFetch|
      invariant 0 <= i <= |tagsToFetch|
      invariant icons == TagIcons(tagsToFetch[..i], page.url, web)
    {
      TagIconsStep(tagsToFetch, i, page.url, web);
      var icon := TagIcon(tagsToFetch[i], page.url, web);
      if icon.Some? {
        icons := icons + [icon.value];
      }
      i := i + 1;
    }
    assert tagsToFetch[..|tagsToFetch|] == tagsToFetch;
    r := Ok(icons);
  }

  // ---------------------------------------------------------------------
  // Dimensions
  // ---------------------------------------------------------------------

  /** A match of `(\d{2,4})x(\d{2,4})` (case-insensitive): whole match and the two groups. */
  datatype SizeMatch = SizeMatch(full: string, width: string, height: string)

  function Min(a: nat, b: nat): nat { if a <= b then a else b }

  /**
   * The file-name pattern matches at position `i` with a width group of `w`
   * digits and a height group of `h` digits, around an 'x' or 'X'.
   */
  predicate MatchesAt(s: string, i: nat, w: nat, h: nat) {
    && 2 <= w <= 4 && 2 <= h <= 4 && i + w + 1 + h <= |s|
    && (forall k :: i <= k < i + w ==> IsDigit(s[k]))
    && (s[i + w] == 'x' || s[i + w] == 'X')
    && (forall k :: i + w + 1 <= k < i + w + 1 + h ==> IsDigit(s[k]))
  }

  /** A match at `i` has the whole digit run at `i` as its width, and its height lies in the run after the 'x'. */
  lemma MatchesAtRuns(s: string, i: nat)
    requires i <= |s|
    ensures forall w: nat, h: nat :: MatchesAt(s, i, w, h) ==> w == DigitRun(s, i) && h <= DigitRun(s, i + w + 1)
  {
    forall w: nat, h: nat | MatchesAt(s, i, w, h) ensures w == DigitRun(s, i) && h <= DigitRun(s, i + w + 1) {
      var run := DigitRun(s, i);
      var hrun := DigitRun(s, i + w + 1);
    }
  }

  /**
   * The match of the file-name pattern that starts at position `i`, if any:
   * the groups are taken from `s` around the 'x', the height group is as
   * long as the pattern allows, and None means that no match starts at `i`.
   */
  function SizeMatchAt(s: string, i: nat): (r: Option<SizeMatch>)
    requires i <= |s|
    ensures r.Some? ==> MatchesAt(s, i, |r.value.width|, |r.value.height|)
    ensures r.Some? ==> && r.value.width == s[i..i + |r.value.width|]
                        && r.value.height == s[i + |r.value.width| + 1..i + |r.value.width| + 1 + |r.value.height|]
                        && r.value.full == s[i..i + |r.value.width| + 1 + |r.value.height|]
    ensures forall w: nat, h: nat :: MatchesAt(s, i, w, h) ==> r.Some? && w == |r.value.width| && h <= |r.value.height|
  {
    var w := DigitRun(s, i);
    if 2 <= w <= 4 && i + w < |s| && (s[i + w] == 'x' || s[i + w] == 'X') && DigitRun(s, i + w + 1) >= 2 then
      var h := Min(DigitRun(s, i + w + 1), 4);
      MatchesAtLongest(s, i, w, h);
      Some(SizeMatch(s[i..i + w + 1 + h], s[i..i + w], s[i + w + 1..i + w + 1 + h]))
    else
      NoMatchAt(s, i);
      None
  }

  /** Where the width run is not two to four digits followed by an 'x' and at least two digits, no match starts. */
  lemma NoMatchAt(s: string, i: nat)
    requires i <= |s|
    requires var w := DigitRun(s, i);
      !(2 <= w <= 4 && i + w < |s| && (s[i + w] == 'x' || s[i + w] == 'X') && DigitRun(s, i + w + 1) >= 2)
    ensures forall w: nat, h: nat :: !MatchesAt(s, i, w, h)
  {
    MatchesAtRuns(s, i);
  }

  /**
   * The whole width run, an 'x', and the height run cut at four digits form
   * a match, and every match at `i` has that width and at most that height.
   */
  lemma MatchesAtLongest(s: string, i: nat, w: nat, h: nat)
    requires i <= |s| && w == DigitRun(s, i) && 2 <= w <= 4 && i + w < |s| && (s[i + w] == 'x' || s[i + w] == 'X')
    requires h == Min(DigitRun(s, i + w + 1), 4) && h >= 2
    ensures MatchesAt(s, i, w, h)
    ensures forall w': nat, h': nat :: MatchesAt(s, i, w', h') ==> w' == w && h' <= h
  {
    MatchesAtRuns(s, i);
  }

  /** `j` is the first position at or after `i` where a match starts. */
  predicate LeftmostAt(s: string, i: nat, j: nat) {
    i <= j < |s| && SizeMatchAt(s, j).Some? && forall k :: i <= k < j ==> SizeMatchAt(s, k).None?
  }

  /**
   * FindStringSubmatch: the leftmost match at or after position `i`; None
   * when the pattern matches nowhere from `i` on.
   */
  function FindSizeFrom(s: string, i: nat): (r: Option<SizeMatch>)
    requires i <= |s|
    ensures r.Some? ==> 2 <= |r.value.width| <= 4 && 2 <= |r.value.height| <= 4
    ensures r.Some? ==> forall k :: 0 <= k < |r.value.width| ==> IsDigit(r.value.width[k])
    ensures r.Some? ==> forall k :: 0 <= k < |r.value.height| ==> IsDigit(r.value.height[k])
    ensures r.Some? ==> exists j :: LeftmostAt(s, i, j) && r == SizeMatchAt(s, j)
    ensures r.None? ==> forall j, w, h :: i <= j ==> !MatchesAt(s, j, w, h)
    decreases |s| - i
  {
    if i == |s| then None
    else if SizeMatchAt(s, i).Some? then
      var m := SizeMatchAt(s, i).value;
      assert forall k :: 0 <= k < |m.width| ==> m.width[k] == s[i + k];
      assert forall k :: 0 <= k < |m.height| ==> m.height[k] == s[i + |m.width| + 1 + k];
      assert LeftmostAt(s, i, i);
      SizeMatchAt(s, i)
    else
      var r := FindSizeFrom(s, i + 1);
      LeftmostShift(s, i, r);
      r
  }

  /** When no match starts at `i`, the leftmost match from `i + 1` on is the leftmost from `i` on. */
  lemma LeftmostShift(s: string, i: nat, r: Option<SizeMatch>)
    requires i < |s| && SizeMatchAt(s, i).None?
    requires r.Some? ==> exists j :: LeftmostAt(s, i + 1, j) && r == SizeMatchAt(s, j)
    ensures r.Some? ==> exists j :: LeftmostAt(s, i, j) && r == SizeMatchAt(s, j)
  {
    if r.Some? {
      var j :| LeftmostAt(s, i + 1, j) && r == SizeMatchAt(s, j);
      assert LeftmostAt(s, i, j);
    }
  }

  /** Position of the first character of `s` that is in `seps`, or |s| when there is none. */
  function FirstIn(s: string, seps: string): (i: nat)
    ensures i <= |s|
    ensures forall k :: 0 <= k < i ==> s[k] !in seps
    ensures i < |s| ==> s[i] in seps
  {
    if s == [] || s[0] in seps then 0 else 1 + FirstIn(s[1..], seps)
  }

  /**
   * regexp.Split(s, 2) on a separator class: `s` itself when it holds no
   * separator, else the text before the first separator and the text after it.
   */
  function SplitAtFirst(s: string, seps: string): (parts: seq<string>)
    ensures |parts| == 1 || |parts| == 2
    ensures |parts| == 1 <==> forall k :: 0 <= k < |s| ==> s[k] !in seps
    ensures |parts| == 1 ==> parts[0] == s
    ensures |parts| == 2 ==> && |parts[0]| < |s| && s[|parts[0]|] in seps
                             && s == parts[0] + [s[|parts[0]|]] + parts[1]
                             && forall k :: 0 <= k < |parts[0]| ==> parts[0][k] !in seps
  {
    var i := FirstIn(s, seps);
    if i == |s| then [s]
    else
      assert s == s[..i] + [s[i]] + s[i + 1..];
      [s[..i], s[i + 1..]]
  }

  /** Separators the `sizes` branch intends: the letter x and the multiplication sign. */
  const SizeSeparators: string := ['x', '\U{00D7}']

  /** The number in a dimension string: its first digit run, 0 when absent or out of range. */
  function DimensionValue(s: string): nat {
    AtoiOrZero(FirstDigits(s))
  }

  /** Width and height read from a `sizes` attribute: the greatest token, split at the first separator. */
  function SizesDimensions(sizes: string): (nat, nat) {
    var parts := SplitAtFirst(Greatest(Split(sizes, ' ')), SizeSeparators);
    (DimensionValue(parts[0]), DimensionValue(if |parts| == 2 then parts[1] else []))
  }

  lemma {:induction false} DigitsValueBound(d: string)
    requires forall k :: 0 <= k < |d| ==> IsDigit(d[k])
    ensures |d| <= 4 ==> DigitsValue(d) <= 9999
    ensures |d| <= 3 ==> DigitsValue(d) <= 999
    ensures |d| <= 2 ==> DigitsValue(d) <= 99
    ensures |d| <= 1 ==> DigitsValue(d) <= 9
  {
    if d != [] {
      DigitsValueBound(d[..|d| - 1]);
    }
  }

  /** A group of the file-name pattern reads as its own value, which is at most 9999. */
  lemma GroupValue(d: string)
    requires 2 <= |d| <= 4 && forall k :: 0 <= k < |d| ==> IsDigit(d[k])
    ensures DimensionValue(d) == DigitsValue(d) <= 9999
  {
    DigitsValueBound(d);
    var i :| FirstRunAt(d, FirstDigits(d), i);
    assert i == 0;
    assert FirstDigits(d) == d;
  }

  /**
   * dimensions, as evidently intended: from `sizes` unless it is absent or
   * "any", else from a WxH pattern in the URL, else 0x0. Every dimension
   * fits in an int64; one read from a file name is at most 9999.
   */
  function Dimensions(t: Tag, linkUrl: string): (r: (nat, nat))
    ensures r.0 <= MaxInt64 && r.1 <= MaxInt64
    ensures "sizes" !in t.attrs || t.attrs["sizes"] == "any" ==> r.0 <= 9999 && r.1 <= 9999
  {
    if "sizes" in t.attrs && t.attrs["sizes"] != "any" then SizesDimensions(t.attrs["sizes"])
    else
      match FindSizeFrom(linkUrl, 0)
      case Some(m) =>
        GroupValue(m.width);
        GroupValue(m.height);
        (DimensionValue(m.width), DimensionValue(m.height))
      case None => (0, 0)
  }

  /**
   * The `sizes` branch: when the greatest space-separated token of `sizes`
   * is `w`, a separator, then `h`, with no separator in `w`, the width is the
   * number in `w` and the height the number in `h`.
   */
  lemma DimensionsFromSizes(t: Tag, linkUrl: string, w: string, c: char, h: string)
    requires "sizes" in t.attrs && t.attrs["sizes"] != "any"
    requires w + [c] + h in Split(t.attrs["sizes"], ' ')
    requires forall tok :: tok in Split(t.attrs["sizes"], ' ') ==> LexLe(tok, w + [c] + h)
    requires c in SizeSeparators && forall k :: 0 <= k < |w| ==> w[k] !in SizeSeparators
    ensures Dimensions(t, linkUrl) == (DimensionValue(w), DimensionValue(h))
  {
    var tok := w + [c] + h;
    var g := Greatest(Split(t.attrs["sizes"], ' '));
    LexAntisym(g, tok);
    var parts := SplitAtFirst(tok, SizeSeparators);
    assert tok[|w|] == c;
    assert |parts| == 2;
    var n := |parts[0]|;
    assert parts[0] == w;
    assert parts[1] == tok[|w| + 1..] == h;
  }

  /** The `sizes` branch when the greatest token holds no separator: its number is the width, and the height is 0. */
  lemma DimensionsFromSizesWithoutSeparator(t: Tag, linkUrl: string, tok: string)
    requires "sizes" in t.attrs && t.attrs["sizes"] != "any"
    requires tok in Split(t.attrs["sizes"], ' ')
    requires forall tok' :: tok' in Split(t.attrs["sizes"], ' ') ==> LexLe(tok', tok)
    requires forall k :: 0 <= k < |tok| ==> tok[k] !in SizeSeparators
    ensures Dimensions(t, linkUrl) == (DimensionValue(tok), 0)
  {
    var g := Greatest(Split(t.attrs["sizes"], ' '));
    LexAntisym(g, tok);
    assert DimensionValue([]) == 0 by {
      var i :| FirstRunAt([], FirstDigits([]), i);
    }
  }

  /**
   * The file-name branch: the width and height are the values of the two
   * groups of the leftmost WxH match in the URL, and 0x0 when there is none.
   */
  lemma DimensionsFromFilename(t: Tag, linkUrl: string)
    requires "sizes" !in t.attrs || t.attrs["sizes"] == "any"
    ensures FindSizeFrom(linkUrl, 0).None? ==> Dimensions(t, linkUrl) == (0, 0)
    ensures FindSizeFrom(linkUrl, 0).Some? ==>
      Dimensions(t, linkUrl) == (DigitsValue(FindSizeFrom(linkUrl, 0).value.width), DigitsValue(FindSizeFrom(linkUrl, 0).value.height))
  {
    var m := FindSizeFrom(linkUrl, 0);
    if m.Some? {
      GroupValue(m.value.width);
      GroupValue(m.value.height);
    }
  }

  lemma DimensionValue192()
    ensures DimensionValue("192") == 192 && DimensionValue("192+") == 192
  {
    assert FirstDigits("192") == "192";
    assert FirstDigits("192+") == "192" by { assert "192+"[..DigitRun("192+", 0)] == "192"; }
    assert DigitsValue("192") == 192 by {
      assert "192"[..2] == "19" && "19"[..1] == "1" && "1"[..0] == [];
    }
  }

  lemma SplitAtFirst192()
    ensures SplitAtFirst("192x192+", SizeSeparators) == ["192", "192+"]
  {
    var v := "192x192+";
    assert v[0] !in SizeSeparators && v[1] !in SizeSeparators && v[2] !in SizeSeparators;
    assert v[3] in SizeSeparators;
    assert FirstIn(v, SizeSeparators) == 3;
    assert v[..3] == "192" && v[4..] == "192+";
  }

  /** The example the `sizes` branch is written for: a trailing "+" is ignored. */
  lemma SizesWithTrailingJunk()
    ensures Dimensions(Tag("link", map["sizes" := "192x192+"]), "icon.png") == (192, 192)
  {
    var v := "192x192+";
    assert ' ' !in v by { assert forall k :: 0 <= k < |v| ==> v[k] != ' '; }
    assert Split(v, ' ') == [v];
    LexRefl(v);
    assert v == "192" + ['x'] + "192+";
    DimensionsFromSizes(Tag("link", map["sizes" := v]), "icon.png", "192", 'x', "192+");
    DimensionValue192();
  }

  // ---------------------------------------------------------------------
  // dimensions as written
  // ---------------------------------------------------------------------

  /**
   * A simplified UTF-8 check (lead byte and continuation bytes). Go's regexp
   * parser rejects a pattern that is not valid UTF-8.
   */
  predicate ValidUtf8(b: seq<int>)
    decreases |b|
  {
    if b == [] then true
    else if 0 <= b[0] < 0x80 then ValidUtf8(b[1..])
    else if 0xC2 <= b[0] <= 0xDF then |b| >= 2 && IsContinuation(b[1]) && ValidUtf8(b[2..])
    else if 0xE0 <= b[0] <= 0xEF then |b| >= 3 && IsContinuation(b[1]) && IsContinuation(b[2]) && ValidUtf8(b[3..])
    else if 0xF0 <= b[0] <= 0xF4 then
      |b| >= 4 && IsContinuation(b[1]) && IsContinuation(b[2]) && IsContinuation(b[3]) && ValidUtf8(b[4..])
    else false
  }

  predicate IsContinuation(x: int) { 0x80 <= x <= 0xBF }

  /** The bytes of the Go literal "[x\xd7]": `\xd7` is one raw byte, not the sign U+00D7. */
  const SizesPatternAsWritten: seq<int> := [0x5B, 0x78, 0xD7, 0x5D]

  /** The bytes of "[x×]", the multiplication sign encoded in UTF-8. */
  const SizesPatternIntended: seq<int> := [0x5B, 0x78, 0xC3, 0x97, 0x5D]

  lemma SizesPatternEncoding()
    ensures !ValidUtf8(SizesPatternAsWritten)
    ensures ValidUtf8(SizesPatternIntended)
  {
    assert SizesPatternAsWritten[1..][1..] == [0xD7, 0x5D];
    assert SizesPatternIntended[1..][1..] == [0xC3, 0x97, 0x5D];
    assert SizesPatternIntended[1..][1..][2..] == [0x5D];
  }

  /** The sub-match slice FindStringSubmatch returns: the whole match, then each group. */
  function Submatches(m: SizeMatch): seq<string> {
    [m.full, m.width, m.height]
  }

  /**
   * The targets after unpack(s, targets...): the i-th target holds s[i]
   * where there is one, and keeps its value otherwise.
   */
  function Unpacked(s: seq<string>, targets: seq<string>): (r: seq<string>)
    ensures |r| == |targets|
    ensures forall i :: 0 <= i < |targets| ==> r[i] == (if i < |s| then s[i] else targets[i])
  {
    if |s| <= |targets| then s + targets[|s|..] else s[..|targets|]
  }

  /** The repair and conversion that end dimensions, on its two targets: width, then height. */
  function TargetDimensions(targets: seq<string>): (nat, nat) {
    (DimensionValue(if |targets| > 0 then targets[0] else []), DimensionValue(if |targets| > 1 then targets[1] else []))
  }

  /**
   * dimensions as written; None where the code panics: regexp.MustCompile
   * on the `sizes` pattern, or unpack writing three strings through two
   * targets. The file-name branch reads its targets through `Unpacked`,
   * the specification the method `Unpack` (the pointer writes of unpack)
   * is proved against, and is None exactly where `Unpack` reports an
   * index out of range. As written it never answers anything but 0x0.
   */
  function DimensionsAsWritten(t: Tag, linkUrl: string): (r: Option<(nat, nat)>)
    ensures r.None? <==> ("sizes" in t.attrs && t.attrs["sizes"] != "any") || FindSizeFrom(linkUrl, 0).Some?
    ensures r.Some? ==> r.value == (0, 0)
  {
    if "sizes" in t.attrs && t.attrs["sizes"] != "any" then
      var sizes := t.attrs["sizes"];
      SizesPatternEncoding();
      if ValidUtf8(SizesPatternAsWritten) then Some(SizesDimensions(sizes)) else None
    else
      match FindSizeFrom(linkUrl, 0)
      case Some(m) =>
        var matches := Submatches(m);
        if |matches| <= 2 then Some(TargetDimensions(Unpacked(matches, ["", ""]))) else None
      case None => Some((0, 0))
  }

  /** The `sizes` example of the intended reading, as written: the pattern does not compile. */
  lemma SizesAttributePanicsExample()
    ensures DimensionsAsWritten(Tag("link", map["sizes" := "192x192+"]), "icon.png") == None
  {
  }

  /** A match at `i` whose height group cannot grow is the match SizeMatchAt reports there. */
  lemma SizeMatchAtExactly(s: string, i: nat, w: nat, h: nat)
    requires MatchesAt(s, i, w, h) && (h == 4 || i + w + 1 + h == |s| || !IsDigit(s[i + w + 1 + h]))
    ensures SizeMatchAt(s, i) == Some(SizeMatch(s[i..i + w + 1 + h], s[i..i + w], s[i + w + 1..i + w + 1 + h]))
  {
    var m := SizeMatchAt(s, i);
    assert m.Some? && |m.value.width| == w;
    assert |m.value.height| == h by {
      assert MatchesAt(s, i, w, |m.value.height|);
    }
  }

  /** The leftmost match in "32x32.png" has the groups "32" and "32". */
  lemma ThirtyTwoMatch(u: string)
    requires u == "32x32.png"
    ensures FindSizeFrom(u, 0) == Some(SizeMatch("32x32", "32", "32"))
  {
    assert MatchesAt(u, 0, 2, 2) && !IsDigit(u[5]);
    SizeMatchAtExactly(u, 0, 2, 2);
    assert u[0..5] == "32x32" && u[0..2] == "32" && u[3..5] == "32";
  }

  lemma ThirtyTwoValue(t: Tag, u: string, m: SizeMatch)
    requires "sizes" !in t.attrs && FindSizeFrom(u, 0) == Some(m) && m.width == "32" && m.height == "32"
    ensures Dimensions(t, u) == (32, 32)
  {
    DimensionsFromFilename(t, u);
    DigitsValue32(m.width);
    DigitsValue32(m.height);
  }

  lemma DigitsValue32(d: string)
    requires d == "32"
    ensures DigitsValue(d) == 32
  {
    assert d[..1] == "3" && d[..1][..0] == [];
    assert DigitsValue(d[..1]) == 3;
  }

  /** A concrete input: a link to "32x32.png" on a tag without `sizes`. */
  lemma FilenameSizePanicsExample(t: Tag, u: string)
    requires u == "32x32.png" && "sizes" !in t.attrs
    ensures DimensionsAsWritten(t, u) == None
    ensures Dimensions(t, u) == (32, 32)
  {
    ThirtyTwoMatch(u);
    ThirtyTwoValue(t, u, SizeMatch("32x32", "32", "32"));
  }

  /**
   * unpack: writes s[i] through the i-th target while there are targets;
   * `inRange` is false where Go indexes past the last target and panics.
   * Its effect is `Unpacked`, which `DimensionsAsWritten` uses in its place.
   */
  method Unpack(s: seq<string>, vars: array<string>) returns (inRange: bool)
    modifies vars
    ensures inRange <==> |s| <= vars.Length
    ensures vars[..] == Unpacked(s, old(vars[..]))
  {
    var i := 0;
    while i < |s| && i < vars.Length
      invariant 0 <= i <= |s| && i <= vars.Length
      invariant forall k :: 0 <= k < vars.Length ==> vars[k] == (if k < i then s[k] else old(vars[k]))
    {
      vars[i] := s[i];
      i := i + 1;
    }
    inRange := i == |s|;
  }

  // ---------------------------------------------------------------------
  // GetBest
  // ---------------------------------------------------------------------

  /** The candidates GetBest chooses from: the default icon if it downloaded, then the tag icons. */
  function Candidates(page: Page, web: Web): seq<Icon> {
    (if DefaultIcon(page.url, web).Some? then [DefaultIcon(page.url, web).value] else [])
    + (if page.doc.Some? then TagIcons(IconTags(page.doc.value), page.url, web) else [])
  }

  /** When GetBest answers an icon rather than an error. */
  predicate BestExists(getUrl: string, resp: Option<Page>, web: Web) {
    Parse(getUrl).Some? && resp.Some? && resp.value.status < 400 && Candidates(resp.value, web) != []
  }

  /** `icon` is one of `cs`, given the page title `title`. */
  predicate TitledCandidate(icon: Icon, cs: seq<Icon>, title: string) {
    cs != [] && (icon == cs[0].(pageTitle := title) || TitledCandidate(icon, cs[1..], title))
  }

  lemma {:induction false} TitledCandidateAt(icon: Icon, cs: seq<Icon>, title: string)
    ensures TitledCandidate(icon, cs, title) <==> exists i :: 0 <= i < |cs| && icon == cs[i].(pageTitle := title)
  {
    if cs != [] {
      TitledCandidateAt(icon, cs[1..], title);
      if exists i :: 0 <= i < |cs| && icon == cs[i].(pageTitle := title) {
        var i :| 0 <= i < |cs| && icon == cs[i].(pageTitle := title);
        if i > 0 {
          assert icon == cs[1..][i - 1].(pageTitle := title);
        }
      }
      if TitledCandidate(icon, cs[1..], title) {
        var i :| 0 <= i < |cs[1..]| && icon == cs[1..][i].(pageTitle := title);
        assert icon == cs[i + 1].(pageTitle := title);
      }
    }
  }

  /** No icon of `cs` is larger than `size`. */
  predicate NoneLarger(cs: seq<Icon>, size: int) {
    cs == [] || (cs[0].size <= size && NoneLarger(cs[1..], size))
  }

  lemma {:induction false} NoneLargerAll(cs: seq<Icon>, size: int)
    ensures NoneLarger(cs, size) <==> forall k :: 0 <= k < |cs| ==> cs[k].size <= size
  {
    if cs != [] {
      NoneLargerAll(cs[1..], size);
      assert forall k :: 1 <= k < |cs| ==> cs[k] == cs[1..][k - 1];
    }
  }

  /** `icon` is a candidate of the largest size, carrying the page title. */
  predicate IsBest(icon: Icon, page: Page, web: Web) {
    TitledCandidate(icon, Candidates(page, web), page.title) && NoneLarger(Candidates(page, web), icon.size)
  }

  /** The icons GetBest collects: the default icon when it downloads, then the tag icons when the document parses. */
  method CollectCandidates(page: Page, web: Web) returns (icons: seq<Icon>)
    ensures icons == Candidates(page, web)
  {
    icons := [];
    var defIco := DefaultIcon(page.url, web);
    if defIco.Some? {
      icons := icons + [defIco.value];
    }
    var tmIcons := TagMetaIcons(page, web);
    if tmIcons.Ok? {
      icons := icons + tmIcons.value;
    }
  }

  /**
   * The position of an icon of the largest size, as the first element after
   * GetBest's sort by decreasing size.
   */
  method Largest(icons: seq<Icon>) returns (best: nat)
    requires icons != []
    ensures best < |icons| && forall k :: 0 <= k < |icons| ==> icons[k].size <= icons[best].size
  {
    best := 0;
    var i := 1;
    while i < |icons|
      invariant best < |icons| && 1 <= i <= |icons|
      invariant forall k :: 0 <= k < i ==> icons[k].size <= icons[best].size
    {
      if icons[i].size > icons[best].size {
        best := i;
      }
      i := i + 1;
    }
  }

  /**
   * GetBest: fails when the URL does not parse, the page request fails or
   * answers 400 or more, or no candidate downloaded; otherwise answers a
   * candidate of the largest size, with the page title.
   */
  method GetBest(getUrl: string, resp: Option<Page>, web: Web) returns (r: Result<Icon>)
    ensures r.Ok? <==> BestExists(getUrl, resp, web)
    ensures r.Ok? ==> IsBest(r.value, resp.value, web)
  {
    if Parse(getUrl).None? {
      return Err("cannot parse URL");
    }
    if resp.None? {
      return Err("request failed");
    }
    var page := resp.value;
    if page.status >= 400 {
      return Err("received bad status code");
    }
    var icons := CollectCandidates(page, web);
    if |icons| == 0 {
      return Err("failed to get any icons for website");
    }
    var best := Largest(icons);
    r := Ok(icons[best].(pageTitle := page.title));
    TitledCandidateAt(r.value, icons, page.title);
    NoneLargerAll(icons, r.value.size);
  }
}
