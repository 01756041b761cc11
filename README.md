# Portfall core, modelled in Dafny

Portfall is a desktop application that port-forwards every web-serving pod of
a Kubernetes namespace to localhost and shows each one with its favicon. This
project models its two core packages:

- `pkg/client/client.go`: the `Client`. It keeps a registry of forwarded
  websites and of the namespaces the user selected. Selecting a namespace
  discovers its forwardable (pod, port) pairs, forwards each pair, fetches
  the pair's favicon and registers the websites that succeeded. Deselecting
  a namespace closes their tunnels. Switching the kubeconfig closes all
  tunnels, and so does shutting down.
- `pkg/favicon/favicon.go`: the icon resolver. It collects `favicon.ico`
  and the icons named by `<link>` and `<meta>` tags, downloads them, reads
  their declared dimensions, and picks the largest by byte size.

Modules:

| file | module | contents |
|---|---|---|
| `wrappers.dfy` | `Wrappers` | `Option`, and `Result` for Go's `(value, error)` pairs |
| `strings.dfy` | `Strs` | the parts of Go's `strings`, `strconv` and `regexp` that the code uses |
| `urls.dfy` | `Urls` | the part of `net/url` that the code relies on: `Parse`, `IsAbs`, `String` |
| `favicon.dfy` | `Favicon` | the icon resolver |
| `discovery.dfy` | `Discovery` | the pod and port selection of the client, as pure functions |
| `kubeclient.dfy` | `KubeClient` | the `Client`, `Website` and stop-channel classes and the imperative operations |

How the outside world is modelled:

- **Kubernetes API answers:** a `Cluster` value holding the pod and service listings per namespace scope.
- **One forward attempt:** an `Attempt`. It records whether a free port was found, whether the tunnel became ready, what the page answered and what each icon URL answered (`Web`).
- **Kubeconfig:** a `KubeConfig`, a map from context names to the outcome of building a client for that context.
- **Go loops:** each loop is a `while` loop in a method, proved equal to the function that specifies it.
- **Registry updates:** made in place on the `Client` and `Website` objects.

## Model

| member | source | states |
|---|---|---|
| `Strs.TrimLeft` | pkg/client/client.go:75 | the result is a suffix of the input; every character removed is in the cutset; the first character kept is not |
| `Strs.LastIndex` | pkg/favicon/favicon.go:143 | the position of the last occurrence of a character, as `strings.LastIndex` gives it to parseHost; -1 exactly when the character is absent |
| `Strs.TrimSpace` | pkg/favicon/favicon.go:138 | the trimmed link URL is a slice of the input with only white space removed before and after it, and it neither starts nor ends with white space |
| `Strs.Split` | pkg/favicon/favicon.go:176 | splitting `sizes` at spaces gives at least one token, no token holds a space, and joining the tokens with spaces gives `sizes` back |
| `Strs.Greatest` | pkg/favicon/favicon.go:177-179 | the token used after the reverse string sort is one of the tokens and is lexicographically greatest among them |
| `Strs.LexAntisym` | pkg/favicon/favicon.go:177 | two strings that are each at most the other are equal, so the greatest token is a single string |
| `Strs.FirstDigits` | pkg/favicon/favicon.go:191-193 | the `[0-9]+` repair gives the leftmost maximal run of digits: a slice of the input with no digit before it and none right after it; it is "" exactly when the input holds no digit |
| `Strs.AtoiOrZero` | pkg/favicon/favicon.go:195-202 | a run of digits reads as its decimal value when that fits in an int64; one that `Atoi` rejects (empty, or beyond int64) reads as 0 |
| `Strs.Itoa` | pkg/client/client.go:143 | the `%d` form of the local port is a non-empty run of digits without a leading zero |
| `Strs.ItoaRoundTrip` | pkg/client/client.go:143 | reading the `%d` form of a port back as a number gives the port |
| `Urls.SchemeFrom` | pkg/favicon/favicon.go:143 | getScheme, the scheme step of `url.Parse`, fails exactly on a leading ':'; a non-empty scheme is a valid scheme (a letter, then letters, digits, '+', '-' or '.') and the text is the scheme, ':' and the rest; the scheme is empty exactly when no valid scheme followed by ':' starts the text |
| `Urls.Parse` | pkg/favicon/favicon.go:143-146 | `url.Parse` fails on a leading ':'; when it succeeds, the fragment holds only valid percent escapes; the host holds no '@' and no '/' and is one parseHost accepts (a numeric port after the last ':' or after the closing ']', only host characters and allowed escapes); user information is made of allowed characters and valid escapes; an opaque part comes only after a scheme, with no user, host or path; a non-opaque URL with a scheme has an empty or rooted path; a scheme-less result has a path with only valid escapes and, unless it starts with '/', no colon in its first segment |
| `Urls.ParseOpaque` | pkg/favicon/favicon.go:143 | a scheme followed by anything but '/' gives an opaque URL holding the text up to the query, with no host, and `String` writes the lower-cased scheme, ':' and the rest back |
| `Urls.OpaqueReference` | pkg/favicon/favicon.go:143 | "http:foo.png" parses as the opaque URL "foo.png" with scheme "http" and no host, and prints back as "http:foo.png" |
| `Urls.OpaqueParts` | pkg/favicon/favicon.go:143 | "http:foo.png" has no fragment and no control character; its scheme is "http" and the rest "foo.png" |
| `Urls.OpaqueRest` | pkg/favicon/favicon.go:143 | "foo.png" has no query and does not start with '/' |
| `Urls.HttpLower` | pkg/favicon/favicon.go:143 | the scheme "http" is already in lower case |
| `Urls.HostAndPath` | pkg/favicon/favicon.go:143 | what follows the scheme and precedes the query, when not opaque, yields a host parseHost accepts with no '@' and no '/', valid user information, an empty or rooted path after a scheme, and, for a scheme-less reference, a path with valid escapes and no colon in a first segment that does not start with '/' |
| `Urls.AuthorityAndPath` | pkg/favicon/favicon.go:143 | after "//", the authority up to the next '/' must be accepted and the path from that '/' on holds valid escapes; the result has an accepted host and user information and an empty or rooted path |
| `Urls.SplitAuthority` | pkg/favicon/favicon.go:143 | parseAuthority's split at the last '@': the authority is the user information, '@' and the host; the host holds no '@' and is accepted, and the user information is valid |
| `Urls.ParseAuthorityPath` | pkg/favicon/favicon.go:143 | "//" + authority + path parses with the authority's user information and host, and that path |
| `Urls.UserinfoReference` | pkg/favicon/favicon.go:143 | "//u@cdn/x" parses with user information "u", host "cdn" and path "/x" |
| `Urls.UserinfoAuthority` | pkg/favicon/favicon.go:143 | "u@cdn" is accepted and splits into "u" and "cdn" |
| `Urls.Cut` | pkg/favicon/favicon.go:143 | `url.Parse` splits at the first `#` (fragment) and then at the first `?` (query): the part before holds no such character, and the parts join back around it; nothing is cut when the character is absent |
| `Urls.CutAt` | pkg/favicon/favicon.go:143 | the cut falls at the first occurrence of the character |
| `Urls.SchemeUpTo` | pkg/favicon/favicon.go:143 | a letter, then scheme characters up to a ':', is the scheme, and the rest follows that ':' |
| `Urls.NoScheme` | pkg/favicon/favicon.go:143 | a text of scheme characters that ends, or meets a character that is neither a scheme character nor ':', has no scheme |
| `Urls.ParseRelativePath` | pkg/favicon/favicon.go:143 | a scheme-less reference with no control character, whose path neither starts with '/' nor has a colon in its first segment and whose path and fragment hold only valid escapes, parses as that path, with the query and fragment cut off beforehand |
| `Urls.RelativeHostAndPath` | pkg/favicon/favicon.go:143 | such a path has no host and is kept whole |
| `Urls.ParseNetworkPath` | pkg/favicon/favicon.go:143 | a "//host" reference, after a scheme or none, with no control character and a host with no '@' that parseAuthority accepts, takes the host up to the query, with no user information, an empty path and the scheme lower-cased |
| `Urls.NetworkPathHost` | pkg/favicon/favicon.go:143 | after "//", an accepted host with no '/' and no '@' is the whole authority, with no user information, and the path is empty |
| `Urls.LetterAuthority` | pkg/favicon/favicon.go:143 | a host name of letters only is accepted by parseAuthority and holds no '@' and no '/' |
| `Urls.NamePortAuthority` | pkg/client/client.go:143 | a host name of letters, ':' and a decimal port is accepted by parseAuthority and holds no '@' |
| `Urls.RelativePathRejected` | pkg/favicon/favicon.go:143-146 | a scheme-less relative reference whose path holds a '%' not followed by two hexadecimal digits fails to parse, so the tag is skipped |
| `Urls.PathEscapeRejected` | pkg/favicon/favicon.go:143 | such a path makes the host-and-path step fail |
| `Urls.NetworkPathRejected` | pkg/favicon/favicon.go:143-146 | a "//authority/path" reference whose authority parseAuthority refuses fails to parse |
| `Urls.AuthorityRejected` | pkg/favicon/favicon.go:143 | such an authority makes the host-and-path step fail |
| `Urls.AuthorityThenPath` | pkg/favicon/favicon.go:143 | in "//" + authority + path, the authority ends at the first '/' |
| `Urls.BadEscapeRejected` | pkg/favicon/favicon.go:143-146 | "a%zz.png" fails to parse: a bad escape in the path |
| `Urls.BadPortRejected` | pkg/favicon/favicon.go:143-146 | "//cdn:abc/x.png" fails to parse: the port is not a number |
| `Urls.BadPortAuthority` | pkg/favicon/favicon.go:143 | "cdn:abc" is refused by parseAuthority |
| `Urls.BadHostCharRejected` | pkg/favicon/favicon.go:143-146 | "//a b/x.png" fails to parse: a space is not a host character |
| `Urls.BadCharAuthority` | pkg/favicon/favicon.go:143 | "a b" is refused by parseAuthority |
| `Urls.PlainNetworkPath` | pkg/favicon/favicon.go:143 | a reference that starts with "//" and holds no '#' and no '?' has no fragment, no scheme and no query |
| `Urls.QueryColonReference` | pkg/favicon/favicon.go:143-145 | "icon.png?v=1:2" parses as the path "icon.png" with query "v=1:2": a colon in the query is not read as a malformed scheme |
| `Urls.FragmentColonReference` | pkg/favicon/favicon.go:143-145 | "favicon.ico#a:b" parses as the path "favicon.ico" with fragment "a:b" |
| `Urls.QueryEndsHost` | pkg/favicon/favicon.go:143-145 | "//cdn?x/y" parses with host "cdn", empty path and query "x/y" |
| `Urls.FaviconIcoIsPath` | pkg/favicon/favicon.go:143 | "favicon.ico" has no scheme, no query, no colon, no control character and no escape: a plain relative path |
| `Urls.FaviconFragmentParts` | pkg/favicon/favicon.go:143 | "favicon.ico#a:b" cuts into the reference "favicon.ico" and the fragment "a:b", which holds no escape |
| `Urls.IconPngQueryParts` | pkg/favicon/favicon.go:143-145 | "icon.png?v=1:2" has no fragment, no scheme and no control character; its query cut gives the path "icon.png" and the query "v=1:2" |
| `Urls.IconPngIsPath` | pkg/favicon/favicon.go:143 | "icon.png" has no leading slash, no colon and no escape |
| `Urls.CdnQueryParts` | pkg/favicon/favicon.go:143 | "//cdn?x/y" has no fragment, no scheme and no control character; "//cdn" precedes the query "x/y", and "cdn" is an accepted host |
| `Favicon.LinkTagsExactly` | pkg/favicon/favicon.go:99-112 | a `<link>` is fetched iff it has a `rel` whose lower-case form is one of the four icon relations |
| `Favicon.MetaTagsExactly` | pkg/favicon/favicon.go:114-128 | a `<meta>` is fetched iff its `name` (else its `property`) lowers to one of the two icon names |
| `Favicon.IconTagsExactly` | pkg/favicon/favicon.go:96-128 | the tags to fetch are exactly the icon links and the icon metas of the document |
| `Favicon.DottedCapitalIconLink` | pkg/favicon/favicon.go:104-106 | a `rel` of U+0130 followed by "con" is an icon relation, since Go lowers U+0130 to 'i' |
| `Favicon.NameShadowsProperty` | pkg/favicon/favicon.go:115-121 | a `<meta>` whose `name` is not an icon name is rejected, even when its `property` is one |
| `Favicon.CollectIconTags` | pkg/favicon/favicon.go:96-128 | the two `Each` loops collect the icon links in document order, then the icon metas in document order |
| `Favicon.TagUrl` | pkg/favicon/favicon.go:208-218 | the URL source is `href` if present, else `content`, and it is missing exactly when both are absent |
| `Favicon.GetIconFromUrl` | pkg/favicon/favicon.go:243-277 | a download succeeds iff the URL has a host (net/http refuses a request without one) and answered, with a status below 400 and a Content-Type that parses as a media type; the icon records that URL and the body size, with dimensions 0x0 |
| `Favicon.DefaultIconUrl` | pkg/favicon/favicon.go:233-241 | the default icon is fetched from `<scheme>://<host>/favicon.ico` of the page |
| `Favicon.GoogleDefaultIconUrl` | pkg/favicon/favicon_test.go:15-25 | the default icon of http://www.google.com is http://www.google.com/favicon.ico |
| `Favicon.FaviconAt` | pkg/favicon/favicon.go:233-241 | the URL defaultIcon builds prints as `<scheme>://<host>/favicon.ico` |
| `Favicon.BadEscapeTagSkipped` | pkg/favicon/favicon.go:143-146 | a tag whose URL is "a%zz.png" yields no icon: `url.Parse` fails and the loop goes on |
| `Favicon.BadEscapeLink` | pkg/favicon/favicon.go:138-146 | "a%zz.png" trims to itself and does not parse |
| `Favicon.TagIconAccepted` | pkg/favicon/favicon.go:133-166 | an icon comes from a tag only when its URL is present, non-blank, not `data:image/`, parses, and downloads below status 400 from the reference resolved against the page, which has a host; it keeps the downloaded size, and its dimensions are those `Dimensions` reads from the tag and its untrimmed URL |
| `Favicon.OpaqueTagSkipped` | pkg/favicon/favicon.go:143-157 | a tag whose URL is "http:foo.png" yields no icon: the URL is absolute, so it is not resolved, and it has no host, so the request fails and the loop goes on |
| `Favicon.OpaqueLink` | pkg/favicon/favicon.go:138-141 | "http:foo.png" trims to itself and is not inline image data |
| `Favicon.HostlessTagSkipped` | pkg/favicon/favicon.go:148-157 | a tag whose parsed URL still has no host after resolution yields no icon |
| `Favicon.RelativeReference` | pkg/favicon/favicon.go:148-151 | a relative reference takes the page's scheme and host and keeps its own user information; its path follows after a slash, then its query and fragment |
| `Favicon.RootedReference` | pkg/favicon/favicon.go:148-151 | a rooted or network-path reference takes the page's scheme and host and keeps its own user information, path, query and fragment |
| `Favicon.UserinfoKept` | pkg/favicon/favicon.go:143-151 | "//u@cdn/x" is fetched as `<scheme>://u@<page host>/x`: the user information survives the resolution and the host does not |
| `Favicon.UserinfoResolved` | pkg/favicon/favicon.go:148-151 | the parsed form of "//u@cdn/x", resolved against the page, prints as `<scheme>://u@<page host>/x` |
| `Favicon.QueryOnlyReference` | pkg/favicon/favicon.go:148-151 | a query-only reference "?q" is fetched from `<scheme>://<host>?q`, with no slash before the query |
| `Favicon.TagIconsFromTags` | pkg/favicon/favicon.go:132-168 | every tag icon comes from one of the fetched tags, and every tag that yields an icon contributes it |
| `Favicon.TagMetaIcons` | pkg/favicon/favicon.go:91-169 | it fails iff the document cannot be parsed; otherwise the icons are those of the icon tags, in tag order |
| `Favicon.MatchesAtRuns` | pkg/favicon/favicon.go:181 | in a WxH match the width is the whole run of digits where the match starts, and the height is at most the run of digits after the 'x' |
| `Favicon.SizeMatchAt` | pkg/favicon/favicon.go:181 | there is a match at a position exactly when two to four digits, 'x' or 'X', and two to four digits start there; the match has the whole width run and the longest height, and its groups are those slices of the input |
| `Favicon.SizeMatchAtExactly` | pkg/favicon/favicon.go:181 | a WxH run whose height cannot grow is the match reported there |
| `Favicon.FindSizeFrom` | pkg/favicon/favicon.go:181-182 | the answer is the match at the leftmost position that has one; there is none exactly when no position matches |
| `Favicon.SplitAtFirst` | pkg/favicon/favicon.go:178-179 | splitting a size token with a limit of 2 gives the token itself when it holds no separator; otherwise the part before its first separator and the rest, which join back to the token around that separator |
| `Favicon.GroupValue` | pkg/favicon/favicon.go:190-202 | a group of two to four digits reads as its decimal value, at most 9999 |
| `Favicon.Dimensions` | pkg/favicon/favicon.go:171-206 | every dimension fits in an int64; one read from a file name (no `sizes`, or "any") is at most 9999 |
| `Favicon.DimensionsFromSizes` | pkg/favicon/favicon.go:174-202 | with a `sizes` other than "any", the dimensions are the numbers in the two parts of its greatest token, split at the first `x` or U+00D7 |
| `Favicon.DimensionsFromSizesWithoutSeparator` | pkg/favicon/favicon.go:174-202 | a greatest `sizes` token without a separator gives its number as the width and 0 as the height |
| `Favicon.DimensionsFromFilename` | pkg/favicon/favicon.go:180-202 | without a usable `sizes`, the dimensions are the values of the two groups of the leftmost WxH match in the URL, and 0x0 when there is none |
| `Favicon.DimensionValue192` | pkg/favicon/favicon.go:190-193 | the repair reads both "192" and "192+" as 192 |
| `Favicon.SplitAtFirst192` | pkg/favicon/favicon.go:178-179 | "192x192+" splits into "192" and "192+" |
| `Favicon.SizesWithTrailingJunk` | pkg/favicon/favicon.go:171-206 | a tag with `sizes="192x192+"` has dimensions 192x192 under the intended `dimensions` |
| `Favicon.SizesPatternEncoding` | pkg/favicon/favicon.go:178 | the pattern's bytes `[x\xd7]` are not valid UTF-8; the multiplication sign written as UTF-8 is |
| `Favicon.Unpacked` | pkg/favicon/favicon.go:279-283 | after unpack the i-th target holds the i-th string where there is one, and keeps its value otherwise; `DimensionsAsWritten` reads its targets through it |
| `Favicon.DimensionsAsWritten` | pkg/favicon/favicon.go:171-206 | as written, dimensions panics exactly when `sizes` is present and not "any" or the file name matches the WxH pattern; otherwise it answers 0x0 |
| `Favicon.SizesAttributePanicsExample` | pkg/favicon/favicon.go:175-179 | as written, a tag with `sizes="192x192+"` reaches the `MustCompile` panic |
| `Favicon.ThirtyTwoMatch` | pkg/favicon/favicon.go:181-182 | the leftmost match in "32x32.png" has the groups "32" and "32" |
| `Favicon.ThirtyTwoValue` | pkg/favicon/favicon.go:180-202 | a leftmost match with groups "32" and "32", on a tag without `sizes`, gives 32x32 |
| `Favicon.FilenameSizePanicsExample` | pkg/favicon/favicon.go:181-184 | "32x32.png" on a tag without `sizes` panics as written, and reads as 32x32 under the intended `dimensions` |
| `Favicon.Unpack` | pkg/favicon/favicon.go:279-283 | unpack stays in range exactly when there are no more strings than targets, and leaves the targets as `Unpacked` says |
| `Favicon.Largest` | pkg/favicon/favicon.go:74-78 | the position it returns holds an icon whose size no other icon exceeds: the head of the list after the sort by decreasing size |
| `Favicon.CollectCandidates` | pkg/favicon/favicon.go:59-67 | the icons collected are exactly the candidates: the default icon when it downloads, then the tag icons when the document parses |
| `Favicon.GetBest` | pkg/favicon/favicon.go:37-81 | it answers an icon iff the URL parses, the page answers below 400 and some candidate downloads; that icon is one of the candidates, none is larger, and it carries the page title |
| `KubeClient.HostIpStripsScheme` | pkg/client/client.go:75 | the intended host computation removes an "https://" or "http://" prefix and keeps the host name whole |
| `KubeClient.HostIpAsWrittenDamagesHost` | pkg/client/client.go:75 | as written, a host name starting with h, t, p or s loses its first letters |
| `KubeClient.HostIpShopExample` | pkg/client/client.go:75 | as written, the API server https://shop is dialled as "op" |
| `KubeClient.StopSignal.Close` | pkg/client/client.go:175 | closing a stop channel marks it closed; closing it again is excluded, because Go panics |
| `KubeClient.Website.Empty` | pkg/client/client.go:204 | the placeholder for a failed pair is not forwarded, has no stop channel and has empty details |
| `KubeClient.Website.Forwarded` | pkg/client/client.go:135-148 | a forwarded website records its pod, stop channel, local and pod ports and icon, with empty details |
| `KubeClient.Derive` | pkg/client/client.go:323-336 | a titled website is unchanged; an untitled one takes the page title, else the pod name, and the pod's name and namespace; it stays untitled only when both are empty |
| `KubeClient.DeriveIdempotent` | pkg/client/client.go:323-336 | deriving details twice gives the same as deriving once |
| `KubeClient.LocalUrlParts` | pkg/client/client.go:143 | http://localhost:<port> has no fragment and no control character, the scheme "http", then "//" and an authority with no '/' and no query, made of "localhost", ':' and a decimal port |
| `KubeClient.LocalUrlCharacters` | pkg/client/client.go:143 | no character of http://localhost:<port> is '#', '?' or a control character, none after "http://" is '/', and the port is decimal |
| `KubeClient.LocalUrlParses` | pkg/client/client.go:143 | `http://localhost:<port>` always parses, so GetBest never fails on the URL of a tunnel |
| `KubeClient.SucceedsIffBest` | pkg/client/client.go:102-150 | a forward yields a website exactly when the tunnel is ready and GetBest finds an icon for its local address |
| `KubeClient.SuccessesExactly` | pkg/client/client.go:307-315 | the kept positions are exactly the successful attempts, each once and in increasing order |
| `KubeClient.SuccessFlags` | pkg/client/client.go:307-315 | one flag per attempt, set exactly when the attempt yields a website |
| `KubeClient.Positions` | pkg/client/client.go:307-315 | every listed position is a position of the flags |
| `KubeClient.PositionsExactly` | pkg/client/client.go:307-315 | exactly the set flags are listed, each once and in increasing order |
| `KubeClient.ForwardedOnlyPositions` | pkg/client/client.go:308-313 | when the flags say which queued websites are forwarded, the reader keeps the website at the m-th set flag as its m-th |
| `KubeClient.ForwardedOnlyAt` | pkg/client/client.go:308-313 | the reader keeps the website of the m-th successful attempt as its m-th website |
| `KubeClient.ApartAppend` | pkg/client/client.go:360 | appending websites that share no object and no stop channel with the registry keeps every entry and stop channel distinct |
| `KubeClient.Fate` | pkg/client/client.go:178-186 | the intended removal never forgets a website without closing it |
| `KubeClient.FateAsWrittenLeaks` | pkg/client/client.go:178-186 | as written, removing "All Namespaces" drops a website of a still-active namespace without closing it; the intended decision keeps it |
| `KubeClient.FateAgreesOtherwise` | pkg/client/client.go:172-189 | in every other case the code and the intended decision agree |
| `KubeClient.Kept` | pkg/client/client.go:172-189 | the websites kept are exactly those of the registry whose decision is Keep |
| `KubeClient.KeptValid` | pkg/client/client.go:188 | keeping a subsequence keeps websites and stop channels distinct |
| `KubeClient.Without` | pkg/client/client.go:190-194 | the remaining active namespaces are exactly the old ones other than the removed one |
| `KubeClient.InNamespace` | pkg/client/client.go:364-368 | the registry answer for a served namespace holds exactly its registered websites |
| `KubeClient.CloseAllAsWritten` | pkg/client/client.go:476-481 | closing every stop channel succeeds iff none is closed yet, and leaves all closed |
| `KubeClient.SecondCloseAllPanics` | pkg/client/client.go:466-481 | as written, a second close-all over the same non-empty registry panics |
| `KubeClient.ListScope` | pkg/client/client.go:255-258 | the listings are cluster-wide exactly for "All Namespaces" (or "") |
| `KubeClient.Client.Contains` | pkg/client/client.go:221-228 | the inner scans answer whether the value is in the list |
| `KubeClient.Client.SelectorMatches` | pkg/client/client.go:212-218 | counting matching labels against the selector's size is exactly "every selector pair matches" |
| `Discovery.EmptySelectorSelectsAll` | pkg/client/client.go:211-218 | a service with an empty selector selects every pod (zero matches equal a selector of size zero), and a missing label reads as "" |
| `KubeClient.Client.HandleServicesInPod` | pkg/client/client.go:210-236 | the launches are the service pairs of the pod, and the handled ports are their ports in launch order |
| `KubeClient.Client.HandleContainerPortsInPod` | pkg/client/client.go:238-251 | the launches are the container pairs of the pod whose ports are not handled |
| `KubeClient.Client.HandleContainerPorts` | pkg/client/client.go:240-249 | one container's launches are its ports that are not handled, in order |
| `KubeClient.Client.ClaimReplicaOwners` | pkg/client/client.go:292-301 | the owner loop claims replica owners in turn and skips the pod at the first owner already claimed |
| `KubeClient.Client.OutOfScope` | pkg/client/client.go:276-282 | under "All Namespaces", a pod is skipped iff its namespace is active on its own |
| `KubeClient.Client.LaunchForwards` | pkg/client/client.go:273-306 | the pod loop launches exactly the discovered pairs, in order |
| `KubeClient.Client.LaunchForPod` | pkg/client/client.go:274-305 | one turn of the pod loop launches the pairs of the pod if it is a representative, and claims its owners |
| `KubeClient.Client.GetWebsiteForPort` | pkg/client/client.go:102-150 | a website is built iff the attempt succeeds; a fresh stop channel is made exactly when a free port is found, and a failed attempt closes it; a built website is fresh and holds that channel open, with the pod, both ports and the best icon |
| `KubeClient.Client.HandleWebsiteAdding` | pkg/client/client.go:199-208 | it queues the built website, or an empty one without a stop channel when the forward failed; the stop channel the attempt made, if any, is closed exactly when the forward failed |
| `KubeClient.Client.RunLaunched` | pkg/client/client.go:229-231 | one queued website per launch: forwarded iff its attempt succeeded, distinct, with distinct open stop channels; every stop channel made for a failed attempt is closed |
| `KubeClient.Client.ReadQueue` | pkg/client/client.go:307-315 | the reader keeps the forwarded websites in queue order |
| `KubeClient.Client.CollectForwarded` | pkg/client/client.go:307-320 | the collected websites are one per successful attempt, in launch order, each built for its pair, distinct, with open stop channels |
| `KubeClient.Client.ForwardAndGetIcons` | pkg/client/client.go:253-321 | it fails iff a listing fails; otherwise it answers the websites forwarded for the discovered pairs |
| `KubeClient.Client.AddDerivedDetailsToWebsites` | pkg/client/client.go:323-336 | every registered website's details become `Derive` of its old details, pod and icon |
| `KubeClient.Website.AddDerivedDetails` | pkg/client/client.go:325-334 | an untitled website's details become `Derive` of its old details, its pod and its icon; a titled one is unchanged |
| `KubeClient.Client.AlreadyServed` | pkg/client/client.go:342-350 | a namespace is already served iff it is not "All Namespaces" and it or "All Namespaces" is active |
| `KubeClient.Client.RegisteredIn` | pkg/client/client.go:362-369 | the registry lookup answers the registered websites of the namespace, in order |
| `KubeClient.Client.GetWebsitesInNamespace` | pkg/client/client.go:341-374 | a served namespace is answered from the registry; a failed listing answers nothing and changes nothing; otherwise the forwarded websites are appended and every website gets derived details; the namespace is appended to the active list except on failure |
| `KubeClient.Client.ForwardNamespace` | pkg/client/client.go:354-361 | the forwarded websites of a namespace are appended to the registry and all entries get derived details |
| `KubeClient.Client.Register` | pkg/client/client.go:360 | appending open, distinct websites keeps the registry valid and live |
| `KubeClient.Client.RemoveWebsitesInNamespace` | pkg/client/client.go:169-197 | each old stop channel is closed iff its website's decision is Stop; the registry keeps exactly the others; the namespace leaves the active list; the remaining tunnels stay open |
| `KubeClient.Client.StopRemoved` | pkg/client/client.go:172-189 | the website loop closes exactly the websites whose decision is Stop and keeps the others in order |
| `KubeClient.Client.WithoutNamespace` | pkg/client/client.go:190-194 | the namespace loop keeps every active namespace except the removed one |
| `KubeClient.Client.CloseAllPortForwards` | pkg/client/client.go:476-481 | every registered stop channel is closed |
| `KubeClient.Client.WailsShutdown` | pkg/client/client.go:520-522 | on shutdown every registered stop channel is closed |
| `KubeClient.Client.SetConfigPath` | pkg/client/client.go:428-474 | a new path that loads takes one of its contexts (or "" when it has none); the same path takes the given context and does nothing if it is current; when a client can be built, every tunnel is closed, the registry is emptied and the client switches over; otherwise nothing changes; the answer is the resulting path and context |
| `KubeClient.Client.GetAvailableContexts` | pkg/client/client.go:411-419 | the answer lists every context of the loaded configuration exactly once |
| `Discovery.PodStep` | pkg/client/client.go:274-301 | a pod loop turn keeps no pod or the pod itself |
| `Discovery.ClaimOwnersGrows` | pkg/client/client.go:292-301 | claimed names stay claimed; when the pod is not skipped, each of its replica owners was unclaimed and is now claimed |
| `Discovery.RepresentativesAreEligible` | pkg/client/client.go:274-290 | every representative is a running, not deleting pod of the listing that is in scope |
| `Discovery.RepresentativesAvoidClaimed` | pkg/client/client.go:292-301 | no representative has a replica owner that was already claimed |
| `Discovery.OnePodPerController` | pkg/client/client.go:291-301 | no two representatives share a StatefulSet, ReplicaSet or DaemonSet owner |
| `Discovery.UnownedPodsKept` | pkg/client/client.go:274-301 | every running, in-scope pod without a replica owner is a representative |
| `Discovery.ClaimOwnersNoSkip` | pkg/client/client.go:292-301 | the owner loop does not skip a pod whose replica owner names are distinct and not yet claimed |
| `Discovery.FirstOfControllerKept` | pkg/client/client.go:274-301 | a running, in-scope pod none of whose replica owners was claimed before its turn (and that names no controller twice) is a representative |
| `Discovery.ThreeReplicasOneRepresentative` | pkg/client/client.go:291-301 | three running replicas of one ReplicaSet give one representative, the first |
| `Discovery.PortPairsSpec` | pkg/client/client.go:219-232 | a service's port loop keeps the earlier launches, adds only unhandled ports, and handles every target port |
| `Discovery.ServicePairsFromSpec` | pkg/client/client.go:210-236 | over the services, the emitted ports stay distinct, every target port of every selecting service is handled, and each new pair names a selecting service that declares its port |
| `Discovery.ServicePairsSpec` | pkg/client/client.go:210-236 | a pod's service pairs have distinct ports, cover every target port of every selecting service, and each comes from such a service |
| `Discovery.ContainerPortPairsSpec` | pkg/client/client.go:241-249 | one container emits exactly its unhandled ports, in order, attributed to it |
| `Discovery.ContainerPairsSpec` | pkg/client/client.go:238-251 | the container ports emitted are exactly those not handled by a service, duplicates included, each from a container that declares it |
| `Discovery.ContainerDuplicatesKept` | pkg/client/client.go:239-249 | a container that lists a port twice has it forwarded twice |
| `Discovery.ServicePortWins` | pkg/client/client.go:303-305 | a port declared by a selecting service is emitted exactly once for the pod, from the service |
| `Discovery.WebScenario` | pkg/client/client.go:210-251 | a pod labelled app=web with a service on 8080 and a container on 9090 emits 8080 from the service, then 9090 from the container |
| `Discovery.DiscoveredPairs` | pkg/client/client.go:273-306 | a pair is discovered iff it is a pod pair of some representative |
| `Discovery.DiscoverEligible` | pkg/client/client.go:273-306 | every discovered pair is for a running, in-scope pod of the listing |

## Left out

- Concurrency: each launched goroutine is run to completion in launch order. The websites of a namespace therefore come out in launch order. In Go they come in whatever order the goroutines finish; nothing in the code depends on that order.
- RunLaunched: the order of the queued websites is launch order, a choice the code does not promise.
- Network, clocks and timeouts: the free-port allocator, the 10-second readiness timeout, the 3-second HTTP timeouts and every HTTP answer are inputs (`Attempt`, `Page`, `Web`). `portForwardAPod` is not modelled beyond its host computation, and a tunnel that fails after it is ready is not modelled.
- Kubernetes listings and client construction are inputs (`Cluster`, `KubeConfig`). clientcmd's loading and fallback rules are reduced to a per-context outcome; a context the file does not define has no rest config.
- Loading files and writing icons to disk are inputs. `responseToFile`'s temporary file and byte count are inputs, and so is its `log.Fatal` on disk errors. `mime.ExtensionsByType` fails only when the Content-Type does not parse as a media type (an empty one included); it becomes the flag `mediaTypeParses`.
- getTitle: the page title is an input of `Page`. In the code it parses the body again after `tagMetaIcons` has read it; reading a body twice is not modelled.
- Lower: lowers 'A' to 'Z', U+0130 (to 'i') and U+212A (to 'k'), the characters Go lowers to ASCII; every other character is kept. Go lowers other non-ASCII letters to non-ASCII letters, and the code compares lowered strings only against ASCII ones, so the comparisons come out the same.
- Urls.Parse: it refuses what `url.Parse` refuses on the way (a control character before the fragment, a bad percent escape in the fragment or the path, a leading ':', a colon in the first segment of a scheme-less relative path, user information with a character Go refuses, a non-numeric port, a host character Go refuses) and keeps the opaque part and the user information as `url.URL` does, but it does not unescape: the parts are kept verbatim, and `ToString` writes the user information, the host, the path and the fragment back without Go's escaping, so a part Go would escape differently prints differently. The content of a bracketed host is not checked as an IP address, and its zone identifier follows the host-character rules. The user name and the password stay one string, and the port stays part of the host. There is no `OmitHost` and no `RawPath`.
- Favicon.GetIconFromUrl: the printed URL is not parsed again by net/http; the model refuses a URL without a host, and leaves every other client-side refusal (an unsupported scheme, say) to the `Web` map having no answer for it.
- GetBest: when several candidates share the largest size, the model promises only that the answer is one of them. `sort.Slice` is not a stable sort, so the code fixes no particular one, and its test (pkg/favicon/favicon_test.go:180-188) checks only that the favicon.ico fallback is not chosen.
- Integer widths: ports, sizes and dimensions are unbounded. The code narrows the local port to int32 and icon sizes are int64; neither narrowing is modelled. `AtoiOrZero` does model the int64 range of `strconv.Atoi`.
- Service target ports: only the integer value (`TargetPort.IntVal`) is modelled, as the code reads it. A named target port reads as 0 in the code; the model takes it as given.
- GetWebsitesInNamespace: the JSON answer is the list of websites. The empty-string error answer is `None`, and `json.Marshal` is not modelled.
- Go map iteration order is a nondeterministic choice. This covers the first context `SetConfigPath` picks and the order of `GetAvailableContexts`.
- SetConfigPath: the active namespaces are kept across a context switch, as in the code.
- ListNamespaces, WailsInit, getDefaultClientSetAndConfig, homeDir, GetCurrentConfigPath and GetCurrentContext are left out. They are thin wrappers over client-go, the environment and field reads.
- Logging is left out.
- TagIcon: uses the intended `Dimensions`. As written, `dimensions` panics for every tag whose `sizes` is present and not "any" (pkg/favicon/favicon.go:178) and for every URL that matches the WxH pattern (pkg/favicon/favicon.go:183); `DimensionsAsWritten` models that as `None`.
- TagMetaIcons: collects the icons of `TagIcon`, so it too uses the intended `Dimensions` where the code would panic.
- GetBest: chooses among the icons of `TagMetaIcons`, so it too uses the intended `Dimensions` where the code would panic.
- Client.GetWebsiteForPort: calls `GetBest`, so a forward whose page has a sized icon tag yields a website here where the code would panic.

## Findings

| source | as written | input that shows it | evidently intended | confidence | as-written member | corrected member |
|---|---|---|---|---|---|---|
| pkg/favicon/favicon.go:181-184 | `unpack(matches, &width, &height)` receives the whole match and both groups, three strings for two targets | a `<link rel="icon" href="32x32.png">` without `sizes` | assign the two groups, giving 32x32 | high (not executed) | `Favicon.FilenameSizePanicsExample` | `Favicon.DimensionsFromFilename` |
| pkg/favicon/favicon.go:178 | the pattern `"[x\xd7]"` holds the raw byte 0xD7, which is not valid UTF-8, so `regexp.MustCompile` panics | any tag with `sizes="192x192"` | split at `x` or the multiplication sign U+00D7 | high (not executed) | `Favicon.SizesAttributePanicsExample` | `Favicon.DimensionsFromSizes` |
| pkg/client/client.go:179-183 | when "All Namespaces" is removed, a website of a namespace that is still active on its own is neither closed nor kept | websites of "a" while "a" and "All Namespaces" are active, then removing "All Namespaces" | keep that website, open (the comment says not to close it) | high (not executed) | `KubeClient.FateAsWrittenLeaks` | `KubeClient.Client.RemoveWebsitesInNamespace` |
| pkg/client/client.go:466-474 | after a context switch the closed websites stay registered, so the next switch or the shutdown closes their channels again and panics | forward one website, switch context twice | empty the registry once its tunnels are closed | high (not executed) | `KubeClient.SecondCloseAllPanics` | `KubeClient.Client.SetConfigPath` |
| pkg/client/client.go:75 | `strings.TrimLeft(host, "htps:/")` removes a set of characters, not a prefix, so the host loses its leading h, t, p and s letters | API server `https://shop` | remove the scheme prefix only | high (not executed) | `KubeClient.HostIpShopExample` | `KubeClient.HostIpStripsScheme` |

The members the rest of the model uses are the corrected ones; the code as written is modelled beside them:

- Removing "All Namespaces": `RemoveWebsitesInNamespace`, `StopRemoved` and `Kept` keep, open, the websites of namespaces still active on their own. The comment at pkg/client/client.go:181 says not to close them, and the front end keeps showing them (frontend/src/App.js:117-125). The code drops them without closing them (third finding, `FateAsWrittenLeaks`).
- Context switch: `SetConfigPath` empties the registry once it has closed every tunnel. The code keeps the closed websites registered (fourth finding, `SecondCloseAllPanics`).
- Icon dimensions: `Dimensions` is the intended reading, used by `TagIcon`, `TagMetaIcons`, `GetBest` and `GetWebsiteForPort`. The code panics instead (first and second findings, `DimensionsAsWritten`).
- API host: `HostIp` is the intended host computation (`HostIpStripsScheme`); `HostIpAsWritten` is the code's (fifth finding).
- Empty selectors: a service without a selector selects every pod, because the code compares the match count 0 with the selector's size 0 (`EmptySelectorSelectsAll`). A rule that selects nothing would be safer; the model keeps the code's behaviour.
- Ties between icons of the largest size: the code's sort is not stable, so the model promises only some candidate of that size.
- Order of a namespace's websites: the model uses launch order, which is one of the orders the code allows.
