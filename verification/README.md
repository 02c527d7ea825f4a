# gfmpreview: index and lookup, modelled in Dafny

gfmpreview is a local preview server for Markdown files. At startup it walks the
current working directory and records every path whose base name ends in `.md`.
It then serves two kinds of page. `/` lists the recorded files, each linked to `/`
plus its path relative to the working directory. Any other URL path is looked up
by suffix: the first recorded path that ends with the whole URL path is read and
rendered. When no recorded path matches, the answer is 404 with the text
`Not Found`.

This project models that index-and-lookup path of `main.go`:

- `wrappers.dfy` (`Wrappers`): `Option` and `Result`, standing for Go's `(value, error)` returns.
- `strings.dfy` (`Strings`): `strings.HasPrefix` and `strings.HasSuffix`.
- `search.dfy` (`Search`): the first-match linear search that both loops of the index share.
- `filepath.dfy` (`FilePath`): the paths a walk of a directory visits, and `filepath.Rel` as prefix stripping.
- `walk.dfy` (`Walk`): the walk, given as the sequence of callback calls it makes, and the `.md` filter over it.
- `index.dfy` (`Index`): the `paths` struct as class `Paths`. It has the walk callback (`Visit`), the walk that drives it (`Scan`), `getRealPath` and `getRelativePaths` as methods, and the functions and lemmas that specify them.
- `routing.dfy` (`Routing`): the routing decision (asset server, listing, 404 or render) and the round trip from a listing link back to an indexed file.

The URL path is matched as it comes, with its leading `/`; it is not stripped
first. A request for `/README.md` therefore matches `/docs/README.md` but not
`/docs/OTHER_README.md`. Because the first match wins, a listing link can lead
to an earlier file with the same suffix (`Routing.ShadowedListingLink`). Requests in
the "/assets/" subtree go to the style-sheet server, so a Markdown file under
`./assets/` is listed but its link is never rendered (`Routing.AssetsListingLink`). The
link text is not escaped for `#`, `?` or `%XX` sequences either, so a file such as
`a#b.md` is listed but its link requests a different URL path ("/a").

## Model

| member | source | states |
|---|---|---|
| Search.FirstIndex | main.go:28-34 | the result is the smallest index whose element satisfies the test, or the length when none does; every earlier element fails the test |
| FilePath.Rel | main.go:41-44 | conversion succeeds exactly for the directory itself and paths below it; the result is never empty; it is "." for the directory itself, and otherwise the directory prefix followed by the result rebuilds the path; any other path gives the error naming both paths |
| FilePath.RelOfChild | main.go:41 | converting a path built from the directory prefix and a non-empty name gives back that name |
| Walk.Kept | main.go:126 | the callback's test: a kept event is a visited entry whose base name is at least as long as ".md"; `Walk.MarkdownPathsMembers` and `Walk.KindIgnored` state that the base name alone decides |
| Walk.MarkdownPaths | main.go:121-131 | the paths the callback appends, never more than the walk's events; `Walk.MarkdownPathsMembers` states which paths (both directions) and `Walk.MarkdownPathsAppend` that walk order is kept |
| Walk.FirstFailure | main.go:122-124 | the index of the first error the walk reports (or its length); every call before it visited an entry |
| Walk.MarkdownPathsAppend | main.go:121-131 | the filter applied to a walk split in two is the filter of the first part followed by the filter of the second, so walk order is kept |
| Walk.MarkdownPathsMembers | main.go:126-128 | a path is kept exactly when some visited entry whose base name ends in ".md" has that path |
| Walk.KindIgnored | main.go:126 | turning a visited directory into a file, or back, keeps the same paths: a directory named `x.md` is indexed too |
| Walk.MarkdownPathsWithin | main.go:121-128 | every kept path of a walk rooted at a directory is that directory or lies below it |
| Walk.MarkdownPathsStep | main.go:126-128 | one more event of a rooted walk appends its own kept path, if any, at the end, and that path lies in the root |
| Index.RealPath | main.go:27-36 | a non-empty result is an indexed path ending with the request, at the smallest index with that suffix; when no indexed path ends with the request the result is "" (the converse is `Index.RealPathEmptyIff`) |
| Index.RelativePaths | main.go:38-48 | the result is Ok exactly when every path converts; then it has one entry per indexed path, in order, each the relative form of that path; otherwise it is the error of the first path that fails, with every earlier path converting |
| Index.RealPathEmptyIff | main.go:27-36 | when no indexed path is "", the lookup returns "" exactly when no indexed path ends with the request |
| Index.RealPathFirstMatch | main.go:28-34 | a non-empty lookup result sits at an index whose path ends with the request, and no earlier path does |
| Index.IndexedWithinNonEmpty | main.go:115-128 | an index built under a non-empty working directory holds no empty path, so "" is unambiguous as the not-found answer |
| Index.RelativePathsSucceed | main.go:39-46 | for an index whose paths all lie in the working directory, the relative conversion of the listing never fails |
| Index.RelativePathsOfConverted | main.go:39-47 | when each indexed path converts to the matching entry of a list, the relative paths are that list |
| Index.Paths.constructor | main.go:120 | the index starts with the given working directory and no paths |
| Index.Paths.Visit | main.go:121-131 | the callback returns an error event's error, and otherwise appends the path exactly when the base name ends in ".md"; for an entry within the working directory the index stays within it |
| Index.Paths.Scan | main.go:121-134 | after the walk, the index is the old index followed by the kept paths of every event before the first error, in walk order; that error, if any, is returned; the index stays within the working directory |
| Index.Paths.GetRealPath | main.go:27-36 | the loop returns the specified lookup result; a non-empty result is an indexed path that ends with the request; when no indexed path ends with it the result is "" |
| Index.Paths.GetRelativePaths | main.go:38-48 | the loop that fills a slice of the index's length returns the specified relative paths, or the first conversion error; for an index built by a walk of the working directory it always succeeds; the index is not changed |
| Routing.IsAssetPath | main.go:138-139 | the router's choice of the "/assets/" pattern over "/": an asset path is never the listing path "/" and always starts with "/assets" |
| Routing.Route | main.go:138-159 | URL paths in the "/assets/" subtree (and "/assets") go to the asset server and only they do; otherwise "/" and only "/" gives the listing; a rendered path is non-empty, indexed, ends with the URL path, and no earlier indexed path does; any other non-empty path gives Render when some indexed path ends with it and NotFound when none does |
| Routing.Handle | main.go:138-150 | the router and handler, using the index's lookup method, take the decision that Route specifies |
| Routing.LinkTarget | main.go:57 | a listing link is "/" followed by exactly the relative path |
| Routing.ChildEndsWithLink | main.go:57 | a path below a directory ends with the link built from its relative part |
| Routing.RouteFindsMatch | main.go:145-149 | when the path at index i ends with a request outside the root and the asset subtree, the handler renders the path at index i or at an earlier one |
| Routing.RouteNotFoundIff | main.go:138-148 | over an index of non-empty paths, the answer is NotFound exactly when the URL path is neither "/" nor an asset path and no indexed path ends with it |
| Routing.IndexedChildNeverNotFound | main.go:145-149 | if `dir/rel` is indexed and "/rel" is not an asset path, the request "/rel" is never answered with 404 |
| Routing.ListingLinkResolves | main.go:57 | the request for "/" plus the relative path (the listing link, for names without `#`, `?` or `%XX`) of every entry other than the working directory itself, outside the asset subtree, renders a path that ends with the link, at the entry's index or earlier |
| Routing.ListingLinkExact | main.go:28-34 | for the request "/" plus an entry's relative path: when it is outside the asset subtree and no earlier indexed path ends with it, the link renders exactly that entry |
| Routing.ShadowedListingLink | main.go:28-34 | with `dir/sub/name` indexed before `dir/name`, both convert to their relative paths and the listing link "/name" of the second renders the first |
| Routing.ShadowedRelativePaths | main.go:39-47 | `dir/sub/name` and `dir/name` are listed as `sub/name` and `name` |
| Routing.ShadowedRoute | main.go:28-34 | with `dir/sub/name` indexed before `dir/name`, the request "/name" renders `dir/sub/name` |
| Routing.RootEntryLinkNotFound | main.go:41-45 | over an index of paths that all end in ".md", the entry for the working directory itself is listed as "." and the lookup of its link "/." finds nothing |
| Routing.AssetLink | main.go:138 | the link of a relative path under "assets/" lies in the asset subtree |
| Routing.AssetsListingLink | main.go:138-139 | every listed entry under "assets/" links to the asset server, so the handler never renders it |

## Left out

- HTTP serving, the contents of the `/assets/` file server and response writing (main.go:138, 147, 169): network I/O and an external library. The model stops at the decision Assets, Listing, NotFound or Render. Request routing is modelled only as far as choosing between the "/assets/" subtree and the "/" handler.
- The listing and page templates (main.go:50-106): HTML escaping by `html/template` is an external library. Only the link target "/" plus the relative path (main.go:57) is modelled. How `html/template` normalises that link and how the browser turns it into a request path are not modelled (the lines for `Routing.ListingLinkResolves` and `Routing.ListingLinkExact` below say what this costs), nor is the cleaning of request paths such as "/." by Go's request multiplexer.
- GitHub-flavored Markdown rendering (main.go:157) and reading the file (main.go:151): external library and file I/O. A read error becomes a 500 answer in the source; the model ends at Render(path).
- The file-system side of `filepath.Walk` and `os.Getwd` (main.go:115, 121): I/O. The walk is an input, the sequence of callback calls in walk order.
- The listen flag, the browser launch and `log.Fatal`/`os.Exit` paths (main.go:109-113, 117, 133, 161-172): process plumbing. `Scan` returns the walk error that `log.Fatal` would report.
- Concurrency of request handling: the index is only read after startup.
- Routing.ListingLinkResolves: the link is modelled as the URL path "/" plus the relative path. In the program, `html/template` only normalises the href and leaves `#`, `?` and valid `%XX` escapes as they are, so the browser requests a different path for names containing them ("/a" for `a#b.md`, "/aA.md" for `a%41.md`). The round-trip lemmas describe the program only for relative paths without those characters.
- Routing.ListingLinkExact: same restriction as `Routing.ListingLinkResolves`; it holds for the request "/" plus the relative path, which is what the browser sends only when the name has no `#`, `?` or `%XX`.
- Strings are sequences of characters, while Go strings are bytes. For valid UTF-8 a byte suffix and a character suffix are the same, so only paths that are not valid UTF-8 fall outside the model.
- FilePath.Rel: models `filepath.Rel` only for clean absolute paths. It returns an error for a target outside the base, where Go would produce a "../" path. `RelativePathsSucceed` shows that this case never arises for an index built by a walk of the working directory. An unclean target such as "/a/." is converted by stripping its prefix, without Go's path cleaning.
