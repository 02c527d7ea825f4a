/**
 * Request routing of main.go (lines 138-159): paths in the "/assets/" subtree
 * go to the style-sheet server; the "/" handler gives the listing page for the
 * root path, otherwise a suffix lookup in the index that either fails with 404
 * or names the file to render. What happens after the decision (reading the
 * file, Markdown conversion, templates, writing the response) is not modelled.
 */
module Routing {
  import opened Wrappers
  import opened Strings
  import opened Search
  import opened FilePath
  import opened Walk
  import opened Index

  /** What the server does with a request. */
  datatype Outcome =
    | Assets               // handed to the style-sheet file server registered for "/assets/" (main.go:138)
    | Listing              // render the list of indexed files (main.go:140-143)
    | NotFound             // answer 404 with the text "Not Found" (main.go:146-148)
    | Render(path: string) // read and render this indexed file (main.go:151-158)

  /** The URL path of the listing page. */
  const RootPath: string := "/"

  /** The subtree registered for the style assets (main.go:138), and its root without the trailing slash. */
  const AssetsRoot: string := "/assets"
  const AssetsPrefix: string := AssetsRoot + "/"

  /**
   * The request router sends a path to the asset server when it lies in the
   * "/assets/" subtree, the longer of the two registered patterns; "/assets"
   * itself is redirected into that subtree.
   */
  predicate IsAssetPath(urlPath: string): (b: bool)
    ensures b ==> urlPath != RootPath && HasPrefix(urlPath, AssetsRoot)
  {
    if HasPrefix(urlPath, AssetsPrefix) then
      assert urlPath[..|AssetsRoot|] == urlPath[..|AssetsPrefix|][..|AssetsRoot|];
      true
    else
      urlPath == AssetsRoot
  }

  /** The decision of the server for the URL path `urlPath` over the index `paths`: routing (main.go:138-139), then the "/" handler (main.go:140-150). */
  function Route(urlPath: string, paths: seq<string>): (o: Outcome)
    ensures o == Assets <==> IsAssetPath(urlPath)
    ensures o == Listing <==> urlPath == RootPath
    ensures o.Render? ==> o.path != ""
    ensures o.Render? ==> exists k :: 0 <= k < |paths| && paths[k] == o.path && HasSuffix(o.path, urlPath)
                                      && forall j :: 0 <= j < k ==> !HasSuffix(paths[j], urlPath)
    ensures !IsAssetPath(urlPath) && urlPath != RootPath && (forall i :: 0 <= i < |paths| ==> !HasSuffix(paths[i], urlPath))
            ==> o == NotFound
    ensures urlPath != "" && !IsAssetPath(urlPath) && urlPath != RootPath
            && (exists i :: 0 <= i < |paths| && HasSuffix(paths[i], urlPath))
            ==> o.Render?
  {
    if IsAssetPath(urlPath) then Assets
    else if urlPath == RootPath then Listing
    else
      var path := RealPath(paths, urlPath);
      if path == "" then NotFound
      else
        RealPathFirstMatch(paths, urlPath);
        Render(path)
  }

  /** The router and the "/" handler, deciding through the index's `getRealPath` method (main.go:138-150). */
  method Handle(p: Paths, urlPath: string) returns (o: Outcome)
    ensures o == Route(urlPath, p.paths)
  {
    if IsAssetPath(urlPath) {
      return Assets;
    }
    if urlPath == RootPath {
      return Listing;
    }
    var path := p.GetRealPath(urlPath);
    if path == "" {
      return NotFound;
    }
    return Render(path);
  }

  /** The link the listing page gives an entry with relative path `rel` (main.go:57). */
  function LinkTarget(rel: string): (link: string)
    ensures |link| == |rel| + 1 && link[..1] == RootPath && link[1..] == rel
  {
    RootPath + rel
  }

  /** A path below `dir` ends with the link built from its part below `dir`. */
  lemma ChildEndsWithLink(dir: string, rel: string)
    ensures HasSuffix(DirPrefix(dir) + rel, LinkTarget(rel))
  {
    var prefix := DirPrefix(dir);
    var head := prefix[..|prefix| - 1];
    assert prefix == head + [Separator];
    assert prefix + rel == head + LinkTarget(rel);
    SuffixOfConcat(head, LinkTarget(rel));
  }

  /** When some indexed path ends with a request outside the root and the assets, the handler renders a path at that index or earlier. */
  lemma RouteFindsMatch(paths: seq<string>, urlPath: string, i: nat)
    requires urlPath != "" && urlPath != RootPath && !IsAssetPath(urlPath)
    requires i < |paths| && HasSuffix(paths[i], urlPath)
    ensures Route(urlPath, paths).Render?
    ensures exists k :: 0 <= k <= i && paths[k] == Route(urlPath, paths).path
  {
    var k := FirstIndex(paths, (el: string) => HasSuffix(el, urlPath));
    assert k <= i;
    assert paths[k] != "";
  }

  /** Over an index of non-empty paths, a request outside the root and the assets is refused exactly when no indexed path ends with it. */
  lemma RouteNotFoundIff(paths: seq<string>, urlPath: string)
    requires forall i :: 0 <= i < |paths| ==> paths[i] != ""
    ensures Route(urlPath, paths) == NotFound
            <==> !IsAssetPath(urlPath) && urlPath != RootPath
                 && forall i :: 0 <= i < |paths| ==> !HasSuffix(paths[i], urlPath)
  {
    if !IsAssetPath(urlPath) && urlPath != RootPath {
      RealPathEmptyIff(paths, urlPath);
    }
  }

  /** If `dir/rel` is indexed and "/rel" is not an asset path, requesting "/rel" is never answered with 404 (it may render an earlier path with the same suffix). */
  lemma IndexedChildNeverNotFound(dir: string, paths: seq<string>, rel: string)
    requires DirPrefix(dir) + rel in paths
    requires !IsAssetPath(LinkTarget(rel))
    ensures Route(LinkTarget(rel), paths) != NotFound
  {
    if rel != "" {
      var i :| 0 <= i < |paths| && paths[i] == DirPrefix(dir) + rel;
      ChildEndsWithLink(dir, rel);
      RouteFindsMatch(paths, LinkTarget(rel), i);
    }
  }

  /**
   * The listing's link for every entry other than `cwd` itself and outside the
   * assets subtree leads to a rendered page: of that entry's path, or of an
   * earlier one sharing the suffix.
   */
  lemma ListingLinkResolves(cwd: string, paths: seq<string>, i: nat)
    requires RelativePaths(cwd, paths).Ok?
    requires i < |paths| && paths[i] != cwd
    requires !IsAssetPath(LinkTarget(RelativePaths(cwd, paths).value[i]))
    ensures var link := LinkTarget(RelativePaths(cwd, paths).value[i]);
            var o := Route(link, paths);
            o.Render? && HasSuffix(o.path, link) && exists k :: 0 <= k <= i && paths[k] == o.path
  {
    var rel := RelativePaths(cwd, paths).value[i];
    assert Rel(cwd, paths[i]) == Ok(rel);
    assert paths[i] == DirPrefix(cwd) + rel;
    ChildEndsWithLink(cwd, rel);
    RouteFindsMatch(paths, LinkTarget(rel), i);
  }

  /** When no earlier indexed path shares the link's suffix, the listing's link renders exactly its own entry. */
  lemma ListingLinkExact(cwd: string, paths: seq<string>, i: nat)
    requires RelativePaths(cwd, paths).Ok?
    requires i < |paths| && paths[i] != cwd
    requires !IsAssetPath(LinkTarget(RelativePaths(cwd, paths).value[i]))
    requires forall j :: 0 <= j < i ==> !HasSuffix(paths[j], LinkTarget(RelativePaths(cwd, paths).value[i]))
    ensures Route(LinkTarget(RelativePaths(cwd, paths).value[i]), paths) == Render(paths[i])
  {
    ListingLinkResolves(cwd, paths, i);
  }

  /**
   * First match can shadow: with `dir/sub/name` indexed before `dir/name`, the
   * listing link "/name" of the second entry renders the first.
   */
  lemma ShadowedListingLink(dir: string, sub: string, name: string)
    requires sub != "" && name != ""
    requires !IsAssetPath(LinkTarget(name))
    ensures var paths := [DirPrefix(dir) + sub + "/" + name, DirPrefix(dir) + name];
            RelativePaths(dir, paths) == Ok([sub + "/" + name, name])
            && Route(LinkTarget(name), paths) == Render(paths[0])
  {
    ShadowedRelativePaths(dir, sub, name);
    ShadowedRoute(dir, sub, name);
  }

  /** The relative paths of the shadowing example. */
  lemma ShadowedRelativePaths(dir: string, sub: string, name: string)
    requires sub != "" && name != ""
    ensures var paths := [DirPrefix(dir) + sub + "/" + name, DirPrefix(dir) + name];
            RelativePaths(dir, paths) == Ok([sub + "/" + name, name])
  {
    var paths := [DirPrefix(dir) + sub + "/" + name, DirPrefix(dir) + name];
    assert paths[0] == DirPrefix(dir) + (sub + "/" + name);
    RelOfChild(dir, sub + "/" + name);
    RelOfChild(dir, name);
    RelativePathsOfConverted(dir, paths, [sub + "/" + name, name]);
  }

  /** The routing decision of the shadowing example. */
  lemma ShadowedRoute(dir: string, sub: string, name: string)
    requires name != "" && !IsAssetPath(LinkTarget(name))
    ensures var paths := [DirPrefix(dir) + sub + "/" + name, DirPrefix(dir) + name];
            Route(LinkTarget(name), paths) == Render(paths[0])
  {
    var paths := [DirPrefix(dir) + sub + "/" + name, DirPrefix(dir) + name];
    assert paths[0] == (DirPrefix(dir) + sub) + LinkTarget(name);
    SuffixOfConcat(DirPrefix(dir) + sub, LinkTarget(name));
    RouteFindsMatch(paths, LinkTarget(name), 0);
  }

  /**
   * When the working directory itself has a Markdown name, a walk indexes it
   * (its base name passes the test) and the listing shows it as "."; over an
   * index of paths that all end in ".md", the lookup of its link "/." finds
   * nothing. Browsers and Go's request router clean "/." to "/", so in the
   * running server that link shows the listing again; that cleaning is not
   * part of this model.
   */
  lemma RootEntryLinkNotFound(cwd: string, paths: seq<string>, i: nat)
    requires i < |paths| && paths[i] == cwd
    requires forall j :: 0 <= j < |paths| ==> HasSuffix(paths[j], MarkdownExt)
    requires RelativePaths(cwd, paths).Ok?
    ensures RelativePaths(cwd, paths).value[i] == "."
    ensures Route(LinkTarget("."), paths) == NotFound
  {
    var link := LinkTarget(".");
    assert link[1] == '.' && !IsAssetPath(link);
    forall j | 0 <= j < |paths| ensures !HasSuffix(paths[j], link) {
      assert paths[j][|paths[j]| - 1] == MarkdownExt[2];
    }
  }

  /** Every listed entry under "assets/" links into the asset server's subtree, so the handler never renders it. */
  lemma AssetsListingLink(cwd: string, paths: seq<string>, i: nat)
    requires RelativePaths(cwd, paths).Ok? && i < |paths|
    requires HasPrefix(RelativePaths(cwd, paths).value[i], "assets/")
    ensures Route(LinkTarget(RelativePaths(cwd, paths).value[i]), paths) == Assets
  {
    AssetLink(RelativePaths(cwd, paths).value[i]);
  }

  /** The link of a relative path under "assets/" lies in the asset subtree. */
  lemma AssetLink(rel: string)
    requires HasPrefix(rel, "assets/")
    ensures IsAssetPath(LinkTarget(rel))
  {
    var link := LinkTarget(rel);
    assert AssetsPrefix == RootPath + "assets/";
    assert link[..|AssetsPrefix|] == RootPath + rel[..|AssetsPrefix| - 1];
  }
}
