/**
 * The `paths` struct of main.go (lines 22-48): the working directory and the
 * Markdown paths found under it, filled by the walk callback at startup and
 * only read afterwards.
 */
module Index {
  import opened Wrappers
  import opened Strings
  import opened Search
  import opened FilePath
  import opened Walk

  /** Every indexed path is the root itself or lies below it. */
  predicate IndexedWithin(root: string, paths: seq<string>) {
    forall i :: 0 <= i < |paths| ==> WithinDir(root, paths[i])
  }

  /** `getRealPath` (main.go:27-36): the first indexed path ending with `reqPath`, or "" when none does. */
  function RealPath(paths: seq<string>, reqPath: string): (r: string)
    ensures r != "" ==> exists k :: 0 <= k < |paths| && paths[k] == r && HasSuffix(r, reqPath)
                                    && forall j :: 0 <= j < k ==> !HasSuffix(paths[j], reqPath)
    ensures (forall i :: 0 <= i < |paths| ==> !HasSuffix(paths[i], reqPath)) ==> r == ""
  {
    var k := FirstIndex(paths, (el: string) => HasSuffix(el, reqPath));
    if k < |paths| then paths[k] else ""
  }

  /** `getRelativePaths` (main.go:38-48): every indexed path relative to `cwd`, or the first conversion error. */
  function RelativePaths(cwd: string, paths: seq<string>): (r: Result<seq<string>, RelError>)
    ensures r.Ok? <==> forall i :: 0 <= i < |paths| ==> Rel(cwd, paths[i]).Ok?
    ensures r.Ok? ==> |r.value| == |paths| && forall i :: 0 <= i < |paths| ==> Rel(cwd, paths[i]) == Ok(r.value[i])
    ensures r.Err? ==> exists i :: 0 <= i < |paths| && Rel(cwd, paths[i]) == Err(r.error)
                                   && forall j :: 0 <= j < i ==> Rel(cwd, paths[j]).Ok?
  {
    var k := FirstIndex(paths, (el: string) => Rel(cwd, el).Err?);
    if k < |paths| then Err(Rel(cwd, paths[k]).error)
    else Ok(seq(|paths|, i requires 0 <= i < |paths| => Rel(cwd, paths[i]).value))
  }

  /** A lookup result is "" exactly when no indexed path ends with the request, provided no indexed path is itself "". */
  lemma RealPathEmptyIff(paths: seq<string>, reqPath: string)
    requires forall i :: 0 <= i < |paths| ==> paths[i] != ""
    ensures RealPath(paths, reqPath) == "" <==> forall i :: 0 <= i < |paths| ==> !HasSuffix(paths[i], reqPath)
  {
    var k := FirstIndex(paths, (el: string) => HasSuffix(el, reqPath));
    if k < |paths| {
      assert HasSuffix(paths[k], reqPath);
    }
  }

  /** A non-empty lookup result is the earliest indexed path with the requested suffix. */
  lemma RealPathFirstMatch(paths: seq<string>, reqPath: string)
    requires RealPath(paths, reqPath) != ""
    ensures exists k :: 0 <= k < |paths| && paths[k] == RealPath(paths, reqPath)
                        && HasSuffix(paths[k], reqPath)
                        && forall j :: 0 <= j < k ==> !HasSuffix(paths[j], reqPath)
  {
    var k := FirstIndex(paths, (el: string) => HasSuffix(el, reqPath));
    assert k < |paths| && HasSuffix(paths[k], reqPath);
  }

  /** Under a non-empty root no indexed path is "", so "" is never both a path and the not-found answer. */
  lemma IndexedWithinNonEmpty(root: string, paths: seq<string>)
    requires root != "" && IndexedWithin(root, paths)
    ensures forall i :: 0 <= i < |paths| ==> paths[i] != ""
  {
    forall i | 0 <= i < |paths| ensures paths[i] != "" {
      assert WithinDir(root, paths[i]);
    }
  }

  /** The listing never fails for an index built from a walk of `cwd`: every conversion succeeds. */
  lemma RelativePathsSucceed(cwd: string, paths: seq<string>)
    requires IndexedWithin(cwd, paths)
    ensures RelativePaths(cwd, paths).Ok?
  {
    forall i | 0 <= i < |paths| ensures Rel(cwd, paths[i]).Ok? {
      assert WithinDir(cwd, paths[i]);
    }
  }

  /** The relative paths are determined entry by entry: when each path converts to the matching entry of `rels`, the listing is `rels`. */
  lemma RelativePathsOfConverted(cwd: string, paths: seq<string>, rels: seq<string>)
    requires |rels| == |paths|
    requires forall i :: 0 <= i < |paths| ==> Rel(cwd, paths[i]) == Ok(rels[i])
    ensures RelativePaths(cwd, paths) == Ok(rels)
  {
    var r := RelativePaths(cwd, paths);
    assert r.Ok?;
    assert forall i :: 0 <= i < |rels| ==> r.value[i] == rels[i];
    assert r.value == rels;
  }

  class Paths {
    var cwd: string
    var paths: seq<string>

    /** The index is consistent with a walk of `cwd`. */
    ghost predicate Valid()
      reads this
    {
      IndexedWithin(cwd, paths)
    }

    /** `paths{cwd: cwd}` (main.go:120): nothing indexed yet. */
    constructor (cwd: string)
      ensures Valid()
      ensures this.cwd == cwd && paths == []
    {
      this.cwd := cwd;
      paths := [];
    }

    /** The walk callback (main.go:121-131): pass an error on, otherwise append a Markdown path. */
    method Visit(e: WalkEvent) returns (err: Option<string>)
      requires Valid() && (e.Visited? ==> WithinDir(cwd, e.path))
      modifies this`paths
      ensures Valid()
      ensures err == if e.Failed? then Some(e.err) else None
      ensures paths == old(paths) + MarkdownPaths([e])
    {
      if e.Failed? {
        return Some(e.err);
      }
      if HasSuffix(e.name, MarkdownExt) {
        paths := paths + [e.path];
      }
      return None;
    }

    /**
     * `filepath.Walk(cwd, callback)` (main.go:121-134): the callback runs on each
     * event in order until one returns an error, which stops the walk and is returned.
     */
    method Scan(walk: seq<WalkEvent>) returns (err: Option<string>)
      requires Valid() && RootedAt(cwd, walk)
      modifies this`paths
      ensures Valid()
      ensures var k := FirstFailure(walk);
              paths == old(paths) + MarkdownPaths(walk[..k])
              && err == if k < |walk| then Some(walk[k].err) else None
    {
      var i := 0;
      while i < |walk|
        invariant 0 <= i <= |walk|
        invariant forall j :: 0 <= j < i ==> walk[j].Visited?
        invariant paths == old(paths) + MarkdownPaths(walk[..i])
        invariant Valid()
      {
        MarkdownPathsStep(cwd, walk, i);
        err := Visit(walk[i]);
        if err.Some? {
          assert FirstFailure(walk) == i;
          return;
        }
        i := i + 1;
      }
      assert walk[..i] == walk;
      return None;
    }

    /** `getRealPath` (main.go:27-36): scan the index in order and return the first path ending with `reqPath`. */
    method GetRealPath(reqPath: string) returns (r: string)
      ensures r == RealPath(paths, reqPath)
      ensures r != "" ==> r in paths && HasSuffix(r, reqPath)
      ensures (forall i :: 0 <= i < |paths| ==> !HasSuffix(paths[i], reqPath)) ==> r == ""
    {
      for i := 0 to |paths|
        invariant forall j :: 0 <= j < i ==> !HasSuffix(paths[j], reqPath)
      {
        if !HasSuffix(paths[i], reqPath) {
          continue;
        }
        return paths[i];
      }
      return "";
    }

    /**
     * `getRelativePaths` (main.go:38-48): fill a slice of the index's length with
     * each path relative to `cwd`, giving up at the first path that cannot be converted.
     */
    method GetRelativePaths() returns (r: Result<seq<string>, RelError>)
      ensures r == RelativePaths(cwd, paths)
      ensures Valid() ==> r.Ok?
    {
      if Valid() {
        RelativePathsSucceed(cwd, paths);
      }
      var out := new string[|paths|];
      for i := 0 to |paths|
        invariant forall j :: 0 <= j < i ==> Rel(cwd, paths[j]) == Ok(out[j])
      {
        var rel := Rel(cwd, paths[i]);
        if rel.Err? {
          return Err(rel.error);
        }
        out[i] := rel.value;
      }
      var rels := RelativePaths(cwd, paths);
      assert rels.Ok? && |rels.value| == out.Length;
      assert forall j :: 0 <= j < out.Length ==> rels.value[j] == out[j];
      assert rels.value == out[..];
      return Ok(out[..]);
    }
  }
}
