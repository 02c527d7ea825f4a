/**
 * The directory walk that builds the index (main.go:121-131). The file system
 * side of `filepath.Walk` is an input: the sequence of calls it makes to the
 * callback, in walk order, each either a visited entry or an error.
 */
module Walk {
  import opened Strings
  import opened Search
  import opened FilePath

  /** One call of the walk callback: a visited entry (full path, base name, kind) or the error the walk met. */
  datatype WalkEvent =
    | Visited(path: string, name: string, isDir: bool)
    | Failed(path: string, err: string)

  /** The extension that makes a base name count as Markdown (case-sensitive). */
  const MarkdownExt: string := ".md"

  /** The callback's test (main.go:126): only the base name is looked at, never the kind of entry. */
  predicate Kept(e: WalkEvent): (b: bool)
    ensures b ==> e.Visited? && |e.name| >= |MarkdownExt|
  {
    e.Visited? && HasSuffix(e.name, MarkdownExt)
  }

  /** The paths the callback appends, in walk order. */
  function MarkdownPaths(walk: seq<WalkEvent>): (r: seq<string>)
    ensures |r| <= |walk|
  {
    if walk == [] then []
    else (if Kept(walk[0]) then [walk[0].path] else []) + MarkdownPaths(walk[1..])
  }

  /** Index of the first error of the walk, or `|walk|`: an error returned by the callback stops the walk. */
  function FirstFailure(walk: seq<WalkEvent>): (k: nat)
    ensures k <= |walk|
    ensures k < |walk| ==> walk[k].Failed?
    ensures forall j :: 0 <= j < k ==> walk[j].Visited?
  {
    FirstIndex(walk, (e: WalkEvent) => e.Failed?)
  }

  /** Every visited path lies in `root`: what `filepath.Walk(root, ...)` hands its callback. */
  predicate RootedAt(root: string, walk: seq<WalkEvent>) {
    forall i :: 0 <= i < |walk| && walk[i].Visited? ==> WithinDir(root, walk[i].path)
  }

  /** Filtering a walk split in two filters each part, in order. */
  lemma {:induction false} MarkdownPathsAppend(a: seq<WalkEvent>, b: seq<WalkEvent>)
    ensures MarkdownPaths(a + b) == MarkdownPaths(a) + MarkdownPaths(b)
  {
    if a == [] {
      assert a + b == b;
    } else {
      var head := if Kept(a[0]) then [a[0].path] else [];
      assert (a + b)[0] == a[0];
      assert (a + b)[1..] == a[1..] + b;
      assert MarkdownPaths(a + b) == head + MarkdownPaths(a[1..] + b);
      MarkdownPathsAppend(a[1..], b);
      assert MarkdownPaths(a) == head + MarkdownPaths(a[1..]);
    }
  }

  /** A path is kept exactly when some visited entry with a Markdown base name has it. */
  lemma {:induction false} MarkdownPathsMembers(walk: seq<WalkEvent>, x: string)
    ensures x in MarkdownPaths(walk) <==> exists i :: 0 <= i < |walk| && Kept(walk[i]) && walk[i].path == x
  {
    if walk != [] {
      MarkdownPathsMembers(walk[1..], x);
      if x in MarkdownPaths(walk[1..]) {
        var i :| 0 <= i < |walk[1..]| && Kept(walk[1..][i]) && walk[1..][i].path == x;
        assert Kept(walk[i + 1]) && walk[i + 1].path == x;
      }
      if exists i :: 0 <= i < |walk| && Kept(walk[i]) && walk[i].path == x {
        var i :| 0 <= i < |walk| && Kept(walk[i]) && walk[i].path == x;
        if i > 0 {
          assert Kept(walk[1..][i - 1]) && walk[1..][i - 1].path == x;
        }
      }
    }
  }

  /** The kind of an entry never matters: turning a directory into a file, or back, keeps the same paths. */
  lemma KindIgnored(walk: seq<WalkEvent>, i: nat)
    requires i < |walk| && walk[i].Visited?
    ensures MarkdownPaths(walk[i := walk[i].(isDir := !walk[i].isDir)]) == MarkdownPaths(walk)
  {
    var flipped := walk[i := walk[i].(isDir := !walk[i].isDir)];
    assert walk == walk[..i] + [walk[i]] + walk[i + 1..];
    assert flipped == walk[..i] + [flipped[i]] + walk[i + 1..];
    MarkdownPathsAppend(walk[..i] + [walk[i]], walk[i + 1..]);
    MarkdownPathsAppend(walk[..i], [walk[i]]);
    MarkdownPathsAppend(walk[..i] + [flipped[i]], walk[i + 1..]);
    MarkdownPathsAppend(walk[..i], [flipped[i]]);
  }

  /** Every kept path was visited by a walk rooted at `root`, so it lies in `root`. */
  lemma MarkdownPathsWithin(root: string, walk: seq<WalkEvent>)
    requires RootedAt(root, walk)
    ensures forall x :: x in MarkdownPaths(walk) ==> WithinDir(root, x)
  {
    forall x | x in MarkdownPaths(walk) ensures WithinDir(root, x) {
      MarkdownPathsMembers(walk, x);
    }
  }

  /** One more event of a rooted walk adds its own kept path, if any, at the end, and that path lies in `root`. */
  lemma MarkdownPathsStep(root: string, walk: seq<WalkEvent>, i: nat)
    requires RootedAt(root, walk) && i < |walk|
    ensures MarkdownPaths(walk[..i + 1]) == MarkdownPaths(walk[..i]) + MarkdownPaths([walk[i]])
    ensures forall x :: x in MarkdownPaths([walk[i]]) ==> WithinDir(root, x)
  {
    assert walk[..i + 1] == walk[..i] + [walk[i]];
    MarkdownPathsAppend(walk[..i], [walk[i]]);
    forall x | x in MarkdownPaths([walk[i]]) ensures WithinDir(root, x) {
      MarkdownPathsMembers([walk[i]], x);
    }
  }
}
