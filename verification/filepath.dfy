/**
 * The part of Go's `path/filepath` the server relies on, for clean absolute
 * slash-separated paths: which paths a walk rooted at a directory visits, and
 * `filepath.Rel` (main.go:41) as prefix stripping.
 */
module FilePath {
  import opened Wrappers
  import opened Strings

  const Separator: char := '/'

  /** What every path strictly below `dir` starts with: `dir` and one separator, or `dir` itself when it already ends in one (the root "/"). */
  function DirPrefix(dir: string): (r: string)
    ensures HasPrefix(r, dir)
    ensures |dir| <= |r| <= |dir| + 1
    ensures r != "" && r[|r| - 1] == Separator
  {
    if dir != "" && dir[|dir| - 1] == Separator then dir else dir + [Separator]
  }

  /** `path` lies strictly below the directory `dir`. */
  predicate Under(dir: string, path: string) {
    HasPrefix(path, DirPrefix(dir)) && |path| > |DirPrefix(dir)|
  }

  /** `path` is `dir` itself or lies below it: what a walk rooted at `dir` visits. */
  predicate WithinDir(dir: string, path: string) {
    path == dir || Under(dir, path)
  }

  /** The error `filepath.Rel` reports when it cannot express `target` relative to `base`. */
  datatype RelError = CannotMakeRelative(base: string, target: string)

  /**
   * `filepath.Rel(base, target)`: "." for `base` itself, the part after the
   * directory prefix for a path below `base`, and an error otherwise.
   */
  function Rel(base: string, target: string): (r: Result<string, RelError>)
    ensures r.Ok? <==> WithinDir(base, target)
    ensures r.Ok? ==> r.value != ""
    ensures r.Ok? && target == base ==> r.value == "."
    ensures r.Ok? && target != base ==> DirPrefix(base) + r.value == target
    ensures r.Err? ==> r.error == CannotMakeRelative(base, target)
  {
    if target == base then Ok(".")
    else if Under(base, target) then
      assert target == DirPrefix(base) + target[|DirPrefix(base)|..];
      Ok(target[|DirPrefix(base)|..])
    else Err(CannotMakeRelative(base, target))
  }

  /** Rel undoes joining: a child path built from `base` converts back to the name it was built from. */
  lemma RelOfChild(base: string, rel: string)
    requires rel != ""
    ensures Rel(base, DirPrefix(base) + rel) == Ok(rel)
  {
    var path := DirPrefix(base) + rel;
    assert path[..|DirPrefix(base)|] == DirPrefix(base);
    assert path != base;
    assert path[|DirPrefix(base)|..] == rel;
  }
}
