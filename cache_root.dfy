/** The guard of manage.py's `_clean_cache_root`, which is meant to refuse to
    delete a file-system root. Paths are taken as `pathlib` holds them once
    parsed: absolute or not, and a list of components. Removing the tree is
    left out; the result says whether the tree would be removed. */
module CacheRoot {
  import opened Wrappers

  /** A parsed POSIX path: `/` followed by `parts` when absolute, `parts`
      relative to the current directory otherwise. */
  datatype PathValue = PathValue(absolute: bool, parts: seq<string>)

  /** The two kinds of object the guard compares. */
  datatype PyObject = PyPath(path: PathValue) | PyStr(s: string)

  /** Python's `==` between a `Path` and a `str` or between two objects of
      the same kind: `Path.__eq__` answers only for another path, `str.__eq__`
      only for another string, and otherwise the objects are compared by
      identity, which a `Path` and a `str` never share. */
  predicate PyEquals(a: PyObject, b: PyObject) {
    match (a, b)
    case (PyPath(p), PyPath(q)) => p == q
    case (PyStr(s), PyStr(t)) => s == t
    case _ => false
  }

  /** `path.anchor`: `"/"` for an absolute path, `""` for a relative one. */
  function Anchor(path: PathValue): string {
    if path.absolute then "/" else ""
  }

  /** `Path(path.anchor)`: the root alone, or the current directory. */
  function AnchorPath(path: PathValue): PathValue {
    PathValue(path.absolute, [])
  }

  /** The guard as written: `cache_root == cache_root.anchor`, a path
      against a string. */
  predicate RefusesAsWritten(cacheRoot: PathValue) {
    PyEquals(PyPath(cacheRoot), PyStr(Anchor(cacheRoot)))
  }

  /** The guard as written never refuses, whatever the path. */
  lemma GuardNeverFires(cacheRoot: PathValue)
    ensures !RefusesAsWritten(cacheRoot)
  {
  }

  /** The root directory itself gets past the guard as written. */
  lemma RootPassesGuardAsWritten()
    ensures var root := PathValue(true, []);
            Anchor(root) == "/" && !RefusesAsWritten(root)
  {
  }

  /** The guard as intended: the path compared with the path of its anchor. */
  predicate RefusesCorrected(cacheRoot: PathValue) {
    PyEquals(PyPath(cacheRoot), PyPath(AnchorPath(cacheRoot)))
  }

  /** The corrected guard refuses exactly a path with no components: the
      root directory, or the current directory for a relative path. */
  lemma CorrectedGuardRefusesAnchors(cacheRoot: PathValue)
    ensures RefusesCorrected(cacheRoot) <==> cacheRoot.parts == []
  {
  }

  /** `_clean_cache_root` with the corrected guard: `Ok(true)` when the tree
      is removed, `Ok(false)` when there is nothing to remove, and the
      refusal for an anchor. */
  function CleanCacheRoot(present: bool, cacheRoot: PathValue): (r: Result<bool>)
    ensures r.Err? <==> present && cacheRoot.parts == []
    ensures r == Ok(true) <==> present && cacheRoot.parts != []
  {
    if !present then Ok(false)
    else if RefusesCorrected(cacheRoot) then Err("Refusing to remove root directory")
    else Ok(true)
  }

  /** The root directory is never removed, and any directory below it is. */
  lemma RootIsNeverRemoved(name: string)
    ensures CleanCacheRoot(true, PathValue(true, [])).Err?
    ensures CleanCacheRoot(true, PathValue(true, [name])) == Ok(true)
  {
  }
}
