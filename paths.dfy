/** File-system paths as the scripts build them with `os.path.join`. */
module Paths {

  import opened Wrappers

  /** True of a POSIX path that starts at the root directory. */
  predicate IsAbsolute(p: string) {
    |p| > 0 && p[0] == '/'
  }

  /**
   * POSIX `os.path.join(dir, name)` for a directory name that does not end
   * in '/': an absolute `name` discards `dir`, any other is appended after one
   * separator.
   */
  function Join(dir: string, name: string): (path: string)
    requires dir != [] && dir[|dir| - 1] != '/'
  {
    if IsAbsolute(name) then name else dir + "/" + name
  }

  /**
   * The directory a file at `p` is created in: the text before the last '/',
   * or `None` when `p` has no '/' (the working directory). The root is the
   * empty string.
   */
  function Parent(p: string): (dir: Option<string>)
    ensures dir.None? <==> forall i :: 0 <= i < |p| ==> p[i] != '/'
    ensures dir.Some? ==> |dir.value| < |p| && p[..|dir.value|] == dir.value && p[|dir.value|] == '/' &&
                          forall i :: |dir.value| < i < |p| ==> p[i] != '/'
  {
    if p == [] then None
    else if p[|p| - 1] == '/' then Some(p[..|p| - 1])
    else Parent(p[..|p| - 1])
  }

  /**
   * Opening `p` for writing finds its directory: `dirs` holds the directories
   * that exist, spelled as they prefix the path.
   */
  predicate DirectoryExists(dirs: set<string>, p: string) {
    Parent(p).None? || Parent(p).value in dirs
  }
}
