/** Paths as sequences of elements, in the sense of `flatpak_has_path_prefix`. */
module Paths {

  import opened Splitting

  /** The elements of a path; repeated slashes count as one. */
  function Elements(path: string): seq<string> {
    Items(path, {'/'})
  }

  /** `flatpak_has_path_prefix`, and `_srt_get_path_after` not returning NULL. */
  predicate HasPathPrefix(path: string, prefix: string) {
    Elements(prefix) <= Elements(path)
  }

  function TrimLeft(path: string): string {
    if path != "" && path[0] == '/' then TrimLeft(path[1..]) else path
  }

  function TrimRight(path: string): string {
    if path != "" && path[|path| - 1] == '/' then TrimRight(path[..|path| - 1]) else path
  }

  /** `g_build_filename` with two arguments. */
  function BuildFilename(dir: string, name: string): string {
    if dir == "" then name
    else if name == "" then dir
    else TrimRight(dir) + "/" + TrimLeft(name)
  }

  lemma ElementsOfJoin(a: string, b: string)
    ensures Elements(a + "/" + b) == Elements(a) + Elements(b)
  {
    ItemsOfJoin(a, '/', b, {'/'});
  }

  lemma {:induction false} ElementsOfTrimLeft(path: string)
    ensures Elements(TrimLeft(path)) == Elements(path)
  {
    if path != "" && path[0] == '/' {
      ElementsOfTrimLeft(path[1..]);
    }
  }

  lemma {:induction false} ElementsOfTrimRight(path: string)
    ensures Elements(TrimRight(path)) == Elements(path)
  {
    if path != "" && path[|path| - 1] == '/' {
      var before := path[..|path| - 1];
      ElementsOfTrimRight(before);
      ElementsOfJoin(before, "");
      assert path == before + "/" + "";
    }
  }

  /** Joining two paths joins their elements. */
  lemma ElementsOfBuildFilename(dir: string, name: string)
    ensures Elements(BuildFilename(dir, name)) == Elements(dir) + Elements(name)
  {
    if dir != "" && name != "" {
      ElementsOfTrimRight(dir);
      ElementsOfTrimLeft(name);
      ElementsOfJoin(TrimRight(dir), TrimLeft(name));
    }
  }

  lemma {:induction false} TrimRightKeepsStart(path: string)
    ensures TrimRight(path) <= path
    ensures path != "" && TrimRight(path) == "" ==> path[0] == '/'
  {
    if path != "" && path[|path| - 1] == '/' {
      var before := path[..|path| - 1];
      TrimRightKeepsStart(before);
      assert before <= path && (before == "" || before[0] == path[0]);
    }
  }

  /** An absolute path stays absolute, and a relative one relative. */
  lemma BuildFilenameKeepsStart(dir: string, name: string)
    requires dir != ""
    ensures BuildFilename(dir, name) != "" && BuildFilename(dir, name)[0] == dir[0]
  {
    TrimRightKeepsStart(dir);
  }
}
