/**
 * The `pathlib` operations the script uses, over POSIX path text:
 * `dir / name`, `.name` and `.stem`.
 */
module Paths {
  import opened Wrappers

  /** `Path(dir) / name`. */
  function Join(dir: string, name: string): string
  {
    dir + "/" + name
  }

  /** Python's `s.rfind(c)`, with None standing for -1. */
  function LastIndex(s: string, c: char): (r: Option<nat>)
    ensures r.Some? ==> r.value < |s| && s[r.value] == c
    ensures r.Some? ==> forall j :: r.value < j < |s| ==> s[j] != c
    ensures r.None? ==> c !in s
  {
    if |s| == 0 then None
    else if s[|s| - 1] == c then Some(|s| - 1)
    else LastIndex(s[..|s| - 1], c)
  }

  /** `Path(p).name`: the text after the last separator. */
  function BaseName(p: string): (r: string)
    ensures '/' !in r
    ensures |r| <= |p| && r == p[|p| - |r|..]
    ensures |r| < |p| ==> p[|p| - |r| - 1] == '/'
  {
    match LastIndex(p, '/')
    case None => p
    case Some(i) => p[i + 1..]
  }

  /**
   * `Path(name).stem`: the name without its last suffix. A dot only starts a
   * suffix when it is neither the first nor the last character.
   */
  function Stem(name: string): (r: string)
    ensures r <= name
    ensures |name| > 0 ==> |r| > 0
    ensures r != name ==> 0 < |r| < |name| - 1 && name[|r|] == '.' && '.' !in name[|r| + 1..]
  {
    match LastIndex(name, '.')
    case None => name
    case Some(i) => if 0 < i < |name| - 1 then name[..i] else name
  }

  /** The name of a joined path is the name that was joined. */
  lemma BaseNameOfJoin(dir: string, name: string)
    requires '/' !in name
    ensures BaseName(Join(dir, name)) == name
  {
    var p := Join(dir, name);
    var r := BaseName(p);
    assert p[|dir|] == '/';
    assert p[|p| - |name|..] == name;
  }

  /** Appending an extension with a single leading dot adds a suffix that `Stem` removes again. */
  lemma StemOfExtended(stem: string, ext: string)
    requires |stem| > 0 && |ext| >= 2 && ext[0] == '.' && '.' !in ext[1..]
    ensures Stem(stem + ext) == stem
  {
    var name := stem + ext;
    assert name[|stem|] == '.';
    assert name[..|stem|] == stem;
  }
}
