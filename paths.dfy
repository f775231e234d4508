/**
 * POSIX-style paths as the resolver uses them: `os.path.join(dir, name)`,
 * `os.path.basename` and `os.path.dirname`, with '/' as the separator.
 */
module Paths {

  const Separator: char := '/'

  /** `os.path.join(dir, name)` for a relative name: exactly one separator between. */
  function Join(dir: string, name: string): string {
    dir + [Separator] + name
  }

  /** `os.path.basename(p)`: everything after the last separator. */
  function Basename(p: string): (b: string)
    ensures |b| <= |p| && b == p[|p| - |b|..]
    ensures Separator !in b
    ensures |b| < |p| ==> p[|p| - |b| - 1] == Separator
  {
    if p == [] || p[|p| - 1] == Separator then
      []
    else
      var b := Basename(p[..|p| - 1]) + [p[|p| - 1]];
      assert b[..|b| - 1] == Basename(p[..|p| - 1]);
      b
  }

  /** The part of p before its last separator, or "" when p holds none. */
  function Dirname(p: string): (d: string)
    ensures Separator in p ==> p == d + [Separator] + Basename(p)
    ensures Separator !in p ==> d == []
  {
    if p == [] then
      []
    else if p[|p| - 1] == Separator then
      p[..|p| - 1]
    else
      var q := p[..|p| - 1];
      var d := Dirname(q);
      assert p == q + [p[|p| - 1]];
      assert Basename(p) == Basename(q) + [p[|p| - 1]];
      assert Separator in p ==> Separator in q;
      d
  }

  /** Splitting a joined path gives back the directory and the name. */
  lemma SplitJoin(dir: string, name: string)
    requires Separator !in name
    ensures Basename(Join(dir, name)) == name
    ensures Dirname(Join(dir, name)) == dir
  {
    var p := Join(dir, name);
    assert p[..|dir|] == dir && p[|dir|] == Separator && p[|dir| + 1..] == name;
  }

  /** Joining the two halves of a path with a separator gives the path back. */
  lemma JoinSplit(p: string)
    requires Separator in p
    ensures Join(Dirname(p), Basename(p)) == p
  {
  }
}
