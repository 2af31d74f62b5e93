/** POSIX path strings: `os.path.join` for two arguments and `PurePath.relative_to`
    as prefix stripping. Paths are the strings the program prints (`str(path)`). */
module Paths {
  import opened Strings

  datatype Option<T> = None | Some(value: T)

  predicate IsAbsolute(p: string) {
    |p| > 0 && p[0] == '/'
  }

  /** What `os.path.join(base, x)` puts in front of a relative `x`: nothing for an
      empty base, the base itself when it ends in a separator, otherwise base + "/". */
  function DirPrefix(base: string): (r: string)
    ensures base == "" <==> r == ""
    ensures r != "" ==> r[|r| - 1] == '/' && IsPrefix(base, r) && |r| <= |base| + 1
  {
    if base == "" then ""
    else if base[|base| - 1] == '/' then base
    else base + "/"
  }

  /** `os.path.join(a, b)` on POSIX: an absolute `b` replaces `a`. */
  function Join(a: string, b: string): string {
    if IsAbsolute(b) then b else DirPrefix(a) + b
  }

  /** `PurePath(path).relative_to(base)` for a path strictly below the base: the
      part of `path` after `base` and its separator. None stands for a path that
      does not lie below the base, where pathlib raises ValueError, and also for
      a path equal to the base, where pathlib gives `.`. An empty base stands for
      the current directory, under which no absolute path lies. */
  function RelativeTo(path: string, base: string): (r: Option<string>)
    ensures r.Some? ==> DirPrefix(base) + r.value == path
    ensures r.Some? && base == "" ==> !IsAbsolute(path)
  {
    var p := DirPrefix(base);
    if IsPrefix(p, path) && !(base == "" && IsAbsolute(path)) then
      assert p + path[|p|..] == path;
      Some(path[|p|..])
    else None
  }

  /** Joining a relative path onto a base and taking it relative to that base
      gives the relative path back. */
  lemma RelativeToJoin(base: string, rel: string)
    requires !IsAbsolute(rel)
    ensures RelativeTo(Join(base, rel), base) == Some(rel)
  {
    var p := DirPrefix(base);
    var path := Join(base, rel);
    assert path == p + rel;
    assert path[..|p|] == p;
    assert path[|p|..] == rel;
  }

  /** Conversely, a path lying under a base is that base joined with its
      relative part. */
  lemma JoinRelativeTo(path: string, base: string)
    requires RelativeTo(path, base).Some?
    requires !IsAbsolute(RelativeTo(path, base).value)
    ensures Join(base, RelativeTo(path, base).value) == path
  {
  }

  /** Two different names of the same length directly under one base do not
      overlap: nothing below one of them lies under the other. */
  lemma SiblingsDisjoint(base: string, x: string, y: string, rel: string)
    requires |x| == |y| && x != y
    requires x != "" && !IsAbsolute(x) && x[|x| - 1] != '/'
    requires y != "" && !IsAbsolute(y) && y[|y| - 1] != '/'
    requires !IsAbsolute(rel)
    ensures RelativeTo(Join(Join(base, y), rel), Join(base, x)) == None
  {
    var p := DirPrefix(base);
    var fx, fy := p + x, p + y;
    assert Join(base, x) == fx && Join(base, y) == fy;
    assert fx[|fx| - 1] == x[|x| - 1];
    assert DirPrefix(fx) == fx + "/";
    var q := Join(fy, rel);
    assert q == fy + "/" + rel;
    assert q[..|fy|] == fy;
    assert fx[|p|..] == x && fy[|p|..] == y;
  }
}
