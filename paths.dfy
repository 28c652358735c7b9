/**
 * File-system paths as the converter uses them through `pathlib`: plain
 * strings with `/` as separator. `Parent`, `Name` and `JoinPath` follow
 * `PurePath.parent`, `PurePath.name` and `dir / name` for paths that are
 * already in normal form (no `.` or `..` components, no doubled or
 * trailing separators).
 */
module Paths {
  import opened PyStr

  type Path = string

  /** Index of the last `/` in `p`, or -1 when there is none. */
  function LastSlash(p: Path): (i: int)
    ensures -1 <= i < |p|
    ensures i >= 0 ==> p[i] == '/'
    ensures forall k :: i < k < |p| ==> p[k] != '/'
    decreases |p|
  {
    if p == [] then -1
    else if p[|p| - 1] == '/' then |p| - 1
    else LastSlash(p[..|p| - 1])
  }

  /** The absolute-path test the parser applies: the text starts with `/`. */
  predicate IsAbsolute(p: Path) {
    StartsWith(p, "/")
  }

  /** `PurePath(p).parent`: `.` for a bare name, `/` for a top-level entry. */
  function Parent(p: Path): Path {
    var i := LastSlash(p);
    if i < 0 then "." else if i == 0 then "/" else p[..i]
  }

  /** `PurePath(p).name`: the last component; `.` on its own has the empty name. */
  function Name(p: Path): string {
    if |p| == 1 && p[0] == '.' then "" else p[LastSlash(p) + 1..]
  }

  /** `PurePath(dir) / name` for a relative `name`. */
  function JoinPath(dir: Path, name: string): Path {
    if name == "" then dir
    else if dir == "." then name
    else if dir == "/" then "/" + name
    else dir + "/" + name
  }

  /** Joining a single component onto a directory can be undone by `Parent` and `Name`. */
  lemma JoinPathParentName(dir: Path, name: string)
    requires dir != "" && name != "" && name != "." && '/' !in name
    ensures Parent(JoinPath(dir, name)) == dir
    ensures Name(JoinPath(dir, name)) == name
  {
    var p := JoinPath(dir, name);
    if dir == "." {
      assert forall k :: 0 <= k < |p| ==> p[k] != '/';
    } else if dir == "/" {
      assert p[0] == '/' && p[1..] == name;
    } else {
      assert p[|dir|] == '/' && p[..|dir|] == dir && p[|dir| + 1..] == name;
    }
  }
}
