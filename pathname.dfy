/** The parts of a file name that `pathlib.PurePath` exposes: the last
    component (`name`), its extension (`suffix`) and the rest (`stem`). */
module Pathname {
  import opened Wrappers

  /** The position of the last occurrence of `c` in `s`. */
  function LastIndex(s: string, c: char): (r: Option<nat>)
    ensures r.Some? ==> r.value < |s| && s[r.value] == c && c !in s[r.value + 1..]
    ensures r.None? ==> c !in s
    decreases |s|
  {
    if s == [] then None
    else if s[|s| - 1] == c then Some(|s| - 1)
    else
      var r := LastIndex(s[..|s| - 1], c);
      assert s == s[..|s| - 1] + [s[|s| - 1]];
      r
  }

  /** `PurePosixPath(p).name`: the last component once trailing slashes and
      `.` components are dropped, or "" when none is left. */
  function Name(p: string): (r: string)
    ensures '/' !in r && r != "."
    ensures |r| <= |p|
    ensures '/' !in p && p != "." ==> r == p
    decreases |p|
  {
    if p == [] then []
    else if p[|p| - 1] == '/' then Name(p[..|p| - 1])
    else match LastIndex(p, '/')
      case None => if p == "." then [] else p
      case Some(i) => if p[i + 1..] == "." then Name(p[..i]) else p[i + 1..]
  }

  /** A `c` with no other `c` after it is the last one. */
  lemma LastIndexAt(s: string, c: char, k: nat)
    requires k < |s| && s[k] == c && c !in s[k + 1..]
    ensures LastIndex(s, c) == Some(k)
  {
    assert s[k] in s;
    var i := LastIndex(s, c).value;
    assert forall j :: i < j < |s| ==> s[j] != c by {
      forall j | i < j < |s| ensures s[j] != c {
        assert s[j] == s[i + 1..][j - i - 1];
      }
    }
    assert forall j :: k < j < |s| ==> s[j] != c by {
      forall j | k < j < |s| ensures s[j] != c {
        assert s[j] == s[k + 1..][j - k - 1];
      }
    }
  }

  /** A trailing slash changes nothing, and a plain file name after a
      directory is the name. */
  lemma NameProperties(d: string, f: string)
    ensures Name(d + "/") == Name(d)
    ensures f != [] && f != "." && '/' !in f ==> Name(d + "/" + f) == f
  {
    assert (d + "/")[..|d|] == d;
    if f != [] && f != "." && '/' !in f {
      var p := d + "/" + f;
      assert p[|p| - 1] == f[|f| - 1];
      assert p[|d| + 1..] == f;
      LastIndexAt(p, '/', |d|);
    }
  }

  /** Where the extension starts: the last dot of the name when it is
      neither the first nor the last character. */
  function DotAt(name: string): Option<nat> {
    match LastIndex(name, '.')
    case None => None
    case Some(i) => if 0 < i < |name| - 1 then Some(i) else None
  }

  function Suffix(p: string): (r: string)
    ensures r == [] || (r[0] == '.' && 2 <= |r| && '.' !in r[1..])
  {
    var n := Name(p);
    match DotAt(n)
    case None => []
    case Some(i) => n[i..]
  }

  function Stem(p: string): (r: string)
    ensures r != [] || Name(p) == []
  {
    var n := Name(p);
    match DotAt(n)
    case None => n
    case Some(i) => n[..i]
  }

  /** The stem and the suffix split the name, the suffix holds exactly one
      dot, and a name without a dot is its own stem. */
  lemma StemSuffix(p: string)
    ensures Stem(p) + Suffix(p) == Name(p)
    ensures '.' !in Name(p) ==> Stem(p) == Name(p) && Suffix(p) == []
    ensures '/' !in Stem(p) && '/' !in Suffix(p)
  {
    var n := Name(p);
    match DotAt(n)
    case None =>
    case Some(i) =>
      assert n[..i] + n[i..] == n;
  }
}
