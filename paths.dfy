/**
 * The few `pathlib.PurePosixPath` operations the migrators use to name their
 * output file, on path strings already in pathlib's normal form (no empty
 * components, no `.` components, no trailing slash).
 */
module Paths {

  /** What reading a file gives: the path does not exist, the read raised, or the text. */
  datatype FileRead = Missing | Unreadable(reason: string) | Contents(text: string)

  /** `s.rfind(c)`: the last index of `c` in `s`, or -1. */
  function RFind(s: string, c: char): (k: int)
    ensures -1 <= k < |s|
    ensures k >= 0 ==> s[k] == c
    ensures forall j :: k < j < |s| ==> s[j] != c
  {
    if s == [] then -1
    else if s[|s| - 1] == c then |s| - 1
    else RFind(s[..|s| - 1], c)
  }

  /** `rfind` over `d + [c] + n` finds the separator when `n` does not contain `c`. */
  lemma {:induction false} RFindSeparator(d: string, c: char, n: string)
    requires c !in n
    ensures RFind(d + [c] + n, c) == |d|
  {
    var s := d + [c] + n;
    if n != [] {
      assert s[..|s| - 1] == d + [c] + n[..|n| - 1];
      RFindSeparator(d, c, n[..|n| - 1]);
    } else {
      assert s[|s| - 1] == c;
    }
  }

  /** `rfind` reports -1 when the character does not occur. */
  lemma {:induction false} RFindAbsent(s: string, c: char)
    requires c !in s
    ensures RFind(s, c) == -1
  {
    if s != [] {
      RFindAbsent(s[..|s| - 1], c);
    }
  }

  /** No empty path component. */
  predicate NoDoubleSlash(p: string) {
    forall i :: 0 <= i < |p| - 1 ==> !(p[i] == '/' && p[i + 1] == '/')
  }

  /** A directory string as pathlib prints it: `.`, `/`, or a path without trailing slash. */
  predicate IsDir(d: string) {
    d == "." || d == "/" || (d != [] && d[|d| - 1] != '/')
  }

  /** `Path(p).name`: the last component. */
  function Name(p: string): (r: string)
    ensures '/' !in r
  {
    p[RFind(p, '/') + 1..]
  }

  /** `Path(p).parent` */
  function Parent(p: string): string {
    var k := RFind(p, '/');
    if k == -1 then "." else if k == 0 then "/" else p[..k]
  }

  /** `Path(p).stem`: the name without its last suffix. */
  function Stem(p: string): (r: string)
    ensures '/' !in r
  {
    var n := Name(p);
    var i := RFind(n, '.');
    if 0 < i < |n| - 1 then n[..i] else n
  }

  /** `Path(d) / n` for a single component `n`. */
  function Child(d: string, n: string): string {
    if d == "." then n else if d == "/" then d + n else d + "/" + n
  }

  /** `Path(d) / n` has name `n` and parent `d`, and is itself a directory string. */
  lemma ChildParts(d: string, n: string)
    requires IsDir(d) && n != [] && '/' !in n
    ensures Name(Child(d, n)) == n
    ensures Parent(Child(d, n)) == d
    ensures IsDir(Child(d, n))
  {
    if d == "." {
      RFindAbsent(n, '/');
    } else if d == "/" {
      RFindSeparator([], '/', n);
      assert d + n == [] + ['/'] + n;
    } else {
      RFindSeparator(d, '/', n);
      assert d + "/" + n == d + ['/'] + n;
      assert (d + "/" + n)[..|d|] == d;
    }
  }

  /** The parent of a path without empty components is a directory string. */
  lemma ParentIsDir(p: string)
    requires p != [] && NoDoubleSlash(p)
    ensures IsDir(Parent(p))
  {
    var k := RFind(p, '/');
    if k > 0 {
      assert p[k] == '/';
      assert p[k - 1] != '/';
    }
  }
}
