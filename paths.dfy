// Windows-flavoured paths as `pathlib` renders them: components joined by a backslash.

module Paths {
  import opened Text

  /** A path as its components; the base directory is one opaque component. */
  datatype Path = Path(parts: seq<string>)

  /** `str(path)`. */
  function PathText(p: Path): string
  {
    Join(p.parts, "\\")
  }

  /** `path.name`: the last component. */
  function Name(p: Path): string
  {
    if |p.parts| == 0 then "" else p.parts[|p.parts| - 1]
  }

  /** `directory / name`. */
  function Child(dir: Path, name: string): (p: Path)
    ensures |p.parts| == |dir.parts| + 1 && p.parts[..|dir.parts|] == dir.parts && Name(p) == name
  {
    Path(dir.parts + [name])
  }

  /** Joining one more component appends a separator and the component. */
  lemma {:induction false} JoinLast(parts: seq<string>, last: string)
    requires |parts| > 0
    ensures Join(parts + [last], "\\") == Join(parts, "\\") + "\\" + last
    decreases |parts|
  {
    if |parts| == 1 {
      assert (parts + [last])[1..] == [last];
    } else {
      assert (parts + [last])[1..] == parts[1..] + [last];
      JoinLast(parts[1..], last);
    }
  }

  /** The text of a child path: the parent's text, a backslash, the name. */
  lemma ChildText(dir: Path, name: string)
    requires |dir.parts| > 0
    ensures PathText(Child(dir, name)) == PathText(dir) + "\\" + name
  {
    JoinLast(dir.parts, name);
  }

  /** Where the last `c` in `s` is, or -1 (`str.rfind`). */
  function LastIndexOf(s: string, c: char): (r: int)
    ensures -1 <= r < |s|
    ensures r >= 0 ==> s[r] == c
    ensures forall k :: r < k < |s| ==> s[k] != c
    decreases |s|
  {
    if |s| == 0 then -1
    else if s[|s| - 1] == c then |s| - 1
    else
      var init := s[..|s| - 1];
      var r := LastIndexOf(init, c);
      assert forall k :: 0 <= k < |s| - 1 ==> s[k] == init[k];
      r
  }

  /** No `c` follows position `j` of `s`. */
  predicate NoneAfter(s: string, j: nat, c: char)
  {
    forall k :: j < k < |s| ==> s[k] != c
  }

  /** `path.stem`: the name without its last suffix; a leading dot or a trailing dot does not
      start a suffix. */
  function Stem(p: Path): (r: string)
    ensures r <= Name(p)
    ensures r == Name(p) || (|r| + 1 < |Name(p)| && |r| > 0 && Name(p)[|r|] == '.' &&
                             forall k :: |r| < k < |Name(p)| ==> Name(p)[k] != '.')
    ensures '.' !in Name(p) ==> r == Name(p)
    ensures forall j :: 0 < j < |Name(p)| - 1 && Name(p)[j] == '.' && NoneAfter(Name(p), j, '.')
                        ==> r == Name(p)[..j]
  {
    var n := Name(p);
    var i := LastIndexOf(n, '.');
    if 0 < i < |n| - 1 then n[..i] else n
  }
}
