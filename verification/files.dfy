/** An abstract filesystem: each existing path maps to what `java.io.File`
    reports about it. Paths are absolute and normalised (no trailing
    separator), as `getAbsolutePath` returns them. A root of `/` itself is
    not normalised away: its child is written `//name`, where `java.io.File`
    gives `/name`. */
module Files {

  import opened Wrappers

  const Separator: char := '/'

  datatype NodeKind = Directory | RegularFile | Special

  /** `children` is what `listFiles` enumerates, in its order, as names. */
  datatype Node = Node(kind: NodeKind, readable: bool, children: seq<string>)

  type FileSystem = map<string, Node>

  /** Children are plain non-empty names. */
  ghost predicate WellFormed(fs: FileSystem)
  {
    forall p, c :: p in fs && c in fs[p].children ==> c != [] && Separator !in c
  }

  predicate Exists(fs: FileSystem, p: string) { p in fs }

  predicate IsDirectory(fs: FileSystem, p: string) { p in fs && fs[p].kind == Directory }

  predicate IsFile(fs: FileSystem, p: string) { p in fs && fs[p].kind == RegularFile }

  predicate CanRead(fs: FileSystem, p: string) { p in fs && fs[p].readable }

  /** `new File(dir + File.separator + name)`. */
  function Child(dir: string, name: string): string
  {
    dir + [Separator] + name
  }

  /** The child paths of `dir` for `names`, in the same order. */
  function ChildPaths(dir: string, names: seq<string>): seq<string>
  {
    if names == [] then [] else [Child(dir, names[0])] + ChildPaths(dir, names[1..])
  }

  /** `ChildPaths` keeps the order of `names`, one path per name. */
  lemma {:induction false} ChildPathsElements(dir: string, names: seq<string>)
    ensures |ChildPaths(dir, names)| == |names|
    ensures forall i :: 0 <= i < |names| ==> ChildPaths(dir, names)[i] == Child(dir, names[i])
  {
    if names != [] {
      ChildPathsElements(dir, names[1..]);
    }
  }

  /** Index of the last separator in `p`, or -1 when there is none. */
  function LastSeparator(p: string): (r: int)
    ensures -1 <= r < |p|
    ensures r >= 0 ==> p[r] == Separator
    ensures forall i :: r < i < |p| ==> p[i] != Separator
  {
    if p == [] then -1
    else if p[|p| - 1] == Separator then |p| - 1
    else LastSeparator(p[..|p| - 1])
  }

  /** `File.getName`: the part after the last separator. */
  function Name(p: string): string
  {
    p[LastSeparator(p) + 1..]
  }

  /** `File.getParentFile`: everything before the last separator, the root
      when that separator is the first character, and `None` (null) for a
      path with no separator or for the root itself. */
  function Parent(p: string): (r: Option<string>)
    ensures r.Some? ==> |r.value| < |p|
  {
    var i := LastSeparator(p);
    if i < 0 then None
    else if i == 0 then (if |p| > 1 then Some([Separator]) else None)
    else Some(p[..i])
  }

  lemma ChildNameAndParent(dir: string, name: string)
    requires dir != [] && Separator !in name
    ensures Name(Child(dir, name)) == name
    ensures Parent(Child(dir, name)) == Some(dir)
  {
    var p := Child(dir, name);
    assert p[|dir|] == Separator;
    assert forall i :: |dir| < i < |p| ==> p[i] == name[i - |dir| - 1];
    assert LastSeparator(p) == |dir|;
    assert p[..|dir|] == dir;
  }

  /** `String.endsWith`. */
  predicate EndsWith(s: string, suffix: string)
  {
    |suffix| <= |s| && s[|s| - |suffix|..] == suffix
  }

  function LowerChar(c: char): char
  {
    if 'A' <= c <= 'Z' then (c as int + 32) as char else c
  }

  /** `String.toLowerCase`, for ASCII letters. */
  function Lower(s: string): (r: string)
    ensures |r| == |s|
    ensures forall i :: 0 <= i < |s| ==> r[i] == LowerChar(s[i])
  {
    if s == [] then [] else [LowerChar(s[0])] + Lower(s[1..])
  }
}
