/**
 * The POSIX flavour of Python's `os.path` (the separator `os.sep` is '/'):
 * `basename`, `dirname`, `join`, `normpath`, `abspath`, `splitext` and
 * `commonpath`. The current working directory is a parameter.
 */
module PosixPath {
  import opened PyStr

  const Sep: string := "/"

  /** Index of the last occurrence of `c`, or -1. */
  function RFind(s: string, c: char): (i: int)
    ensures -1 <= i < |s|
    ensures i >= 0 ==> s[i] == c
    ensures forall j :: i < j < |s| ==> s[j] != c
    decreases |s|
  {
    if s == [] then -1
    else if s[|s| - 1] == c then |s| - 1
    else RFind(s[..|s| - 1], c)
  }

  /** `os.path.basename(p)`: the text after the last separator. */
  function Basename(p: string): (b: string)
    ensures '/' !in b && EndsWith(p, b)
  {
    var i := RFind(p, '/');
    assert p[|p| - |p[i + 1..]|..] == p[i + 1..];
    p[i + 1..]
  }

  predicate AllSlashes(s: string) {
    forall i :: 0 <= i < |s| ==> s[i] == '/'
  }

  /** `os.path.dirname(p)`: the head up to the last separator, trailing separators removed unless it is all separators. */
  function Dirname(p: string): string {
    var head := p[..RFind(p, '/') + 1];
    if head != [] && !AllSlashes(head) then RStripSet(head, {'/'}) else head
  }

  /** `os.path.join(a, b)` */
  function JoinPath(a: string, b: string): string {
    if StartsWith(b, Sep) then b
    else if a == [] || EndsWith(a, Sep) then a + b
    else a + Sep + b
  }

  function Slashes(n: nat): (s: string)
    ensures |s| == n && AllSlashes(s)
  {
    if n == 0 then [] else "/" + Slashes(n - 1)
  }

  /** The component stack of `normpath`: drops '' and '.', and lets '..' pop a component. */
  function NormComps(comps: seq<string>, acc: seq<string>, absolute: bool): seq<string>
    decreases |comps|
  {
    if comps == [] then acc
    else
      var c := comps[0];
      if c == "" || c == "." then NormComps(comps[1..], acc, absolute)
      else if c != ".." || (!absolute && acc == []) || (acc != [] && acc[|acc| - 1] == "..") then
        NormComps(comps[1..], acc + [c], absolute)
      else if acc != [] then NormComps(comps[1..], acc[..|acc| - 1], absolute)
      else NormComps(comps[1..], acc, absolute)
  }

  /** Number of leading separators `normpath` keeps: POSIX gives exactly two a meaning of their own. */
  function InitialSlashes(p: string): nat {
    if !StartsWith(p, "/") then 0
    else if StartsWith(p, "//") && !StartsWith(p, "///") then 2
    else 1
  }

  /** `os.path.normpath(p)` */
  function NormPath(p: string): (r: string)
    ensures r != []
  {
    if p == [] then "."
    else
      var n := InitialSlashes(p);
      var q := Slashes(n) + Join(Sep, NormComps(Split(p, Sep), [], n > 0));
      if q == [] then "." else q
  }

  predicate Clean(comps: seq<string>) {
    forall k :: 0 <= k < |comps| ==> comps[k] != [] && '/' !in comps[k]
  }

  lemma {:induction false} NormCompsClean(comps: seq<string>, acc: seq<string>, absolute: bool)
    requires Clean(acc)
    requires forall k :: 0 <= k < |comps| ==> '/' !in comps[k]
    ensures Clean(NormComps(comps, acc, absolute))
    decreases |comps|
  {
    if comps != [] {
      var c := comps[0];
      if c == "" || c == "." {
        NormCompsClean(comps[1..], acc, absolute);
      } else if c != ".." || (!absolute && acc == []) || (acc != [] && acc[|acc| - 1] == "..") {
        NormCompsClean(comps[1..], acc + [c], absolute);
      } else if acc != [] {
        NormCompsClean(comps[1..], acc[..|acc| - 1], absolute);
      } else {
        NormCompsClean(comps[1..], acc, absolute);
      }
    }
  }

  lemma {:induction false} JoinCleanLast(parts: seq<string>)
    requires parts != [] && Clean(parts)
    ensures Join(Sep, parts) != [] && Join(Sep, parts)[|Join(Sep, parts)| - 1] != '/'
    decreases |parts|
  {
    if |parts| > 1 {
      JoinCleanLast(parts[1..]);
    } else {
      assert parts[0][|parts[0]| - 1] in parts[0];
    }
  }

  /**
   * A normalised path ends with a separator only when it is the root
   * itself ("/", or "//" which POSIX keeps apart).
   */
  lemma {:induction false} NormPathTrailingSep(p: string)
    ensures EndsWith(NormPath(p), Sep) <==> NormPath(p) == "/" || NormPath(p) == "//"
  {
    if p != [] {
      var n := InitialSlashes(p);
      var comps := NormComps(Split(p, Sep), [], n > 0);
      SplitPartsFree(p, '/');
      NormCompsClean(Split(p, Sep), [], n > 0);
      if comps != [] {
        JoinCleanLast(comps);
        var q := Slashes(n) + Join(Sep, comps);
        assert q[|q| - 1] == Join(Sep, comps)[|Join(Sep, comps)| - 1];
      }
    }
  }

  /** `os.path.isabs(p)` */
  predicate IsAbs(p: string) {
    StartsWith(p, Sep)
  }

  /** `os.path.abspath(p)` with the process's working directory `cwd`. */
  function AbsPath(cwd: string, p: string): string {
    if IsAbs(p) then NormPath(p) else NormPath(JoinPath(cwd, p))
  }

  /** Index of the extension dot `splitext` uses, or -1 when there is none. */
  function ExtDot(p: string): (i: int)
    ensures -1 <= i < |p| && (i >= 0 ==> p[i] == '.')
  {
    var sepIndex := RFind(p, '/');
    var dotIndex := RFind(p, '.');
    if dotIndex > sepIndex && exists k :: sepIndex < k < dotIndex && p[k] != '.' then dotIndex else -1
  }

  /** `os.path.splitext(p)`: the root and the extension, with `root + ext == p`. */
  function SplitExt(p: string): (parts: (string, string))
    ensures parts.0 + parts.1 == p
  {
    var i := ExtDot(p);
    if i < 0 then (p, "") else (p[..i], p[i..])
  }

  /** The components `commonpath` compares: '' and '.' are dropped. */
  function PathComps(p: string): seq<string> {
    FilterComps(Split(p, Sep))
  }

  function FilterComps(comps: seq<string>): seq<string>
    decreases |comps|
  {
    if comps == [] then []
    else if comps[0] == "" || comps[0] == "." then FilterComps(comps[1..])
    else [comps[0]] + FilterComps(comps[1..])
  }

  /** Longest common prefix of two component lists. */
  function CommonPrefix(a: seq<string>, b: seq<string>): (c: seq<string>)
    ensures |c| <= |a| && |c| <= |b| && c == a[..|c|] && c == b[..|c|]
    ensures |c| < |a| && |c| < |b| ==> a[|c|] != b[|c|]
    decreases |a|
  {
    if a == [] || b == [] || a[0] != b[0] then []
    else [a[0]] + CommonPrefix(a[1..], b[1..])
  }

  function CommonPrefixAll(paths: seq<string>): seq<string>
    requires paths != []
    decreases |paths|
  {
    if |paths| == 1 then PathComps(paths[0])
    else CommonPrefix(PathComps(paths[0]), CommonPrefixAll(paths[1..]))
  }

  /**
   * `os.path.commonpath(paths)`: None where Python raises ValueError
   * (an empty list, or absolute and relative paths mixed).
   */
  function CommonPath(paths: seq<string>): Option<string>
  {
    if paths == [] then None
    else if (exists i :: 0 <= i < |paths| && IsAbs(paths[i])) && (exists j :: 0 <= j < |paths| && !IsAbs(paths[j])) then None
    else Some((if IsAbs(paths[0]) then Sep else "") + Join(Sep, CommonPrefixAll(paths)))
  }
}
