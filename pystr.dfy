/**
 * The Python `str` operations the uploader relies on, with CPython's
 * semantics: substring tests, `replace`, `split`, `join`, `strip`,
 * `splitlines`, `lower`/`upper` and decimal formatting of integers.
 */
module PyStr {

  datatype Option<T> = None | Some(value: T) {
    function GetOr(default: T): T {
      match this
      case Some(v) => v
      case None => default
    }
  }

  /** The Python exceptions the modelled code can raise, and an endless loop. */
  datatype PyError =
    | KeyError(key: string)
    | IndexError
    | TypeError
    | ValueError
    | AttributeError(name: string)
    | ZeroDivisionError
    | OSError(errno: int, path: string)
    /** Not an exception: the call never returns (a loop that does not end). */
    | Diverges

  datatype Result<T> = Ok(value: T) | Err(error: PyError) {
    predicate IsFailure() {
      Err?
    }

    function PropagateFailure<U>(): Result<U>
      requires Err?
    {
      Err(error)
    }

    function Extract(): T
      requires Ok?
    {
      value
    }
  }

  /** `s.startswith(p)` */
  predicate StartsWith(s: string, p: string) {
    |p| <= |s| && s[..|p|] == p
  }

  /** `s.endswith(p)` */
  predicate EndsWith(s: string, p: string) {
    |p| <= |s| && s[|s| - |p|..] == p
  }

  /** `sub in s` */
  predicate Contains(s: string, sub: string)
    decreases |s|
  {
    StartsWith(s, sub) || (|s| > 0 && Contains(s[1..], sub))
  }

  /** `sub in s` holds exactly when `sub` occurs at some index of `s`. */
  lemma {:induction false} ContainsAt(s: string, sub: string, i: nat)
    requires i + |sub| <= |s| && s[i..i + |sub|] == sub
    ensures Contains(s, sub)
    decreases i
  {
    if i > 0 {
      assert s[1..][i - 1..i - 1 + |sub|] == s[i..i + |sub|];
      ContainsAt(s[1..], sub, i - 1);
    }
  }

  lemma {:induction false} ContainsEmpty(s: string)
    ensures Contains(s, "")
  {
    assert StartsWith(s, "");
  }

  lemma {:induction false} ContainsInEmpty(sub: string)
    requires Contains("", sub)
    ensures sub == ""
  {
  }

  /** `s.replace(pat, rep)`: every non-overlapping occurrence, scanned from the left. */
  function Replace(s: string, pat: string, rep: string): string
    decreases |s|
  {
    if pat == [] then
      // CPython inserts `rep` before every character and at the end
      if s == [] then rep else rep + [s[0]] + Replace(s[1..], pat, rep)
    else if StartsWith(s, pat) then rep + Replace(s[|pat|..], pat, rep)
    else if s == [] then []
    else [s[0]] + Replace(s[1..], pat, rep)
  }

  /** Number of replacements `s.replace(pat, ...)` performs (`s.count(pat)`). */
  function Count(s: string, pat: string): nat
    requires pat != []
    decreases |s|
  {
    if StartsWith(s, pat) then 1 + Count(s[|pat|..], pat)
    else if s == [] then 0
    else Count(s[1..], pat)
  }

  lemma {:induction false} ReplaceAbsent(s: string, pat: string, rep: string)
    requires pat != [] && !Contains(s, pat)
    ensures Replace(s, pat, rep) == s
    decreases |s|
  {
    if s != [] {
      ReplaceAbsent(s[1..], pat, rep);
    }
  }

  /** A first character that cannot start `pat` is kept as it is. */
  lemma {:induction false} ReplaceFirstKept(s: string, pat: string, rep: string)
    requires pat != [] && s != [] && s[0] != pat[0]
    ensures Replace(s, pat, rep) == [s[0]] + Replace(s[1..], pat, rep)
  {
    if |pat| <= |s| {
      assert s[..|pat|][0] == s[0];
    }
  }

  /** The pattern on its own is replaced whole. */
  lemma {:induction false} ReplaceWhole(pat: string, rep: string)
    requires pat != []
    ensures Replace(pat, pat, rep) == rep
  {
    assert StartsWith(pat, pat);
    assert pat[|pat|..] == [];
  }

  lemma {:induction false} ReplaceLength(s: string, pat: string, rep: string)
    requires pat != []
    ensures |Replace(s, pat, rep)| == |s| + Count(s, pat) * (|rep| - |pat|)
    decreases |s|
  {
    var d := |rep| - |pat|;
    if StartsWith(s, pat) {
      var rest := s[|pat|..];
      ReplaceLength(rest, pat, rep);
      var c := Count(rest, pat);
      assert Count(s, pat) == 1 + c;
      assert |Replace(s, pat, rep)| == |rep| + |Replace(rest, pat, rep)|;
      assert |Replace(rest, pat, rep)| == |rest| + c * d;
      Distribute(c, d);
    } else if s != [] {
      ReplaceLength(s[1..], pat, rep);
    }
  }

  lemma {:induction false} Distribute(c: int, d: int)
    ensures (1 + c) * d == d + c * d
  {
  }

  lemma {:induction false} CountZeroIff(s: string, pat: string)
    requires pat != []
    ensures Count(s, pat) == 0 <==> !Contains(s, pat)
    decreases |s|
  {
    if !StartsWith(s, pat) && s != [] {
      CountZeroIff(s[1..], pat);
    }
  }

  /** Replacing a string by itself changes nothing. */
  lemma {:induction false} ReplaceIdentity(s: string, pat: string)
    ensures Replace(s, pat, pat) == s
    decreases |s|
  {
    if pat == [] {
      if s != [] {
        ReplaceIdentity(s[1..], pat);
      }
    } else if StartsWith(s, pat) {
      ReplaceIdentity(s[|pat|..], pat);
      assert s == pat + s[|pat|..];
    } else if s != [] {
      ReplaceIdentity(s[1..], pat);
      assert s == [s[0]] + s[1..];
    }
  }

  /** A stretch `x` lacking the first character of `sub` adds no occurrence of `sub` in front of `y`. */
  lemma {:induction false} ContainsSkipPrefix(x: string, y: string, sub: string)
    requires sub != [] && sub[0] !in x
    requires Contains(x + y, sub)
    ensures Contains(y, sub)
    decreases |x|
  {
    if x != [] {
      var s := x + y;
      assert s[0] == x[0];
      if |sub| <= |s| {
        assert s[..|sub|][0] == x[0];
      }
      assert s[1..] == x[1..] + y;
      ContainsSkipPrefix(x[1..], y, sub);
    } else {
      assert x + y == y;
    }
  }

  /** An occurrence in a suffix is an occurrence in the whole string. */
  lemma {:induction false} ContainsSuffix(s: string, sub: string, j: nat)
    requires j <= |s| && Contains(s[j..], sub)
    ensures Contains(s, sub)
    decreases j
  {
    if j > 0 {
      assert s[1..][j - 1..] == s[j..];
      ContainsSuffix(s[1..], sub, j - 1);
    }
  }

  /**
   * When the replacement starts with a character `w` lacks, a prefix `w`
   * of the result was already a prefix of the input.
   */
  lemma {:induction false} ReplacePrefixKept(s: string, pat: string, rep: string, w: string)
    requires pat != [] && rep != [] && rep[0] !in w
    requires StartsWith(Replace(s, pat, rep), w)
    ensures StartsWith(s, w)
    decreases |s|
  {
    if w != [] {
      var r := Replace(s, pat, rep);
      assert r[..|w|][0] == w[0];
      if StartsWith(s, pat) {
        assert false;
      } else if s != [] {
        var rest := Replace(s[1..], pat, rep);
        assert r == [s[0]] + rest;
        assert rest[..|w| - 1] == r[..|w|][1..] == w[1..];
        ReplacePrefixKept(s[1..], pat, rep, w[1..]);
        assert s[..|w|] == [s[0]] + s[1..][..|w| - 1];
      }
    }
  }

  /** A first character and a prefix of the rest make a prefix. */
  lemma {:induction false} PrefixCons(s: string, w: string)
    requires s != [] && w != [] && s[0] == w[0] && StartsWith(s[1..], w[1..])
    ensures StartsWith(s, w)
  {
    assert s[..|w|] == [s[0]] + s[1..][..|w| - 1];
  }

  /**
   * `s.replace(pat, rep)` holds no occurrence of `sub` when `sub` is the
   * pattern itself or is absent from `s`, provided `sub` and `rep` open
   * with the same character, hold it nowhere else, and then differ.
   * Every occurrence of the pattern is thus rewritten, and the
   * replacement creates no new one.
   */
  lemma {:induction false} ReplaceLeavesNo(s: string, pat: string, rep: string, sub: string, k: nat)
    requires pat != [] && sub != [] && rep != []
    requires rep[0] == sub[0] && rep[0] !in rep[1..] && sub[0] !in sub[1..]
    requires k < |rep| && k < |sub| && rep[k] != sub[k]
    requires sub == pat || !Contains(s, sub)
    ensures !Contains(Replace(s, pat, rep), sub)
    decreases |s|
  {
    if StartsWith(s, pat) {
      var tail := s[|pat|..];
      if sub != pat && Contains(tail, sub) {
        ContainsSuffix(s, sub, |pat|);
      }
      ReplaceLeavesNo(tail, pat, rep, sub, k);
      ReplacedHeadLeavesNo(s, pat, rep, sub, k);
    } else if s != [] {
      ReplaceLeavesNo(s[1..], pat, rep, sub, k);
      KeptHeadLeavesNo(s, pat, rep, sub);
    }
  }

  /** The step of `ReplaceLeavesNo` where the text starts with the pattern. */
  lemma {:induction false} ReplacedHeadLeavesNo(s: string, pat: string, rep: string, sub: string, k: nat)
    requires pat != [] && sub != [] && rep != [] && StartsWith(s, pat)
    requires rep[0] == sub[0] && rep[0] !in rep[1..]
    requires k < |rep| && k < |sub| && rep[k] != sub[k]
    requires !Contains(Replace(s[|pat|..], pat, rep), sub)
    ensures !Contains(Replace(s, pat, rep), sub)
  {
    var rest := Replace(s[|pat|..], pat, rep);
    assert Replace(s, pat, rep) == rep + rest;
    PrefixedLeavesNo(rep, rest, sub, k);
  }

  /** `sub` does not occur in `rep + rest` when it occurs neither in `rest` nor at `rep`'s start. */
  lemma {:induction false} PrefixedLeavesNo(rep: string, rest: string, sub: string, k: nat)
    requires sub != [] && rep != [] && rep[0] == sub[0] && rep[0] !in rep[1..]
    requires k < |rep| && k < |sub| && rep[k] != sub[k]
    requires !Contains(rest, sub)
    ensures !Contains(rep + rest, sub)
  {
    var r := rep + rest;
    if Contains(r, sub) {
      if |sub| <= |r| {
        assert r[..|sub|][k] == rep[k];
      }
      assert r[1..] == rep[1..] + rest;
      ContainsSkipPrefix(rep[1..], rest, sub);
    }
  }

  /** The step of `ReplaceLeavesNo` where the first character is kept. */
  lemma {:induction false} KeptHeadLeavesNo(s: string, pat: string, rep: string, sub: string)
    requires pat != [] && sub != [] && rep != [] && s != [] && !StartsWith(s, pat)
    requires rep[0] == sub[0] && sub[0] !in sub[1..]
    requires sub == pat || !Contains(s, sub)
    requires !Contains(Replace(s[1..], pat, rep), sub)
    ensures !Contains(Replace(s, pat, rep), sub)
  {
    var rest := Replace(s[1..], pat, rep);
    var r := [s[0]] + rest;
    assert Replace(s, pat, rep) == r;
    assert r[1..] == rest;
    if StartsWith(r, sub) {
      assert rest[..|sub| - 1] == r[..|sub|][1..] == sub[1..];
      ReplacePrefixKept(s[1..], pat, rep, sub[1..]);
      PrefixCons(s, sub);
      assert false;
    }
  }

  /** `s.split(sep)` for a non-empty separator. */
  function Split(s: string, sep: string): (parts: seq<string>)
    requires sep != []
    ensures |parts| >= 1
    decreases |s|
  {
    if StartsWith(s, sep) then [""] + Split(s[|sep|..], sep)
    else if s == [] then [""]
    else
      var rest := Split(s[1..], sep);
      [[s[0]] + rest[0]] + rest[1..]
  }

  /** `sep.join(s.split(sep))` gives `s` back, for a one-character separator. */
  lemma {:induction false} SplitJoin(s: string, c: char)
    ensures Join([c], Split(s, [c])) == s
    decreases |s|
  {
    if StartsWith(s, [c]) {
      SplitJoin(s[1..], c);
      assert s == [c] + s[1..];
    } else if s != [] {
      SplitJoin(s[1..], c);
      var rest := Split(s[1..], [c]);
      assert s == [s[0]] + s[1..];
      if |rest| > 1 {
        assert Join([c], rest) == rest[0] + [c] + Join([c], rest[1..]);
      }
    }
  }

  /** A string without the separator splits into itself alone. */
  lemma {:induction false} SplitAbsent(s: string, sep: string)
    requires sep != [] && !Contains(s, sep)
    ensures Split(s, sep) == [s]
    decreases |s|
  {
    if s != [] {
      SplitAbsent(s[1..], sep);
      assert s == [s[0]] + s[1..];
    }
  }

  /** Splitting at an occurrence of the separator with none starting before it. */
  lemma {:induction false} SplitAtSep(x: string, sep: string, y: string)
    requires sep != []
    requires forall i :: 0 <= i < |x| ==> !StartsWith((x + sep + y)[i..], sep)
    ensures Split(x + sep + y, sep) == [x] + Split(y, sep)
    decreases |x|
  {
    var s := x + sep + y;
    if x == [] {
      assert s == sep + y && s[..|sep|] == sep && s[|sep|..] == y;
    } else {
      assert !StartsWith(s[0..], sep);
      assert s[0..] == s;
      assert s[1..] == x[1..] + sep + y;
      forall i | 0 <= i < |x[1..]|
        ensures !StartsWith((x[1..] + sep + y)[i..], sep)
      {
        assert (x[1..] + sep + y)[i..] == s[i + 1..];
      }
      SplitAtSep(x[1..], sep, y);
      assert x == [x[0]] + x[1..];
    }
  }

  /** `s.split(sep, n)`: at most `n` splits, the remainder stays in the last part. */
  function SplitN(s: string, sep: string, n: nat): (parts: seq<string>)
    requires sep != []
    ensures 1 <= |parts| <= n + 1
    decreases |s|
  {
    if n == 0 then [s]
    else if StartsWith(s, sep) then [""] + SplitN(s[|sep|..], sep, n - 1)
    else if s == [] then [""]
    else
      var rest := SplitN(s[1..], sep, n);
      [[s[0]] + rest[0]] + rest[1..]
  }

  /** A single-character separator never survives inside a part. */
  lemma {:induction false} SplitPartsFree(s: string, c: char)
    ensures forall k :: 0 <= k < |Split(s, [c])| ==> c !in Split(s, [c])[k]
    decreases |s|
  {
    if StartsWith(s, [c]) {
      SplitPartsFree(s[1..], c);
    } else if s != [] {
      SplitPartsFree(s[1..], c);
      assert s[0] != c;
    }
  }

  /** Splitting at the first occurrence of a one-character separator. */
  lemma {:induction false} SplitAtFirst(s: string, c: char, i: nat)
    requires i < |s| && s[i] == c && c !in s[..i]
    ensures Split(s, [c]) == [s[..i]] + Split(s[i + 1..], [c])
    decreases i
  {
    if i > 0 {
      assert s[0] == s[..i][0];
      assert c !in s[1..][..i - 1] by { assert s[1..][..i - 1] == s[..i][1..]; }
      SplitAtFirst(s[1..], c, i - 1);
      assert s[1..][i..] == s[i + 1..];
      assert [s[0]] + s[1..][..i - 1] == s[..i];
    }
  }

  /** A split on a one-character separator has one part exactly when the separator is absent, and that part is the whole string. */
  lemma {:induction false} SplitSingle(s: string, c: char)
    ensures |Split(s, [c])| == 1 <==> c !in s
    ensures |Split(s, [c])| == 1 ==> Split(s, [c])[0] == s
    decreases |s|
  {
    if StartsWith(s, [c]) {
      assert s[0] == c;
    } else if s != [] {
      SplitSingle(s[1..], c);
      assert s == [s[0]] + s[1..];
    }
  }

  /** The last part of a split on a one-character separator is the text after the last separator. */
  lemma {:induction false} SplitLast(s: string, c: char)
    ensures var parts := Split(s, [c]);
            var l := parts[|parts| - 1];
            EndsWith(s, l) && c !in l && (|l| < |s| ==> s[|s| - |l| - 1] == c)
    decreases |s|
  {
    LastPartFree(s, c);
    if s != [] {
      SplitLast(s[1..], c);
      SplitCons(s, c);
      SplitSingle(s[1..], c);
      LastPartStep(s, c, Split(s, [c]), Split(s[1..], [c]));
    }
  }

  /** The last part of a split holds no separator. */
  lemma {:induction false} LastPartFree(s: string, c: char)
    ensures var parts := Split(s, [c]);
            c !in parts[|parts| - 1]
  {
    SplitPartsFree(s, c);
  }

  /** The inductive step of `SplitLast`, on the parts of `s` and of `s[1..]`. */
  lemma {:induction false} LastPartStep(s: string, c: char, parts: seq<string>, rest: seq<string>)
    requires s != [] && |rest| >= 1 && |parts| >= 1
    requires s[0] == c ==> parts == [""] + rest
    requires s[0] != c ==> parts == [[s[0]] + rest[0]] + rest[1..]
    requires c !in parts[|parts| - 1]
    requires |rest| == 1 <==> c !in s[1..]
    requires |rest| == 1 ==> rest[0] == s[1..]
    requires var l := rest[|rest| - 1];
             EndsWith(s[1..], l) && (|l| < |s| - 1 ==> s[1..][|s| - 1 - |l| - 1] == c)
    ensures var l := parts[|parts| - 1];
            EndsWith(s, l) && c !in l && (|l| < |s| ==> s[|s| - |l| - 1] == c)
  {
    var l := rest[|rest| - 1];
    EndsWithTail(s, l);
    if s[0] != c && |rest| == 1 {
      assert [s[0]] + s[1..] == s;
    }
  }

  /** A suffix of `s[1..]` is a suffix of `s`, preceded by the same character. */
  lemma {:induction false} EndsWithTail(s: string, l: string)
    requires s != [] && EndsWith(s[1..], l)
    ensures EndsWith(s, l)
    ensures |l| < |s| - 1 ==> s[|s| - |l| - 1] == s[1..][|s| - 1 - |l| - 1]
    ensures |l| == |s| - 1 ==> s[|s| - |l| - 1] == s[0]
  {
    assert s[|s| - |l|..] == s[1..][|s| - 1 - |l|..];
  }

  /** `Split` on a one-character separator, one step. */
  lemma {:induction false} SplitCons(s: string, c: char)
    requires s != []
    ensures s[0] == c ==> Split(s, [c]) == [""] + Split(s[1..], [c])
    ensures s[0] != c ==> var rest := Split(s[1..], [c]);
                          Split(s, [c]) == [[s[0]] + rest[0]] + rest[1..]
  {
    assert StartsWith(s, [c]) <==> s[0] == c;
  }

  /** `s.split(sep)[0]`: the text before the first separator. */
  function BeforeFirst(s: string, sep: string): string
    requires sep != []
  {
    Split(s, sep)[0]
  }

  /** `sep.join(parts)` */
  function Join(sep: string, parts: seq<string>): string
  {
    if parts == [] then ""
    else if |parts| == 1 then parts[0]
    else parts[0] + sep + Join(sep, parts[1..])
  }

  /** `str.isspace()` for one character. */
  predicate IsSpace(c: char) {
    var n := c as int;
    (9 <= n <= 13) || (28 <= n <= 32) || n == 0x85 || n == 0xA0 || n == 0x1680
    || (0x2000 <= n <= 0x200A) || n == 0x2028 || n == 0x2029 || n == 0x202F
    || n == 0x205F || n == 0x3000
  }

  function LStripSet(s: string, cs: set<char>): (r: string)
    ensures |r| <= |s| && r == s[|s| - |r|..]
    ensures r != [] ==> r[0] !in cs
    decreases |s|
  {
    if |s| > 0 && s[0] in cs then LStripSet(s[1..], cs) else s
  }

  function RStripSet(s: string, cs: set<char>): (r: string)
    ensures |r| <= |s| && r == s[..|r|]
    ensures r != [] ==> r[|r| - 1] !in cs
    decreases |s|
  {
    if |s| > 0 && s[|s| - 1] in cs then RStripSet(s[..|s| - 1], cs) else s
  }

  /** `s.strip(chars)` */
  function StripSet(s: string, cs: set<char>): string {
    RStripSet(LStripSet(s, cs), cs)
  }

  function LStrip(s: string): (r: string)
    ensures |r| <= |s| && r == s[|s| - |r|..]
    ensures r != [] ==> !IsSpace(r[0])
    decreases |s|
  {
    if |s| > 0 && IsSpace(s[0]) then LStrip(s[1..]) else s
  }

  function RStrip(s: string): (r: string)
    ensures |r| <= |s| && r == s[..|r|]
    ensures r != [] ==> !IsSpace(r[|r| - 1])
    decreases |s|
  {
    if |s| > 0 && IsSpace(s[|s| - 1]) then RStrip(s[..|s| - 1]) else s
  }

  /** `s.strip()` */
  function Strip(s: string): string {
    RStrip(LStrip(s))
  }

  /** The leading run of non-whitespace characters. */
  function Word(s: string): (w: string)
    ensures |w| <= |s| && w == s[..|w|]
    ensures |w| < |s| ==> IsSpace(s[|w|])
    decreases |s|
  {
    if s == [] || IsSpace(s[0]) then [] else [s[0]] + Word(s[1..])
  }

  /** `s.split()`: maximal runs of non-whitespace. */
  function SplitWhitespace(s: string): seq<string>
    decreases |s|
  {
    var t := LStrip(s);
    if t == [] then []
    else
      var w := Word(t);
      [w] + SplitWhitespace(t[|w|..])
  }

  /** Line boundaries recognised by `str.splitlines()`. */
  predicate IsLineBreak(c: char) {
    var n := c as int;
    (10 <= n <= 13) || (28 <= n <= 30) || n == 0x85 || n == 0x2028 || n == 0x2029
  }

  /** The text of the first line and the length of its terminator. */
  function LineLength(s: string): (n: nat)
    ensures n <= |s| && (n < |s| ==> IsLineBreak(s[n]))
    decreases |s|
  {
    if s == [] || IsLineBreak(s[0]) then 0 else 1 + LineLength(s[1..])
  }

  /** `s.splitlines()`: `\r\n` counts as one boundary and no empty last line is produced. */
  function SplitLines(s: string): seq<string>
    decreases |s|
  {
    if s == [] then []
    else
      var n := LineLength(s);
      if n == |s| then [s]
      else
        var term := if s[n] == '\r' && n + 1 < |s| && s[n + 1] == '\n' then 2 else 1;
        [s[..n]] + SplitLines(s[n + term..])
  }

  function LowerChar(c: char): char {
    if 'A' <= c <= 'Z' then (c as int + 32) as char else c
  }

  function UpperChar(c: char): char {
    if 'a' <= c <= 'z' then (c as int - 32) as char else c
  }

  /** `s.lower()` (ASCII letters). */
  function Lower(s: string): (r: string)
    ensures |r| == |s|
    decreases |s|
  {
    if s == [] then [] else [LowerChar(s[0])] + Lower(s[1..])
  }

  /** `s.upper()` (ASCII letters). */
  function Upper(s: string): (r: string)
    ensures |r| == |s|
    decreases |s|
  {
    if s == [] then [] else [UpperChar(s[0])] + Upper(s[1..])
  }

  lemma {:induction false} LowerAt(s: string, i: nat)
    requires i < |s|
    ensures Lower(s)[i] == LowerChar(s[i])
    decreases i
  {
    if i > 0 {
      LowerAt(s[1..], i - 1);
    }
  }

  lemma {:induction false} LowerPrefix(s: string, n: nat)
    requires n <= |s|
    ensures Lower(s)[..n] == Lower(s[..n])
    decreases n
  {
    if n > 0 {
      LowerPrefix(s[1..], n - 1);
      assert s[..n][1..] == s[1..][..n - 1];
    }
  }

  lemma {:induction false} UpperAt(s: string, i: nat)
    requires i < |s|
    ensures Upper(s)[i] == UpperChar(s[i])
    decreases i
  {
    if i > 0 {
      UpperAt(s[1..], i - 1);
    }
  }

  /** `s.upper()` leaves no lower-case ASCII letter. */
  lemma {:induction false} UpperHasNoLower(s: string)
    ensures forall x :: x in Upper(s) ==> !('a' <= x <= 'z')
    decreases |s|
  {
    if s != [] {
      UpperHasNoLower(s[1..]);
    }
  }

  /** A character absent from `s` is absent from every part of `s.split(sep)`. */
  lemma {:induction false} SplitKeepsAbsent(s: string, sep: string, c: char)
    requires sep != [] && c !in s
    ensures forall k :: 0 <= k < |Split(s, sep)| ==> c !in Split(s, sep)[k]
    decreases |s|
  {
    if StartsWith(s, sep) {
      SplitKeepsAbsent(s[|sep|..], sep, c);
    } else if s != [] {
      SplitKeepsAbsent(s[1..], sep, c);
      assert c != s[0];
    }
  }

  /** A character absent from the separator and from every part is absent from `sep.join(parts)`. */
  lemma {:induction false} JoinKeepsAbsent(sep: string, parts: seq<string>, c: char)
    requires c !in sep
    requires forall k :: 0 <= k < |parts| ==> c !in parts[k]
    ensures c !in Join(sep, parts)
    decreases |parts|
  {
    if |parts| > 1 {
      JoinKeepsAbsent(sep, parts[1..], c);
    }
  }

  /** `s.strip()` is a slice of `s`, so a character absent from `s` is absent from it. */
  lemma {:induction false} StripKeepsAbsent(s: string, c: char)
    requires c !in s
    ensures c !in Strip(s)
  {
    var l := LStrip(s);
    assert forall x :: x in l ==> x in s;
    var r := RStrip(l);
    assert forall x :: x in r ==> x in l;
  }

  /** A leading whitespace character does not change `s.strip()`. */
  lemma {:induction false} StripLeadingSpace(sp: char, s: string)
    requires IsSpace(sp)
    ensures Strip([sp] + s) == Strip(s)
  {
    assert ([sp] + s)[1..] == s;
  }

  /** A trailing whitespace character does not change `s.strip()`. */
  lemma {:induction false} StripTrailingSpace(s: string, sp: char)
    requires IsSpace(sp)
    ensures Strip(s + [sp]) == Strip(s)
    decreases |s|
  {
    var t := s + [sp];
    if s == [] {
      assert LStrip(t) == LStrip(t[1..]) && t[1..] == [];
    } else if IsSpace(s[0]) {
      assert t[1..] == s[1..] + [sp];
      StripTrailingSpace(s[1..], sp);
    } else {
      assert LStrip(t) == t && LStrip(s) == s;
      assert t[..|t| - 1] == s;
    }
  }

  /** Stripping twice is stripping once. */
  lemma {:induction false} StripIdempotent(s: string)
    ensures Strip(Strip(s)) == Strip(s)
  {
    var l := LStrip(s);
    var r := RStrip(l);
    if r != [] {
      assert r[0] == l[0];
    }
    LStripUnchanged(r);
    RStripUnchanged(r);
  }

  /** A text that does not start with whitespace is its own `lstrip()`. */
  lemma {:induction false} LStripUnchanged(s: string)
    requires s != [] ==> !IsSpace(s[0])
    ensures LStrip(s) == s
  {
  }

  /** A text that does not end with whitespace is its own `rstrip()`. */
  lemma {:induction false} RStripUnchanged(s: string)
    requires s != [] ==> !IsSpace(s[|s| - 1])
    ensures RStrip(s) == s
  {
  }

  /** Lower-casing forgets an upper-casing. */
  lemma {:induction false} LowerUpper(s: string)
    ensures Lower(Upper(s)) == Lower(s)
    decreases |s|
  {
    if s != [] {
      LowerUpper(s[1..]);
    }
  }

  /** Deleting a character (`s.replace(c, '')`) keeps only other characters of `s`. */
  lemma {:induction false} DeleteChar(s: string, c: char)
    ensures forall x :: x in Replace(s, [c], "") ==> x in s && x != c
    decreases |s|
  {
    if s != [] {
      DeleteChar(s[1..], c);
    }
  }

  function DigitChar(d: nat): char
    requires d < 10
  {
    ('0' as int + d) as char
  }

  /** `str(n)` for a natural number. */
  function NatToString(n: nat): (r: string)
    ensures 1 <= |r| && (n >= 10 ==> |r| >= 2)
    ensures r[|r| - 1] == DigitChar(n % 10)
    decreases n
  {
    if n < 10 then [DigitChar(n)] else NatToString(n / 10) + [DigitChar(n % 10)]
  }

  /** Decimal formatting is injective, so counters give distinct names. */
  lemma {:induction false} NatToStringInjective(n: nat, m: nat)
    requires NatToString(n) == NatToString(m)
    ensures n == m
    decreases n
  {
    var a, b := NatToString(n), NatToString(m);
    assert DigitChar(n % 10) == DigitChar(m % 10);
    if n >= 10 && m >= 10 {
      assert NatToString(n / 10) == a[..|a| - 1] == b[..|b| - 1] == NatToString(m / 10);
      NatToStringInjective(n / 10, m / 10);
    }
  }

  /** `str(i)` for an integer. */
  function IntToString(i: int): string {
    if i < 0 then "-" + NatToString(-i) else NatToString(i)
  }
}
