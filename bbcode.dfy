/**
 * The string-level parts of the BBCode helpers: the literal tag
 * converters and the blank-line clean-up that ends the two description
 * cleaners. The regular-expression passes, `html.unescape` and URL
 * parsing between the start of a cleaner and its clean-up are not part of
 * this model; they are a function parameter.
 */
module BBCode {
  import opened PyStr

  /**
   * Two successive `replace` calls whose replacements both lengthen, or
   * both shorten, the text leave it unchanged exactly when neither
   * pattern occurs in it.
   */
  lemma {:induction false} ReplaceTwiceUnchanged(s: string, p1: string, r1: string, p2: string, r2: string)
    requires p1 != [] && p2 != []
    requires (|r1| > |p1| && |r2| > |p2|) || (|r1| < |p1| && |r2| < |p2|)
    ensures Replace(Replace(s, p1, r1), p2, r2) == s <==> !Contains(s, p1) && !Contains(s, p2)
  {
    var mid := Replace(s, p1, r1);
    ReplaceLength(s, p1, r1);
    ReplaceLength(mid, p2, r2);
    CountZeroIff(s, p1);
    CountZeroIff(mid, p2);
    if !Contains(s, p1) {
      ReplaceAbsent(s, p1, r1);
      if !Contains(s, p2) {
        ReplaceAbsent(s, p2, r2);
      }
    }
    if Replace(mid, p2, r2) == s {
      var c1, c2 := Count(s, p1), Count(mid, p2);
      var d1, d2 := |r1| - |p1|, |r2| - |p2|;
      assert c1 * d1 + c2 * d2 == 0;
      SameSignSum(c1, d1, c2, d2);
      ReplaceAbsent(s, p1, r1);
    }
  }

  /** Two non-negative counts times two same-signed non-zero differences sum to zero only when both counts are zero. */
  lemma {:induction false} SameSignSum(c1: nat, d1: int, c2: nat, d2: int)
    requires (d1 > 0 && d2 > 0) || (d1 < 0 && d2 < 0)
    requires c1 * d1 + c2 * d2 == 0
    ensures c1 == 0 && c2 == 0
  {
    if d1 > 0 {
      assert c1 * d1 >= 0 && c2 * d2 >= 0;
    } else {
      assert c1 * d1 <= 0 && c2 * d2 <= 0;
    }
  }

  /**
   * After replacing every opening tag `p1` by `r1` and then every closing
   * tag `p2` by `r2`, neither old tag is left: each replacement opens with
   * '[' like the tags, holds no other '[', and differs from both tags
   * right after it (or, for the closing tags, after the shared "[/").
   */
  lemma {:induction false} TagsRewritten(s: string, p1: string, r1: string, p2: string, r2: string)
    requires |p1| >= 2 && |r1| >= 2 && |p2| >= 3 && |r2| >= 3
    requires p1[0] == r1[0] == p2[0] == r2[0] == '['
    requires '[' !in p1[1..] && '[' !in r1[1..] && '[' !in p2[1..] && '[' !in r2[1..]
    requires p1[1] != r1[1] && p1[1] != r2[1] && p2[2] != r2[2]
    ensures var r := Replace(Replace(s, p1, r1), p2, r2);
            !Contains(r, p1) && !Contains(r, p2)
  {
    var mid := Replace(s, p1, r1);
    ReplaceLeavesNo(s, p1, r1, p1, 1);
    ReplaceLeavesNo(mid, p2, r2, p1, 1);
    ReplaceLeavesNo(mid, p2, r2, p2, 2);
  }

  /**
   * An opening tag `p1` and a closing tag `p2` with replacements that the
   * two rewrites cannot re-create, and that both lengthen or both shorten
   * the text.
   */
  predicate TagRewrite(p1: string, r1: string, p2: string, r2: string) {
    && |p1| >= 2 && |r1| >= 2 && |p2| >= 3 && |r2| >= 3
    && p1[0] == r1[0] == p2[0] == r2[0] == '['
    && '[' !in p1[1..] && '[' !in r1[1..] && '[' !in p2[1..] && '[' !in r2[1..]
    && p1[1] != r1[1] && p1[1] != r2[1] && p2[2] != r2[2]
    && ((|r1| > |p1| && |r2| > |p2|) || (|r1| < |p1| && |r2| < |p2|))
  }

  /**
   * The shape shared by the literal converters: every `p1` becomes `r1`,
   * then every `p2` becomes `r2`. Neither old tag is left, and the text
   * is unchanged exactly when it held neither.
   */
  function ReplaceTags(desc: string, p1: string, r1: string, p2: string, r2: string): (r: string)
    requires TagRewrite(p1, r1, p2, r2)
    ensures r == desc <==> !Contains(desc, p1) && !Contains(desc, p2)
    ensures !Contains(r, p1) && !Contains(r, p2)
  {
    ReplaceTwiceUnchanged(desc, p1, r1, p2, r2);
    TagsRewritten(desc, p1, r1, p2, r2);
    Replace(Replace(desc, p1, r1), p2, r2)
  }

  /** `convert_pre_to_code`: `[pre]` and `[/pre]` become `[code]` and `[/code]`. */
  function ConvertPreToCode(desc: string): (r: string)
    ensures r == desc <==> !Contains(desc, "[pre]") && !Contains(desc, "[/pre]")
    ensures !Contains(r, "[pre]") && !Contains(r, "[/pre]")
  {
    ReplaceTags(desc, "[pre]", "[code]", "[/pre]", "[/code]")
  }

  /** `convert_hide_to_spoiler`: `[hide` (with any `=` argument) and `[/hide]` become spoiler tags. */
  function ConvertHideToSpoiler(desc: string): (r: string)
    ensures r == desc <==> !Contains(desc, "[hide") && !Contains(desc, "[/hide]")
    ensures !Contains(r, "[hide") && !Contains(r, "[/hide]")
  {
    ReplaceTags(desc, "[hide", "[spoiler", "[/hide]", "[/spoiler]")
  }

  /** `convert_spoiler_to_hide`: the converse rewriting. */
  function ConvertSpoilerToHide(desc: string): (r: string)
    ensures r == desc <==> !Contains(desc, "[spoiler") && !Contains(desc, "[/spoiler]")
    ensures !Contains(r, "[spoiler") && !Contains(r, "[/spoiler]")
  {
    ReplaceTags(desc, "[spoiler", "[hide", "[/spoiler]", "[/hide]")
  }

  /** `convert_spoiler_to_code`: spoiler tags become code tags. */
  function ConvertSpoilerToCode(desc: string): (r: string)
    ensures r == desc <==> !Contains(desc, "[spoiler") && !Contains(desc, "[/spoiler]")
    ensures !Contains(r, "[spoiler") && !Contains(r, "[/spoiler]")
  {
    ReplaceTags(desc, "[spoiler", "[code", "[/spoiler]", "[/code]")
  }

  /** `convert_code_to_quote`: code tags become quote tags. */
  function ConvertCodeToQuote(desc: string): (r: string)
    ensures r == desc <==> !Contains(desc, "[code") && !Contains(desc, "[/code]")
    ensures !Contains(r, "[code") && !Contains(r, "[/code]")
  {
    ReplaceTags(desc, "[code", "[quote", "[/code]", "[/quote]")
  }

  /** A string of `n` newlines. */
  function Newlines(n: nat): (s: string)
    ensures |s| == n && forall i :: 0 <= i < n ==> s[i] == '\n'
  {
    if n == 0 then [] else "\n" + Newlines(n - 1)
  }

  /**
   * Squeezing newline runs (`re.sub(r"\n\n+", "\n\n", s)` for k = 2,
   * `re.sub(r"\n+", "\n", s)` for k = 1): every maximal run of newlines
   * keeps at most `k` of them. `run` counts the newlines just emitted.
   */
  function Squeeze(s: string, k: nat, run: nat): string
    decreases |s|
  {
    if s == [] then []
    else if s[0] == '\n' then
      if run < k then "\n" + Squeeze(s[1..], k, run + 1) else Squeeze(s[1..], k, run)
    else [s[0]] + Squeeze(s[1..], k, 0)
  }

  /** A run of L newlines followed by a non-newline becomes min(L, k) newlines. */
  lemma {:induction false} SqueezeRun(n: nat, rest: string, k: nat, run: nat)
    requires rest == [] || rest[0] != '\n'
    requires run <= k
    ensures Squeeze(Newlines(n) + rest, k, run)
            == Newlines(if run + n <= k then n else k - run) + Squeeze(rest, k, run + (if run + n <= k then n else k - run))
    decreases n
  {
    if n > 0 {
      var s := Newlines(n) + rest;
      assert s[0] == '\n';
      assert s[1..] == Newlines(n - 1) + rest;
      if run < k {
        SqueezeRun(n - 1, rest, k, run + 1);
        var m := if run + n <= k then n else k - run;
        KeptNewline(s, k, run, m, Squeeze(rest, k, run + m));
      } else {
        SqueezeRun(n - 1, rest, k, run);
      }
    } else {
      assert Newlines(0) + rest == rest;
    }
  }

  /** A newline below the bound is kept in front of the squeezed rest. */
  lemma {:induction false} KeptNewline(s: string, k: nat, run: nat, m: nat, after: string)
    requires s != [] && s[0] == '\n' && run < k && m > 0
    requires Squeeze(s[1..], k, run + 1) == Newlines(m - 1) + after
    ensures Squeeze(s, k, run) == Newlines(m) + after
  {
    assert Squeeze(s, k, run) == "\n" + Squeeze(s[1..], k, run + 1);
    assert Newlines(m) == "\n" + Newlines(m - 1);
  }

  /** Before a non-newline character the run counter does not matter. */
  lemma {:induction false} SqueezeNoNewlineStart(s: string, k: nat, run: nat)
    requires s == [] || s[0] != '\n'
    ensures Squeeze(s, k, run) == Squeeze(s, k, 0)
  {
  }

  /** No run of more than `k` newlines, given `run` newlines just before `s`. */
  predicate RunsAtMost(s: string, k: nat, run: nat)
    decreases |s|
  {
    s == [] || (if s[0] == '\n' then run < k && RunsAtMost(s[1..], k, run + 1) else RunsAtMost(s[1..], k, 0))
  }

  lemma {:induction false} SqueezeRunsAtMost(s: string, k: nat, run: nat)
    requires run <= k
    ensures RunsAtMost(Squeeze(s, k, run), k, run)
    decreases |s|
  {
    if s != [] {
      if s[0] == '\n' {
        SqueezeRunsAtMost(s[1..], k, if run < k then run + 1 else run);
      } else {
        SqueezeRunsAtMost(s[1..], k, 0);
      }
    }
  }

  /** No three consecutive newlines. */
  predicate NoTripleNewline(s: string) {
    forall i :: 0 <= i < |s| - 2 ==> !(s[i] == '\n' && s[i + 1] == '\n' && s[i + 2] == '\n')
  }

  /** No two consecutive newlines. */
  predicate NoDoubleNewline(s: string) {
    forall i :: 0 <= i < |s| - 1 ==> !(s[i] == '\n' && s[i + 1] == '\n')
  }

  lemma {:induction false} RunsAtMostTwo(s: string, run: nat)
    requires RunsAtMost(s, 2, run)
    ensures NoTripleNewline(s)
    ensures run >= 1 && |s| >= 2 ==> !(s[0] == '\n' && s[1] == '\n')
    ensures run >= 2 && |s| >= 1 ==> s[0] != '\n'
    decreases |s|
  {
    if s != [] {
      RunsAtMostTwo(s[1..], if s[0] == '\n' then run + 1 else 0);
      forall i | 0 <= i < |s| - 2
        ensures !(s[i] == '\n' && s[i + 1] == '\n' && s[i + 2] == '\n')
      {
        if i > 0 {
          assert s[i] == s[1..][i - 1] && s[i + 1] == s[1..][i] && s[i + 2] == s[1..][i + 1];
        }
      }
    }
  }

  lemma {:induction false} RunsAtMostOne(s: string, run: nat)
    requires RunsAtMost(s, 1, run)
    ensures NoDoubleNewline(s)
    ensures run >= 1 && |s| >= 1 ==> s[0] != '\n'
    decreases |s|
  {
    if s != [] {
      RunsAtMostOne(s[1..], if s[0] == '\n' then run + 1 else 0);
      forall i | 0 <= i < |s| - 1
        ensures !(s[i] == '\n' && s[i + 1] == '\n')
      {
        if i > 0 {
          assert s[i] == s[1..][i - 1] && s[i + 1] == s[1..][i];
        }
      }
    }
  }

  /** Squeezing keeps the first character when it is not a newline, and never empties a non-empty text. */
  lemma {:induction false} SqueezeFirst(s: string, k: nat)
    requires s != [] && s[0] != '\n'
    ensures Squeeze(s, k, 0) != [] && Squeeze(s, k, 0)[0] == s[0]
  {
  }

  /** Squeezing keeps the last character when it is not a newline. */
  lemma {:induction false} SqueezeLast(s: string, k: nat, run: nat)
    requires s != [] && s[|s| - 1] != '\n'
    ensures var r := Squeeze(s, k, run); r != [] && r[|r| - 1] == s[|s| - 1]
    decreases |s|
  {
    if |s| > 1 {
      SqueezeLast(s[1..], k, if s[0] == '\n' then (if run < k then run + 1 else run) else 0);
    }
  }

  /** A stripped text neither starts nor ends with a stripped character. */
  lemma {:induction false} StripSetEnds(s: string, cs: set<char>)
    ensures var r := StripSet(s, cs); r != [] ==> r[0] !in cs && r[|r| - 1] !in cs
  {
    var l := LStripSet(s, cs);
    var r := RStripSet(l, cs);
    if r != [] {
      assert r[0] == l[0];
    }
  }

  /** Stripping newlines from a text of newlines leaves nothing. */
  lemma {:induction false} AllStripped(s: string)
    requires forall i :: 0 <= i < |s| ==> s[i] == '\n'
    ensures LStripSet(s, {'\n'}) == []
    decreases |s|
  {
    if s != [] {
      AllStripped(s[1..]);
    }
  }

  /** The first strip and the squeeze: no three consecutive newlines, and nothing left of a text of newlines. */
  lemma {:induction false} PtpSqueezed(desc: string)
    ensures NoTripleNewline(Squeeze(StripSet(desc, {'\n'}), 2, 0))
    ensures (forall i :: 0 <= i < |desc| ==> desc[i] == '\n') ==> Squeeze(StripSet(desc, {'\n'}), 2, 0) == []
  {
    var stripped := StripSet(desc, {'\n'});
    SqueezeRunsAtMost(stripped, 2, 0);
    RunsAtMostTwo(Squeeze(stripped, 2, 0), 0);
    if forall i :: 0 <= i < |desc| ==> desc[i] == '\n' {
      AllStripped(desc);
    }
  }

  /**
   * The blank-line clean-up at the end of `clean_ptp_description`: strip
   * newlines, squeeze blank-line runs to one blank line, drop leading
   * newlines, strip again, and give "" for a text of newlines only. Only
   * newlines are ever removed: the other characters all stay, in order.
   */
  method PtpCleanup(desc: string) returns (r: string)
    ensures r == "" || (r[0] != '\n' && r[|r| - 1] != '\n')
    ensures NoTripleNewline(r)
    ensures (forall i :: 0 <= i < |desc| ==> desc[i] == '\n') ==> r == ""
    ensures Replace(r, "\n", "") == Replace(desc, "\n", "")
    ensures r == "" <==> Replace(desc, "\n", "") == ""
    ensures r == "" || r == Squeeze(StripSet(desc, {'\n'}), 2, 0)
  {
    var stripped := StripSet(desc, {'\n'});
    var d := Squeeze(stripped, 2, 0);
    ghost var target := StripSet(d, {'\n'});
    while |d| > 0 && d[0] == '\n'  // `desc.startswith('\n')`
      invariant StripSet(d, {'\n'}) == target
    {
      StripSetDropFirst(d, {'\n'});
      d := d[1..];
    }
    d := StripSet(d, {'\n'});
    // The squeezed text neither starts nor ends with a newline, so the loop
    // above never ran and the second strip changed nothing.
    SqueezedKeepsEnds(desc);
    assert d == Squeeze(stripped, 2, 0);
    PtpSqueezed(desc);
    StripSetKeepsText(desc);
    SqueezeKeepsText(stripped, 2, 0);
    if Replace(d, "\n", "") == "" {
      r := "";
    } else {
      r := d;
    }
  }

  /** The first strip and the squeeze leave nothing for a second strip to remove. */
  lemma {:induction false} SqueezedKeepsEnds(desc: string)
    ensures var d := Squeeze(StripSet(desc, {'\n'}), 2, 0);
            (d == [] || (d[0] != '\n' && d[|d| - 1] != '\n')) && StripSet(d, {'\n'}) == d
  {
    var stripped := StripSet(desc, {'\n'});
    StripSetEnds(desc, {'\n'});
    if stripped != [] {
      SqueezeFirst(stripped, 2);
      SqueezeLast(stripped, 2, 0);
    }
    StripSetUnchanged(Squeeze(stripped, 2, 0), {'\n'});
  }

  /** Dropping a leading stripped character does not change the stripped text. */
  lemma {:induction false} StripSetDropFirst(s: string, cs: set<char>)
    requires s != [] && s[0] in cs
    ensures StripSet(s[1..], cs) == StripSet(s, cs)
  {
  }

  /** Stripping a text that neither starts nor ends with a stripped character leaves it as it is. */
  lemma {:induction false} StripSetUnchanged(s: string, cs: set<char>)
    requires s == [] || (s[0] !in cs && s[|s| - 1] !in cs)
    ensures StripSet(s, cs) == s
  {
  }

  /** Deleting the newlines of a non-empty text: its first character goes, or stays in front. */
  lemma {:induction false} DropNewlineCons(s: string)
    requires s != []
    ensures Replace(s, "\n", "") == if s[0] == '\n' then Replace(s[1..], "\n", "") else [s[0]] + Replace(s[1..], "\n", "")
  {
    assert StartsWith(s, "\n") <==> s[0] == '\n';
  }

  /** Deleting the newlines of a single newline leaves nothing. */
  lemma {:induction false} NewlineDropped()
    ensures Replace("\n", "\n", "") == []
  {
    DropNewlineCons("\n");
    assert "\n"[1..] == [];
  }

  /** Deleting newlines distributes over concatenation. */
  lemma {:induction false} DropNewlineAppend(a: string, b: string)
    ensures Replace(a + b, "\n", "") == Replace(a, "\n", "") + Replace(b, "\n", "")
    decreases |a|
  {
    if a == [] {
      assert a + b == b;
    } else {
      DropNewlineCons(a + b);
      DropNewlineCons(a);
      assert (a + b)[1..] == a[1..] + b;
      DropNewlineAppend(a[1..], b);
    }
  }

  /** Squeezing newline runs keeps every other character, in order. */
  lemma {:induction false} SqueezeKeepsText(s: string, k: nat, run: nat)
    ensures Replace(Squeeze(s, k, run), "\n", "") == Replace(s, "\n", "")
    decreases |s|
  {
    if s != [] {
      DropNewlineCons(s);
      if s[0] == '\n' {
        if run < k {
          var rest := Squeeze(s[1..], k, run + 1);
          SqueezeKeepsText(s[1..], k, run + 1);
          DropNewlineCons("\n" + rest);
          assert ("\n" + rest)[1..] == rest;
        } else {
          SqueezeKeepsText(s[1..], k, run);
        }
      } else {
        var rest := Squeeze(s[1..], k, 0);
        SqueezeKeepsText(s[1..], k, 0);
        DropNewlineCons([s[0]] + rest);
        assert ([s[0]] + rest)[1..] == rest;
      }
    }
  }

  /** Stripping newlines from both ends keeps every other character. */
  lemma {:induction false} StripSetKeepsText(s: string)
    ensures Replace(StripSet(s, {'\n'}), "\n", "") == Replace(s, "\n", "")
  {
    LStripKeepsText(s);
    RStripKeepsText(LStripSet(s, {'\n'}));
  }

  lemma {:induction false} LStripKeepsText(s: string)
    ensures Replace(LStripSet(s, {'\n'}), "\n", "") == Replace(s, "\n", "")
    decreases |s|
  {
    if |s| > 0 && s[0] == '\n' {
      DropNewlineCons(s);
      LStripKeepsText(s[1..]);
    }
  }

  lemma {:induction false} RStripKeepsText(s: string)
    ensures Replace(RStripSet(s, {'\n'}), "\n", "") == Replace(s, "\n", "")
    decreases |s|
  {
    if |s| > 0 && s[|s| - 1] == '\n' {
      var init := s[..|s| - 1];
      assert RStripSet(s, {'\n'}) == RStripSet(init, {'\n'});
      RStripKeepsText(init);
      assert s == init + "\n";
      DropNewlineAppend(init, "\n");
      NewlineDropped();
      assert init + [] == init;
    }
  }

  /**
   * `clean_ptp_description(desc, is_disc)`: "" for a BDMV disc; otherwise
   * the tag rewriting (`rewrite`, not modelled) followed by the clean-up.
   */
  method CleanPtpDescription(desc: string, isDisc: string, rewrite: string -> string) returns (r: string)
    ensures isDisc == "BDMV" ==> r == ""
    ensures r == "" || (r[0] != '\n' && r[|r| - 1] != '\n')
    ensures NoTripleNewline(r)
    ensures isDisc != "BDMV" ==> Replace(r, "\n", "") == Replace(rewrite(desc), "\n", "")
    ensures isDisc != "BDMV" ==> (r == "" <==> Replace(rewrite(desc), "\n", "") == "")
    ensures isDisc != "BDMV" ==> (r == "" || r == Squeeze(StripSet(rewrite(desc), {'\n'}), 2, 0))
  {
    if isDisc == "BDMV" {
      return "";
    }
    r := PtpCleanup(rewrite(desc));
  }

  /**
   * The final step of `clean_unit3d_description`: strip whitespace,
   * squeeze every newline run to one newline, and give "" when nothing
   * but whitespace remains.
   */
  function Unit3dCleanup(desc: string): (r: string)
    ensures NoDoubleNewline(r)
    ensures r == "" <==> Strip(desc) == ""
    ensures Replace(r, "\n", "") == Replace(Strip(desc), "\n", "")
    ensures r == "" || r == Squeeze(Strip(desc), 1, 0)
  {
    var d := Squeeze(Strip(desc), 1, 0);
    var blank := Strip(d) == "";
    Unit3dSqueezed(desc);
    SqueezeKeepsText(Strip(desc), 1, 0);
    assert blank <==> Strip(desc) == "";
    assert NoDoubleNewline(d);
    if !blank then d else ""
  }

  /**
   * Each newline run between two pieces of text in the stripped description
   * becomes exactly one newline in the clean-up's result.
   */
  lemma {:induction false} Unit3dRunKept(desc: string, a: string, n: nat, b: string)
    requires n >= 1 && Strip(desc) == a + Newlines(n) + b
    requires a != [] && a[|a| - 1] != '\n'
    requires b == [] || b[0] != '\n'
    ensures Unit3dCleanup(desc) == Squeeze(a, 1, 0) + "\n" + Squeeze(b, 1, 0)
  {
    SqueezeSplit(a, n, b, 1);
    assert Newlines(1) == "\n";
  }

  /** One step of the squeeze: the first character is kept unless it is a newline past the bound. */
  lemma {:induction false} SqueezeHead(s: string, k: nat, run: nat)
    requires s != []
    ensures Squeeze(s, k, run)
            == (if s[0] == '\n' && run >= k then [] else [s[0]])
               + Squeeze(s[1..], k, if s[0] == '\n' then (if run < k then run + 1 else run) else 0)
  {
    if s[0] == '\n' && run < k {
      assert [s[0]] == "\n";
    }
  }

  /**
   * A newline run between two pieces of text keeps min(n, k) newlines, and
   * the text on either side is squeezed on its own.
   */
  lemma {:induction false} SqueezeSplit(a: string, n: nat, b: string, k: nat)
    requires a != [] && a[|a| - 1] != '\n'
    requires b == [] || b[0] != '\n'
    ensures Squeeze(a + Newlines(n) + b, k, 0) == Squeeze(a, k, 0) + Newlines(if n <= k then n else k) + Squeeze(b, k, 0)
  {
    var m := if n <= k then n else k;
    assert a + Newlines(n) + b == a + (Newlines(n) + b);
    SqueezeAppend(a, Newlines(n) + b, k, 0);
    SqueezeRun(n, b, k, 0);
    SqueezeNoNewlineStart(b, k, m);
  }

  /** Squeezing a text that ends in a non-newline, then more text: the two parts are squeezed apart. */
  lemma {:induction false} SqueezeAppend(a: string, x: string, k: nat, run: nat)
    requires a != [] && a[|a| - 1] != '\n'
    ensures Squeeze(a + x, k, run) == Squeeze(a, k, run) + Squeeze(x, k, 0)
    decreases |a|
  {
    var next := if a[0] == '\n' then (if run < k then run + 1 else run) else 0;
    var head := if a[0] == '\n' && run >= k then [] else [a[0]];
    SqueezeHead(a + x, k, run);
    SqueezeHead(a, k, run);
    assert (a + x)[0] == a[0] && (a + x)[1..] == a[1..] + x;
    if |a| == 1 {
      assert a[1..] == [];
      assert a[1..] + x == x;
    } else {
      SqueezeAppend(a[1..], x, k, next);
      assert head + (Squeeze(a[1..], k, next) + Squeeze(x, k, 0)) == head + Squeeze(a[1..], k, next) + Squeeze(x, k, 0);
    }
  }

  /** Squeezing a stripped text: no blank lines, and blank exactly when the stripped text is empty. */
  lemma {:induction false} Unit3dSqueezed(desc: string)
    ensures NoDoubleNewline(Squeeze(Strip(desc), 1, 0))
    ensures Strip(Squeeze(Strip(desc), 1, 0)) == "" <==> Strip(desc) == ""
  {
    var s := Strip(desc);
    var d := Squeeze(s, 1, 0);
    SqueezeRunsAtMost(s, 1, 0);
    RunsAtMostOne(d, 0);
    if s != "" {
      StripFirstNotSpace(desc);
      assert s[0] != '\n';
      SqueezeFirst(s, 1);
      LStripKeeps(d);
      RStripNonEmpty(d);
    }
  }

  /** A whitespace-stripped text starts with a non-space character. */
  lemma {:induction false} StripFirstNotSpace(desc: string)
    ensures var s := Strip(desc); s != "" ==> !IsSpace(s[0])
  {
    var l := LStrip(desc);
    var r := RStrip(l);
    if r != [] {
      assert r[0] == l[0];
    }
  }

  lemma {:induction false} LStripKeeps(d: string)
    requires d != [] && !IsSpace(d[0])
    ensures LStrip(d) == d
  {
  }

  /** Right-stripping keeps a first non-space character. */
  lemma {:induction false} RStripNonEmpty(d: string)
    requires d != [] && !IsSpace(d[0])
    ensures RStrip(d) != []
    decreases |d|
  {
    if |d| > 1 && IsSpace(d[|d| - 1]) {
      RStripNonEmpty(d[..|d| - 1]);
    }
  }
}
