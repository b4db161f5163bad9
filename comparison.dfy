/**
 * The screenshot-comparison converters of the BBCode helpers:
 * `[comparison=...]` blocks become rows of resized image links inside a
 * spoiler or a centred block, and spoiler or hide blocks holding six or
 * more images become `[comparison=...]` blocks. The regular-expression
 * searches that find the blocks and the image URLs inside them are not
 * part of this model: their results are inputs (`Found`).
 */
module Comparison {
  import opened PyStr
  import opened PosixPath

  /** One block found in the description, with what the inner search found in it. */
  datatype Found = Found(text: string, inner: seq<string>)

  /** Where `[comparison]` blocks go: into a spoiler (`convert_comparison_to_collapse`) or a centred block. */
  datatype Layout = Collapse | Centered

  /** `comp.split(']', 1)[0].replace('[comparison=', '').replace(' ', '').split(',')` */
  function CompSources(comp: string): (sources: seq<string>)
    ensures |sources| >= 1
    ensures forall k :: 0 <= k < |sources| ==> ' ' !in sources[k] && ',' !in sources[k]
    ensures Join(",", sources) == Replace(Replace(BeforeFirst(comp, "]"), "[comparison=", ""), " ", "")
  {
    var head := Replace(BeforeFirst(comp, "]"), "[comparison=", "");
    var packed := Replace(head, " ", "");
    DeleteChar(head, ' ');
    SplitKeepsAbsent(packed, ",", ' ');
    SplitPartsFree(packed, ',');
    SplitJoin(packed, ',');
    Split(packed, ",")
  }

  /**
   * `min(int(max_width / screens_per_line), 350)`: the largest width that
   * fits `n` images side by side in `maxWidth`, capped at 350.
   */
  function ImgSize(maxWidth: nat, n: nat): (size: nat)
    requires n >= 1
    ensures size <= 350 && size * n <= maxWidth
    ensures size == 350 || maxWidth < (size + 1) * n
  {
    var fit := maxWidth / n;
    if fit < 350 then fit else 350
  }

  /** One linked, resized image: `[url={img}][img={size}]{img}[/img][/url]`. */
  function ImageBlock(img: string, size: nat): string {
    "[url=" + img + "][img=" + NatToString(size) + "]" + img + "[/img][/url]"
  }

  /** The blocks for the non-blank images, in order; blank ones are skipped. */
  function Blocks(images: seq<string>, size: nat): (blocks: seq<string>)
    ensures |blocks| <= |images|
    ensures (forall k :: 0 <= k < |images| ==> Strip(images[k]) != "") ==>
              |blocks| == |images| && forall k :: 0 <= k < |images| ==> blocks[k] == ImageBlock(Strip(images[k]), size)
    ensures (exists k :: 0 <= k < |images| && Strip(images[k]) == "") ==> |blocks| < |images|
  {
    if images == [] then []
    else
      var init := images[..|images| - 1];
      var img := Strip(images[|images| - 1]);
      var prev := Blocks(init, size);
      BlocksLastAll(images, init, size, prev);
      BlocksLastBlank(images, init, size, prev);
      prev + (if img != "" then [ImageBlock(img, size)] else [])
  }

  /** A blank image among all of them leaves fewer blocks than images. */
  lemma {:induction false} BlocksLastBlank(images: seq<string>, init: seq<string>, size: nat, prev: seq<string>)
    requires images != [] && init == images[..|images| - 1]
    requires |prev| <= |init|
    requires (exists k :: 0 <= k < |init| && Strip(init[k]) == "") ==> |prev| < |init|
    ensures var img := Strip(images[|images| - 1]);
            var blocks := prev + (if img != "" then [ImageBlock(img, size)] else []);
            (exists k :: 0 <= k < |images| && Strip(images[k]) == "") ==> |blocks| < |images|
  {
    if exists k :: 0 <= k < |images| && Strip(images[k]) == "" {
      var k :| 0 <= k < |images| && Strip(images[k]) == "";
      if k < |images| - 1 {
        assert init[k] == images[k];
      }
    }
  }

  /** No blank image among all of them: the blocks of all but the last, then the last one's. */
  lemma {:induction false} BlocksLastAll(images: seq<string>, init: seq<string>, size: nat, prev: seq<string>)
    requires images != [] && init == images[..|images| - 1]
    requires (forall k :: 0 <= k < |init| ==> Strip(init[k]) != "") ==>
               |prev| == |init| && forall k :: 0 <= k < |init| ==> prev[k] == ImageBlock(Strip(init[k]), size)
    ensures var img := Strip(images[|images| - 1]);
            var blocks := prev + (if img != "" then [ImageBlock(img, size)] else []);
            (forall k :: 0 <= k < |images| ==> Strip(images[k]) != "") ==>
              |blocks| == |images| && forall k :: 0 <= k < |images| ==> blocks[k] == ImageBlock(Strip(images[k]), size)
  {
    if forall k :: 0 <= k < |images| ==> Strip(images[k]) != "" {
      forall k | 0 <= k < |init| ensures Strip(init[k]) != "" {
        assert init[k] == images[k];
      }
      AllKept(images, init, size, prev, Strip(images[|images| - 1]));
    }
  }

  /** With no blank image, block `k` is image `k`'s. */
  lemma {:induction false} AllKept(images: seq<string>, init: seq<string>, size: nat, prev: seq<string>, img: string)
    requires images != [] && init == images[..|images| - 1] && img == Strip(images[|images| - 1]) && img != ""
    requires |prev| == |init| && forall k :: 0 <= k < |init| ==> prev[k] == ImageBlock(Strip(init[k]), size)
    ensures var blocks := prev + [ImageBlock(img, size)];
            |blocks| == |images| && forall k :: 0 <= k < |images| ==> blocks[k] == ImageBlock(Strip(images[k]), size)
  {
    var blocks := prev + [ImageBlock(img, size)];
    forall k | 0 <= k < |images| ensures blocks[k] == ImageBlock(Strip(images[k]), size) {
      if k < |init| {
        assert init[k] == images[k];
      }
    }
  }

  /** Full rows of `n` blocks each, each row the blocks written one after another; a last partial row is dropped. */
  function Rows(blocks: seq<string>, n: nat): seq<string>
    requires n >= 1
    decreases |blocks|
  {
    if |blocks| < n then [] else [Join("", blocks[..n])] + Rows(blocks[n..], n)
  }

  /** Row `j` is blocks `j*n .. j*n+n-1`, and the rows use all but fewer than `n` of the blocks. */
  lemma {:induction false} RowsShape(blocks: seq<string>, n: nat)
    requires n >= 1
    ensures |Rows(blocks, n)| * n <= |blocks| < |Rows(blocks, n)| * n + n
    ensures forall j :: 0 <= j < |Rows(blocks, n)| ==> j * n + n <= |blocks| && Rows(blocks, n)[j] == Join("", blocks[j * n..j * n + n])
    decreases |blocks|
  {
    if |blocks| >= n {
      RowsShape(blocks[n..], n);
      assert |Rows(blocks, n)| * n == |Rows(blocks[n..], n)| * n + n;
    }
    forall j | 0 <= j < |Rows(blocks, n)|
      ensures j * n + n <= |blocks| && Rows(blocks, n)[j] == Join("", blocks[j * n..j * n + n])
    {
      RowAt(blocks, n, j);
    }
  }

  /** Row `j` on its own. */
  lemma {:induction false} RowAt(blocks: seq<string>, n: nat, j: nat)
    requires n >= 1 && j < |Rows(blocks, n)|
    ensures j * n + n <= |blocks| && Rows(blocks, n)[j] == Join("", blocks[j * n..j * n + n])
    decreases j
  {
    if j > 0 {
      var rest := blocks[n..];
      RowsTail(blocks, n, j);
      RowAt(rest, n, j - 1);
      var p := (j - 1) * n;
      MulPred(j, n);
      SliceOfSlice(blocks, n, p, n);
      assert blocks[j * n..j * n + n] == rest[p..p + n];
    } else {
      assert j * n == 0;
    }
  }

  /** Past the first row, the rows are those of the blocks after it. */
  lemma {:induction false} RowsTail(blocks: seq<string>, n: nat, j: nat)
    requires n >= 1 && 0 < j < |Rows(blocks, n)|
    ensures j - 1 < |Rows(blocks[n..], n)| && Rows(blocks, n)[j] == Rows(blocks[n..], n)[j - 1]
  {
  }

  lemma {:induction false} MulPred(j: nat, n: nat)
    requires j > 0
    ensures (j - 1) * n + n == j * n
  {
  }

  lemma {:induction false} SliceOfSlice(s: seq<string>, a: nat, b: nat, len: nat)
    requires a + b + len <= |s|
    ensures s[a..][b..b + len] == s[a + b..a + b + len]
  {
  }

  /** `a` splits into full rows of `n` blocks with nothing left over. */
  predicate Whole(a: seq<string>, n: nat)
    requires n >= 1
    decreases |a|
  {
    a == [] || (|a| >= n && Whole(a[n..], n))
  }

  /** Appending full rows' worth of blocks appends their rows. */
  lemma {:induction false} RowsAppend(a: seq<string>, b: seq<string>, n: nat)
    requires n >= 1 && Whole(a, n)
    ensures Rows(a + b, n) == Rows(a, n) + Rows(b, n)
    decreases |a|
  {
    if a != [] {
      assert (a + b)[..n] == a[..n];
      assert (a + b)[n..] == a[n..] + b;
      RowsAppend(a[n..], b, n);
    } else {
      assert a + b == b;
    }
  }

  /** One more full row keeps the blocks whole. */
  lemma {:induction false} WholeAppend(a: seq<string>, line: seq<string>, n: nat)
    requires n >= 1 && Whole(a, n) && |line| == n
    ensures Whole(a + line, n)
    decreases |a|
  {
    if a != [] {
      assert (a + line)[n..] == a[n..] + line;
      WholeAppend(a[n..], line, n);
    } else {
      assert (a + line)[n..] == [];
    }
  }

  /** Fewer than `n` trailing blocks make no row. */
  lemma {:induction false} RowsPartial(blocks: seq<string>, n: nat)
    requires n >= 1 && |blocks| < n
    ensures Rows(blocks, n) == []
  {
  }

  /**
   * The image loop of both comparison converters: strip each image, skip
   * blank ones, collect blocks into a line and emit the line as a row when
   * it holds `n` blocks.
   */
  method BuildRows(images: seq<string>, n: nat, size: nat) returns (output: seq<string>)
    requires n >= 1
    ensures output == Rows(Blocks(images, size), n)
  {
    var line: seq<string> := [];
    ghost var done: seq<string> := [];
    output := [];
    for i := 0 to |images|
      invariant |line| < n
      invariant Blocks(images[..i], size) == done + line
      invariant Whole(done, n) && output == Rows(done, n)
    {
      var img := Strip(images[i]);
      BlocksStep(images, i, size, img);
      if img != "" {
        line, output, done := AddBlock(line, output, done, ImageBlock(img, size), n);
      }
    }
    assert images[..|images|] == images;
    RowsOfPartialLine(done, line, n);
  }

  /** A line short of a row adds no row to the full rows before it. */
  lemma {:induction false} RowsOfPartialLine(done: seq<string>, line: seq<string>, n: nat)
    requires n >= 1 && Whole(done, n) && |line| < n
    ensures Rows(done + line, n) == Rows(done, n)
  {
    RowsAppend(done, line, n);
    RowsPartial(line, n);
    assert Rows(done, n) + [] == Rows(done, n);
  }

  /** Adding one block to the line, and emitting the line as a row once it holds `n` blocks. */
  method AddBlock(line: seq<string>, output: seq<string>, ghost done: seq<string>, block: string, n: nat)
    returns (line': seq<string>, output': seq<string>, ghost done': seq<string>)
    requires n >= 1 && |line| < n && Whole(done, n) && output == Rows(done, n)
    ensures |line'| < n && Whole(done', n) && output' == Rows(done', n)
    ensures done' + line' == done + line + [block]
  {
    line' := line + [block];
    output' := output;
    done' := done;
    if |line'| == n {
      RowsStep(done, line', n);
      output' := output + [Join("", line')];
      done' := done + line';
      line' := [];
    }
  }

  /** A full line appends one row. */
  lemma {:induction false} RowsStep(done: seq<string>, line: seq<string>, n: nat)
    requires n >= 1 && Whole(done, n) && |line| == n
    ensures Rows(done + line, n) == Rows(done, n) + [Join("", line)]
    ensures Whole(done + line, n)
  {
    RowsAppend(done, line, n);
    RowsFull(line, n);
    WholeAppend(done, line, n);
  }

  /** Extending the images by one extends the blocks by at most that image's block. */
  lemma {:induction false} BlocksStep(images: seq<string>, i: nat, size: nat, img: string)
    requires i < |images| && img == Strip(images[i])
    ensures Blocks(images[..i + 1], size)
            == Blocks(images[..i], size) + (if img != "" then [ImageBlock(img, size)] else [])
  {
    assert images[..i + 1][..i] == images[..i];
  }

  /** Exactly `n` blocks make one row. */
  lemma {:induction false} RowsFull(line: seq<string>, n: nat)
    requires n >= 1 && |line| == n
    ensures Rows(line, n) == [Join("", line)]
  {
    assert line[..n] == line;
    assert Rows(line[n..], n) == [];
  }

  /** The text that replaces one `[comparison]` block. */
  function NewBlock(layout: Layout, sources: seq<string>, rows: seq<string>): string {
    match layout
    case Collapse =>
      "[spoiler=" + Join(" vs ", sources) + "][center]" + Join(" | ", sources) + "[/center]\n"
      + Join("\n", rows) + "[/spoiler]"
    case Centered =>
      "[center]" + Join(" | ", sources) + "\n" + Join("\n", rows) + "[/center]"
  }

  /** The replacement for one found `[comparison]` block at a given maximum width. */
  function Converted(layout: Layout, maxWidth: nat, comp: Found): string {
    var sources := CompSources(comp.text);
    var size := ImgSize(maxWidth, |sources|);
    NewBlock(layout, sources, Rows(Blocks(comp.inner, size), |sources|))
  }

  /** The description after the first `|comps|` found blocks have been replaced, in order. */
  function ReplaceComparisons(desc: string, layout: Layout, maxWidth: nat, comps: seq<Found>): string
    decreases |comps|
  {
    if comps == [] then desc
    else
      var last := comps[|comps| - 1];
      Replace(ReplaceComparisons(desc, layout, maxWidth, comps[..|comps| - 1]), last.text, Converted(layout, maxWidth, last))
  }

  /**
   * `convert_comparison_to_collapse` and `convert_comparison_to_centered`:
   * every found block, in order, is replaced everywhere in the description
   * by its new layout.
   */
  method ConvertComparison(desc: string, layout: Layout, maxWidth: nat, comps: seq<Found>) returns (r: string)
    ensures r == ReplaceComparisons(desc, layout, maxWidth, comps)
  {
    r := desc;
    for i := 0 to |comps|
      invariant r == ReplaceComparisons(desc, layout, maxWidth, comps[..i])
    {
      assert comps[..i + 1][..i] == comps[..i];
      var sources := CompSources(comps[i].text);
      var size := ImgSize(maxWidth, |sources|);
      var rows := BuildRows(comps[i].inner, |sources|, size);
      r := Replace(r, comps[i].text, NewBlock(layout, sources, rows));
    }
    assert comps[..|comps|] == comps;
  }

  /** A found block whose text no longer occurs is a no-op; in particular a description without found blocks is unchanged. */
  lemma {:induction false} ReplaceComparisonsAbsent(desc: string, layout: Layout, maxWidth: nat, comps: seq<Found>)
    requires forall k :: 0 <= k < |comps| ==> comps[k].text != [] && !Contains(desc, comps[k].text)
    ensures ReplaceComparisons(desc, layout, maxWidth, comps) == desc
    decreases |comps|
  {
    if comps != [] {
      var init := comps[..|comps| - 1];
      ReplaceComparisonsAbsent(desc, layout, maxWidth, init);
      var last := comps[|comps| - 1];
      ReplaceAbsent(desc, last.text, Converted(layout, maxWidth, last));
    }
  }

  /** The kind of collapse tag being converted back into a comparison. */
  datatype CollapseKind = Spoiler | Hide

  function OpenTag(kind: CollapseKind): string {
    match kind
    case Spoiler => "[spoiler"
    case Hide => "[hide"
  }

  /** The first index at or after `from` where `s` holds `']'`. */
  function FindClose(s: string, from: nat): (i: Option<nat>)
    ensures i.Some? ==> from <= i.value < |s| && s[i.value] == ']'
    ensures i.Some? ==> forall j :: from <= j < i.value ==> s[j] != ']'
    ensures i.None? ==> forall j :: from <= j < |s| ==> s[j] != ']'
    decreases |s| - from
  {
    if from >= |s| then None
    else if s[from] == ']' then Some(from)
    else FindClose(s, from + 1)
  }

  /**
   * `re.match(r"\[spoiler[\s\S]*?\]", tag)[0]` (or `\[hide`): the tag's
   * opening up to its first ']'; no match makes the subscript raise
   * TypeError.
   */
  function Header(tag: string, kind: CollapseKind): (r: Result<string>)
    ensures r.Ok? <==> StartsWith(tag, OpenTag(kind)) && ']' in tag[|OpenTag(kind)|..]
    ensures r.Ok? ==> StartsWith(tag, r.value) && EndsWith(r.value, "]") && ']' !in r.value[..|r.value| - 1]
  {
    var open := OpenTag(kind);
    if !StartsWith(tag, open) then Err(TypeError)
    else
      match FindClose(tag, |open|)
      case None =>
        assert forall x :: x in tag[|open|..] ==> x != ']';
        Err(TypeError)
      case Some(j) =>
        assert tag[..j + 1][j] == ']' && tag[..j + 1][..j] == tag[..j];
        assert ']' !in tag[..|open|];
        assert tag[|open|..][j - |open|] == ']';
        Ok(tag[..j + 1])
  }

  /** `re.sub(r"comparison", "", s, flags=re.IGNORECASE)` (ASCII case folding). */
  function RemoveComparisonWord(s: string): (r: string)
    ensures |r| <= |s| && (|s| - |r|) % 10 == 0
    ensures r == s <==> !Contains(Lower(s), "comparison")
    decreases |s|
  {
    if |s| >= 10 && Lower(s[..10]) == "comparison" then
      LowerPrefix(s, 10);
      ContainsPastStart(Lower(s), "comparison");
      var rest := RemoveComparisonWord(s[10..]);
      TenMore(|s[10..]| - |rest|);
      rest
    else if s == [] then []
    else
      WordNotAtStart(s);
      var rest := RemoveComparisonWord(s[1..]);
      ConsSame(s, rest);
      [s[0]] + rest
  }

  /** Ten more deleted characters keep the count a multiple of ten. */
  lemma {:induction false} TenMore(n: int)
    requires n % 10 == 0
    ensures (n + 10) % 10 == 0
  {
  }

  /** Putting back the first character of `s` gives `s` exactly when the rest is `s[1..]`. */
  lemma {:induction false} ConsSame<T>(s: seq<T>, rest: seq<T>)
    requires s != []
    ensures [s[0]] + rest == s <==> rest == s[1..]
  {
    if rest == s[1..] {
      assert [s[0]] + s[1..] == s;
    }
  }

  /** Where the word does not start at index 0, `s` holds it exactly when `s[1..]` does. */
  lemma {:induction false} WordNotAtStart(s: string)
    requires s != [] && !(|s| >= 10 && Lower(s[..10]) == "comparison")
    ensures Contains(Lower(s), "comparison") <==> Contains(Lower(s[1..]), "comparison")
  {
    var w := "comparison";
    if |s| >= |w| {
      LowerPrefix(s, |w|);
    }
    assert Lower(s)[1..] == Lower(s[1..]);
    ContainsPastStart(Lower(s), w);
  }

  /** `t` holds `w` when it starts with it, and otherwise exactly when `t[1..]` does. */
  lemma {:induction false} ContainsPastStart(t: string, w: string)
    requires t != []
    ensures StartsWith(t, w) ==> Contains(t, w)
    ensures !StartsWith(t, w) ==> (Contains(t, w) <==> Contains(t[1..], w))
  {
  }

  /** `RemoveComparisonWord` only deletes characters. */
  lemma {:induction false} RemoveComparisonWordKeepsAbsent(s: string, c: char)
    requires c !in s
    ensures c !in RemoveComparisonWord(s)
    decreases |s|
  {
    if |s| >= 10 && Lower(s[..10]) == "comparison" {
      RemoveComparisonWordKeepsAbsent(s[10..], c);
    } else if s != [] {
      RemoveComparisonWordKeepsAbsent(s[1..], c);
    }
  }

  /** `s.split(d)` rejoined with '$'. */
  function Rejoin(s: string, d: string): string
    requires d != []
  {
    Join("$", Split(s, d))
  }

  /** Rejoining on a one-character delimiter removes it, and keeps any other absent character absent. */
  lemma {:induction false} RejoinFacts(s: string, d: char, c: char)
    ensures d != '$' ==> d !in Rejoin(s, [d])
    ensures c != '$' && c !in s ==> c !in Rejoin(s, [d])
  {
    if d != '$' {
      SplitPartsFree(s, d);
      JoinKeepsAbsent("$", Split(s, [d]), d);
    }
    if c != '$' && c !in s {
      SplitKeepsAbsent(s, [d], c);
      JoinKeepsAbsent("$", Split(s, [d]), c);
    }
  }

  /**
   * The source names in a collapse tag's header: drop the opening
   * `[spoiler=` and the closing ']', drop the word "comparison", split on
   * "vs", ',' and '|' (and on '$', the joiner used in between), and strip
   * each name.
   */
  function HeaderSources(header: string, kind: CollapseKind): (sources: seq<string>)
    ensures |sources| >= 1
    ensures forall k :: 0 <= k < |sources| ==>
              ',' !in sources[k] && '|' !in sources[k] && '$' !in sources[k] && sources[k] == Strip(sources[k])
  {
    var unopened := Replace(header, OpenTag(kind) + "=", "");
    var inner := if unopened == [] then [] else unopened[..|unopened| - 1];
    var words := RemoveComparisonWord(inner);
    var s1 := Rejoin(words, "vs");
    var s2 := Rejoin(s1, ",");
    var s3 := Rejoin(s2, "|");
    RejoinFacts(s1, ',', ',');
    RejoinFacts(s2, '|', ',');
    RejoinFacts(s2, '|', '|');
    var parts := Split(s3, "$");
    SplitPartsFree(s3, '$');
    SplitKeepsAbsent(s3, "$", ',');
    SplitKeepsAbsent(s3, "$", '|');
    HeaderSourcesStrip(parts)
  }

  /** Stripping each part keeps the characters a part lacks absent, and is idempotent. */
  function HeaderSourcesStrip(parts: seq<string>): (sources: seq<string>)
    requires |parts| >= 1
    requires forall k :: 0 <= k < |parts| ==> ',' !in parts[k] && '|' !in parts[k] && '$' !in parts[k]
    ensures |sources| == |parts| && forall k :: 0 <= k < |parts| ==> sources[k] == Strip(parts[k])
    ensures forall k :: 0 <= k < |sources| ==>
              ',' !in sources[k] && '|' !in sources[k] && '$' !in sources[k] && sources[k] == Strip(sources[k])
  {
    var sources := seq(|parts|, k requires 0 <= k < |parts| => Strip(parts[k]));
    assert forall k :: 0 <= k < |parts| ==> sources[k] == Strip(parts[k]);
    StrippedPartsFree(parts, sources);
    sources
  }

  /** Each stripped part keeps the separators it lacks absent, and is already stripped. */
  lemma {:induction false} StrippedPartsFree(parts: seq<string>, sources: seq<string>)
    requires forall k :: 0 <= k < |parts| ==> ',' !in parts[k] && '|' !in parts[k] && '$' !in parts[k]
    requires |sources| == |parts| && forall k :: 0 <= k < |parts| ==> sources[k] == Strip(parts[k])
    ensures forall k :: 0 <= k < |sources| ==>
              ',' !in sources[k] && '|' !in sources[k] && '$' !in sources[k] && sources[k] == Strip(sources[k])
  {
    forall k | 0 <= k < |sources|
      ensures ',' !in sources[k] && '|' !in sources[k] && '$' !in sources[k] && sources[k] == Strip(sources[k])
    {
      StripKeepsAbsent(parts[k], ',');
      StripKeepsAbsent(parts[k], '|');
      StripKeepsAbsent(parts[k], '$');
      StripIdempotent(parts[k]);
    }
  }

  /**
   * A `[spoiler=A vs B]` header names the two sources `A` and `B`,
   * stripped, when neither holds a separator, a '[' or "vs", and the
   * header text does not contain the word "comparison".
   */
  lemma {:induction false} HeaderSourcesVs(a: string, b: string)
    requires '[' !in a && '[' !in b
    requires ',' !in a && ',' !in b && '|' !in a && '|' !in b && '$' !in a && '$' !in b
    requires !Contains(a, "vs") && !Contains(b, "vs")
    requires !Contains(Lower(a + " vs " + b), "comparison")
    ensures HeaderSources("[spoiler=" + a + " vs " + b + "]", Spoiler) == [Strip(a), Strip(b)]
  {
    var inner := a + " vs " + b;
    var header := "[spoiler=" + inner + "]";
    VsHeader(a, b);
    Unopened(inner);
    HeaderSourcesOfInner(header, Spoiler, inner);
    VsParts(a, b);
    StrippedPair(HeaderSources(header, Spoiler), a, b);
  }

  /** Stripping the parts `A ` and ` B` gives the names `A` and `B`. */
  lemma {:induction false} StrippedPair(sources: seq<string>, a: string, b: string)
    requires |sources| == 2
    requires sources[0] == Strip(a + " ") && sources[1] == Strip(" " + b)
    ensures sources == [Strip(a), Strip(b)]
  {
    SpacedNames(a, b);
    PairOf(sources, Strip(a), Strip(b));
  }

  /** A sequence of two elements is the pair of them. */
  lemma {:induction false} PairOf<T>(s: seq<T>, x: T, y: T)
    requires |s| == 2 && s[0] == x && s[1] == y
    ensures s == [x, y]
  {
  }

  /** A space next to a name is stripped away. */
  lemma {:induction false} SpacedNames(a: string, b: string)
    ensures Strip(a + " ") == Strip(a) && Strip(" " + b) == Strip(b)
  {
    StripTrailingSpace(a, ' ');
    StripLeadingSpace(' ', b);
  }

  /** The header text of `A vs B`, which holds no '[' past the opening. */
  lemma {:induction false} VsHeader(a: string, b: string)
    requires '[' !in a && '[' !in b
    ensures "[spoiler=" + (a + " vs " + b) + "]" == "[spoiler=" + a + " vs " + b + "]"
    ensures '[' !in a + " vs " + b
  {
  }

  /** `A $ B` holds neither ',' nor '|' when `A` and `B` do not. */
  lemma {:induction false} DollarPairFree(a: string, b: string)
    requires ',' !in a && ',' !in b && '|' !in a && '|' !in b
    ensures ',' !in a + " $ " + b && '|' !in a + " $ " + b
  {
  }

  /** The pipeline between the header text `A vs B` and the split on '$'. */
  lemma {:induction false} VsParts(a: string, b: string)
    requires ',' !in a && ',' !in b && '|' !in a && '|' !in b && '$' !in a && '$' !in b
    requires !Contains(a, "vs") && !Contains(b, "vs")
    requires !Contains(Lower(a + " vs " + b), "comparison")
    ensures Split(Rejoin(Rejoin(Rejoin(RemoveComparisonWord(a + " vs " + b), "vs"), ","), "|"), "$")
            == [a + " ", " " + b]
  {
    var inner := a + " vs " + b;
    assert RemoveComparisonWord(inner) == inner;
    RejoinVs(a, b);
    DollarPairFree(a, b);
    RejoinChain(inner, a + " $ " + b);
    DollarParts(a, b);
  }

  /** Rejoining on ',' and '|' changes nothing once neither is left. */
  lemma {:induction false} RejoinChain(w: string, s1: string)
    requires Rejoin(w, "vs") == s1 && ',' !in s1 && '|' !in s1
    ensures Rejoin(Rejoin(Rejoin(w, "vs"), ","), "|") == s1
  {
    RejoinAbsent(s1, ',');
    RejoinAbsent(s1, '|');
  }

  /** The sources of a header whose text between the opening and the closing ']' is `inner`. */
  lemma {:induction false} HeaderSourcesOfInner(header: string, kind: CollapseKind, inner: string)
    requires Replace(header, OpenTag(kind) + "=", "") == inner + "]"
    ensures var s3 := Rejoin(Rejoin(Rejoin(RemoveComparisonWord(inner), "vs"), ","), "|");
            var parts := Split(s3, "$");
            var sources := HeaderSources(header, kind);
            |sources| == |parts| && forall k :: 0 <= k < |parts| ==> sources[k] == Strip(parts[k])
  {
    assert (inner + "]")[..|inner + "]"| - 1] == inner;
  }

  /** Removing the opening `[spoiler=` of a header whose rest holds no '['. */
  lemma {:induction false} Unopened(inner: string)
    requires '[' !in inner
    ensures Replace("[spoiler=" + inner + "]", OpenTag(Spoiler) + "=", "") == inner + "]"
  {
    var pat := "[spoiler=";
    var rest := inner + "]";
    var h := pat + rest;
    assert "[spoiler=" + inner + "]" == h;
    assert OpenTag(Spoiler) + "=" == pat;
    assert StartsWith(h, pat) && h[|pat|..] == rest;
    ReplaceSkipsPlain(rest, [], pat, "");
    assert rest + [] == rest;
  }

  /** `A vs B` split on "vs" and rejoined with '$'. */
  lemma {:induction false} RejoinVs(a: string, b: string)
    requires !Contains(a, "vs") && !Contains(b, "vs")
    ensures Rejoin(a + " vs " + b, "vs") == a + " $ " + b
  {
    RejoinAroundVs(a, b);
    SpacedPair(a, b);
  }

  /** The same, with the text grouped as the part before "vs", "vs" and the part after it. */
  lemma {:induction false} RejoinAroundVs(a: string, b: string)
    requires !Contains(a, "vs") && !Contains(b, "vs")
    ensures Rejoin((a + " ") + "vs" + (" " + b), "vs") == (a + " ") + "$" + (" " + b)
  {
    NoVsBefore(a, b);
    SpaceThenNoVs(b);
    RejoinOnce(a + " ", "vs", " " + b);
  }

  /** Regrouping `A vs B` and `A $ B` around their middle word. */
  lemma {:induction false} SpacedPair(a: string, b: string)
    ensures a + " vs " + b == (a + " ") + "vs" + (" " + b)
    ensures a + " $ " + b == (a + " ") + "$" + (" " + b)
  {
  }

  /** A space before a text without "vs" does not create one. */
  lemma {:induction false} SpaceThenNoVs(b: string)
    requires !Contains(b, "vs")
    ensures !Contains(" " + b, "vs")
  {
    var y := " " + b;
    assert y[1..] == b;
    if |y| >= 2 {
      assert y[..2][0] == ' ';
    }
    assert !StartsWith(y, "vs");
  }

  /** Two parts joined by a separator. */
  lemma {:induction false} JoinPair(sep: string, x: string, y: string)
    ensures Join(sep, [x, y]) == x + sep + y
  {
    assert [x, y][1..] == [y];
  }

  /** A text with exactly one separator, first found after `x`, rejoins as `x$y`. */
  lemma {:induction false} RejoinOnce(x: string, sep: string, y: string)
    requires sep != []
    requires forall i :: 0 <= i < |x| ==> !StartsWith((x + sep + y)[i..], sep)
    requires !Contains(y, sep)
    ensures Rejoin(x + sep + y, sep) == x + "$" + y
  {
    SplitAtSep(x, sep, y);
    SplitAbsent(y, sep);
    assert [x] + [y] == [x, y];
    JoinPair("$", x, y);
  }

  /** No "vs" starts inside `A ` in `A vs B`. */
  lemma {:induction false} NoVsBefore(a: string, b: string)
    requires !Contains(a, "vs")
    ensures var s := (a + " ") + "vs" + (" " + b);
            forall i :: 0 <= i < |a + " "| ==> !StartsWith(s[i..], "vs")
  {
    var s := (a + " ") + "vs" + (" " + b);
    assert |s| == |a| + |b| + 4;
    forall i | 0 <= i < |a + " "| ensures !StartsWith(s[i..], "vs") {
      if StartsWith(s[i..], "vs") {
        assert s[i] == 'v' && s[i + 1] == 's' by { assert s[i..][..2] == "vs"; }
        if i + 1 < |a| {
          assert a[i..i + 2] == s[i..i + 2] == "vs";
          ContainsAt(a, "vs", i);
        }
        assert false;
      }
    }
  }

  /** Rejoining on a separator the text lacks changes nothing. */
  lemma {:induction false} RejoinAbsent(s: string, d: char)
    requires d !in s
    ensures Rejoin(s, [d]) == s
  {
    SplitSingle(s, d);
  }

  /** `A $ B` split on '$'. */
  lemma {:induction false} DollarParts(a: string, b: string)
    requires '$' !in a && '$' !in b
    ensures Split(a + " $ " + b, "$") == [a + " ", " " + b]
  {
    var s := a + " $ " + b;
    var i := |a| + 1;
    assert s[i] == '$' && s[..i] == a + " " && s[i + 1..] == " " + b;
    SplitAtFirst(s, '$', i);
    SplitSingle(" " + b, '$');
  }

  /**
   * `re.sub(r"\[img[\s\S]*\]", "", image.replace('[/img]', ''), flags=re.IGNORECASE)`:
   * after removing the closing tags, cut from the first "[img" (in any
   * case) through the last ']' after it.
   */
  function ImageUrl(image: string): string {
    var t := Replace(image, "[/img]", "");
    match FindImg(t, 0)
    case None => t
    case Some(i) =>
      var j := RFind(t, ']');
      if j >= i + 4 then t[..i] + t[j + 1..] else t
  }

  /** The first index at or after `from` where "[img" starts, ignoring case. */
  function FindImg(t: string, from: nat): (i: Option<nat>)
    ensures i.Some? ==> from <= i.value && i.value + 4 <= |t| && Lower(t[i.value..i.value + 4]) == "[img"
    decreases |t| - from
  {
    if from + 4 > |t| then None
    else if Lower(t[from..from + 4]) == "[img" then Some(from)
    else FindImg(t, from + 1)
  }

  /** `[comparison={sources}]{urls}[/comparison]` */
  function ComparisonTag(sources: seq<string>, urls: seq<string>): string {
    "[comparison=" + Join(", ", sources) + "]" + Join("\n", urls) + "[/comparison]"
  }

  /** The replacement for one collapse block with six or more images. */
  function CollapseReplacement(tag: Found, kind: CollapseKind): Result<string> {
    var header :- Header(tag.text, kind);
    var urls := seq(|tag.inner|, k requires 0 <= k < |tag.inner| => ImageUrl(tag.inner[k]));
    Ok(ComparisonTag(HeaderSources(header, kind), urls))
  }

  /** The description after the first `|tags|` collapse blocks have been considered, in order. */
  function ReplaceCollapses(desc: string, kind: CollapseKind, tags: seq<Found>): Result<string>
    decreases |tags|
  {
    if tags == [] then Ok(desc)
    else
      var d :- ReplaceCollapses(desc, kind, tags[..|tags| - 1]);
      var last := tags[|tags| - 1];
      if |last.inner| < 6 then Ok(d)
      else
        var rep :- CollapseReplacement(last, kind);
        Ok(Replace(d, last.text, rep))
  }

  /**
   * `convert_collapse_to_comparison`: each found spoiler or hide block
   * with at least six images is replaced everywhere by a comparison tag;
   * blocks with fewer images are left alone.
   */
  method ConvertCollapseToComparison(desc: string, kind: CollapseKind, tags: seq<Found>) returns (r: Result<string>)
    ensures r == ReplaceCollapses(desc, kind, tags)
  {
    var d := desc;
    for i := 0 to |tags|
      invariant ReplaceCollapses(desc, kind, tags[..i]) == Ok(d)
    {
      var tag := tags[i];
      ReplaceCollapsesStep(desc, kind, tags, i, d);
      if |tag.inner| >= 6 {
        var rep := BuildReplacement(tag, kind);
        if rep.Err? {
          ReplaceCollapsesError(desc, kind, tags, i + 1);
          return Err(rep.error);
        }
        d := Replace(d, tag.text, rep.value);
      }
    }
    assert tags[..|tags|] == tags;
    return Ok(d);
  }

  /** One more block: left alone below six images, else replaced or the exception raised. */
  lemma {:induction false} ReplaceCollapsesStep(desc: string, kind: CollapseKind, tags: seq<Found>, i: nat, d: string)
    requires i < |tags| && ReplaceCollapses(desc, kind, tags[..i]) == Ok(d)
    ensures |tags[i].inner| < 6 ==> ReplaceCollapses(desc, kind, tags[..i + 1]) == Ok(d)
    ensures |tags[i].inner| >= 6 && CollapseReplacement(tags[i], kind).Err? ==>
              ReplaceCollapses(desc, kind, tags[..i + 1]) == Err(CollapseReplacement(tags[i], kind).error)
    ensures |tags[i].inner| >= 6 && CollapseReplacement(tags[i], kind).Ok? ==>
              ReplaceCollapses(desc, kind, tags[..i + 1]) == Ok(Replace(d, tags[i].text, CollapseReplacement(tags[i], kind).value))
  {
    assert tags[..i + 1][..i] == tags[..i];
  }

  /** The comparison tag for one collapse block, built by collecting its image URLs. */
  method BuildReplacement(tag: Found, kind: CollapseKind) returns (rep: Result<string>)
    ensures rep == CollapseReplacement(tag, kind)
  {
    var header := Header(tag.text, kind);
    if header.Err? {
      return Err(header.error);
    }
    var urls := ImageUrls(tag.inner);
    CollapseReplacementIs(tag, kind, header.value, urls);
    rep := Ok(ComparisonTag(HeaderSources(header.value, kind), urls));
  }

  /** The loop collecting the URL of each found image. */
  method ImageUrls(images: seq<string>) returns (urls: seq<string>)
    ensures urls == seq(|images|, k requires 0 <= k < |images| => ImageUrl(images[k]))
  {
    urls := [];
    for k := 0 to |images|
      invariant urls == seq(k, m requires 0 <= m < k => ImageUrl(images[m]))
    {
      urls := urls + [ImageUrl(images[k])];
    }
  }

  /** A collapse block with a header is replaced by the comparison tag built from it. */
  lemma {:induction false} CollapseReplacementIs(tag: Found, kind: CollapseKind, header: string, urls: seq<string>)
    requires Header(tag.text, kind) == Ok(header)
    requires urls == seq(|tag.inner|, k requires 0 <= k < |tag.inner| => ImageUrl(tag.inner[k]))
    ensures CollapseReplacement(tag, kind) == Ok(ComparisonTag(HeaderSources(header, kind), urls))
  {
  }

  /** An exception on a prefix of the blocks is the result for all of them. */
  lemma {:induction false} ReplaceCollapsesError(desc: string, kind: CollapseKind, tags: seq<Found>, n: nat)
    requires n <= |tags| && ReplaceCollapses(desc, kind, tags[..n]).Err?
    ensures ReplaceCollapses(desc, kind, tags) == ReplaceCollapses(desc, kind, tags[..n])
    decreases |tags| - n
  {
    if n < |tags| {
      assert tags[..n + 1][..n] == tags[..n];
      ErrorPersists(desc, kind, tags[..n + 1]);
      ReplaceCollapsesError(desc, kind, tags, n + 1);
    } else {
      assert tags[..n] == tags;
    }
  }

  /** One more block after an exception keeps the exception. */
  lemma {:induction false} ErrorPersists(desc: string, kind: CollapseKind, tags: seq<Found>)
    requires tags != [] && ReplaceCollapses(desc, kind, tags[..|tags| - 1]).Err?
    ensures ReplaceCollapses(desc, kind, tags) == ReplaceCollapses(desc, kind, tags[..|tags| - 1])
  {
  }

  /** Blocks with fewer than six images never change the description. */
  lemma {:induction false} FewImagesUnchanged(desc: string, kind: CollapseKind, tags: seq<Found>)
    requires forall k :: 0 <= k < |tags| ==> |tags[k].inner| < 6
    ensures ReplaceCollapses(desc, kind, tags) == Ok(desc)
    decreases |tags|
  {
    if tags != [] {
      FewImagesUnchanged(desc, kind, tags[..|tags| - 1]);
    }
  }

  /** A plain `[img]url[/img]` with no brackets in the URL yields the URL. */
  lemma {:induction false} ImageUrlPlain(u: string)
    requires '[' !in u && ']' !in u
    ensures ImageUrl("[img]" + u + "[/img]") == u
  {
    var t := "[img]" + u;
    ClosingTagDeleted(u);
    FindImgAtStart(t);
    LastBracketAfterImg(u);
    assert t[5..] == u;
  }

  /** Deleting "[/img]" from `[img]url[/img]` leaves `[img]url`. */
  lemma {:induction false} ClosingTagDeleted(u: string)
    requires '[' !in u
    ensures Replace("[img]" + u + "[/img]", "[/img]", "") == "[img]" + u
  {
    ImgParts(u);
    DeleteAfterPlain('[', "img]" + u, "[/img]");
  }

  /** `[img]url[/img]` regrouped around its first character. */
  lemma {:induction false} ImgParts(u: string)
    requires '[' !in u
    ensures "[img]" + u + "[/img]" == ['['] + ("img]" + u) + "[/img]"
    ensures "[img]" + u == ['['] + ("img]" + u)
    ensures ("img]" + u)[0] == 'i' && '[' !in "img]" + u
  {
  }

  /** Deleting a pattern that follows a character and a text free of its first character. */
  lemma {:induction false} DeleteAfterPlain(c: char, x: string, pat: string)
    requires |pat| >= 2 && x != [] && x[0] != pat[1] && pat[0] !in x
    ensures Replace([c] + x + pat, pat, "") == [c] + x
  {
    var s := [c] + x + pat;
    ReplaceSecondKept(s, pat, "");
    assert s[1..] == x + pat;
    ReplaceSkipsPlain(x, pat, pat, "");
    ReplaceWhole(pat, "");
    assert x + "" == x;
  }

  /** A match of `pat` cannot start where the second characters differ. */
  lemma {:induction false} ReplaceSecondKept(s: string, pat: string, rep: string)
    requires |pat| >= 2 && |s| >= 2 && s[1] != pat[1]
    ensures Replace(s, pat, rep) == [s[0]] + Replace(s[1..], pat, rep)
  {
    if |pat| <= |s| {
      assert s[..|pat|][1] == s[1];
    }
  }

  /** The last ']' of `[img]url` closes the opening tag when the URL has none. */
  lemma {:induction false} LastBracketAfterImg(u: string)
    requires ']' !in u
    ensures RFind("[img]" + u, ']') == 4
  {
    var t := "[img]" + u;
    assert t[4] == ']';
    assert forall k :: 5 <= k < |t| ==> t[k] == u[k - 5];
  }

  lemma {:induction false} FindImgAtStart(t: string)
    requires |t| >= 4 && t[..4] == "[img"
    ensures FindImg(t, 0) == Some(0)
  {
    assert t[0..4] == t[..4];
    assert Lower("[img") == "[img" by {
      LowerNoUpper("[img");
    }
  }

  /** Lower-casing a text without upper-case letters leaves it alone. */
  lemma {:induction false} LowerNoUpper(s: string)
    requires forall k :: 0 <= k < |s| ==> !('A' <= s[k] <= 'Z')
    ensures Lower(s) == s
    decreases |s|
  {
    if s != [] {
      LowerNoUpper(s[1..]);
    }
  }

  /** `replace` copies a stretch that cannot start the pattern. */
  lemma {:induction false} ReplaceSkipsPlain(x: string, rest: string, pat: string, rep: string)
    requires pat != [] && pat[0] !in x
    ensures Replace(x + rest, pat, rep) == x + Replace(rest, pat, rep)
    decreases |x|
  {
    if x != [] {
      var s := x + rest;
      assert s[0] == x[0] && s[1..] == x[1..] + rest;
      ReplaceFirstKept(s, pat, rep);
      ReplaceSkipsPlain(x[1..], rest, pat, rep);
      assert x == [x[0]] + x[1..];
    } else {
      assert x + rest == rest;
    }
  }
}
