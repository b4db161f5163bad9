/**
 * `parse_bdinfo`: the line-oriented parser of a BDInfo report and of its
 * playlist file listing. Python's `float()` grammar is not part of this
 * model: which texts it accepts is a parameter (`isFloat`), and a disc
 * size is kept as the text `float()` reads rather than as a number of
 * gibibytes.
 */
module DiscParse {
  import opened PyStr

  /** One `video:` line. */
  datatype Video = Video(
    codec: string, bitrate: string, res: string, fps: string, aspectRatio: string,
    profile: string, bitDepth: string, hdrDv: string, color: string, threeD: string)

  /** One `audio:` line. */
  datatype Audio = Audio(
    language: string, codec: string, channels: string, sampleRate: string,
    bitrate: string, bitDepth: string, dolbyAtmos: string)

  /** One line of the file listing: `{file: ..., length: ...}`. */
  datatype M2ts = M2ts(file: string, length: string)

  /** The parsed report; optional keys are None until a line sets them. */
  datatype BdInfo = BdInfo(
    video: seq<Video>,
    audio: seq<Audio>,
    subtitles: seq<string>,
    path: string,
    playlist: Option<string>,
    size: Option<string>,
    length: Option<string>,
    title: Option<string>,
    discLabel: Option<string>,
    files: seq<M2ts>)

  /**
   * The key text a line is classified by: stripped and lower-cased, and
   * when that starts with '*', the same taken after deleting every '*'.
   */
  function LineKey(l: string): string {
    var line := Lower(Strip(l));
    if StartsWith(line, "*") then Lower(Strip(Replace(l, "*", ""))) else line
  }

  /** The index of the first `c` in `s`, or -1. */
  function Find(s: string, c: char): (i: int)
    ensures -1 <= i < |s|
    ensures i >= 0 ==> s[i] == c && c !in s[..i]
    ensures i == -1 <==> c !in s
    decreases |s|
  {
    if s == [] then -1
    else if s[0] == c then 0
    else
      var j := Find(s[1..], c);
      assert s[1..][..if j < 0 then 0 else j] == s[..if j < 0 then 1 else j + 1][1..];
      if j < 0 then -1 else j + 1
  }

  /** `l.split(':', 1)[1]`: the text after the first ':'. */
  function AfterColon(l: string): (r: string)
    requires ':' in l
    ensures EndsWith(l, r) && |r| < |l|
    ensures l[|l| - |r| - 1] == ':' && ':' !in l[..|l| - |r| - 1]
  {
    var i := Find(l, ':');
    assert l[|l| - |l[i + 1..]|..] == l[i + 1..];
    l[i + 1..]
  }

  /** A character absent from a line is absent from the text after its colon. */
  lemma {:induction false} AfterColonKeepsAbsent(l: string, c: char)
    requires ':' in l && c !in l
    ensures c !in AfterColon(l)
  {
    var r := AfterColon(l);
    assert r == l[|l| - |r|..];
  }

  /** Lower-casing creates no character other than a lower-case letter. */
  lemma {:induction false} LowerKeepsAbsent(s: string, c: char)
    requires c !in s && !('a' <= c <= 'z')
    ensures c !in Lower(s)
    decreases |s|
  {
    if s != [] {
      LowerKeepsAbsent(s[1..], c);
    }
  }

  /** `playlist` and `length`: the text after the first ':' up to the first '.', stripped. */
  function BeforeDot(l: string): (r: string)
    requires ':' in l
    ensures '.' !in r && r == Strip(r)
    ensures var t := AfterColon(l);
            r == Strip(if '.' in t then t[..Find(t, '.')] else t)
  {
    var t := AfterColon(l);
    var head := BeforeFirst(t, ".");
    SplitPartsFree(t, '.');
    StripKeepsAbsent(head, '.');
    StripIdempotent(head);
    HeadBeforeDot(t);
    Strip(head)
  }

  /** The first '.'-separated part is the text before the first '.'. */
  lemma {:induction false} HeadBeforeDot(t: string)
    ensures BeforeFirst(t, ".") == if '.' in t then t[..Find(t, '.')] else t
  {
    if '.' in t {
      SplitAtFirst(t, '.', Find(t, '.'));
    } else {
      SplitSingle(t, '.');
    }
  }

  /**
   * `l.split(':', 1)[1].split('bytes', 1)[0].replace(',', '')`: the text a
   * `disc size:` line hands to `float()`.
   */
  function SizeText(l: string): (r: string)
    requires ':' in l
    ensures ',' !in r
  {
    var t := BeforeFirst(AfterColon(l), "bytes");
    DeleteChar(t, ',');
    Replace(t, ",", "")
  }

  /** The video fields padded with "" to exactly nine. */
  function Padded(fields: seq<string>): (p: seq<string>)
    requires |fields| <= 9
    ensures |p| == 9 && p[..|fields|] == fields
    ensures forall k :: |fields| <= k < 9 ==> p[k] == ""
  {
    fields + seq(9 - |fields|, _ => "")
  }

  /**
   * The padding loop `while len(split2) != 9: split2.append("")`; it only
   * ends for at most nine fields, so its callers check that first.
   */
  method PadFields(fields: seq<string>) returns (p: seq<string>)
    requires |fields| <= 9
    ensures p == Padded(fields)
  {
    p := fields;
    while |p| != 9
      invariant |fields| <= |p| <= 9
      invariant p == fields + seq(|p| - |fields|, _ => "")
      decreases 9 - |p|
    {
      p := p + [""];
    }
  }

  /** Every field stripped, as each is when it is read. */
  function Stripped(p: seq<string>): (q: seq<string>)
    ensures |q| == |p| && forall k :: 0 <= k < |p| ==> q[k] == Strip(p[k])
  {
    seq(|p|, k requires 0 <= k < |p| => Strip(p[k]))
  }

  /**
   * A video entry from the nine padded, stripped fields. A field 2 holding
   * "Eye" is the 3D flag and shifts the later fields by one; then the
   * index of the last tail field is out of range and all three tail
   * fields become "".
   */
  function VideoOf(q: seq<string>): (v: Video)
    requires |q| == 9
    ensures Contains(q[2], "Eye") ==>
              v.threeD == q[2] && v.res == q[3] && v.fps == q[4] && v.aspectRatio == q[5] && v.profile == q[6]
              && v.bitDepth == "" && v.hdrDv == "" && v.color == ""
    ensures !Contains(q[2], "Eye") ==>
              v.threeD == "" && v.res == q[2] && v.fps == q[3] && v.aspectRatio == q[4] && v.profile == q[5]
              && v.bitDepth == q[6] && v.hdrDv == q[7] && v.color == q[8]
    ensures v.codec == q[0] && v.bitrate == q[1]
  {
    var n := if Contains(q[2], "Eye") then 1 else 0;
    var threeD := if n == 1 then q[2] else "";
    var tail := if n + 8 < |q| then (q[n + 6], q[n + 7], q[n + 8]) else ("", "", "");
    Video(q[0], q[1], q[n + 2], q[n + 3], q[n + 4], q[n + 5], tail.0, tail.1, tail.2, threeD)
  }

  /** `l.split("(")[0]` when the line holds '(', else the line. */
  function BeforeParen(l: string): (r: string)
    ensures '(' !in r
    ensures '(' !in l ==> r == l
  {
    if '(' in l then
      SplitPartsFree(l, '(');
      Split(l, "(")[0]
    else l
  }

  /**
   * An audio entry: only the text before '(' counts, and the line must
   * hold a ':' after it; the '/' fields after that colon are read by
   * `AudioFields`.
   */
  function AudioOf(l: string): (r: Result<Audio>)
    ensures var cut := Strip(BeforeParen(l));
            (':' !in cut ==> r == Err(IndexError))
            && (':' in cut ==> r == AudioFields(Split(AfterColon(cut), "/")))
    ensures r.Ok? ==>
              var a := r.value;
              '(' !in a.language && '(' !in a.codec && '(' !in a.channels && '(' !in a.sampleRate
              && '(' !in a.bitrate && '(' !in a.bitDepth && '(' !in a.dolbyAtmos
  {
    var cut := Strip(BeforeParen(l));
    StripKeepsAbsent(BeforeParen(l), '(');
    if ':' !in cut then Err(IndexError)
    else
      var fields := Split(AfterColon(cut), "/");
      AudioFieldsFree(cut, fields);
      AudioParenFree(fields);
      AudioFields(fields)
  }

  /**
   * The audio entry read from the '/' fields: field 2 holding "Atmos" is
   * the Atmos flag and shifts the later fields by one. Reading a field
   * past the end raises IndexError, except the bit depth, which is then "".
   */
  function AudioFields(fields: seq<string>): (r: Result<Audio>)
    ensures r.Ok? <==> |fields| >= 3 && |fields| >= (if Atmos(fields[2]) then 6 else 5)
    ensures r.Err? ==> r.error == IndexError
    ensures r.Ok? ==> r.value.language == Strip(fields[0]) && r.value.codec == Strip(fields[1])
    ensures r.Ok? && Atmos(fields[2]) ==>
              var a := r.value;
              a.dolbyAtmos == Strip(fields[2]) && a.channels == Strip(fields[3]) && a.sampleRate == Strip(fields[4])
              && a.bitrate == Strip(fields[5]) && a.bitDepth == (if |fields| > 6 then Strip(fields[6]) else "")
    ensures r.Ok? && !Atmos(fields[2]) ==>
              var a := r.value;
              a.dolbyAtmos == "" && a.channels == Strip(fields[2]) && a.sampleRate == Strip(fields[3])
              && a.bitrate == Strip(fields[4]) && a.bitDepth == (if |fields| > 5 then Strip(fields[5]) else "")
  {
    if |fields| < 3 then Err(IndexError)
    else if Atmos(fields[2]) then
      if |fields| < 6 then Err(IndexError)
      else
        var bitDepth := if |fields| > 6 then Strip(fields[6]) else "";
        Ok(Audio(Strip(fields[0]), Strip(fields[1]), Strip(fields[3]), Strip(fields[4]), Strip(fields[5]),
                 bitDepth, Strip(fields[2])))
    else if |fields| < 5 then Err(IndexError)
    else
      var bitDepth := if |fields| > 5 then Strip(fields[5]) else "";
      Ok(Audio(Strip(fields[0]), Strip(fields[1]), Strip(fields[2]), Strip(fields[3]), Strip(fields[4]),
               bitDepth, ""))
  }

  /** An audio field naming Dolby Atmos. */
  predicate Atmos(field: string) {
    Contains(Strip(field), "Atmos")
  }

  /** The stripped audio fields hold no '('. */
  lemma {:induction false} AudioFieldsFree(cut: string, fields: seq<string>)
    requires '(' !in cut
    requires ':' in cut && fields == Split(AfterColon(cut), "/")
    ensures forall k :: 0 <= k < |fields| ==> '(' !in Strip(fields[k])
  {
    AfterColonKeepsAbsent(cut, '(');
    SplitKeepsAbsent(AfterColon(cut), "/", '(');
    forall k | 0 <= k < |fields|
      ensures '(' !in Strip(fields[k])
    {
      StripKeepsAbsent(fields[k], '(');
    }
  }

  /** Fields whose stripped text holds no '(' give an audio entry without '('. */
  lemma {:induction false} AudioParenFree(fields: seq<string>)
    requires forall k :: 0 <= k < |fields| ==> '(' !in Strip(fields[k])
    ensures var r := AudioFields(fields);
            r.Ok? ==>
              var a := r.value;
              '(' !in a.language && '(' !in a.codec && '(' !in a.channels && '(' !in a.sampleRate
              && '(' !in a.bitrate && '(' !in a.bitDepth && '(' !in a.dolbyAtmos
  {
  }

  /** The subtitle language: the first '/' field after the colon, stripped. */
  function SubtitleOf(l: string): string
    requires ':' in l
  {
    Strip(Split(AfterColon(l), "/")[0])
  }

  /** The report before any line: empty lists and the given path. */
  function Empty(path: string): BdInfo {
    BdInfo([], [], [], path, None, None, None, None, None, [])
  }

  /** A key starting with a prefix that ends in ':' holds a ':'. */
  lemma {:induction false} ColonInKey(key: string, prefix: string)
    requires |prefix| >= 1 && prefix[|prefix| - 1] == ':' && StartsWith(key, prefix)
    ensures ':' in key
  {
    assert key[|prefix| - 1] == prefix[|prefix| - 1];
  }

  /** A ':' in the key of a line comes from the line itself. */
  lemma {:induction false} LineKeyColon(l: string)
    ensures ':' in LineKey(l) ==> ':' in l
  {
    if ':' !in l {
      StripKeepsAbsent(l, ':');
      LowerKeepsAbsent(Strip(l), ':');
      DeleteChar(l, '*');
      StripKeepsAbsent(Replace(l, "*", ""), ':');
      LowerKeepsAbsent(Strip(Replace(l, "*", "")), ':');
    }
  }

  /** The `playlist:` check: the text up to the first '.', stripped. */
  function WithPlaylist(acc: BdInfo, l: string, key: string): (r: BdInfo)
    requires ':' in key ==> ':' in l
    ensures r.(playlist := acc.playlist) == acc
    ensures StartsWith(key, "playlist:") ==> ':' in l && r.playlist == Some(BeforeDot(l))
    ensures !StartsWith(key, "playlist:") ==> r == acc
  {
    if StartsWith(key, "playlist:") then
      ColonInKey(key, "playlist:");
      acc.(playlist := Some(BeforeDot(l)))
    else acc
  }

  /** The `disc size:` check: `float()` rejecting the size text raises ValueError. */
  function WithSize(acc: BdInfo, l: string, key: string, isFloat: string -> bool): (r: Result<BdInfo>)
    requires ':' in key ==> ':' in l
    ensures !StartsWith(key, "disc size:") ==> r == Ok(acc)
    ensures StartsWith(key, "disc size:") ==>
              ':' in l
              && (r.Err? <==> !isFloat(SizeText(l)))
              && (r.Err? ==> r.error == ValueError)
              && (r.Ok? ==> r.value == acc.(size := Some(SizeText(l))))
  {
    if StartsWith(key, "disc size:") then
      ColonInKey(key, "disc size:");
      if isFloat(SizeText(l)) then Ok(acc.(size := Some(SizeText(l)))) else Err(ValueError)
    else Ok(acc)
  }

  /** The `length:` check: the text up to the first '.', stripped. */
  function WithLength(acc: BdInfo, l: string, key: string): (r: BdInfo)
    requires ':' in key ==> ':' in l
    ensures r.(length := acc.length) == acc
    ensures StartsWith(key, "length:") ==> ':' in l && r.length == Some(BeforeDot(l))
    ensures !StartsWith(key, "length:") ==> r == acc
  {
    if StartsWith(key, "length:") then
      ColonInKey(key, "length:");
      acc.(length := Some(BeforeDot(l)))
    else acc
  }

  /**
   * The `playlist:`, `disc size:` and `length:` checks, each on its own
   * and in that order; only the size can raise.
   */
  function StepHeader(acc: BdInfo, l: string, key: string, isFloat: string -> bool): (r: Result<BdInfo>)
    requires ':' in key ==> ':' in l
    ensures r.Err? ==> StartsWith(key, "disc size:") && r.error == ValueError
    ensures !StartsWith(key, "disc size:") ==> r == Ok(WithLength(WithPlaylist(acc, l, key), l, key))
    ensures r.Ok? ==> r.value.path == acc.path && r.value.files == acc.files && r.value.video == acc.video
                      && r.value.audio == acc.audio && r.value.subtitles == acc.subtitles
  {
    var sized :- WithSize(WithPlaylist(acc, l, key), l, key, isFloat);
    Ok(WithLength(sized, l, key))
  }

  /** The key of a line that can stop the parse: a `video:`, an `audio:` or a `disc size:` line. */
  predicate MayFail(key: string) {
    StartsWith(key, "video:") || StartsWith(key, "audio:") || StartsWith(key, "disc size:")
  }

  /**
   * The first of `video:`, `audio:`, `disc title:`, `disc label:` and
   * `subtitle:` that the key starts with. A `video:` line with more than
   * nine '/' fields never leaves the padding loop.
   */
  function StepBody(acc: BdInfo, l: string, key: string): (r: Result<BdInfo>)
    requires ':' in key ==> ':' in l
    ensures r.Ok? ==> r.value.path == acc.path && r.value.files == acc.files
                      && r.value.playlist == acc.playlist && r.value.size == acc.size && r.value.length == acc.length
    ensures r.Err? ==> StartsWith(key, "video:") || StartsWith(key, "audio:")
    ensures r.Err? ==> r.error == (if StartsWith(key, "video:") then Diverges else IndexError)
  {
    if StartsWith(key, "video:") then
      ColonInKey(key, "video:");
      var fields := Split(AfterColon(l), "/");
      if |fields| > 9 then Err(Diverges)
      else Ok(acc.(video := acc.video + [VideoOf(Stripped(Padded(fields)))]))
    else if StartsWith(key, "audio:") then
      var a :- AudioOf(l);
      Ok(acc.(audio := acc.audio + [a]))
    else if StartsWith(key, "disc title:") then
      ColonInKey(key, "disc title:");
      Ok(acc.(title := Some(AfterColon(l))))
    else if StartsWith(key, "disc label:") then
      ColonInKey(key, "disc label:");
      Ok(acc.(discLabel := Some(AfterColon(l))))
    else if StartsWith(key, "subtitle:") then
      ColonInKey(key, "subtitle:");
      Ok(acc.(subtitles := acc.subtitles + [SubtitleOf(l)]))
    else Ok(acc)
  }

  /**
   * One line of the report: the header checks, then the body checks, on
   * the line's key. A bad disc size raises ValueError, an overlong `video:`
   * line never returns, and a short `audio:` line raises IndexError.
   */
  function Step(acc: BdInfo, l: string, isFloat: string -> bool): (r: Result<BdInfo>)
    ensures r.Ok? ==> r.value.path == acc.path && r.value.files == acc.files
    ensures r.Err? ==> MayFail(LineKey(l))
    ensures r.Err? ==> r.error == (if StartsWith(LineKey(l), "disc size:") then ValueError
                                   else if StartsWith(LineKey(l), "video:") then Diverges
                                   else IndexError)
  {
    LineKeyColon(l);
    StepKeyed(acc, l, LineKey(l), isFloat)
  }

  /** The step for a line whose key has been computed. */
  function StepKeyed(acc: BdInfo, l: string, key: string, isFloat: string -> bool): (r: Result<BdInfo>)
    requires ':' in key ==> ':' in l
    ensures r.Ok? ==> r.value.path == acc.path && r.value.files == acc.files
    ensures r.Err? ==> MayFail(key)
    ensures r.Err? ==> r.error == (if StartsWith(key, "disc size:") then ValueError
                                   else if StartsWith(key, "video:") then Diverges
                                   else IndexError)
  {
    SizeKeyOnly(key);
    var header :- StepHeader(acc, l, key, isFloat);
    StepBody(header, l, key)
  }

  /** A `disc size:` key is neither a `video:` nor an `audio:` key. */
  lemma {:induction false} SizeKeyOnly(key: string)
    ensures StartsWith(key, "disc size:") ==> !StartsWith(key, "video:") && !StartsWith(key, "audio:")
  {
    if StartsWith(key, "disc size:") {
      DistinctPrefix(key, "disc size:", "video:", 0);
      DistinctPrefix(key, "disc size:", "audio:", 0);
    }
  }

  /** The report after the given lines, or the first exception. */
  function Lines(acc: BdInfo, lines: seq<string>, isFloat: string -> bool): (r: Result<BdInfo>)
    decreases |lines|
  {
    if lines == [] then Ok(acc)
    else
      var before :- Lines(acc, lines[..|lines| - 1], isFloat);
      Step(before, lines[|lines| - 1], isFloat)
  }

  /** The listing lines with at least five whitespace-separated tokens, as `{file, length}` in order. */
  function FilesOf(lines: seq<string>): (r: seq<M2ts>)
    ensures |r| <= |lines|
    decreases |lines|
  {
    if lines == [] then []
    else
      var tokens := SplitWhitespace(lines[|lines| - 1]);
      FilesOf(lines[..|lines| - 1]) + (if |tokens| >= 5 then [M2ts(tokens[0], tokens[2])] else [])
  }

  /** `parse_bdinfo(bdinfo_input, files, path)` as a function of its inputs. */
  function Parse(input: string, files: string, path: string, isFloat: string -> bool): Result<BdInfo> {
    var info :- Lines(Empty(path), SplitLines(input), isFloat);
    Ok(info.(files := FilesOf(SplitLines(files))))
  }

  /** One report line, padding the video fields with the loop. */
  method ParseLine(acc: BdInfo, l: string, isFloat: string -> bool) returns (r: Result<BdInfo>)
    ensures r == Step(acc, l, isFloat)
  {
    var key := LineKey(l);
    LineKeyColon(l);
    var header := StepHeader(acc, l, key, isFloat);
    if header.Err? {
      return Err(header.error);
    }
    var info := header.value;
    if StartsWith(key, "video:") {
      ColonInKey(key, "video:");
      var fields := Split(AfterColon(l), "/");
      if |fields| > 9 {
        r := Err(Diverges);
      } else {
        var p := PadFields(fields);
        r := Ok(info.(video := info.video + [VideoOf(Stripped(p))]));
      }
    } else {
      r := StepBody(info, l, key);
    }
  }

  /** The file listing loop; lines whose indexing raises are skipped. */
  method ParseFiles(lines: seq<string>) returns (files: seq<M2ts>)
    ensures files == FilesOf(lines)
  {
    files := [];
    for i := 0 to |lines|
      invariant files == FilesOf(lines[..i])
    {
      assert lines[..i + 1][..i] == lines[..i];
      var tokens := SplitWhitespace(lines[i]);
      if |tokens| >= 5 {
        files := files + [M2ts(tokens[0], tokens[2])];
      }
    }
    assert lines[..|lines|] == lines;
  }

  /** `parse_bdinfo`: the report lines in order, then the file listing. */
  method ParseBdinfo(input: string, files: string, path: string, isFloat: string -> bool) returns (r: Result<BdInfo>)
    ensures r == Parse(input, files, path, isFloat)
  {
    var lines := SplitLines(input);
    var info := Empty(path);
    for i := 0 to |lines|
      invariant Lines(Empty(path), lines[..i], isFloat) == Ok(info)
    {
      LinesStep(Empty(path), lines, i, info, isFloat);
      var next := ParseLine(info, lines[i], isFloat);
      if next.Err? {
        LinesError(Empty(path), lines, i + 1, isFloat);
        return Err(next.error);
      }
      info := next.value;
    }
    assert lines[..|lines|] == lines;
    var listing := ParseFiles(SplitLines(files));
    return Ok(info.(files := listing));
  }

  /** One more line is one more step. */
  lemma {:induction false} LinesStep(acc: BdInfo, lines: seq<string>, i: nat, info: BdInfo, isFloat: string -> bool)
    requires i < |lines| && Lines(acc, lines[..i], isFloat) == Ok(info)
    ensures Lines(acc, lines[..i + 1], isFloat) == Step(info, lines[i], isFloat)
  {
    assert lines[..i + 1][..i] == lines[..i];
  }

  /** An exception on a prefix of the lines is the result for all of them. */
  lemma {:induction false} LinesError(acc: BdInfo, lines: seq<string>, n: nat, isFloat: string -> bool)
    requires n <= |lines| && Lines(acc, lines[..n], isFloat).Err?
    ensures Lines(acc, lines, isFloat) == Lines(acc, lines[..n], isFloat)
    decreases |lines| - n
  {
    if n < |lines| {
      assert lines[..n + 1][..n] == lines[..n];
      LinesErrorPersists(acc, lines[..n + 1], isFloat);
      LinesError(acc, lines, n + 1, isFloat);
    } else {
      assert lines[..n] == lines;
    }
  }

  /** One more line after an exception keeps the exception. */
  lemma {:induction false} LinesErrorPersists(acc: BdInfo, lines: seq<string>, isFloat: string -> bool)
    requires lines != [] && Lines(acc, lines[..|lines| - 1], isFloat).Err?
    ensures Lines(acc, lines, isFloat) == Lines(acc, lines[..|lines| - 1], isFloat)
  {
  }

  /** The parsed report keeps the given path, and only a `video:`, an `audio:` or a `disc size:` line can stop it. */
  lemma {:induction false} LinesKeepPath(acc: BdInfo, lines: seq<string>, isFloat: string -> bool)
    ensures Lines(acc, lines, isFloat).Ok? ==> Lines(acc, lines, isFloat).value.path == acc.path
    ensures Lines(acc, lines, isFloat).Err? ==> exists k :: 0 <= k < |lines| && MayFail(LineKey(lines[k]))
    decreases |lines|
  {
    if lines != [] {
      var init := lines[..|lines| - 1];
      LinesKeepPath(acc, init, isFloat);
      if Lines(acc, init, isFloat).Err? {
        var k :| 0 <= k < |init| && MayFail(LineKey(init[k]));
        assert lines[k] == init[k];
      }
    }
  }

  /**
   * Without `video:`, `audio:` and `disc size:` lines the report always
   * parses, with the path and the listing it was given.
   */
  lemma {:induction false} ParseShape(input: string, files: string, path: string, isFloat: string -> bool)
    requires forall k :: 0 <= k < |SplitLines(input)| ==> !MayFail(LineKey(SplitLines(input)[k]))
    ensures Parse(input, files, path, isFloat).Ok?
    ensures Parse(input, files, path, isFloat).value.path == path
    ensures Parse(input, files, path, isFloat).value.files == FilesOf(SplitLines(files))
  {
    LinesKeepPath(Empty(path), SplitLines(input), isFloat);
  }

  /** A `video:` line with more than nine '/' fields never lets the parse return. */
  lemma {:induction false} VideoOverflowDiverges(acc: BdInfo, l: string, isFloat: string -> bool)
    requires StartsWith(LineKey(l), "video:")
    ensures ':' in l
    ensures Step(acc, l, isFloat).Err? <==> |Split(AfterColon(l), "/")| > 9
    ensures Step(acc, l, isFloat).Err? ==> Step(acc, l, isFloat).error == Diverges
  {
    ColonInKey(LineKey(l), "video:");
    LineKeyColon(l);
    DistinctPrefix(LineKey(l), "video:", "disc size:", 0);
  }

  /**
   * A `disc size:` line raises ValueError exactly when `float()` rejects
   * its size text, and otherwise only records that text.
   */
  lemma {:induction false} StepDiscSize(acc: BdInfo, l: string, isFloat: string -> bool)
    requires StartsWith(LineKey(l), "disc size:")
    ensures ':' in l
    ensures Step(acc, l, isFloat).Err? <==> !isFloat(SizeText(l))
    ensures Step(acc, l, isFloat).Err? ==> Step(acc, l, isFloat).error == ValueError
    ensures Step(acc, l, isFloat).Ok? ==> Step(acc, l, isFloat).value == acc.(size := Some(SizeText(l)))
  {
    var key := LineKey(l);
    ColonInKey(key, "disc size:");
    LineKeyColon(l);
    DistinctPrefix(key, "disc size:", "playlist:", 0);
    DistinctPrefix(key, "disc size:", "length:", 0);
    DistinctPrefix(key, "disc size:", "video:", 0);
    DistinctPrefix(key, "disc size:", "audio:", 0);
    DistinctPrefix(key, "disc size:", "disc title:", 5);
    DistinctPrefix(key, "disc size:", "disc label:", 5);
    DistinctPrefix(key, "disc size:", "subtitle:", 0);
  }

  /** Under a `playlist:` key the body checks all miss. */
  lemma {:induction false} StepBodyPlaylist(acc: BdInfo, l: string, key: string)
    requires ':' in key ==> ':' in l
    requires StartsWith(key, "playlist:")
    ensures StepBody(acc, l, key) == Ok(acc)
  {
    DistinctPrefix(key, "playlist:", "video:", 0);
    DistinctPrefix(key, "playlist:", "audio:", 0);
    DistinctPrefix(key, "playlist:", "disc title:", 0);
    DistinctPrefix(key, "playlist:", "disc label:", 0);
    DistinctPrefix(key, "playlist:", "subtitle:", 0);
  }

  /** A key starts with at most one of two prefixes that differ at index `i`. */
  lemma {:induction false} DistinctPrefix(key: string, p: string, q: string, i: nat)
    requires StartsWith(key, p) && i < |p| && i < |q| && p[i] != q[i]
    ensures !StartsWith(key, q)
  {
    assert key[i] == p[i];
  }

  /** A `playlist:` line sets the playlist and cannot fail. */
  lemma {:induction false} StepPlaylist(acc: BdInfo, l: string, isFloat: string -> bool)
    requires StartsWith(LineKey(l), "playlist:")
    ensures ':' in l
    ensures Step(acc, l, isFloat).Ok? && Step(acc, l, isFloat).value.playlist == Some(BeforeDot(l))
  {
    var key := LineKey(l);
    ColonInKey(key, "playlist:");
    LineKeyColon(l);
    DistinctPrefix(key, "playlist:", "disc size:", 0);
    DistinctPrefix(key, "playlist:", "length:", 0);
    StepBodyPlaylist(StepHeader(acc, l, key, isFloat).value, l, key);
  }

  /** A later `playlist:` line overrides an earlier one. */
  lemma {:induction false} PlaylistLastWins(acc: BdInfo, lines: seq<string>, l: string, isFloat: string -> bool)
    requires StartsWith(LineKey(l), "playlist:")
    requires Lines(acc, lines, isFloat).Ok?
    ensures ':' in l
    ensures Lines(acc, lines + [l], isFloat).Ok? && Lines(acc, lines + [l], isFloat).value.playlist == Some(BeforeDot(l))
  {
    LinesAppend(acc, lines, l, isFloat);
    StepPlaylist(Lines(acc, lines, isFloat).value, l, isFloat);
  }

  /** One more line applies the step to the report the earlier lines left. */
  lemma {:induction false} LinesAppend(acc: BdInfo, lines: seq<string>, l: string, isFloat: string -> bool)
    requires Lines(acc, lines, isFloat).Ok?
    ensures Lines(acc, lines + [l], isFloat) == Step(Lines(acc, lines, isFloat).value, l, isFloat)
  {
    assert (lines + [l])[..|lines|] == lines;
  }

  /** Every listed file comes from a listing line with at least five tokens. */
  lemma {:induction false} FilesOfSound(lines: seq<string>, k: nat)
    requires k < |FilesOf(lines)|
    ensures exists j :: 0 <= j < |lines| && Listed(lines[j], FilesOf(lines)[k])
    decreases |lines|
  {
    var init := lines[..|lines| - 1];
    var last := lines[|lines| - 1];
    var tokens := SplitWhitespace(last);
    var tail := if |tokens| >= 5 then [M2ts(tokens[0], tokens[2])] else [];
    assert FilesOf(lines) == FilesOf(init) + tail;
    if k < |FilesOf(init)| {
      FilesOfSound(init, k);
      var j :| 0 <= j < |init| && Listed(init[j], FilesOf(init)[k]);
      assert lines[j] == init[j];
    } else {
      assert Listed(last, FilesOf(lines)[k]);
    }
  }

  /** When every listing line has five tokens, each gives its entry, in order. */
  lemma {:induction false} FilesOfComplete(lines: seq<string>)
    requires forall j :: 0 <= j < |lines| ==> |SplitWhitespace(lines[j])| >= 5
    ensures |FilesOf(lines)| == |lines|
    decreases |lines|
  {
    if lines != [] {
      var init := lines[..|lines| - 1];
      assert forall j :: 0 <= j < |init| ==> init[j] == lines[j];
      FilesOfComplete(init);
    }
  }

  /**
   * When the listing lines up to line `j` all have five tokens, line `j`
   * gives entry `j`, whatever follows it.
   */
  lemma {:induction false} FilesOfAt(lines: seq<string>, j: nat)
    requires j < |lines|
    requires forall i :: 0 <= i <= j ==> |SplitWhitespace(lines[i])| >= 5
    ensures j < |FilesOf(lines)| && Listed(lines[j], FilesOf(lines)[j])
  {
    var pre := lines[..j];
    var l := lines[j];
    var post := lines[j + 1..];
    assert lines == pre + [l] + post;
    assert forall i :: 0 <= i < |pre| ==> pre[i] == lines[i];
    FilesOfComplete(pre);
    FilesOfAppend(pre + [l], post);
    FilesOfAppend(pre, [l]);
    var tokens := SplitWhitespace(l);
    assert [l][..0] == [];
    assert FilesOf([l]) == [M2ts(tokens[0], tokens[2])];
    assert FilesOf(lines)[j] == M2ts(tokens[0], tokens[2]);
  }

  /** Lines with fewer than five tokens list nothing. */
  lemma {:induction false} FilesOfNone(lines: seq<string>)
    requires forall j :: 0 <= j < |lines| ==> |SplitWhitespace(lines[j])| < 5
    ensures FilesOf(lines) == []
    decreases |lines|
  {
    if lines != [] {
      var init := lines[..|lines| - 1];
      assert forall j :: 0 <= j < |init| ==> init[j] == lines[j];
      FilesOfNone(init);
    }
  }

  /** The listing of two runs of lines is the two listings one after the other. */
  lemma {:induction false} FilesOfAppend(a: seq<string>, b: seq<string>)
    ensures FilesOf(a + b) == FilesOf(a) + FilesOf(b)
    decreases |b|
  {
    if b == [] {
      assert a + b == a;
    } else {
      var init := b[..|b| - 1];
      assert (a + b)[..|a + b| - 1] == a + init;
      assert (a + b)[|a + b| - 1] == b[|b| - 1];
      FilesOfAppend(a, init);
    }
  }

  /** `m` is the entry a listing line with at least five tokens gives. */
  predicate Listed(l: string, m: M2ts) {
    var tokens := SplitWhitespace(l);
    |tokens| >= 5 && m == M2ts(tokens[0], tokens[2])
  }

  /** Line keys ignore case: an upper-cased line is classified the same way. */
  lemma {:induction false} LineKeyIgnoresCase(l: string)
    ensures LineKey(Upper(l)) == LineKey(l)
  {
    StripUpper(l);
    LowerUpper(Strip(l));
    ReplaceStarUpper(l);
    StripUpper(Replace(l, "*", ""));
    LowerUpper(Strip(Replace(l, "*", "")));
  }

  /** Stripping commutes with upper-casing: case changes no whitespace. */
  lemma {:induction false} StripUpper(s: string)
    ensures Strip(Upper(s)) == Upper(Strip(s))
  {
    LStripUpper(s);
    RStripUpper(LStrip(s));
  }

  /** Case changes only letters, never whitespace. */
  lemma {:induction false} UpperCharSpace(c: char)
    ensures IsSpace(UpperChar(c)) == IsSpace(c)
  {
  }

  lemma {:induction false} LStripUpper(s: string)
    ensures LStrip(Upper(s)) == Upper(LStrip(s))
    decreases |s|
  {
    if s != [] {
      var u := Upper(s);
      assert u == [UpperChar(s[0])] + Upper(s[1..]);
      assert u[0] == UpperChar(s[0]) && u[1..] == Upper(s[1..]);
      UpperCharSpace(s[0]);
      if IsSpace(s[0]) {
        assert LStrip(u) == LStrip(u[1..]);
        assert LStrip(s) == LStrip(s[1..]);
        LStripUpper(s[1..]);
      } else {
        assert LStrip(u) == u;
        assert LStrip(s) == s;
      }
    }
  }

  lemma {:induction false} RStripUpper(s: string)
    ensures RStrip(Upper(s)) == Upper(RStrip(s))
    decreases |s|
  {
    if s != [] {
      var m := |s| - 1;
      UpperAt(s, m);
      UpperCharSpace(s[m]);
      UpperPrefix(s, m);
      RStripUpper(s[..m]);
    }
  }

  lemma {:induction false} UpperPrefix(s: string, n: nat)
    requires n <= |s|
    ensures Upper(s)[..n] == Upper(s[..n])
    decreases n
  {
    if n > 0 {
      UpperPrefix(s[1..], n - 1);
      assert s[..n][1..] == s[1..][..n - 1];
    }
  }

  /** Deleting '*' commutes with upper-casing. */
  lemma {:induction false} ReplaceStarUpper(s: string)
    ensures Replace(Upper(s), "*", "") == Upper(Replace(s, "*", ""))
    decreases |s|
  {
    if s != [] {
      var u := Upper(s);
      assert u[1..] == Upper(s[1..]);
      ReplaceStarUpper(s[1..]);
      assert StartsWith(u, "*") <==> StartsWith(s, "*");
      if StartsWith(s, "*") {
        assert Replace(s, "*", "") == Replace(s[1..], "*", "");
        assert Replace(u, "*", "") == Replace(u[1..], "*", "");
      } else {
        assert Upper([s[0]] + Replace(s[1..], "*", "")) == [UpperChar(s[0])] + Upper(Replace(s[1..], "*", ""));
      }
    }
  }
}
