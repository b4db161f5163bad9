/**
 * The value normalisation of `Args.parse`: after argparse has produced
 * its dictionary of options, the `full_auto` shortcut is applied, manual
 * ids are reset, and each option is copied into the job dictionary
 * (`meta`) with per-key rewriting. Argparse itself and the URL parser are
 * not part of this model: the parsed options are an input, and the two
 * `urllib.parse` queries are function parameters.
 */
module Args {
  import opened PyStr

  /** An item of a list-valued option (`nargs='*'`). */
  datatype Item = IStr(s: string) | IInt(i: int)

  /** A value in the options dictionary or in `meta`. */
  datatype Value = VNone | VBool(b: bool) | VInt(i: int) | VStr(s: string) | VList(items: seq<Item>)

  /** Python truthiness. */
  predicate Truthy(v: Value) {
    match v
    case VNone => false
    case VBool(b) => b
    case VInt(i) => i != 0
    case VStr(s) => s != ""
    case VList(items) => items != []
  }

  /** `str(item)` */
  function ItemString(x: Item): string {
    match x
    case IStr(s) => s
    case IInt(i) => IntToString(i)
  }

  predicate AllStrings(items: seq<Item>) {
    forall i :: 0 <= i < |items| ==> items[i].IStr?
  }

  function Strings(items: seq<Item>): (r: seq<string>)
    ensures |r| == |items|
    ensures forall i :: 0 <= i < |items| ==> r[i] == ItemString(items[i])
  {
    seq(|items|, i requires 0 <= i < |items| => ItemString(items[i]))
  }

  /**
   * `list_to_string`: a single item is formatted with `str`; otherwise the
   * items are joined with spaces, and a non-string item makes the join
   * fail, giving "None".
   */
  function ListToString(items: seq<Item>): (r: string)
    ensures |items| == 1 ==> r == ItemString(items[0])
    ensures |items| != 1 && !AllStrings(items) ==> r == "None"
  {
    if |items| == 1 then ItemString(items[0])
    else if AllStrings(items) then Join(" ", Strings(items))
    else "None"
  }

  /** For a list of strings the result is always the space-join, including the single-item case. */
  lemma {:induction false} ListToStringIsJoin(items: seq<Item>)
    requires AllStrings(items)
    ensures ListToString(items) == Join(" ", Strings(items))
  {
  }

  /** The separator-free list `["a", "b"]` gives "a b". */
  lemma {:induction false} ListToStringExample()
    ensures ListToString([IStr("a"), IStr("b")]) == "a b"
    ensures ListToString([IInt(7)]) == "7"
    ensures ListToString([IStr("a"), IInt(7)]) == "None"
  {
    assert Strings([IStr("a"), IStr("b")]) == ["a", "b"];
    assert !([IStr("a"), IInt(7)][1].IStr?);
  }

  /** The part of `s` after its first '/', up to the next one: `s.split('/')[1]`, or IndexError. */
  function SecondSegment(s: string): (r: Result<string>)
    ensures r.Ok? <==> '/' in s
    ensures r.Ok? ==> '/' !in r.value
    ensures r.Err? ==> r.error == IndexError
  {
    var parts := Split(s, "/");
    SplitSingle(s, '/');
    SplitPartsFree(s, '/');
    if |parts| < 2 then Err(IndexError) else Ok(parts[1])
  }

  /** The second segment is the text between the first and the second '/'. */
  lemma {:induction false} SecondSegmentBetween(s: string, i: nat)
    requires i < |s| && s[i] == '/' && '/' !in s[..i]
    ensures SecondSegment(s) == Ok(Split(s[i + 1..], "/")[0])
  {
    SplitAtFirst(s, '/', i);
  }

  /**
   * `parse_tmdb_id(id, category)`: the id is lower-cased and left-stripped;
   * a `tv` or `movie` prefix selects the category and keeps the second
   * '/'-separated segment; any other id leaves the category alone.
   */
  function ParseTmdbId(id: string, category: Value): (r: Result<(Value, string)>)
    ensures var norm := LStrip(Lower(id));
            (StartsWith(norm, "tv") || StartsWith(norm, "movie")) ==> (r.Ok? <==> '/' in norm)
    ensures var norm := LStrip(Lower(id));
            !StartsWith(norm, "tv") && !StartsWith(norm, "movie") ==> r == Ok((category, norm))
    ensures r.Ok? && r.value.0 != category ==> r.value.0 in {VStr("TV"), VStr("MOVIE")} && '/' !in r.value.1
    ensures var norm := LStrip(Lower(id));
            StartsWith(norm, "tv") && '/' in norm ==> r == Ok((VStr("TV"), SecondSegment(norm).value))
    ensures var norm := LStrip(Lower(id));
            !StartsWith(norm, "tv") && StartsWith(norm, "movie") && '/' in norm
            ==> r == Ok((VStr("MOVIE"), SecondSegment(norm).value))
    ensures r.Err? ==> r.error == IndexError
  {
    var norm := LStrip(Lower(id));
    if StartsWith(norm, "tv") then
      var seg :- SecondSegment(norm);
      Ok((VStr("TV"), seg))
    else if StartsWith(norm, "movie") then
      var seg :- SecondSegment(norm);
      Ok((VStr("MOVIE"), seg))
    else Ok((category, norm))
  }

  /** A TV id `tv/<id>/<rest>` selects the TV category and keeps `<id>`. */
  lemma {:induction false} ParseTmdbIdTv(d: string, rest: string, category: Value)
    requires '/' !in d
    requires forall i :: 0 <= i < |d| ==> !('A' <= d[i] <= 'Z')
    requires forall i :: 0 <= i < |rest| ==> !('A' <= rest[i] <= 'Z')
    ensures ParseTmdbId("tv/" + d + "/" + rest, category) == Ok((VStr("TV"), d))
  {
    var id := "tv/" + d + "/" + rest;
    TvIdLowerCase(d, rest);
    LowerUnchanged(id);
    assert !IsSpace(id[0]);
    assert LStrip(id) == id;
    TvIdSegment(d, rest);
    var norm := LStrip(Lower(id));
    assert norm == id;
    assert StartsWith(norm, "tv");
  }

  /** `tv/<id>/<rest>` has no upper-case letter when its parts have none. */
  lemma {:induction false} TvIdLowerCase(d: string, rest: string)
    requires forall i :: 0 <= i < |d| ==> !('A' <= d[i] <= 'Z')
    requires forall i :: 0 <= i < |rest| ==> !('A' <= rest[i] <= 'Z')
    ensures var id := "tv/" + d + "/" + rest;
            forall i :: 0 <= i < |id| ==> !('A' <= id[i] <= 'Z')
  {
    var id := "tv/" + d + "/" + rest;
    forall i | 0 <= i < |id| ensures !('A' <= id[i] <= 'Z') {
      if i >= 3 + |d| + 1 {
        assert id[i] == rest[i - |d| - 4];
      } else if 3 <= i < 3 + |d| {
        assert id[i] == d[i - 3];
      }
    }
  }

  /** The second '/' segment of `tv/<id>/<rest>` is `<id>`. */
  lemma {:induction false} TvIdSegment(d: string, rest: string)
    requires '/' !in d
    ensures SecondSegment("tv/" + d + "/" + rest) == Ok(d)
  {
    var id := "tv/" + d + "/" + rest;
    assert id[..2] == "tv";
    assert '/' !in id[..2];
    SecondSegmentBetween(id, 2);
    assert id[3..] == d + "/" + rest;
    FirstPart(d, rest);
  }

  /** The first part of `d + "/" + rest` split on '/' is `d` when `d` has no '/'. */
  lemma {:induction false} FirstPart(d: string, rest: string)
    requires '/' !in d
    ensures Split(d + "/" + rest, "/")[0] == d
  {
    var s := d + "/" + rest;
    assert s[..|d|] == d;
    assert s[|d|] == '/';
    SplitAtFirst(s, '/', |d|);
  }

  /** Lower-casing leaves text without upper-case ASCII letters unchanged. */
  lemma {:induction false} LowerUnchanged(s: string)
    requires forall i :: 0 <= i < |s| ==> !('A' <= s[i] <= 'Z')
    ensures Lower(s) == s
    decreases |s|
  {
    if s != [] {
      LowerUnchanged(s[1..]);
    }
  }

  /** `int(s)` for the plain decimal form: surrounding whitespace, an optional sign, digits. */
  function ParseInt(s: string): (r: Result<int>)
  {
    var t := Strip(s);
    var digits := Unsigned(t);
    if digits == [] || !IsDigits(digits) then Err(ValueError)
    else
      var v: int := DigitsValue(digits);
      Ok(if StartsWith(t, "-") then -v else v)
  }

  /** The text after a leading '-' or '+', if any. */
  function Unsigned(t: string): string {
    if StartsWith(t, "-") || StartsWith(t, "+") then t[1..] else t
  }

  /** Every character is an ASCII digit. */
  predicate IsDigits(s: string) {
    forall i :: 0 <= i < |s| ==> '0' <= s[i] <= '9'
  }

  function DigitsValue(digits: string): nat
    requires IsDigits(digits)
    decreases |digits|
  {
    if digits == [] then 0
    else DigitsValue(digits[..|digits| - 1]) * 10 + (digits[|digits| - 1] as int - '0' as int)
  }

  /** `str(n)` is a run of digits whose decimal value is `n`. */
  lemma {:induction false} DigitsValueOfNat(n: nat)
    ensures IsDigits(NatToString(n))
    ensures DigitsValue(NatToString(n)) == n
    decreases n
  {
    if n >= 10 {
      DigitsValueOfNat(n / 10);
      assert NatToString(n)[..|NatToString(n)| - 1] == NatToString(n / 10);
    }
  }

  /** `int(str(n))` gives `n` back. */
  lemma {:induction false} ParseIntOfNat(n: nat)
    ensures ParseInt(NatToString(n)) == Ok(n)
  {
    DigitsValueOfNat(n);
    ParseIntDigits(NatToString(n));
  }

  /** A non-empty run of ASCII digits parses to its decimal value. */
  lemma {:induction false} ParseIntDigits(t: string)
    requires t != [] && IsDigits(t)
    ensures ParseInt(t) == Ok(DigitsValue(t))
  {
    DigitsUnstripped(t);
    NoSign(t);
  }

  /** A run of digits starts with neither sign. */
  lemma {:induction false} NoSign(t: string)
    requires t != [] && '0' <= t[0] <= '9'
    ensures !StartsWith(t, "-") && !StartsWith(t, "+")
  {
    assert t[..1] == [t[0]];
  }

  /** A non-empty run of digits has no surrounding whitespace to strip. */
  lemma {:induction false} DigitsUnstripped(t: string)
    requires t != [] && IsDigits(t)
    ensures Strip(t) == t
  {
    assert !IsSpace(t[0]) && !IsSpace(t[|t| - 1]);
    LStripUnchanged(t);
    RStripUnchanged(t);
  }

  /** The options dictionary in insertion order; keys are distinct. */
  type Options = seq<(string, Value)>

  predicate DistinctKeys(args: Options) {
    forall i, j :: 0 <= i < j < |args| ==> args[i].0 != args[j].0
  }

  function Lookup(args: Options, key: string): (r: Option<Value>)
    ensures r.Some? <==> exists i :: 0 <= i < |args| && args[i].0 == key
    decreases |args|
  {
    if args == [] then None
    else if args[0].0 == key then Some(args[0].1)
    else Lookup(args[1..], key)
  }

  /** `args[key] = v`: an existing key keeps its position, a new one goes last. */
  function SetOption(args: Options, key: string, v: Value): (r: Options)
    ensures Lookup(r, key) == Some(v)
    ensures forall k :: k != key ==> Lookup(r, k) == Lookup(args, k)
    decreases |args|
  {
    if args == [] then [(key, v)]
    else if args[0].0 == key then [(key, v)] + args[1..]
    else [args[0]] + SetOption(args[1..], key, v)
  }

  /** The `full_auto` shortcut (unattended run, automatic description, queue taken from `full_auto`). */
  function FullAuto(args: Options): Options {
    var fa := Lookup(args, "full_auto").GetOr(VBool(false));
    if Truthy(fa) then
      SetOption(SetOption(SetOption(args, "unattended", VBool(true)), "auto_desc", VBool(true)), "auto_queue", fa)
    else args
  }

  /** With `full_auto` set, the run is unattended with automatic descriptions and queues `full_auto`; otherwise nothing changes. */
  lemma {:induction false} FullAutoEffect(args: Options)
    ensures var fa := Lookup(args, "full_auto").GetOr(VBool(false));
            var r := FullAuto(args);
            (Truthy(fa) ==>
              Lookup(r, "unattended") == Some(VBool(true)) && Lookup(r, "auto_desc") == Some(VBool(true))
              && Lookup(r, "auto_queue") == Some(fa)
              && forall k :: k !in {"unattended", "auto_desc", "auto_queue"} ==> Lookup(r, k) == Lookup(args, k))
            && (!Truthy(fa) ==> r == args)
  {
  }

  type Meta = map<string, Value>

  /** `meta.get(key)` is None: the key is missing or holds None. */
  predicate IsNone(meta: Meta, key: string) {
    key !in meta || meta[key] == VNone
  }

  /** A manual TMDb id or an IMDb id already in `meta` clears both. */
  function ResetIds(meta: Meta): (r: Meta)
    ensures IsNone(r, "tmdb_manual") && IsNone(r, "imdb")
    ensures forall k :: k in meta && k !in {"tmdb_manual", "imdb"} ==> k in r && r[k] == meta[k]
    ensures forall k :: k in r ==> k in meta || k == "tmdb_manual" || k == "imdb"
  {
    if !IsNone(meta, "tmdb_manual") || !IsNone(meta, "imdb") then meta["tmdb_manual" := VNone]["imdb" := VNone]
    else meta
  }

  /**
   * The URL queries of the `ptp` and `hdb` options and the path of a
   * `blu` link, as `urllib.parse` would give them: `query(url, name)` is
   * the first value of the query parameter, `None` when it is missing.
   */
  datatype UrlParser = UrlParser(query: (string, string) -> Option<string>, path: string -> string)

  /** The path with one trailing '/' dropped. */
  function DropTrailingSlash(path: string): string {
    if EndsWith(path, "/") then path[..|path| - 1] else path
  }

  /** The id at the end of a `blu` link's path, after dropping one trailing '/'. */
  function BluId(urlPath: string): string {
    var parts := Split(DropTrailingSlash(urlPath), "/");
    parts[|parts| - 1]
  }

  /** The `blu` id is the last segment of the path: a suffix without '/' that has a '/' (or the start) just before it. */
  lemma {:induction false} BluIdLastSegment(urlPath: string)
    ensures var p := DropTrailingSlash(urlPath);
            var r := BluId(urlPath);
            EndsWith(p, r) && '/' !in r && (|r| < |p| ==> p[|p| - |r| - 1] == '/')
  {
    var p := DropTrailingSlash(urlPath);
    assert "/" == ['/'];
    SplitLast(p, '/');
  }

  /** The `meta` entry a non-empty list value for `key` is written to. */
  function ListTarget(key: string): string {
    if key == "season" then "manual_season"
    else if key == "episode" then "manual_episode"
    else key
  }

  /**
   * The value a non-empty list option (joined into `text`) is stored as,
   * for every key except `tmdb_manual`; `None` when a site link lacks the
   * id (the option is then skipped with a message).
   */
  function ListValue(key: string, text: string, url: UrlParser): Result<Option<Value>> {
    if key == "type" then Ok(Some(VStr(Replace(Upper(text), "-", ""))))
    else if key == "tag" then Ok(Some(VStr("-" + text)))
    else if key == "screens" then
      var n :- ParseInt(text);
      Ok(Some(VInt(n)))
    else if key == "ptp" && StartsWith(text, "http") then
      var q := url.query(text, "torrentid");
      Ok(if q.Some? then Some(VStr(q.value)) else None)
    else if key == "hdb" && StartsWith(text, "http") then
      var q := url.query(text, "id");
      Ok(if q.Some? then Some(VStr(q.value)) else None)
    else if key == "blu" && StartsWith(text, "http") then Ok(Some(VStr(BluId(url.path(text)))))
    else Ok(Some(VStr(text)))
  }

  /** The rewriting of a non-empty list value for `key`, joined into `text`. */
  function ListOption(meta: Meta, key: string, text: string, url: UrlParser): (r: Result<Meta>)
    ensures r.Ok? ==> SameOutside(meta, r.value, Touched(key))
    ensures key == "tmdb_manual" ==>
              var parsed := ParseTmdbId(text, if "category" in meta then meta["category"] else VNone);
              (r.Ok? <==> parsed.Ok?)
              && (r.Ok? ==> r.value == meta["category" := parsed.value.0]["tmdb_manual" := VStr(parsed.value.1)])
    ensures key == "type" ==> r == Ok(meta["type" := VStr(Replace(Upper(text), "-", ""))])
    ensures key == "tag" ==> r == Ok(meta["tag" := VStr("-" + text)])
    ensures key == "screens" ==>
              (r.Ok? <==> ParseInt(text).Ok?) && (r.Ok? ==> r.value == meta["screens" := VInt(ParseInt(text).value)])
    ensures key == "season" ==> r == Ok(meta["manual_season" := VStr(text)])
    ensures key == "episode" ==> r == Ok(meta["manual_episode" := VStr(text)])
    ensures key in {"ptp", "hdb"} && StartsWith(text, "http") ==>
              var q := url.query(text, if key == "ptp" then "torrentid" else "id");
              r == Ok(if q.Some? then meta[key := VStr(q.value)] else meta)
    ensures key == "blu" && StartsWith(text, "http") ==> r == Ok(meta["blu" := VStr(BluId(url.path(text)))])
    ensures key !in {"tmdb_manual", "type", "tag", "screens", "season", "episode"}
            && (key in {"ptp", "hdb", "blu"} ==> !StartsWith(text, "http"))
            ==> r == Ok(meta[key := VStr(text)])
  {
    if key == "tmdb_manual" then
      var parsed :- ParseTmdbId(text, if "category" in meta then meta["category"] else VNone);
      var m := meta["category" := parsed.0];
      UpdateInside(meta, "category", parsed.0, Touched(key));
      UpdateInside(m, "tmdb_manual", VStr(parsed.1), Touched(key));
      Ok(m["tmdb_manual" := VStr(parsed.1)])
    else
      var v :- ListValue(key, text, url);
      if v.Some? then
        UpdateInside(meta, ListTarget(key), v.value, Touched(key));
        Ok(meta[ListTarget(key) := v.value])
      else Ok(meta)
  }

  /** Writing an entry inside `keys` leaves every entry outside them as it was. */
  lemma {:induction false} UpdateInside(meta: Meta, k: string, v: Value, keys: set<string>)
    requires k in keys
    ensures SameOutside(meta, meta[k := v], keys)
  {
  }

  /** What an iteration does with a None or empty-list value. */
  datatype EmptyRule = KeepGiven | FullFreeleech | EmptyTag | KeepMeta

  /**
   * The rule for a None or empty-list value. The tests `key in
   * ("manual_edition")`, `key in ("freeleech")` and `key in ("tag")` have
   * no trailing comma, so they are substring tests on a string.
   */
  function EmptyValueRule(key: string, value: Value): EmptyRule {
    if Contains("manual_edition", key) then KeepGiven
    else if Contains("freeleech", key) then FullFreeleech
    else if Contains("tag", key) && value == VList([]) then EmptyTag
    else KeepMeta
  }

  /** The value-dependent part of one loop iteration, before the `trackers` override. */
  function StoreOption(meta: Meta, key: string, value: Value, url: UrlParser): (r: Result<Meta>)
    ensures r.Ok? ==> SameOutside(meta, r.value, Touched(key))
    ensures value != VNone && !value.VList? ==> r == Ok(meta[key := value])
    ensures value.VList? && value.items != [] ==> r == ListOption(meta, key, ListToString(value.items), url)
    ensures value == VNone || value == VList([]) ==> r == Ok(StoreEmpty(meta, key, value, EmptyValueRule(key, value)))
  {
    if value != VNone && value != VList([]) then
      if value.VList? then ListOption(meta, key, ListToString(value.items), url)
      else Ok(meta[key := value])
    else Ok(StoreEmpty(meta, key, value, EmptyValueRule(key, value)))
  }

  /** What a None or empty-list value stores under each rule. */
  function StoreEmpty(meta: Meta, key: string, value: Value, rule: EmptyRule): (r: Meta)
    ensures SameOutside(meta, r, {key})
    ensures rule == KeepGiven ==> r == meta[key := value]
    ensures rule == FullFreeleech ==> r == meta[key := VInt(100)]
    ensures rule == EmptyTag ==> r == meta[key := VStr("")]
    ensures rule == KeepMeta ==> r == if key in meta then meta else meta[key := VNone]
  {
    match rule
    case KeepGiven => meta[key := value]
    case FullFreeleech => meta[key := VInt(100)]
    case EmptyTag => meta[key := VStr("")]
    case KeepMeta => meta[key := if key in meta then meta[key] else VNone]
  }

  /**
   * One iteration of the loop over the options; `key in ('trackers')` is
   * again a substring test.
   */
  function ApplyOption(meta: Meta, key: string, value: Value, url: UrlParser): (r: Result<Meta>)
    ensures r.Ok? ==> SameOutside(meta, r.value, Touched(key))
    ensures !Contains("trackers", key) ==> r == StoreOption(meta, key, value, url)
    ensures Contains("trackers", key) ==>
              (r.Ok? <==> StoreOption(meta, key, value, url).Ok?)
              && (r.Ok? ==> r.value == StoreOption(meta, key, value, url).value[key := value])
  {
    var m :- StoreOption(meta, key, value, url);
    Ok(if Contains("trackers", key) then m[key := value] else m)
  }

  /** The entries of `meta` one option may write. */
  function Touched(key: string): set<string> {
    {key, ListTarget(key)} + (if key == "tmdb_manual" then {"category"} else {})
  }

  /** `after` agrees with `before` on every entry outside `keys`. */
  ghost predicate SameOutside(before: Meta, after: Meta, keys: set<string>) {
    forall k :: k !in keys ==> (k in after <==> k in before) && (k in before ==> after[k] == before[k])
  }

  /** The loop over the options, in order; the first exception ends it. */
  function ApplyAll(meta: Meta, args: Options, url: UrlParser): Result<Meta> {
    Loop(meta, args, OptionStep(url))
  }

  /** One iteration of the loop, as a step function. */
  function OptionStep(url: UrlParser): (Meta, string, Value) -> Result<Meta> {
    (m, key, value) => ApplyOption(m, key, value, url)
  }

  /** A loop applying `step` to each option in order; the first exception ends it. */
  function Loop(meta: Meta, args: Options, step: (Meta, string, Value) -> Result<Meta>): Result<Meta>
    decreases |args|
  {
    if args == [] then Ok(meta)
    else
      var before :- Loop(meta, args[..|args| - 1], step);
      step(before, args[|args| - 1].0, args[|args| - 1].1)
  }

  /** An entry that no option touches keeps its value through the whole loop. */
  lemma {:induction false} ApplyAllFrame(meta: Meta, args: Options, url: UrlParser, k: string)
    requires ApplyAll(meta, args, url).Ok?
    requires forall i :: 0 <= i < |args| ==> k !in Touched(args[i].0)
    ensures var r := ApplyAll(meta, args, url).value;
            (k in r <==> k in meta) && (k in meta ==> r[k] == meta[k])
    decreases |args|
  {
    if args != [] {
      var init := args[..|args| - 1];
      assert forall i :: 0 <= i < |init| ==> init[i] == args[i];
      ApplyAllFrame(meta, init, url, k);
    }
  }

  /** `type` values become upper case without hyphens, so `web-dl` and `webdl` both give `WEBDL`. */
  lemma {:induction false} TypeNormalised(meta: Meta, items: seq<Item>, url: UrlParser)
    requires items != []
    ensures var r := ApplyOption(meta, "type", VList(items), url);
            r == Ok(meta["type" := VStr(Replace(Upper(ListToString(items)), "-", ""))])
            && '-' !in r.value["type"].s
            && forall x :: x in r.value["type"].s ==> !('a' <= x <= 'z')
  {
    var text := ListToString(items);
    var t := Replace(Upper(text), "-", "");
    UpperHasNoLower(text);
    DeleteChar(Upper(text), '-');
    assert ListOption(meta, "type", text, url) == Ok(meta["type" := VStr(t)]);
    assert StoreOption(meta, "type", VList(items), url) == Ok(meta["type" := VStr(t)]);
    TypeNotInTrackers();
  }

  /** `web-dl` is stored as `WEBDL`. */
  lemma {:induction false} TypeExample(meta: Meta, url: UrlParser)
    ensures ApplyOption(meta, "type", VList([IStr("web-dl")]), url) == Ok(meta["type" := VStr("WEBDL")])
  {
    TypeNotInTrackers();
    NoTrackersOverride(meta, "type", VList([IStr("web-dl")]), url);
    assert ListToString([IStr("web-dl")]) == "web-dl";
    WebDlNormalised();
    assert ListOption(meta, "type", "web-dl", url) == Ok(meta["type" := VStr("WEBDL")]);
  }

  /** The two accepted spellings `webdl` and `web-dl` store the same type. */
  lemma {:induction false} TypeSpellingsAgree(meta: Meta, url: UrlParser)
    ensures ApplyOption(meta, "type", VList([IStr("webdl")]), url)
            == ApplyOption(meta, "type", VList([IStr("web-dl")]), url)
            == Ok(meta["type" := VStr("WEBDL")])
  {
    TypeExample(meta, url);
    TypeNormalised(meta, [IStr("webdl")], url);
    assert ListToString([IStr("webdl")]) == "webdl";
    WebdlNormalised();
  }

  lemma {:induction false} WebdlNormalised()
    ensures Replace(Upper("webdl"), "-", "") == "WEBDL"
  {
    WebdlUpper();
    HyphenFree("WEBDL");
  }

  lemma {:induction false} WebdlUpper()
    ensures Upper("webdl") == "WEBDL"
  {
    assert Upper("l") == "L";
    assert Upper("dl") == "DL";
    assert Upper("bdl") == "BDL";
    assert Upper("ebdl") == "EBDL";
  }

  lemma {:induction false} WebDlNormalised()
    ensures Replace(Upper("web-dl"), "-", "") == "WEBDL"
  {
    WebDlUpper();
    WebDlHyphenDeleted();
  }

  lemma {:induction false} WebDlUpper()
    ensures Upper("web-dl") == "WEB-DL"
  {
    assert Upper("l") == "L";
    assert Upper("dl") == "DL";
    assert Upper("-dl") == "-DL";
    assert Upper("b-dl") == "B-DL";
    assert Upper("eb-dl") == "EB-DL";
  }

  lemma {:induction false} WebDlHyphenDeleted()
    ensures Replace("WEB-DL", "-", "") == "WEBDL"
  {
    HyphenFree("DL");
    assert "-DL" == "-" + "DL";
    assert Replace("-DL", "-", "") == Replace("DL", "-", "");
    HyphenKept("B-DL");
    HyphenKept("EB-DL");
    HyphenKept("WEB-DL");
  }

  /** Deleting '-' from a string without one changes nothing. */
  lemma {:induction false} HyphenFree(s: string)
    requires '-' !in s
    ensures Replace(s, "-", "") == s
  {
    ContainsMissingChar(s, "-", 0);
    ReplaceAbsent(s, "-", "");
  }

  /** Deleting '-' keeps a first character that is not '-'. */
  lemma {:induction false} HyphenKept(s: string)
    requires s != [] && s[0] != '-'
    ensures Replace(s, "-", "") == [s[0]] + Replace(s[1..], "-", "")
  {
  }

  /** A tag gets a leading '-'; an empty tag list gives the empty tag. */
  lemma {:induction false} TagNormalised(meta: Meta, items: seq<Item>, url: UrlParser)
    ensures var r := ApplyOption(meta, "tag", VList(items), url);
            r.Ok? && "tag" in r.value && r.value["tag"].VStr?
            && (items == [] <==> r.value["tag"].s == "")
            && (items != [] ==> StartsWith(r.value["tag"].s, "-"))
  {
    TagNotInTrackers();
    NoTrackersOverride(meta, "tag", VList(items), url);
    TagStored(meta, items, url);
    if items != [] {
      var t := "-" + ListToString(items);
      assert t[..1] == "-";
    }
  }

  /** The value a tag list is stored as. */
  lemma {:induction false} TagStored(meta: Meta, items: seq<Item>, url: UrlParser)
    ensures StoreOption(meta, "tag", VList(items), url)
            == Ok(meta["tag" := VStr(if items == [] then "" else "-" + ListToString(items))])
  {
    if items == [] {
      EmptyTagRule(VList(items));
    } else {
      TagListOption(meta, ListToString(items), url);
    }
  }

  /** A non-empty tag list is stored as '-' followed by its text. */
  lemma {:induction false} TagListOption(meta: Meta, text: string, url: UrlParser)
    ensures ListOption(meta, "tag", text, url) == Ok(meta["tag" := VStr("-" + text)])
  {
    assert ListValue("tag", text, url) == Ok(Some(VStr("-" + text)));
    assert ListTarget("tag") == "tag";
  }

  /** Only an option whose name is a substring of `trackers` is overridden after the per-key rules. */
  lemma {:induction false} NoTrackersOverride(meta: Meta, key: string, value: Value, url: UrlParser)
    requires !Contains("trackers", key)
    ensures ApplyOption(meta, key, value, url) == StoreOption(meta, key, value, url)
  {
  }

  /** An empty `tag` list is caught by the tag rule, not by the two rules before it. */
  lemma {:induction false} EmptyTagRule(v: Value)
    requires v == VList([])
    ensures EmptyValueRule("tag", v) == EmptyTag
  {
    TagNotInManualEdition();
    TagNotInFreeleech();
    assert StartsWith("tag", "tag");
  }

  // Which option names are substrings of the words the loop tests against.

  lemma {:induction false} TagNotInManualEdition() ensures !Contains("manual_edition", "tag") { ContainsMissingChar("manual_edition", "tag", 2); }
  lemma {:induction false} TagNotInFreeleech() ensures !Contains("freeleech", "tag") { ContainsMissingChar("freeleech", "tag", 0); }
  lemma {:induction false} TagNotInTrackers() ensures !Contains("trackers", "tag") { ContainsMissingChar("trackers", "tag", 2); }
  lemma {:induction false} TypeNotInTrackers() ensures !Contains("trackers", "type") { ContainsMissingChar("trackers", "type", 1); }
  lemma {:induction false} FreeleechNotInTrackers() ensures !Contains("trackers", "freeleech") { ContainsMissingChar("trackers", "freeleech", 0); }
  lemma {:induction false} FreeleechNotInManualEdition() ensures !Contains("manual_edition", "freeleech") { ContainsMissingChar("manual_edition", "freeleech", 0); }

  /** A string missing one character of `sub` does not contain `sub`. */
  lemma {:induction false} ContainsMissingChar(s: string, sub: string, j: nat)
    requires j < |sub| && sub[j] !in s
    ensures !Contains(s, sub)
    decreases |s|
  {
    if s != [] {
      if |sub| <= |s| {
        assert s[..|sub|][j] == s[j];
      }
      ContainsMissingChar(s[1..], sub, j);
    }
  }

  /** `--freeleech` with no percentage gives 100. */
  lemma {:induction false} FreeleechDefault(meta: Meta, url: UrlParser)
    ensures ApplyOption(meta, "freeleech", VList([]), url) == Ok(meta["freeleech" := VInt(100)])
  {
    FreeleechNotInTrackers();
    NoTrackersOverride(meta, "freeleech", VList([]), url);
    FreeleechRule();
  }

  /** An empty `freeleech` list is caught by the freeleech rule. */
  lemma {:induction false} FreeleechRule()
    ensures EmptyValueRule("freeleech", VList([])) == FullFreeleech
  {
    FreeleechNotInManualEdition();
    assert StartsWith("freeleech", "freeleech");
  }

  /** `--trackers` is stored exactly as given, list or not. */
  lemma {:induction false} TrackersKeptAsGiven(meta: Meta, value: Value, url: UrlParser)
    requires ApplyOption(meta, "trackers", value, url).Ok?
    ensures "trackers" in ApplyOption(meta, "trackers", value, url).value
            && ApplyOption(meta, "trackers", value, url).value["trackers"] == value
  {
    var key := "trackers";
    assert StartsWith(key, key);
    assert Contains(key, key);
    var r := ApplyOption(meta, key, value, url);
    assert r.value == StoreOption(meta, key, value, url).value[key := value];
  }

  /**
   * `Args.parse` after argparse: the `full_auto` shortcut, the id reset,
   * then the loop that copies each option into `meta`.
   */
  method Parse(args: Options, meta: Meta, url: UrlParser) returns (r: Result<Meta>)
    ensures r == ApplyAll(ResetIds(meta), FullAuto(args), url)
  {
    r := ApplyOptions(ResetIds(meta), FullAuto(args), url);
  }

  /** The loop over the options, updating `meta` entry by entry. */
  method ApplyOptions(meta: Meta, opts: Options, url: UrlParser) returns (r: Result<Meta>)
    ensures r == ApplyAll(meta, opts, url)
  {
    var m := meta;
    for i := 0 to |opts|
      invariant ApplyAll(meta, opts[..i], url) == Ok(m)
    {
      LoopNext(meta, opts, OptionStep(url), i, m);
      var next := ApplyOption(m, opts[i].0, opts[i].1, url);
      if next.Err? {
        LoopStopsAtError(meta, opts, OptionStep(url), i + 1);
        return Err(next.error);
      }
      m := next.value;
    }
    assert opts[..|opts|] == opts;
    return Ok(m);
  }

  /** Once a prefix of the options raises, the whole loop raises the same exception. */
  lemma {:induction false} LoopStopsAtError(meta: Meta, args: Options, step: (Meta, string, Value) -> Result<Meta>, n: nat)
    requires n <= |args| && Loop(meta, args[..n], step).Err?
    ensures Loop(meta, args, step) == Loop(meta, args[..n], step)
    decreases |args|
  {
    if n < |args| {
      var init := args[..|args| - 1];
      assert init[..n] == args[..n];
      LoopStopsAtError(meta, init, step, n);
    } else {
      assert args[..n] == args;
    }
  }

  /** One more option applies the step to the `meta` the options before it left. */
  lemma {:induction false} LoopNext(meta: Meta, args: Options, step: (Meta, string, Value) -> Result<Meta>, i: nat, m: Meta)
    requires i < |args| && Loop(meta, args[..i], step) == Ok(m)
    ensures Loop(meta, args[..i + 1], step) == step(m, args[i].0, args[i].1)
  {
    assert args[..i + 1][..i] == args[..i];
  }
}
