/**
 * Helpers of the upload driver: choosing a free backup file name, the
 * total size recorded in a metainfo file, the banned-group check, and the
 * no-duplicates branch of the duplicate check.
 */
module Upload {
  import opened PyStr
  import opened PosixPath
  import opened Metainfo

  /** `f"{base}{suffix}{counter}{ext}"` */
  function BackupName(base: string, suffix: string, ext: string, n: nat): string {
    base + suffix + NatToString(n) + ext
  }

  /** Different counters give different names. */
  lemma {:induction false} BackupNameInjective(base: string, suffix: string, ext: string, n: nat, m: nat)
    requires BackupName(base, suffix, ext, n) == BackupName(base, suffix, ext, m)
    ensures n == m
  {
    var a, b := NatToString(n), NatToString(m);
    var x, y := BackupName(base, suffix, ext, n), BackupName(base, suffix, ext, m);
    var lo := |base + suffix|;
    assert |a| == |b|;
    assert a == x[lo..lo + |a|];
    assert b == y[lo..lo + |b|];
    NatToStringInjective(n, m);
  }

  /** The names tried for counters 1 .. n-1. */
  function TriedNames(base: string, suffix: string, ext: string, n: nat): set<string> {
    set k | 1 <= k < n :: BackupName(base, suffix, ext, k)
  }

  /** Counters 1 .. n-1 give n-1 distinct names. */
  lemma {:induction false} TriedNamesCount(base: string, suffix: string, ext: string, n: nat)
    requires n >= 1
    ensures |TriedNames(base, suffix, ext, n)| == n - 1
  {
    if n > 1 {
      TriedNamesCount(base, suffix, ext, n - 1);
      var next := BackupName(base, suffix, ext, n - 1);
      assert TriedNames(base, suffix, ext, n) == TriedNames(base, suffix, ext, n - 1) + {next};
      if next in TriedNames(base, suffix, ext, n - 1) {
        var k :| 1 <= k < n - 1 && BackupName(base, suffix, ext, k) == next;
        BackupNameInjective(base, suffix, ext, k, n - 1);
      }
    } else {
      assert TriedNames(base, suffix, ext, n) == {};
    }
  }

  /** A subset is no larger than its superset. */
  lemma {:induction false} SubsetCard<T>(a: set<T>, b: set<T>)
    requires a <= b
    ensures |a| <= |b|
    decreases |a|
  {
    if a != {} {
      var x :| x in a;
      SubsetCard(a - {x}, b - {x});
    }
  }

  /**
   * `get_backup_name(path, suffix)`: `path` itself when it does not exist,
   * otherwise the name with the least counter n >= 1 that does not exist.
   * `existing` is the set of paths for which `os.path.exists` holds.
   */
  method GetBackupName(path: string, suffix: string, existing: set<string>) returns (r: string)
    ensures r !in existing
    ensures path !in existing ==> r == path
    ensures path in existing ==>
              var (base, ext) := SplitExt(path);
              exists n: nat :: 1 <= n && r == BackupName(base, suffix, ext, n)
                && forall k :: 1 <= k < n ==> BackupName(base, suffix, ext, k) in existing
  {
    var (base, ext) := SplitExt(path);
    r := path;
    var counter: nat := 1;
    while r in existing
      invariant counter >= 1
      invariant counter == 1 ==> r == path
      invariant counter > 1 ==> path in existing && r == BackupName(base, suffix, ext, counter - 1)
      invariant forall k :: 1 <= k < counter - 1 ==> BackupName(base, suffix, ext, k) in existing
      decreases |existing| + 1 - counter
    {
      if counter > 1 {
        TriedNamesCount(base, suffix, ext, counter);
        assert TriedNames(base, suffix, ext, counter) <= existing;
        SubsetCard(TriedNames(base, suffix, ext, counter), existing);
      }
      r := BackupName(base, suffix, ext, counter);
      counter := counter + 1;
    }
    if counter > 1 {
      assert 1 <= counter - 1 && r == BackupName(base, suffix, ext, counter - 1);
    }
  }

  /**
   * `extract_size_from_torrent`: the total byte size recorded in the
   * metainfo, the sum over `files` in multi-file mode, else `length`
   * (a missing key raises KeyError).
   */
  function ExtractSize(info: Info): (r: Result<int>)
    ensures info.files.Some? ==> r == Ok(SumLengths(info.files.value))
    ensures info.files.None? && info.length.Some? ==> r == Ok(info.length.value)
    ensures info.files.None? && info.length.None? ==> r == Err(KeyError("length"))
  {
    match info.files
    case Some(files) => Ok(SumLengths(files))
    case None => if info.length.Some? then Ok(info.length.value) else Err(KeyError("length"))
  }

  /** The total size is additive over the file list. */
  lemma {:induction false} SumLengthsAppend(a: seq<FileEntry>, b: seq<FileEntry>)
    ensures SumLengths(a + b) == SumLengths(a) + SumLengths(b)
    decreases |b|
  {
    if b == [] {
      assert a + b == a;
    } else {
      var last := |b| - 1;
      assert (a + b)[..|a + b| - 1] == a + b[..last];
      SumLengthsAppend(a, b[..last]);
    }
  }

  /** A multi-file torrent's size is the length of its single file when it has one, and 0 when it has none. */
  lemma {:induction false} ExtractSizeSmallLists(info: Info, f: FileEntry)
    ensures info.files == Some([]) ==> ExtractSize(info) == Ok(0)
    ensures info.files == Some([f]) ==> ExtractSize(info) == Ok(f.length)
  {
    if info.files == Some([f]) {
      assert [f][..0] == [];
      assert SumLengths([]) == 0;
    }
  }

  /** An element of the banned-group list: a group name, or a list `[name, note, ...]`. */
  datatype BanEntry = Group(name: string) | Noted(items: seq<string>)

  /**
   * One entry against the release tag (which starts with '-'). Indexing an
   * empty list raises, and so does printing the note of a matching list
   * with no second element.
   */
  function EntryMatch(tag: string, entry: BanEntry): Result<bool>
    requires tag != ""
  {
    match entry
    case Group(name) => Ok(Lower(tag[1..]) == Lower(name))
    case Noted(items) =>
      if items == [] then Err(IndexError)
      else if Lower(tag[1..]) != Lower(items[0]) then Ok(false)
      else if |items| < 2 then Err(IndexError)
      else Ok(true)
  }

  /** The flag `q` after scanning the list: whether any entry matched, or the first exception. */
  function ScanBanned(tag: string, entries: seq<BanEntry>): (r: Result<bool>)
    requires tag != ""
    ensures r.Ok? <==> forall i :: 0 <= i < |entries| ==> EntryMatch(tag, entries[i]).Ok?
    ensures r.Ok? ==> (r.value <==> exists i :: 0 <= i < |entries| && EntryMatch(tag, entries[i]) == Ok(true))
    decreases |entries|
  {
    if entries == [] then Ok(false)
    else
      var init := entries[..|entries| - 1];
      var q :- ScanBanned(tag, init);
      var m :- EntryMatch(tag, entries[|entries| - 1]);
      assert forall i :: 0 <= i < |init| ==> init[i] == entries[i];
      Ok(q || m)
  }

  /**
   * `check_banned_group`: True when the tag names a banned group and the
   * upload is not confirmed (unattended runs are never confirmed). The
   * interactive answer is an input.
   */
  method CheckBannedGroup(tag: string, entries: seq<BanEntry>, unattended: bool, confirmed: bool)
    returns (r: Result<bool>)
    ensures tag == "" ==> r == Ok(false)
    ensures tag != "" ==> (r.Ok? <==> ScanBanned(tag, entries).Ok?)
    ensures tag != "" && r.Ok? ==> (r.value <==> ScanBanned(tag, entries).value && (unattended || !confirmed))
  {
    if tag == "" {
      return Ok(false);
    }
    var q := false;
    for i := 0 to |entries|
      invariant ScanBanned(tag, entries[..i]) == Ok(q)
    {
      assert entries[..i + 1][..i] == entries[..i];
      var m := EntryMatch(tag, entries[i]);
      if m.Err? {
        assert entries[..i + 1][i] == entries[i];
        ScanBannedPrefixError(tag, entries, i + 1);
        return Err(m.error);
      }
      q := q || m.value;
    }
    assert entries[..|entries|] == entries;
    if q && (unattended || !confirmed) {
      return Ok(true);
    }
    return Ok(false);
  }

  /** An exception raised while scanning a prefix of the list is raised for the whole list. */
  lemma {:induction false} ScanBannedPrefixError(tag: string, entries: seq<BanEntry>, n: nat)
    requires tag != "" && n <= |entries|
    requires ScanBanned(tag, entries[..n]).Err?
    ensures ScanBanned(tag, entries).Err?
  {
    var j :| 0 <= j < n && EntryMatch(tag, entries[..n][j]).Err?;
    assert entries[..n][j] == entries[j];
  }

  /** Matching ignores case and the tag's leading '-': an entry equal to the tag's group name always matches. */
  lemma {:induction false} BannedGroupFound(tag: string, entries: seq<BanEntry>, i: nat)
    requires tag != "" && i < |entries| && entries[i] == Group(tag[1..])
    requires ScanBanned(tag, entries).Ok?
    ensures ScanBanned(tag, entries) == Ok(true)
  {
    assert EntryMatch(tag, entries[i]) == Ok(true);
  }

  /** The outcome of `dupe_check`: the `meta['upload']` value and whether the release was skipped. */
  datatype DupeDecision =
    | Decided(upload: bool, skipped: bool)
    | Compared  // decided by the similarity comparison and the prompts, not part of this model

  /** `dupe_check` as far as it is modelled: with no duplicates the upload goes ahead and nothing is skipped. */
  function DupeCheck(dupes: seq<string>): (d: DupeDecision)
    ensures d.Decided? <==> dupes == []
    ensures d.Decided? ==> d.upload && !d.skipped
  {
    if dupes == [] then Decided(true, false) else Compared
  }
}
