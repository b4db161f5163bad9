/**
 * Searching the configured directories for files or folders whose names
 * hold every word of a query. `os.walk` is an input: for each search
 * directory, the `(root, dirs, files)` triples it yields, in order.
 */
module Search {
  import opened PyStr

  /** One triple yielded by `os.walk`. */
  datatype WalkEntry = WalkEntry(root: string, dirs: seq<string>, files: seq<string>)

  /** What is searched for: files (skipping `.nfo` files) or folders. */
  datatype Target = Files | Folders

  /** Every word occurs in `name`. */
  predicate AllWordsIn(name: string, words: seq<string>) {
    forall k :: 0 <= k < |words| ==> Contains(name, words[k])
  }

  /**
   * `file_search(name, name_words)`: scan the words, clearing the flag and
   * stopping at the first one that does not occur in `name`.
   */
  method FileSearch(name: string, words: seq<string>) returns (check: bool)
    ensures check <==> AllWordsIn(name, words)
  {
    check := true;
    var i := 0;
    while i < |words|
      invariant 0 <= i <= |words|
      invariant check <==> AllWordsIn(name, words[..i])
      invariant check
    {
      if !Contains(name, words[i]) {
        check := false;
        break;
      }
      i := i + 1;
    }
    if check {
      assert words[..i] == words;
    }
  }

  /** No words: every name matches. */
  lemma {:induction false} EmptyQueryMatches(name: string)
    ensures AllWordsIn(name, [])
  {
  }

  /** More words can only turn a match into a miss. */
  lemma {:induction false} MoreWordsFewerMatches(name: string, words: seq<string>, more: seq<string>)
    ensures AllWordsIn(name, words + more) ==> AllWordsIn(name, words)
  {
    if AllWordsIn(name, words + more) {
      forall k | 0 <= k < |words|
        ensures Contains(name, words[k])
      {
        assert (words + more)[k] == words[k];
      }
    }
  }

  /** The path reported for a match: `root + '\\' + name` on Windows, `root + '/' + name` elsewhere. */
  function Joined(root: string, name: string, windows: bool): string {
    root + (if windows then "\\" else "/") + name
  }

  /** Whether a name found by the walk is reported for the lower-cased query words. */
  predicate Wanted(name: string, words: seq<string>, target: Target) {
    (target == Folders || !EndsWith(name, ".nfo")) && AllWordsIn(Lower(name), words)
  }

  /** The names of one walk entry that are searched. */
  function Candidates(entry: WalkEntry, target: Target): seq<string> {
    if target == Files then entry.files else entry.dirs
  }

  /** The reported paths for the names of one directory, in order. */
  function NameMatches(root: string, names: seq<string>, words: seq<string>, target: Target, windows: bool): seq<string>
    decreases |names|
  {
    if names == [] then []
    else
      var last := names[|names| - 1];
      NameMatches(root, names[..|names| - 1], words, target, windows)
      + (if Wanted(last, words, target) then [Joined(root, last, windows)] else [])
  }

  /** The reported paths for a whole walk, entry by entry. */
  function WalkMatches(walk: seq<WalkEntry>, words: seq<string>, target: Target, windows: bool): seq<string>
    decreases |walk|
  {
    if walk == [] then []
    else
      var last := walk[|walk| - 1];
      WalkMatches(walk[..|walk| - 1], words, target, windows)
      + NameMatches(last.root, Candidates(last, target), words, target, windows)
  }

  /** The inner loop over the names of one directory. */
  method SearchNames(root: string, names: seq<string>, words: seq<string>, target: Target, windows: bool)
    returns (found: seq<string>)
    ensures found == NameMatches(root, names, words, target, windows)
  {
    found := [];
    for i := 0 to |names|
      invariant found == NameMatches(root, names[..i], words, target, windows)
    {
      assert names[..i + 1][..i] == names[..i];
      var name := names[i];
      if target == Folders || !EndsWith(name, ".nfo") {
        var hit := FileSearch(Lower(name), words);
        if hit {
          found := found + [Joined(root, name, windows)];
        }
      }
    }
    assert names[..|names|] == names;
  }

  /** `search_file` / `search_dir`: the loop over the walk of one search directory. */
  method SearchWalk(walk: seq<WalkEntry>, words: seq<string>, target: Target, windows: bool)
    returns (found: seq<string>)
    ensures found == WalkMatches(walk, words, target, windows)
  {
    found := [];
    for i := 0 to |walk|
      invariant found == WalkMatches(walk[..i], words, target, windows)
    {
      assert walk[..i + 1][..i] == walk[..i];
      var names := SearchNames(walk[i].root, Candidates(walk[i], target), words, target, windows);
      found := found + names;
    }
    assert walk[..|walk|] == walk;
  }

  /** All matches over the configured search directories, in order. */
  function AllMatches(dirs: seq<string>, walkOf: string -> seq<WalkEntry>, words: seq<string>, target: Target, windows: bool): seq<string>
    decreases |dirs|
  {
    if dirs == [] then []
    else AllMatches(dirs[..|dirs| - 1], walkOf, words, target, windows) + WalkMatches(walkOf(dirs[|dirs| - 1]), words, target, windows)
  }

  /**
   * `searchFile(filename)` and `searchFolder(foldername)`: None for an
   * empty query; otherwise the paths, over every configured search
   * directory, of the names holding every word of the lower-cased query.
   * A single configured directory is the one-element list.
   */
  method SearchAll(query: string, dirs: seq<string>, walkOf: string -> seq<WalkEntry>, target: Target, windows: bool)
    returns (r: Option<seq<string>>)
    ensures query == "" <==> r.None?
    ensures r.Some? ==> r.value == AllMatches(dirs, walkOf, SplitWhitespace(Lower(query)), target, windows)
  {
    var q := Lower(query);
    if q == "" {
      return None;
    }
    var words := SplitWhitespace(q);
    var total: seq<string> := [];
    for i := 0 to |dirs|
      invariant total == AllMatches(dirs[..i], walkOf, words, target, windows)
    {
      assert dirs[..i + 1][..i] == dirs[..i];
      var found := SearchWalk(walkOf(dirs[i]), words, target, windows);
      total := total + found;
    }
    assert dirs[..|dirs|] == dirs;
    return Some(total);
  }

  /** Every reported path is a wanted name joined to the root of the entry it came from. */
  lemma {:induction false} NameMatchesSound(root: string, names: seq<string>, words: seq<string>, target: Target, windows: bool, k: nat)
    requires k < |NameMatches(root, names, words, target, windows)|
    ensures exists j :: 0 <= j < |names| && Wanted(names[j], words, target)
              && NameMatches(root, names, words, target, windows)[k] == Joined(root, names[j], windows)
    decreases |names|
  {
    var init := names[..|names| - 1];
    var before := NameMatches(root, init, words, target, windows);
    if k < |before| {
      NameMatchesSound(root, init, words, target, windows, k);
      var j :| 0 <= j < |init| && Wanted(init[j], words, target) && before[k] == Joined(root, init[j], windows);
      assert names[j] == init[j];
    } else {
      assert Wanted(names[|names| - 1], words, target);
    }
  }

  /** A `.nfo` file is never reported by a file search. */
  lemma {:induction false} NoNfoFiles(root: string, names: seq<string>, words: seq<string>, windows: bool, k: nat)
    requires k < |NameMatches(root, names, words, Files, windows)|
    ensures exists j :: 0 <= j < |names| && !EndsWith(names[j], ".nfo")
              && NameMatches(root, names, words, Files, windows)[k] == Joined(root, names[j], windows)
  {
    NameMatchesSound(root, names, words, Files, windows, k);
  }

  /** Matching ignores the case of the query: an upper-cased query reports the same paths. */
  lemma {:induction false} QueryCaseIgnored(query: string, dirs: seq<string>, walkOf: string -> seq<WalkEntry>, target: Target, windows: bool)
    ensures AllMatches(dirs, walkOf, SplitWhitespace(Lower(Upper(query))), target, windows)
            == AllMatches(dirs, walkOf, SplitWhitespace(Lower(query)), target, windows)
  {
    LowerUpper(query);
  }

  /** A name and its upper-cased spelling are equally wanted. */
  lemma {:induction false} NameCaseIgnored(name: string, words: seq<string>)
    ensures Wanted(name, words, Folders) <==> Wanted(Upper(name), words, Folders)
  {
    LowerUpper(name);
  }
}
