/**
 * Reuse of a `.torrent` the client already stores in its session
 * directory: `Clients.is_valid_torrent` (may this file be reused for the
 * job?) and `Clients.find_existing_torrent` (which stored file, if any).
 */
module Reuse {
  import opened PyStr
  import opened PosixPath
  import opened ClientPaths
  import opened Jobs

  /** The message `is_valid_torrent` settles on. */
  datatype Reason =
    | Unwanted           // "Unwanted Files/Folders Identified" (also when the file is missing)
    | TooManyPieces      // "Too many pieces exist in current hash. REHASHING"
    | PieceSizeTooSmall  // "Piece size too small to reuse"
    | UnexpectedFiles    // "Provided .torrent has files that were not expected"
    | Reusing            // "REUSING .torrent with infohash ..."

  /** The pair `is_valid_torrent` returns, with the message it prints. */
  datatype Verdict = Verdict(valid: bool, path: string, reason: Reason)

  const MinPieceSize: nat := 32768

  /** The hash as each client kind spells it in file names. */
  function NormaliseHash(hash: string, torrentClient: string): string {
    if torrentClient == "qbit" || torrentClient == "deluge" then Strip(Lower(hash))
    else if torrentClient == "rtorrent" then Strip(Upper(hash))
    else hash
  }

  /** `torrent_path.replace(torrenthash.upper(), torrenthash)` with the normalised hash. */
  function NormalisePath(path: string, hash: string, torrentClient: string): string {
    if torrentClient == "qbit" || torrentClient == "deluge" || torrentClient == "rtorrent" then
      var h := NormaliseHash(hash, torrentClient);
      Replace(path, Upper(h), h)
    else path
  }

  /** The piece-count rule: too many pieces for the piece size. */
  predicate TooMany(t: StoredTorrent) {
    (t.pieces >= 7000 && t.pieceSize < 8388608) || (t.pieces >= 4000 && t.pieceSize < 4194304)
  }

  /** `os.path.commonpath`, which raises ValueError on an empty list or on mixed absolute and relative paths. */
  function CommonPathOf(paths: seq<string>): Result<string> {
    match CommonPath(paths)
    case Some(c) => Ok(c)
    case None => Err(ValueError)
  }

  /** The flags `valid` and `wrong_file` after the disc, single-file and multi-file rules. */
  function FileRules(config: Config, job: Release, torrentPath: string, t: StoredTorrent): Result<(bool, bool)> {
    var discValid :-
      if job.isDisc != "" then
        var common :- CommonPathOf(t.files);
        Ok(Contains(common, Basename(job.path)))
      else Ok(false);
    if |t.files| == 1 && |job.filelist| == 1 then
      if Basename(t.files[0]) == Basename(job.filelist[0]) then
        Ok((discValid || t.files[0] == Basename(t.files[0]), false))
      else Ok((discValid, true))
    else if |t.files| == |job.filelist| then
      var torrentCommon :- CommonPathOf(t.files);
      var actualCommon :- CommonPathOf(job.filelist);
      var prefixes :- PathMap(config, job.client, job.path);
      var actual :=
        if ShouldTranslate(job.path, prefixes.0, prefixes.1) then
          // the translated value is overwritten: the .torrent path itself is compared
          Replace(torrentPath, Sep, "/")
        else actualCommon;
      Ok((discValid || Contains(actual, torrentCommon), false))
    else Ok((discValid, false))
  }

  /** The part of `is_valid_torrent` after the path is normalised: existence, file rules and the piece heuristic. */
  function CheckStored(config: Config, job: Release, disk: Disk, path: string): Result<Verdict> {
    if path !in disk.torrents then Ok(Verdict(false, path, Unwanted))
    else
      var t := disk.torrents[path];
      var flags :- FileRules(config, job, path, t);
      if !flags.0 then Ok(Verdict(false, path, Unwanted))
      else if TooMany(t) then Ok(Verdict(false, path, TooManyPieces))
      else if t.pieceSize < MinPieceSize then Ok(Verdict(false, path, PieceSizeTooSmall))
      else if flags.1 then Ok(Verdict(false, path, UnexpectedFiles))
      else Ok(Verdict(true, path, Reusing))
  }

  /** `Clients.is_valid_torrent` over the disk contents. */
  function IsValidTorrent(config: Config, job: Release, disk: Disk, torrentPath: string, hash: string, torrentClient: string): Result<Verdict> {
    CheckStored(config, job, disk, NormalisePath(torrentPath, hash, torrentClient))
  }

  /** A one-file job whose file name differs from the stored torrent's single file. */
  predicate WrongFile(job: Release, t: StoredTorrent) {
    |t.files| == 1 && |job.filelist| == 1 && Basename(t.files[0]) != Basename(job.filelist[0])
  }

  /** The verdict always carries the path that was checked; a missing file is rejected. */
  lemma {:induction false} CheckedPathReturned(config: Config, job: Release, disk: Disk, path: string)
    requires CheckStored(config, job, disk, path).Ok?
    ensures CheckStored(config, job, disk, path).value.path == path
    ensures path !in disk.torrents ==> CheckStored(config, job, disk, path) == Ok(Verdict(false, path, Unwanted))
  {
  }

  /**
   * A reusable torrent existed, passed the piece-count rule, has pieces of
   * at least 32 KiB and is not a single-file torrent for a different file.
   */
  lemma {:induction false} ValidImpliesReusable(config: Config, job: Release, disk: Disk, path: string)
    requires CheckStored(config, job, disk, path).Ok? && CheckStored(config, job, disk, path).value.valid
    ensures CheckStored(config, job, disk, path).value == Verdict(true, path, Reusing)
    ensures path in disk.torrents
    ensures !TooMany(disk.torrents[path]) && disk.torrents[path].pieceSize >= MinPieceSize
    ensures !WrongFile(job, disk.torrents[path])
  {
    var t := disk.torrents[path];
    var rules := FileRules(config, job, path, t);
    assert rules.Ok? && rules.value.0 && !rules.value.1;
    if WrongFile(job, t) {
      WrongFileFlagged(config, job, path, t);
    }
  }

  /** The file rules flag a single-file torrent for a different file. */
  lemma {:induction false} WrongFileFlagged(config: Config, job: Release, path: string, t: StoredTorrent)
    requires FileRules(config, job, path, t).Ok? && WrongFile(job, t)
    ensures FileRules(config, job, path, t).value.1
  {
  }

  /**
   * Outside disc jobs, a single-file torrent is accepted only when its
   * stored path is a bare file name equal to the job's file name.
   */
  lemma {:induction false} SingleFileAcceptance(config: Config, job: Release, disk: Disk, path: string)
    requires job.isDisc == "" && path in disk.torrents
    requires |disk.torrents[path].files| == 1 && |job.filelist| == 1
    requires CheckStored(config, job, disk, path).Ok? && CheckStored(config, job, disk, path).value.valid
    ensures '/' !in disk.torrents[path].files[0]
    ensures Basename(disk.torrents[path].files[0]) == Basename(job.filelist[0])
  {
  }

  /**
   * The heuristic's precedence, for a stored torrent the file rules
   * accepted: too many pieces first, then a small piece size, then the
   * wrong file, and otherwise reuse.
   */
  lemma {:induction false} ReasonPrecedence(config: Config, job: Release, disk: Disk, path: string)
    requires path in disk.torrents
    requires FileRules(config, job, path, disk.torrents[path]).Ok?
    requires FileRules(config, job, path, disk.torrents[path]).value.0
    ensures var t := disk.torrents[path];
            var v := CheckStored(config, job, disk, path);
            v.Ok?
            && (TooMany(t) ==> v.value.reason == TooManyPieces)
            && (!TooMany(t) && t.pieceSize < MinPieceSize ==> v.value.reason == PieceSizeTooSmall)
            && (!TooMany(t) && t.pieceSize >= MinPieceSize && WrongFile(job, t) ==> v.value.reason == UnexpectedFiles)
            && (v.value.valid <==> !TooMany(t) && t.pieceSize >= MinPieceSize && !FileRules(config, job, path, t).value.1)
  {
    var t := disk.torrents[path];
    if WrongFile(job, t) {
      WrongFileFlagged(config, job, path, t);
    }
  }

  /** Upper-casing a string that has no lower-case ASCII letter changes nothing. */
  lemma {:induction false} UpperFixed(s: string)
    requires forall i :: 0 <= i < |s| ==> !('a' <= s[i] <= 'z')
    ensures Upper(s) == s
    decreases |s|
  {
    if s != [] {
      UpperFixed(s[1..]);
    }
  }

  /**
   * For rTorrent the hash is upper-cased before the path is searched for
   * its upper-case form, so the path is never changed.
   */
  lemma {:induction false} RtorrentPathUnchanged(path: string, hash: string)
    ensures NormalisePath(path, hash, "rtorrent") == path
  {
    var h := Strip(Upper(hash));
    assert NormaliseHash(hash, "rtorrent") == h;
    UpperHashFixed(hash);
    ReplaceIdentity(path, h);
  }

  /** The stripped upper-case hash is its own upper-case form. */
  lemma {:induction false} UpperHashFixed(hash: string)
    ensures Upper(Strip(Upper(hash))) == Strip(Upper(hash))
  {
    var u := Upper(hash);
    var h := Strip(u);
    var l := LStrip(u);
    forall i | 0 <= i < |h|
      ensures !('a' <= h[i] <= 'z')
    {
      assert h[i] == l[i] == u[|u| - |l| + i];
      UpperAt(hash, |u| - |l| + i);
    }
    UpperFixed(h);
  }

  lemma {:induction false} LowerCharNotUpper(c: char)
    ensures !('A' <= LowerChar(c) <= 'Z')
  {
  }

  /** qBittorrent and Deluge name files by the stripped lower-case hash, which has no upper-case letter. */
  lemma {:induction false} LowerCaseClientsHash(hash: string, torrentClient: string)
    requires torrentClient == "qbit" || torrentClient == "deluge"
    ensures NormaliseHash(hash, torrentClient) == Strip(Lower(hash))
    ensures forall i :: 0 <= i < |Strip(Lower(hash))| ==> !('A' <= Strip(Lower(hash))[i] <= 'Z')
  {
    var w := Lower(hash);
    var l := LStrip(w);
    var h := RStrip(l);
    forall i | 0 <= i < |h|
      ensures !('A' <= h[i] <= 'Z')
    {
      var k := |w| - |l| + i;
      assert h[i] == l[i] == w[k];
      LowerAt(hash, k);
      LowerCharNotUpper(hash[k]);
    }
  }

  /**
   * The multi-file rule as written: when the job's path lies under the
   * local prefix, the stored torrent's common directory is searched for in
   * the `.torrent` file's own path rather than in the translated data path.
   */
  lemma {:induction false} MultiFileComparesTorrentPath(config: Config, job: Release, torrentPath: string, t: StoredTorrent, prefixes: (string, string))
    requires job.isDisc == ""
    requires |t.files| == |job.filelist| && !(|t.files| == 1 && |job.filelist| == 1)
    requires CommonPath(t.files).Some? && CommonPath(job.filelist).Some?
    requires PathMap(config, job.client, job.path) == Ok(prefixes)
    requires ShouldTranslate(job.path, prefixes.0, prefixes.1)
    ensures FileRules(config, job, torrentPath, t) == Ok((Contains(torrentPath, CommonPath(t.files).value), false))
  {
    ReplaceIdentity(torrentPath, Sep);
  }

  /** The profile `find_existing_torrent` uses: `meta.get('client') or DEFAULT.get('default_torrent_client', 'none')`. */
  function ExistingClientName(config: Config, job: Job): string {
    if job.release.client.Named? && job.release.client.name != "" then job.release.client.name
    else config.defaultClient.GetOr("none")
  }

  /** Path of the stored `.torrent` for a hash: `f"{torrent_storage_dir}/{hash}.torrent"`. */
  function StoredPath(storageDir: string, hash: string): string {
    storageDir + "/" + hash + ".torrent"
  }

  /** The hash `find_existing_torrent` tries: `torrenthash` when set, otherwise `ext_torrenthash`. */
  function CandidateHash(job: Job): Option<string> {
    if Truthy(job.torrenthash) then job.torrenthash
    else if Truthy(job.extTorrenthash) then job.extTorrenthash
    else None
  }

  /** The first validation: the candidate hash when its stored file is valid. */
  function FirstValidation(config: Config, job: Job, disk: Disk, dir: string, torrentClient: string): Result<Option<string>> {
    match CandidateHash(job)
    case None => Ok(None)
    case Some(h) =>
      var v :- IsValidTorrent(config, job.release, disk, StoredPath(dir, h), h, torrentClient);
      Ok(if v.valid then Some(h) else None)
  }

  /** `Clients.find_existing_torrent`: the path of a reusable stored torrent, or None. */
  function FindExistingTorrent(config: Config, job: Job, disk: Disk): Result<Option<string>> {
    var name := ExistingClientName(config, job);
    if name == "none" then Ok(None)
    // `.get` on the None a missing profile gives raises AttributeError
    else if name !in config.clients then Err(AttributeError("get"))
    else
      var client := config.clients[name];
      var torrentClient := Lower(client.torrentClient.GetOr("none"));
      if client.storageDir.None? && torrentClient != "watch" then Ok(None)
      else if client.storageDir.Some? && !Exists(disk, client.storageDir.value) && torrentClient != "watch" then Ok(None)
      else if client.storageDir.None? || client.storageDir.value == "" || !Exists(disk, client.storageDir.value) then Ok(None)
      else
        var dir := client.storageDir.value;
        var found :- FirstValidation(config, job, disk, dir, torrentClient);
        match found
        case None =>
          if torrentClient == "qbit" && client.enableSearch then
            // `search_qbit_for_torrent` is not defined on the class
            Err(AttributeError("search_qbit_for_torrent"))
          else Ok(None)
        case Some(h) =>
          var v2 :- IsValidTorrent(config, job.release, disk, StoredPath(dir, h), h, torrentClient);
          Ok(if v2.valid then Some(v2.path) else None)
  }

  /**
   * A path `find_existing_torrent` returns is the stored-torrent path of
   * the preferred hash (with the client's hash spelling), and that file
   * is valid for the job.
   */
  lemma {:induction false} FoundTorrentIsValid(config: Config, job: Job, disk: Disk)
    requires FindExistingTorrent(config, job, disk).Ok? && FindExistingTorrent(config, job, disk).value.Some?
    ensures ExistingClientName(config, job) != "none" && ExistingClientName(config, job) in config.clients
    ensures var client := config.clients[ExistingClientName(config, job)];
            var torrentClient := Lower(client.torrentClient.GetOr("none"));
            var p := FindExistingTorrent(config, job, disk).value.value;
            client.storageDir.Some? && Exists(disk, client.storageDir.value) && CandidateHash(job).Some?
            && p == NormalisePath(StoredPath(client.storageDir.value, CandidateHash(job).value), CandidateHash(job).value, torrentClient)
            && p in disk.torrents
            && CheckStored(config, job.release, disk, p) == Ok(Verdict(true, p, Reusing))
  {
    var client := config.clients[ExistingClientName(config, job)];
    var torrentClient := Lower(client.torrentClient.GetOr("none"));
    var h := CandidateHash(job).value;
    var p := NormalisePath(StoredPath(client.storageDir.value, h), h, torrentClient);
    CheckedPathReturned(config, job.release, disk, p);
    ValidImpliesReusable(config, job.release, disk, p);
  }

  /** When `torrenthash` is set, `ext_torrenthash` plays no part. */
  lemma {:induction false} TorrenthashFirst(config: Config, job: Job, disk: Disk, other: Option<string>)
    requires Truthy(job.torrenthash)
    ensures FindExistingTorrent(config, job, disk) == FindExistingTorrent(config, job.(extTorrenthash := other), disk)
  {
    var job' := job.(extTorrenthash := other);
    assert CandidateHash(job) == CandidateHash(job');
    FindSameCandidate(config, job, job', disk);
  }

  /** Two jobs with the same release and the same candidate hash find the same torrent. */
  lemma {:induction false} FindSameCandidate(config: Config, job: Job, job': Job, disk: Disk)
    requires job.release == job'.release && CandidateHash(job) == CandidateHash(job')
    ensures FindExistingTorrent(config, job, disk) == FindExistingTorrent(config, job', disk)
  {
    assert ExistingClientName(config, job) == ExistingClientName(config, job');
    forall dir, torrentClient
      ensures FirstValidation(config, job, disk, dir, torrentClient) == FirstValidation(config, job', disk, dir, torrentClient)
    {
    }
  }

  /**
   * The cases that find nothing: no client configured, no usable storage
   * directory for a client other than a watch folder, or no hash given
   * (outside the qBittorrent search path).
   */
  lemma {:induction false} NothingFound(config: Config, job: Job, disk: Disk)
    ensures ExistingClientName(config, job) == "none" ==> FindExistingTorrent(config, job, disk) == Ok(None)
    ensures var name := ExistingClientName(config, job);
            name in config.clients
            && (config.clients[name].storageDir.None? || !Exists(disk, config.clients[name].storageDir.value))
            ==> FindExistingTorrent(config, job, disk) == Ok(None)
    ensures var name := ExistingClientName(config, job);
            name != "none" && name in config.clients && CandidateHash(job).None?
            && !(Lower(config.clients[name].torrentClient.GetOr("none")) == "qbit" && config.clients[name].enableSearch)
            ==> FindExistingTorrent(config, job, disk) == Ok(None)
  {
  }
}
