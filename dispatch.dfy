/**
 * Handing a finished torrent to the configured client:
 * `Clients.add_to_client` and the rTorrent, qBittorrent and Deluge
 * adapters (the later definitions in the class, which replace the
 * placeholders). Each adapter is modelled as the trace of calls it makes
 * on the client and on the filesystem; the answers of the outside world
 * (directory tests, login, connection) are inputs.
 */
module Dispatch {
  import opened PyStr
  import opened PosixPath
  import opened Metainfo
  import opened ClientPaths
  import opened Jobs
  import opened FastResume

  /** An effect an adapter performs, in order. */
  datatype Call =
    | WriteResume(path: string)                      // bencode.bwrite(fast_resume, fr_file)
    | CopyFile(src: string, dst: string)             // shutil.copy
    | RemoveFile(path: string)                       // os.remove
    | LoadStart(file: string, directory: string)     // rTorrent load.start_verbose with d.directory_base.set
    | SetLabel(text: string)                         // rTorrent d.custom1.set
    | QbitLogin                                      // auth_log_in
    | QbitAdd(savePath: string, autoManagement: bool, contentLayout: string, category: Option<string>)
    | QbitResume                                     // torrents_resume
    | QbitAddTags(tags: string)                      // torrents_add_tags
    | DelugeConnect                                  // connect
    | DelugeAdd(torrentPath: string, location: string)  // core.add_torrent_file

  /** The calls made, and the exception that ended the adapter if one did. */
  datatype Outcome = Outcome(calls: seq<Call>, error: Option<PyError>)

  /** What the outside world answers: the filesystem, the qBittorrent login and the Deluge connection. */
  datatype World = World(fs: FileSystem, loginOk: bool, delugeConnected: bool)

  /** `os.path.isdir(p)` */
  predicate IsDir(w: World, p: string) {
    p in w.fs.dirs
  }

  /** The exception `add_fast_resume` raises for this data path, if any (see `FastResume`). */
  function FastResumeError(info: Info, datapath: string, fs: FileSystem): Option<PyError> {
    match ResumeSources(info, datapath, fs)
    case Err(e) => Some(e)
    case Ok(sources) =>
      var k := FirstFailure(sources, fs, info.pieceLength);
      if k < |sources| then Failure(sources[k], fs, info.pieceLength) else None
  }

  /** `torrent_path.replace('.torrent', '-resume.torrent')`: the fast-resume sidecar. */
  function SidecarPath(torrentPath: string): string {
    Replace(torrentPath, ".torrent", "-resume.torrent")
  }

  /** The rTorrent label calls: the profile's label, then the job's, each when non-empty. */
  function LabelCalls(client: ClientConfig, job: Job): seq<Call> {
    (if Truthy(client.rtorrentLabel) then [SetLabel(client.rtorrentLabel.value)] else [])
    + (if Truthy(job.rtorrentLabel) then [SetLabel(job.rtorrentLabel.value)] else [])
  }

  /**
   * The directory rTorrent is told to use: the translated path, or its
   * parent when the original is not a directory. Without a remote mount it
   * is the data path itself, or its parent.
   */
  function RtorrentDirectory(w: World, path: string, local: string, remote: string): (d: string)
    ensures IsDir(w, path) ==> d == Translate(path, local, remote)
    ensures !IsDir(w, path) ==> d == Dirname(Translate(path, local, remote))
    ensures !ShouldTranslate(path, local, remote) ==> d == (if IsDir(w, path) then path else Dirname(path))
  {
    var translated := Translate(path, local, remote);
    if IsDir(w, path) then translated else Dirname(translated)
  }

  /** The rTorrent call sequence once the fast-resume data exists. */
  function RtorrentCalls(sidecar: string, remap: bool, copyTarget: string, loadFile: string,
                         directory: string, labels: seq<Call>): seq<Call>
  {
    [WriteResume(sidecar)]
    + (if remap then [CopyFile(sidecar, copyTarget)] else [])
    + [LoadStart(loadFile, directory)]
    + labels
    + (if remap then [RemoveFile(copyTarget)] else [])
  }

  /**
   * `Clients.rtorrent`. The re-encoded metainfo (bytes) is compared with
   * the decoded dictionary, which never compares equal, so the sidecar is
   * always written. Under a remote mount the sidecar is copied next to the
   * data as `fr.torrent`, rTorrent loads it from the remote side, and the
   * copy is removed afterwards.
   */
  function Rtorrent(w: World, path: string, torrentPath: string, info: Info, job: Job,
                    local: string, remote: string, client: ClientConfig): Outcome
  {
    match FastResumeError(info, path, w.fs)
    case Some(e) => Outcome([], Some(e))
    case None =>
      var remap := ShouldTranslate(path, local, remote);
      var loadFile := if remap then Dirname(Translate(path, local, remote)) + "/fr.torrent" else SidecarPath(torrentPath);
      Outcome(
        RtorrentCalls(SidecarPath(torrentPath), remap, Dirname(path) + "/fr.torrent", loadFile,
                      RtorrentDirectory(w, path, local, remote), LabelCalls(client, job)),
        None)
  }

  /** The save path handed to qBittorrent: parent directory unless a single directory, translated, with a trailing '/'. */
  function QbitSavePath(w: World, path: string, fileCount: nat, local: string, remote: string): (p: string)
    ensures EndsWith(p, "/")
  {
    var dir := if (!IsDir(w, path) && fileCount == 1) || fileCount != 1 then Dirname(path) else path;
    var translated := Translate(dir, local, remote);
    var r := if EndsWith(translated, Sep) then translated else translated + "/";
    assert r[|r| - 1..] == "/";
    r
  }

  /** `os.path.normpath(prefix).lower() in os.path.normpath(savePath).lower()` */
  predicate UnderPrefix(prefix: string, savePath: string) {
    Contains(Lower(NormPath(savePath)), Lower(NormPath(prefix)))
  }

  /** Automatic torrent management: on when the save path lies under a configured path (default ''). */
  predicate AutoManagement(setting: Option<Setting>, savePath: string) {
    match setting.GetOr(Str(""))
    case List(items) => exists i :: 0 <= i < |items| && UnderPrefix(items[i], savePath)
    case Str(s) => UnderPrefix(s, savePath) && Strip(s) != ""
  }

  /** The category: the job's `qbit_cat` when set and non-empty, otherwise the profile's. */
  function QbitCategory(client: ClientConfig, job: Job): Option<string> {
    if Truthy(job.qbitCat) then job.qbitCat else client.qbitCat
  }

  /** The tag calls: the profile's tag, then the job's, each when not None. */
  function TagCalls(client: ClientConfig, job: Job): seq<Call> {
    (if client.qbitTag.Some? then [QbitAddTags(client.qbitTag.value)] else [])
    + (if job.qbitTag.Some? then [QbitAddTags(job.qbitTag.value)] else [])
  }

  /**
   * `Clients.qbittorrent`: log in (a failure ends the adapter), add with
   * hash checking skipped, resume, tag. The bounded wait for the torrent
   * to appear does not change what follows.
   */
  function Qbittorrent(w: World, path: string, local: string, remote: string, client: ClientConfig, job: Job): Outcome {
    var savePath := QbitSavePath(w, path, |job.release.filelist|, local, remote);
    if !w.loginOk then Outcome([QbitLogin], None)
    else
      Outcome(
        [QbitLogin,
         QbitAdd(savePath, AutoManagement(client.autoManagementPaths, savePath),
                 client.contentLayout.GetOr("Original"), QbitCategory(client, job)),
         QbitResume]
        + TagCalls(client, job),
        None)
  }

  /** `Clients.deluge`: when connected, add with the parent of the translated path as download location. */
  function Deluge(w: World, path: string, torrentPath: string, local: string, remote: string): Outcome {
    if !w.delugeConnected then Outcome([DelugeConnect], None)
    else Outcome([DelugeConnect, DelugeAdd(torrentPath, Dirname(Translate(path, local, remote)))], None)
  }

  /** `f"{base_dir}/tmp/{uuid}/[{tracker}]{clean_name}.torrent"` */
  function TrackerTorrentPath(job: Job, tracker: string): string {
    job.baseDir + "/tmp/" + job.uuid + "/[" + tracker + "]" + job.cleanName + ".torrent"
  }

  /** The profile name `add_to_client` uses: `meta.get('client', default)`, None when the key holds None. */
  function DispatchClientName(config: Config, job: Job): Option<string> {
    match job.release.client
    case Absent => Some(config.defaultClient.GetOr("none"))
    case Null => None
    case Named(n) => Some(n)
  }

  /** The adapter for a profile, after the profile and the prefix pair are known. */
  function Adapt(w: World, job: Job, torrentPath: string, info: Info, client: ClientConfig,
                 kind: string, local: string, remote: string): Result<Outcome>
  {
    var metaPath := job.release.path;
    if kind == "rtorrent" then
      Ok(Rtorrent(w, if job.fullDir then Dirname(metaPath) else metaPath, torrentPath, info, job, local, remote, client))
    else if kind == "qbit" then
      Ok(Qbittorrent(w, if job.fullDir then Dirname(metaPath) else metaPath, local, remote, client, job))
    else if kind == "deluge" then
      Ok(Deluge(w, if job.fullDir || job.releaseType == "DISC" then Dirname(metaPath) else metaPath, torrentPath, local, remote))
    else if kind == "watch" then
      if client.watchFolder.None? then Err(KeyError("watch_folder"))
      else Ok(Outcome([CopyFile(torrentPath, client.watchFolder.value)], None))
    else Ok(Outcome([], None))
  }

  /**
   * The body of `add_to_client` once the profile name is known: look the
   * profile up, map the prefixes, and run the adapter for its client kind.
   */
  function SendTo(config: Config, w: World, job: Job, torrentPath: string, info: Info, name: string): Result<Outcome> {
    if name == "none" then Ok(Outcome([], None))
    // `TORRENT_CLIENTS.get(name)` is None, and subscripting it raises TypeError
    else if name !in config.clients then Err(TypeError)
    else
      var client := config.clients[name];
      if client.torrentClient.None? then Err(KeyError("torrent_client"))
      else
        var prefixes :- PathMap(config, job.release.client, job.release.path);
        Adapt(w, job, torrentPath, info, client, Lower(client.torrentClient.value), prefixes.0, prefixes.1)
  }

  /**
   * `Clients.add_to_client(meta, tracker)` as written. `info` is the
   * decoded metainfo of the tracker's torrent file.
   */
  function AddToClient(config: Config, w: World, job: Job, tracker: string, info: Info): Result<Outcome> {
    var torrentPath := TrackerTorrentPath(job, tracker);
    if job.noSeed then Ok(Outcome([], None))
    else if torrentPath !in w.fs.files then Ok(Outcome([], None))
    else
      match DispatchClientName(config, job)
      // `TORRENT_CLIENTS.get(None)` is None, and subscripting it raises TypeError
      case None => Err(TypeError)
      case Some(name) => SendTo(config, w, job, torrentPath, info, name)
  }

  /** The profile name with None in `meta['client']` read as "not given", as `find_existing_torrent` and `remote_path_map` do. */
  function DispatchClientNameFixed(config: Config, job: Job): string {
    if job.release.client.Named? then job.release.client.name else config.defaultClient.GetOr("none")
  }

  /** `add_to_client` with the default profile used when `meta['client']` is None. */
  function AddToClientFixed(config: Config, w: World, job: Job, tracker: string, info: Info): Result<Outcome> {
    var torrentPath := TrackerTorrentPath(job, tracker);
    if job.noSeed then Ok(Outcome([], None))
    else if torrentPath !in w.fs.files then Ok(Outcome([], None))
    else SendTo(config, w, job, torrentPath, info, DispatchClientNameFixed(config, job))
  }

  /**
   * As written, a job whose `client` key holds None (what the argument
   * parser stores when `--client` is absent) fails with TypeError once the
   * tracker's torrent file exists, even when a default client is configured.
   */
  lemma {:induction false} AddToClientNullClientFails(config: Config, w: World, job: Job, tracker: string, info: Info)
    requires job.release.client == Null && !job.noSeed
    requires TrackerTorrentPath(job, tracker) in w.fs.files
    ensures AddToClient(config, w, job, tracker, info) == Err(TypeError)
  {
  }

  /**
   * The corrected dispatch agrees with the original whenever `client` is
   * not None; when it is None the job goes to the configured default
   * client, exactly as when the key is missing.
   */
  lemma {:induction false} AddToClientFixedAgrees(config: Config, w: World, job: Job, tracker: string, info: Info)
    ensures job.release.client != Null ==>
              AddToClientFixed(config, w, job, tracker, info) == AddToClient(config, w, job, tracker, info)
    ensures !job.noSeed && TrackerTorrentPath(job, tracker) in w.fs.files && !job.release.client.Named? ==>
              AddToClientFixed(config, w, job, tracker, info)
              == SendTo(config, w, job, TrackerTorrentPath(job, tracker), info, config.defaultClient.GetOr("none"))
    ensures !job.noSeed && TrackerTorrentPath(job, tracker) in w.fs.files && job.release.client == Absent ==>
              AddToClient(config, w, job, tracker, info)
              == SendTo(config, w, job, TrackerTorrentPath(job, tracker), info, config.defaultClient.GetOr("none"))
  {
  }

  /** Nothing is sent anywhere when seeding is disabled, the torrent file is missing, or no client is configured. */
  lemma {:induction false} NoDispatch(config: Config, w: World, job: Job, tracker: string, info: Info)
    ensures job.noSeed ==> AddToClient(config, w, job, tracker, info) == Ok(Outcome([], None))
    ensures TrackerTorrentPath(job, tracker) !in w.fs.files ==> AddToClient(config, w, job, tracker, info) == Ok(Outcome([], None))
    ensures DispatchClientName(config, job) == Some("none") ==> AddToClient(config, w, job, tracker, info) == Ok(Outcome([], None))
  {
  }

  /**
   * The rTorrent call sequence: the sidecar is written first, exactly one
   * load is made, of the given file into the given directory, and the
   * temporary copy is made exactly when the path is remapped and is then
   * the last thing removed.
   */
  lemma {:induction false} RtorrentCallsShape(sidecar: string, remap: bool, copyTarget: string, loadFile: string,
                           directory: string, labels: seq<Call>)
    requires forall i :: 0 <= i < |labels| ==> labels[i].SetLabel?
    ensures var calls := RtorrentCalls(sidecar, remap, copyTarget, loadFile, directory, labels);
            calls[0] == WriteResume(sidecar)
            && (CopyFile(sidecar, copyTarget) in calls <==> remap)
            && (remap ==> calls[|calls| - 1] == RemoveFile(copyTarget))
            && |set i | 0 <= i < |calls| && calls[i].LoadStart?| == 1
            && LoadStart(loadFile, directory) in calls
  {
    var calls := RtorrentCalls(sidecar, remap, copyTarget, loadFile, directory, labels);
    var loadAt := if remap then 2 else 1;
    assert calls[loadAt] == LoadStart(loadFile, directory);
    assert forall i :: 0 <= i < |calls| && i != loadAt ==> !calls[i].LoadStart?;
    assert (set i | 0 <= i < |calls| && calls[i].LoadStart?) == {loadAt};
  }

  /**
   * rTorrent with working fast-resume data follows `RtorrentCallsShape`
   * and raises nothing. Its one load names the sidecar, or the `fr.torrent`
   * copy beside the remote data under a mount, and `RtorrentDirectory`.
   */
  lemma {:induction false} RtorrentTrace(w: World, path: string, torrentPath: string, info: Info, job: Job,
                      local: string, remote: string, client: ClientConfig)
    requires FastResumeError(info, path, w.fs).None?
    ensures var o := Rtorrent(w, path, torrentPath, info, job, local, remote, client);
            var copy := CopyFile(SidecarPath(torrentPath), Dirname(path) + "/fr.torrent");
            o.error.None? && o.calls[0] == WriteResume(SidecarPath(torrentPath))
            && (copy in o.calls <==> ShouldTranslate(path, local, remote))
            && (ShouldTranslate(path, local, remote) ==> o.calls[|o.calls| - 1] == RemoveFile(Dirname(path) + "/fr.torrent"))
            && |set i | 0 <= i < |o.calls| && o.calls[i].LoadStart?| == 1
    ensures var o := Rtorrent(w, path, torrentPath, info, job, local, remote, client);
            var loadFile := if ShouldTranslate(path, local, remote) then Dirname(Translate(path, local, remote)) + "/fr.torrent"
                            else SidecarPath(torrentPath);
            LoadStart(loadFile, RtorrentDirectory(w, path, local, remote)) in o.calls
  {
    var remap := ShouldTranslate(path, local, remote);
    var loadFile := if remap then Dirname(Translate(path, local, remote)) + "/fr.torrent" else SidecarPath(torrentPath);
    RtorrentCallsShape(SidecarPath(torrentPath), remap, Dirname(path) + "/fr.torrent", loadFile,
                       RtorrentDirectory(w, path, local, remote), LabelCalls(client, job));
  }

  /** A failing fast-resume step ends the rTorrent adapter before any call. */
  lemma {:induction false} RtorrentFastResumeFailure(w: World, path: string, torrentPath: string, info: Info, job: Job,
                                  local: string, remote: string, client: ClientConfig)
    requires FastResumeError(info, path, w.fs).Some?
    ensures Rtorrent(w, path, torrentPath, info, job, local, remote, client) == Outcome([], FastResumeError(info, path, w.fs))
  {
  }

  /** The save path is the translated parent, except for a single directory, and always ends with '/'. */
  lemma {:induction false} QbitSavePathShape(w: World, path: string, fileCount: nat, local: string, remote: string)
    ensures var p := QbitSavePath(w, path, fileCount, local, remote);
            var base := if fileCount == 1 && IsDir(w, path) then path else Dirname(path);
            EndsWith(p, "/")
            && (p == Translate(base, local, remote) || p == Translate(base, local, remote) + "/")
  {
  }

  /**
   * qBittorrent: a failed login makes no further call; otherwise the
   * torrent is added and then resumed (whether or not it showed up), with
   * the job's category taking precedence over the profile's.
   */
  lemma {:induction false} QbittorrentTrace(w: World, path: string, local: string, remote: string, client: ClientConfig, job: Job)
    ensures var o := Qbittorrent(w, path, local, remote, client, job);
            o.error.None?
            && (!w.loginOk ==> o.calls == [QbitLogin])
            && (w.loginOk ==>
                  o.calls[0] == QbitLogin && o.calls[1].QbitAdd? && o.calls[2] == QbitResume
                  && o.calls[1].savePath == QbitSavePath(w, path, |job.release.filelist|, local, remote)
                  && o.calls[1].category == (if Truthy(job.qbitCat) then job.qbitCat else client.qbitCat)
                  && o.calls[1].contentLayout == (if client.contentLayout.Some? then client.contentLayout.value else "Original")
                  && |o.calls| == 3 + (if client.qbitTag.Some? then 1 else 0) + (if job.qbitTag.Some? then 1 else 0))
  {
  }

  /** With no configured paths, or only blank ones, automatic management stays off. */
  lemma {:induction false} AutoManagementOffByDefault(savePath: string, s: string)
    requires Strip(s) == ""
    ensures !AutoManagement(None, savePath)
    ensures !AutoManagement(Some(Str(s)), savePath)
    ensures !AutoManagement(Some(List([])), savePath)
  {
  }

  /** One configured path that contains the save path turns automatic management on, whatever the other entries. */
  lemma {:induction false} AutoManagementList(items: seq<string>, savePath: string, i: nat)
    requires i < |items| && UnderPrefix(items[i], savePath)
    ensures AutoManagement(Some(List(items)), savePath)
  {
  }

  /** A list none of whose paths contains the save path leaves automatic management off, and so does the list with more such entries appended. */
  lemma {:induction false} AutoManagementListOff(items: seq<string>, savePath: string, extra: seq<string>)
    requires forall i :: 0 <= i < |items| ==> !UnderPrefix(items[i], savePath)
    requires forall j :: 0 <= j < |extra| ==> !UnderPrefix(extra[j], savePath)
    ensures !AutoManagement(Some(List(items)), savePath)
    ensures !AutoManagement(Some(List(items + extra)), savePath)
  {
    forall i | 0 <= i < |items + extra|
      ensures !UnderPrefix((items + extra)[i], savePath)
    {
      if i >= |items| {
        assert (items + extra)[i] == extra[i - |items|];
      }
    }
  }

  /** Deluge adds only over an established connection, into the translated parent directory. */
  lemma {:induction false} DelugeTrace(w: World, path: string, torrentPath: string, local: string, remote: string)
    ensures var o := Deluge(w, path, torrentPath, local, remote);
            o.error.None? && o.calls[0] == DelugeConnect
            && (w.delugeConnected <==> |o.calls| == 2)
            && (w.delugeConnected ==> o.calls[1] == DelugeAdd(torrentPath, Dirname(Translate(path, local, remote))))
  {
  }
}
