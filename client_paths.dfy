/**
 * Client profiles and the mapping between the uploader's local mount
 * prefix and the prefix the torrent client sees (`Clients.remote_path_map`
 * and the translation step every adapter repeats).
 */
module ClientPaths {
  import opened PyStr
  import opened PosixPath

  /** A configuration value that may be written as one string or as a list of strings. */
  datatype Setting = Str(s: string) | List(items: seq<string>)

  /** The keys of one `TORRENT_CLIENTS` entry the core reads; an absent key is `None`. */
  datatype ClientConfig = ClientConfig(
    torrentClient: Option<string>,         // torrent_client
    storageDir: Option<string>,            // torrent_storage_dir
    localPath: Option<Setting>,            // local_path
    remotePath: Option<Setting>,           // remote_path
    enableSearch: bool,                    // enable_search (truthiness)
    autoManagementPaths: Option<Setting>,  // automatic_management_paths
    qbitCat: Option<string>,               // qbit_cat
    qbitTag: Option<string>,               // qbit_tag
    contentLayout: Option<string>,         // content_layout
    rtorrentLabel: Option<string>,         // rtorrent_label
    watchFolder: Option<string>)           // watch_folder

  /** `DEFAULT.default_torrent_client` and the `TORRENT_CLIENTS` table. */
  datatype Config = Config(defaultClient: Option<string>, clients: map<string, ClientConfig>)

  /**
   * `meta['client']`: the key may be missing, hold None (what the argument
   * parser stores when `--client` is not given) or hold a profile name.
   */
  datatype MetaClient = Absent | Null | Named(name: string)

  const DefaultLocalPath: string := "/LocalPath"
  const DefaultRemotePath: string := "/RemotePath"

  /** `setting[i]`: a list element or, for a string, its i-th character; None where Python raises IndexError. */
  function Index(setting: Setting, i: nat): (r: Option<string>)
    ensures r.Some? <==> i < (if setting.List? then |setting.items| else |setting.s|)
  {
    match setting
    case List(items) => if i < |items| then Some(items[i]) else None
    case Str(s) => if i < |s| then Some([s[i]]) else None
  }

  /** `os.path.normpath(prefix).lower() in path.lower()` */
  predicate PrefixIn(prefix: string, path: string) {
    Contains(Lower(path), Lower(NormPath(prefix)))
  }

  /** Which entries of a prefix list occur in the path. */
  function MatchFlags(items: seq<string>, path: string): (flags: seq<bool>)
    ensures |flags| == |items|
    decreases |items|
  {
    if items == [] then [] else MatchFlags(items[..|items| - 1], path) + [PrefixIn(items[|items| - 1], path)]
  }

  lemma {:induction false} MatchFlagsAt(items: seq<string>, path: string, k: nat)
    requires k < |items|
    ensures MatchFlags(items, path)[k] == PrefixIn(items[k], path)
    decreases |items|
  {
    if k < |items| - 1 {
      MatchFlagsAt(items[..|items| - 1], path, k);
    }
  }

  /** The greatest index holding `true`. */
  function LastTrue(flags: seq<bool>): (j: Option<nat>)
    ensures j.Some? ==> j.value < |flags| && flags[j.value]
    ensures forall k :: 0 <= k < |flags| && flags[k] ==> j.Some? && k <= j.value
    decreases |flags|
  {
    if flags == [] then None
    else if flags[|flags| - 1] then Some(|flags| - 1)
    else LastTrue(flags[..|flags| - 1])
  }

  /** The index the loop of `remote_path_map` settles on: the greatest matching one, as it has no `break`. */
  function LastMatch(items: seq<string>, path: string): (j: Option<nat>)
    ensures j.Some? ==> j.value < |items| && PrefixIn(items[j.value], path)
    ensures forall k :: 0 <= k < |items| && PrefixIn(items[k], path) ==> j.Some? && k <= j.value
  {
    var flags := MatchFlags(items, path);
    assert forall k :: 0 <= k < |items| ==> flags[k] == PrefixIn(items[k], path) by {
      forall k | 0 <= k < |items| {
        MatchFlagsAt(items, path, k);
      }
    }
    LastTrue(flags)
  }

  /** Some matching index has no counterpart in the remote setting, so `remote_path[i]` raises. */
  predicate RemoteMissing(flags: seq<bool>, remote: Setting) {
    exists k :: 0 <= k < |flags| && flags[k] && Index(remote, k).None?
  }

  /**
   * What the loop over a list of local prefixes leaves behind: IndexError,
   * no match (both variables still hold the configured values), or the
   * pair at the last matching index.
   */
  function ScanResult(flags: seq<bool>, items: seq<string>, remote: Setting): Result<Option<(string, string)>>
    requires |flags| == |items|
  {
    if RemoteMissing(flags, remote) then Err(IndexError)
    else match LastTrue(flags)
      case None => Ok(None)
      case Some(j) => Ok(Some((items[j], Index(remote, j).value)))
  }

  /** The loop of `remote_path_map` over list-valued local prefixes. */
  method ScanPrefixList(items: seq<string>, remote: Setting, path: string) returns (r: Result<Option<(string, string)>>)
    ensures r == ScanResult(MatchFlags(items, path), items, remote)
  {
    var flags := MatchFlags(items, path);
    var chosen: Option<(string, string)> := None;
    for i := 0 to |items|
      invariant !RemoteMissing(flags[..i], remote)
      invariant LastTrue(flags[..i]).None? ==> chosen.None?
      invariant LastTrue(flags[..i]).Some? ==>
        var j := LastTrue(flags[..i]).value;
        Index(remote, j).Some? && chosen == Some((items[j], Index(remote, j).value))
    {
      ScanStep(flags, remote, i);
      if flags[i] {
        var other := Index(remote, i);
        if other.None? {
          assert flags[..|items|] == flags;
          return Err(IndexError);
        }
        chosen := Some((items[i], other.value));
      }
    }
    assert flags[..|items|] == flags;
    return Ok(chosen);
  }

  /** One more flag: a missing counterpart at it, and the last matching index. */
  lemma {:induction false} ScanStep(flags: seq<bool>, remote: Setting, i: nat)
    requires i < |flags|
    ensures RemoteMissing(flags[..i + 1], remote) <==> RemoteMissing(flags[..i], remote) || (flags[i] && Index(remote, i).None?)
    ensures LastTrue(flags[..i + 1]) == if flags[i] then Some(i) else LastTrue(flags[..i])
  {
    var p := flags[..i + 1];
    assert p[..i] == flags[..i];
    assert forall k :: 0 <= k <= i ==> p[k] == flags[k];
  }

  /** Values of `list_local_path` and `list_remote_path` once both are strings, or the exception. */
  function SelectPrefixes(local: Setting, remote: Setting, path: string): Result<(string, string)> {
    match local
    case Str(l) =>
      // normpath of a list raises TypeError
      if remote.List? then Err(TypeError) else Ok((l, remote.s))
    case List(items) =>
      var chosen :- ScanResult(MatchFlags(items, path), items, remote);
      if chosen.None? then Err(TypeError) else Ok(chosen.value)
  }

  /** The profile `remote_path_map` reads: `meta['client']`, or `DEFAULT['default_torrent_client']` when that is None. */
  function PathMapClient(config: Config, client: MetaClient): Result<ClientConfig> {
    var name :-
      if client.Named? then Ok(client.name)
      else if config.defaultClient.Some? then Ok(config.defaultClient.value)
      else Err(KeyError("default_torrent_client"));
    if name in config.clients then Ok(config.clients[name]) else Err(KeyError(name))
  }

  /** The pair `remote_path_map` returns, as a function of the configuration and the job. */
  function PathMap(config: Config, client: MetaClient, metaPath: string): Result<(string, string)> {
    var profile :- PathMapClient(config, client);
    var pair :- SelectPrefixes(
      profile.localPath.GetOr(Str(DefaultLocalPath)),
      profile.remotePath.GetOr(Str(DefaultRemotePath)),
      metaPath);
    var local := NormPath(pair.0);
    var remote := NormPath(pair.1);
    Ok((local, if EndsWith(local, Sep) then remote + Sep else remote))
  }

  /** `Clients.remote_path_map`, proved to compute `PathMap`. */
  method RemotePathMap(config: Config, client: MetaClient, metaPath: string) returns (r: Result<(string, string)>)
    ensures r == PathMap(config, client, metaPath)
  {
    var profile :- PathMapClient(config, client);
    var localPath := profile.localPath.GetOr(Str(DefaultLocalPath));
    var remotePath := profile.remotePath.GetOr(Str(DefaultRemotePath));
    var listLocal, listRemote := localPath, remotePath;
    if localPath.List? {
      var chosen :- ScanPrefixList(localPath.items, remotePath, metaPath);
      if chosen.Some? {
        listLocal, listRemote := Str(chosen.value.0), Str(chosen.value.1);
      }
    }
    if listLocal.List? || listRemote.List? {
      return Err(TypeError);
    }
    var local := NormPath(listLocal.s);
    var remote := NormPath(listRemote.s);
    if EndsWith(local, Sep) {
      remote := remote + Sep;
    }
    return Ok((local, remote));
  }

  /** With list prefixes, the last entry found in the job's path is the one returned. */
  lemma {:induction false} PathMapLastMatchWins(config: Config, client: MetaClient, metaPath: string, profile: ClientConfig, items: seq<string>)
    requires PathMapClient(config, client) == Ok(profile) && profile.localPath == Some(List(items))
    requires PathMap(config, client, metaPath).Ok?
    ensures exists j :: 0 <= j < |items| && PrefixIn(items[j], metaPath)
                     && PathMap(config, client, metaPath).value.0 == NormPath(items[j])
                     && forall k :: j < k < |items| ==> !PrefixIn(items[k], metaPath)
  {
    var j := LastMatch(items, metaPath).value;
    assert PrefixIn(items[j], metaPath);
  }

  /** With list prefixes none of which occurs in the path, `normpath` is handed the list and raises. */
  lemma {:induction false} PathMapNoMatchRaises(config: Config, client: MetaClient, metaPath: string, profile: ClientConfig, items: seq<string>)
    requires PathMapClient(config, client) == Ok(profile) && profile.localPath == Some(List(items))
    requires forall k :: 0 <= k < |items| ==> !PrefixIn(items[k], metaPath)
    ensures PathMap(config, client, metaPath) == Err(TypeError)
  {
    var flags := MatchFlags(items, metaPath);
    forall k | 0 <= k < |items| {
      MatchFlagsAt(items, metaPath, k);
    }
    assert !RemoteMissing(flags, profile.remotePath.GetOr(Str(DefaultRemotePath)));
  }

  /** A matching list entry without a remote counterpart raises IndexError. */
  lemma {:induction false} PathMapShortRemoteRaises(config: Config, client: MetaClient, metaPath: string, profile: ClientConfig, items: seq<string>, i: nat)
    requires PathMapClient(config, client) == Ok(profile) && profile.localPath == Some(List(items))
    requires i < |items| && PrefixIn(items[i], metaPath)
    requires Index(profile.remotePath.GetOr(Str(DefaultRemotePath)), i).None?
    ensures PathMap(config, client, metaPath) == Err(IndexError)
  {
    var flags := MatchFlags(items, metaPath);
    MatchFlagsAt(items, metaPath, i);
    assert RemoteMissing(flags, profile.remotePath.GetOr(Str(DefaultRemotePath)));
  }

  /**
   * The remote prefix gets a separator appended exactly when the
   * normalised local prefix ends with one, which only the roots "/" and
   * "//" do.
   */
  lemma {:induction false} PathMapTrailingSep(config: Config, client: MetaClient, metaPath: string)
    requires PathMap(config, client, metaPath).Ok?
    ensures var (local, remote) := PathMap(config, client, metaPath).value;
      (EndsWith(local, Sep) <==> local == "/" || local == "//")
      && (EndsWith(local, Sep) ==> EndsWith(remote, Sep))
  {
    var profile := PathMapClient(config, client).value;
    var pair := SelectPrefixes(
      profile.localPath.GetOr(Str(DefaultLocalPath)),
      profile.remotePath.GetOr(Str(DefaultRemotePath)),
      metaPath).value;
    NormPathTrailingSep(pair.0);
    var remote := NormPath(pair.1) + Sep;
    assert remote[|remote| - 1..] == Sep;
  }

  /** The guard all three adapters share: `local.lower() in path.lower() and local.lower() != remote.lower()`. */
  predicate ShouldTranslate(path: string, local: string, remote: string) {
    Contains(Lower(path), Lower(local)) && Lower(local) != Lower(remote)
  }

  /** `path.replace(local, remote).replace(os.sep, '/')` under the adapters' guard. */
  function Translate(path: string, local: string, remote: string): string {
    if ShouldTranslate(path, local, remote) then Replace(Replace(path, local, remote), Sep, "/") else path
  }

  /** On POSIX `os.sep` is '/', so the second replacement never changes anything. */
  lemma {:induction false} TranslateIsPrefixReplace(path: string, local: string, remote: string)
    ensures Translate(path, local, remote)
      == if ShouldTranslate(path, local, remote) then Replace(path, local, remote) else path
  {
    ReplaceIdentity(Replace(path, local, remote), Sep);
  }

  /**
   * The guard compares case-insensitively but the replacement is
   * case-sensitive: a prefix that only matches up to case leaves the path
   * as it was.
   */
  lemma {:induction false} TranslateCaseOnlyMatch(path: string, local: string, remote: string)
    requires local != [] && !Contains(path, local)
    ensures Translate(path, local, remote) == path
  {
    TranslateIsPrefixReplace(path, local, remote);
    ReplaceAbsent(path, local, remote);
  }

  /** A path that starts with the local prefix starts with the remote prefix once translated. */
  lemma {:induction false} TranslateMovesPrefix(path: string, local: string, remote: string)
    requires local != [] && StartsWith(path, local) && Lower(local) != Lower(remote)
    ensures StartsWith(Translate(path, local, remote), remote)
  {
    assert path[..|local|] == local;
    LowerPrefix(path, |local|);
    ContainsAt(Lower(path), Lower(local), 0);
    TranslateIsPrefixReplace(path, local, remote);
    var rest := Replace(path[|local|..], local, remote);
    assert Replace(path, local, remote) == remote + rest;
    assert (remote + rest)[..|remote|] == remote;
  }
}
