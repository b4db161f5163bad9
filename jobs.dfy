/**
 * The fields of the upload job dictionary (`meta`) that the client code
 * reads, and the parts of the filesystem it consults.
 */
module Jobs {
  import opened PyStr
  import opened ClientPaths

  /** The job fields `is_valid_torrent` and `remote_path_map` read. */
  datatype Release = Release(
    path: string,          // meta['path']
    client: MetaClient,    // meta['client']
    isDisc: string,        // meta['is_disc']: "BDMV", "DVD", "HDDVD" or "" when not a disc
    filelist: seq<string>) // meta['filelist']

  /** One upload job; optional keys are `None` when missing or None. */
  datatype Job = Job(
    release: Release,
    baseDir: string,                 // meta['base_dir']
    uuid: string,                    // meta['uuid']
    cleanName: string,               // meta['clean_name']
    fullDir: bool,                   // meta['full_dir']
    releaseType: string,             // meta['type']
    noSeed: bool,                    // meta['no_seed']
    torrenthash: Option<string>,     // meta['torrenthash']
    extTorrenthash: Option<string>,  // meta['ext_torrenthash']
    qbitCat: Option<string>,         // meta['qbit_cat']
    qbitTag: Option<string>,         // meta['qbit_tag']
    rtorrentLabel: Option<string>)   // meta['rtorrent_label']

  /** Python truthiness of an optional string. */
  predicate Truthy(o: Option<string>) {
    o.Some? && o.value != ""
  }

  /** What `torf.Torrent.read` reports about a stored `.torrent` file. */
  datatype StoredTorrent = StoredTorrent(files: seq<string>, pieces: nat, pieceSize: nat)

  /**
   * The filesystem as the client code sees it: existing directories, and
   * every existing `.torrent` file with its decoded contents.
   */
  datatype Disk = Disk(dirs: set<string>, torrents: map<string, StoredTorrent>)

  /** `os.path.exists(p)` */
  predicate Exists(disk: Disk, p: string) {
    p in disk.dirs || p in disk.torrents
  }
}
