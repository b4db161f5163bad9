# UL-Helper core, modelled in Dafny

This project models the logic at the centre of the UL-Helper upload
assistant. The assistant reuses a `.torrent` already stored by a torrent
client, builds rTorrent fast-resume data, maps local paths onto a
client's remote mount, and hands the finished torrent to rTorrent,
qBittorrent, Deluge or a watch folder. Around that logic sit several
string helpers, which are modelled too:

- command-line value normalisation;
- BBCode tag rewriting and clean-up;
- the BDInfo report parser;
- the all-words file search;
- the backup-name and banned-group helpers of `upload.py`.

Modules and files:

| module (file) | models |
|---|---|
| `PyStr` (`pystr.dfy`) | Python `str` methods used by the code: `replace`, `split`, `strip`, `lower`/`upper` (ASCII), `in`, `startswith`/`endswith`, `splitlines`. |
| `PosixPath` (`posixpath.dfy`) | `os.path` on POSIX: `normpath`, `dirname`, `basename`, `splitext`, `commonpath`. |
| `Metainfo` (`metainfo.dfy`) | The decoded BitTorrent metainfo `info` dictionary (BEP 3, "Metainfo files"), and Python floor division. |
| `Jobs` (`jobs.dfy`) | The `meta` job fields the client code reads, and the disk as the client code sees it. |
| `ClientPaths` (`client_paths.dfy`) | `Clients.remote_path_map` and the prefix translation shared by the three adapters. |
| `Reuse` (`reuse.dfy`) | `Clients.is_valid_torrent` and `Clients.find_existing_torrent`. |
| `FastResume` (`fast_resume.dfy`) | `Clients.add_fast_resume`, as a class whose method extends the metainfo dictionary in place. |
| `Dispatch` (`dispatch.dfy`) | `Clients.add_to_client` and the rTorrent, qBittorrent and Deluge adapters, each as the trace of calls it makes. |
| `Upload` (`upload.dfy`) | `get_backup_name`, `extract_size_from_torrent`, `check_banned_group` and the no-dupes branch of `dupe_check`. |
| `Args` (`args.dfy`) | `Args.list_to_string`, `Args.parse_tmdb_id` and the per-key loop of `Args.parse`. |
| `BBCode` (`bbcode.dfy`) | The literal tag converters, the disc early exit and the blank-line clean-up of both `clean_*` functions. |
| `Comparison` (`comparison.dfy`) | `convert_comparison_to_collapse` and `convert_comparison_to_centered`. It also models the last definition of `convert_collapse_to_comparison` (src/bbcode.py:336), which replaces the two placeholders before it. |
| `DiscParse` (`discparse.dfy`) | `DiscParse.parse_bdinfo`. |
| `Search` (`search.dfy`) | `Search.file_search`, `searchFile` and `searchFolder`. |

The class defines `remote_path_map`, `rtorrent`, `qbittorrent` and
`deluge` twice. The model follows the later definitions, which replace
the placeholders at src/clients.py:76-90.

Where the code's behaviour is surprising, the model keeps it:

- With a list of local prefixes, `remote_path_map` keeps the last
  matching entry, because its loop has no `break`.
- The adapters replace every case-sensitive occurrence of the local
  prefix. The guard before the replacement compares case-insensitively.
- The multi-file rule of `is_valid_torrent` searches the stored file's
  own path, because the translated data path is overwritten.
- rTorrent's hash normalisation never changes the path.
- `find_existing_torrent` calls `search_qbit_for_torrent`, which the
  class does not define, so that path raises AttributeError.
- The `key in ("tag")` tests of `Args.parse` are substring tests on a
  string.
- A `video:` line with more than nine `/` fields keeps the padding loop
  of `parse_bdinfo` running forever. The model gives this outcome its
  own value, `Diverges`, instead of excluding such input.
- A `disc size:` value that `float()` rejects raises ValueError and ends
  `parse_bdinfo`. Whether `float()` accepts a text is a parameter of the
  model, `isFloat`.
- `--screens` is declared with `type=int` (src/args.py:35), so argparse
  never hands it over as a list. The `int(...)` branch for a `screens`
  list (src/args.py:152-154) is therefore unreachable from the command
  line. The model keeps the branch for a list given directly.

Python exceptions are values of `PyStr.PyError`. Operations that can
raise return `PyStr.Result`.

## Model

| member | source | states |
|---|---|---|
| ClientPaths.Index | src/clients.py:517-519 | Indexing a prefix setting succeeds exactly when the index is in range, for a list and for a string alike. |
| ClientPaths.MatchFlagsAt | src/clients.py:516-517 | Flag k says whether the normalised, lower-cased list entry k occurs in the lower-cased job path. |
| ClientPaths.LastMatch | src/clients.py:515-519 | The index the loop settles on matches, and no later index matches: the last matching entry wins. |
| ClientPaths.ScanPrefixList | src/clients.py:515-519 | The loop over list prefixes gives one of three results. It is IndexError when some matching entry has no remote counterpart. Otherwise it is the pair at the last matching index, or no match. |
| ClientPaths.RemotePathMap | src/clients.py:494-529 | `remote_path_map` computes `PathMap`: the profile, prefix selection, normalisation and trailing separator. |
| ClientPaths.PathMapLastMatchWins | src/clients.py:515-522 | With list prefixes, the returned local prefix is the normalised entry j, which occurs in the path. No later entry occurs in the path. |
| ClientPaths.PathMapNoMatchRaises | src/clients.py:515-522 | With list prefixes and no entry in the path, `normpath` receives the list and raises TypeError. |
| ClientPaths.PathMapShortRemoteRaises | src/clients.py:517-519 | A matching entry whose remote counterpart is out of range raises IndexError. |
| ClientPaths.PathMapTrailingSep | src/clients.py:522-527 | The local prefix ends with '/' exactly when it is "/" or "//". In that case the remote prefix ends with '/' too. |
| ClientPaths.TranslateIsPrefixReplace | src/clients.py:274-277 | Translation is a plain `replace` of the local by the remote prefix under the shared guard, and the identity otherwise. The `os.sep` step changes nothing. |
| ClientPaths.TranslateCaseOnlyMatch | src/clients.py:325-327 | A path that does not hold the prefix with the same case is left unchanged, even when the case-insensitive guard lets it through. |
| ClientPaths.TranslateMovesPrefix | src/clients.py:417-419 | A path starting with the local prefix starts with the remote prefix after translation. |
| Reuse.CheckedPathReturned | src/clients.py:181-233 | The verdict carries the path that was checked. A missing file gives (False, path) with the "Unwanted Files/Folders" message. |
| Reuse.ValidImpliesReusable | src/clients.py:182-226 | A valid verdict means all of the following. The file existed and the piece-count rule did not fire. The piece size is at least 32768. It is not a single-file torrent for another file. The message is "REUSING". |
| Reuse.WrongFileFlagged | src/clients.py:190-195 | The file rules set `wrong_file` for a single-file torrent whose file name differs from the job's. |
| Reuse.SingleFileAcceptance | src/clients.py:190-193 | An accepted single-file torrent (outside disc jobs) stores a bare file name with the same base name as the job's file. |
| Reuse.ReasonPrecedence | src/clients.py:213-228 | The first rule that applies decides the reason: too many pieces, then piece size below 32768, then the wrong file. The verdict is valid exactly when none of them applies. |
| Reuse.RtorrentPathUnchanged | src/clients.py:173-175 | For rTorrent the path is never changed: the upper-cased hash is replaced by itself. |
| Reuse.LowerCaseClientsHash | src/clients.py:170-172 | For qBittorrent and Deluge the hash is lower-cased and stripped, and holds no upper-case letter. |
| Reuse.MultiFileComparesTorrentPath | src/clients.py:197-208 | Under a mapped local prefix, the multi-file rule looks for the stored torrent's common directory in the `.torrent` path. It does not look in the data path. |
| Reuse.FoundTorrentIsValid | src/clients.py:102-147 | A returned path requires a configured client and an existing storage directory. The path is `{storage_dir}/{hash}.torrent` for the preferred hash, in the client's hash spelling. It is valid for the job. |
| Reuse.TorrenthashFirst | src/clients.py:125-132 | When `torrenthash` is set, `ext_torrenthash` has no effect on the result. |
| Reuse.FindSameCandidate | src/clients.py:102-147 | Two jobs with the same release and the same preferred hash find the same torrent. |
| Reuse.NothingFound | src/clients.py:103-141 | The result is None in three cases: the client is "none"; the storage directory is missing or does not exist; or no hash is given (outside the qBittorrent search path). |
| FastResume.ResumeSources | src/clients.py:449-459 | A multi-file torrent gives one source per declared file, with its length. A single-file torrent gives exactly one source of length `info["length"]`, or KeyError without it. |
| FastResume.FirstFailure | src/clients.py:468-481 | Every file before the returned index passes the size check. The file at the index, if any, raises. |
| FastResume.Entries | src/clients.py:484-489 | The first n resume entries: one per checked file. |
| FastResume.Metafile.constructor | src/clients.py:436-449 | The decoded metainfo dictionary, with its `info` and optional `libtorrent_resume` block. |
| FastResume.Metafile.AddFastResume | src/clients.py:436-492 | A KeyError on the file list leaves the dictionary as it was. Otherwise `libtorrent_resume` holds `bitfield = len(pieces) // 20` and the entries of the files checked before the first failure. The exception of that failure is returned. |
| FastResume.Metafile.AppendEntries | src/clients.py:466-490 | The loop appends one entry per file in order and stops at the first file whose size is wrong or missing. The entries already appended stay. |
| FastResume.CompletedSpan | src/clients.py:487-488 | For a non-empty file, `completed` is the piece index of its last byte minus that of its first byte, plus one. |
| FastResume.CompletedCountsOverlappingPieces | src/clients.py:487-488 | For a non-empty file, `completed` counts exactly the pieces that share a byte with the file. |
| FastResume.CompletedExample | src/clients.py:487-490 | With 1 MiB pieces, files of 2 MiB and 512 KiB get `completed` 2 and 1. |
| FastResume.EntriesPerFile | src/clients.py:468-490 | When no file raises, entry i exists on disk with the recorded size and has priority 1. Its mtime is the file's. Its `completed` is computed from the sum of the lengths before it. |
| FastResume.OffsetMonotone | src/clients.py:490 | With non-negative lengths the running offset never decreases. |
| FastResume.SingleFileOneEntry | src/clients.py:453-459 | A single-file torrent with a `length` yields exactly one source of that length. |
| Metainfo.FloorDiv | src/clients.py:487-488 | Python `//`: the quotient is bracketed by multiples of the divisor on the floor side, for either sign of the divisor. |
| Dispatch.QbitSavePath | src/clients.py:318-329 | The qBittorrent save path always ends with '/'. |
| Dispatch.QbitSavePathShape | src/clients.py:318-329 | The save path is the translated parent directory, except for a single file that is a directory. A '/' is added only when it is missing. |
| Dispatch.AddToClientNullClientFails | src/clients.py:47-54 | As written, a job whose `client` holds None fails with TypeError once its torrent file exists. |
| Dispatch.AddToClientFixedAgrees | src/clients.py:47-53 | The corrected dispatch agrees with the original unless `client` is None. In that case it sends the job to the default client, as for a missing key. |
| Dispatch.NoDispatch | src/clients.py:35-51 | Nothing is sent when seeding is disabled, when the torrent file is missing, or when the client is "none". |
| Dispatch.RtorrentCallsShape | src/clients.py:263-297 | The sidecar is written first and exactly one load is made, of the given file into the given directory. The temporary copy is made exactly when the path is remapped, and its removal is then the last call. |
| Dispatch.RtorrentDirectory | src/clients.py:270-286 | rTorrent's directory is the translated path for a directory and its parent otherwise. Without a remote mount that is the data path itself, or its parent. |
| Dispatch.RtorrentTrace | src/clients.py:255-297 | With working fast-resume data, rTorrent makes the call sequence of `RtorrentCallsShape` and raises nothing. The load names `fr.torrent` beside the translated data under a remote mount, and the sidecar otherwise, with `RtorrentDirectory` as the directory. |
| Dispatch.RtorrentFastResumeFailure | src/clients.py:256-260 | A failing fast-resume step re-raises before any call is made. |
| Dispatch.QbittorrentTrace | src/clients.py:341-383 | A failed login makes no further call. Otherwise the calls are login, add, resume, then one call per configured tag. The add carries the save path, the content layout (default "Original") and the job's category over the profile's. |
| Dispatch.AutoManagementOffByDefault | src/clients.py:348-356 | Automatic management stays off with no paths configured, with a blank path, or with an empty list. |
| Dispatch.AutoManagementList | src/clients.py:350-353 | With a list, one entry under which the save path lies turns automatic management on, whatever the other entries. |
| Dispatch.AutoManagementListOff | src/clients.py:349-353 | With a list none of whose entries contains the save path, automatic management stays off, also after more such entries are appended. |
| Dispatch.DelugeTrace | src/clients.py:409-430 | Deluge always connects first and raises nothing. It adds exactly when connected, as the second and last call, into the parent of the translated path. |
| Upload.BackupNameInjective | upload.py:98 | Different counters give different backup names. |
| Upload.TriedNamesCount | upload.py:96-99 | Counters 1 .. n-1 give n-1 distinct names. |
| Upload.GetBackupName | upload.py:87-100 | The returned name does not exist. It is the path itself when that does not exist. Otherwise it is `{base}{suffix}{n}{ext}` for the least n ≥ 1 not taken. |
| Upload.ExtractSize | upload.py:559-565 | With `files`, the size is the sum of the file lengths. Without `files`, it is `length`, and a missing `length` raises KeyError. |
| Upload.SumLengthsAppend | upload.py:562 | The multi-file size is additive over the file list. |
| Upload.ExtractSizeSmallLists | upload.py:560-562 | An empty file list has size 0, and a one-file list has that file's length. |
| Upload.ScanBanned | upload.py:573-583 | The scan raises exactly when some entry raises (an empty list entry, or a matching one without a note). Otherwise it finds a ban exactly when some entry matches. |
| Upload.ScanBannedPrefixError | upload.py:574-583 | An exception on part of the list is raised for the whole list. |
| Upload.CheckBannedGroup | upload.py:569-587 | An empty tag gives False. Otherwise the result is True exactly when a ban is found and the run is unattended or the upload is not confirmed. Exceptions come from the scan. |
| Upload.BannedGroupFound | upload.py:580-583 | A plain entry equal to the tag without its leading '-' is always found. |
| Upload.DupeCheck | upload.py:463-467 | With no dupes the upload goes ahead and nothing is skipped. Any dupe leads to the comparison. |
| Args.ListToString | src/args.py:228-247 | One item gives `str(item)`. Several items, or none, give "None" when one of them is not a string. |
| Args.ListToStringIsJoin | src/args.py:239-243 | A list of strings gives the space-join, also for a single item. |
| Args.ListToStringExample | src/args.py:238-247 | ["a", "b"] gives "a b", [7] gives "7", and ["a", 7] gives "None". |
| Args.SecondSegment | src/args.py:265 | `split('/')[1]` succeeds exactly when the text holds '/', and the segment holds no '/'. |
| Args.SecondSegmentBetween | src/args.py:265 | The second segment is the text between the first '/' and the next one. |
| Args.ParseTmdbId | src/args.py:249-273 | The id is lower-cased and left-stripped first. An id starting with `tv` gives category TV and its second '/'-segment. An id starting with `movie` (and not `tv`) gives MOVIE and its second segment. Either raises IndexError when the id has no '/'. Any other id keeps the category and is returned as normalised. |
| Args.ParseTmdbIdTv | src/args.py:261-266 | `tv/<id>/<rest>` gives category TV and id `<id>`. |
| Args.ParseIntDigits | src/args.py:152-154 | A non-empty run of ASCII digits parses to its decimal value. |
| Args.ParseIntOfNat | src/args.py:152-154 | `int(str(n))` is n: a count written out in decimal parses back to itself. |
| Args.FullAutoEffect | src/args.py:105-110 | With `full_auto` set, the run is unattended with automatic descriptions and `auto_queue` is `full_auto`. Every other option is unchanged, and nothing changes without it. |
| Args.ResetIds | src/args.py:128-131 | `tmdb_manual` and `imdb` end up None, every other entry of `meta` is kept, and no other key is added. |
| Args.BluIdLastSegment | src/args.py:178-186 | The `blu` id is the last '/'-segment of the link path after one trailing '/' is dropped. |
| Args.ListOption | src/args.py:141-205 | For each key, the entry a joined list value writes and the value written: the upper-cased `type` without '-', `tag` with a leading '-', `int` of `screens` (or ValueError), `manual_season`/`manual_episode`, the tmdb category and id, the `ptp`/`hdb` query value (skipped when missing), the `blu` path id, and the text itself for any other key. No other entry changes. |
| Args.StoreOption | src/args.py:139-220 | A value that is neither None nor a list is stored as given. A non-empty list goes through its joined text. None or an empty list follows the empty-value rule. No entry outside the key's own changes. |
| Args.StoreEmpty | src/args.py:209-220 | The four empty-value rules write only the key's entry: the value as given (`manual_edition`), 100 (`freeleech`), "" (an empty `tag` list), or the entry `meta` already has, None when it has none. |
| Args.ApplyOption | src/args.py:136-224 | One iteration stores the option. When the key is a substring of "trackers", the value given then overwrites the key's entry. No entry outside the key's own changes. |
| Args.ApplyAllFrame | src/args.py:136-224 | An entry that no option touches keeps its value through the whole loop. |
| Args.TypeNormalised | src/args.py:146-148 | A non-empty `type` list is stored as its joined text, upper-cased with every '-' deleted. The stored value holds no '-' and no lower-case letter. |
| Args.TypeExample | src/args.py:146-148 | `web-dl` is stored as `WEBDL`. |
| Args.TypeSpellingsAgree | src/args.py:146-148 | The `webdl` and `web-dl` choices both store `WEBDL`. |
| Args.WebDlNormalised | src/args.py:148 | Upper-casing and deleting '-' turn "web-dl" into "WEBDL". |
| Args.TagNormalised | src/args.py:149-151 | A tag is stored with a leading '-'. The stored tag is "" exactly when the list is empty. |
| Args.TagStored | src/args.py:215-217 | An empty tag list is stored as "", and a non-empty one as '-' followed by its text. |
| Args.TagListOption | src/args.py:149-151 | A non-empty tag text is stored with a leading '-'. |
| Args.EmptyTagRule | src/args.py:209-217 | An empty `tag` list reaches the tag rule: "tag" is not a substring of "manual_edition" or "freeleech". |
| Args.FreeleechRule | src/args.py:212-214 | An empty `freeleech` list reaches the freeleech rule. |
| Args.FreeleechDefault | src/args.py:212-214 | `--freeleech` without a percentage stores 100. |
| Args.NoTrackersOverride | src/args.py:222-224 | Only a key that is a substring of "trackers" is overridden after the per-key rules. |
| Args.TrackersKeptAsGiven | src/args.py:222-224 | `trackers` is stored exactly as given, whatever its value. |
| Args.Parse | src/args.py:105-224 | `parse` applies the `full_auto` shortcut, then the id reset, then the option loop. |
| Args.ApplyOptions | src/args.py:135-224 | The loop computes the option-by-option update of `meta`, stopping at the first exception. |
| Args.LoopStopsAtError | src/args.py:135-224 | An exception on a prefix of the options is the result of the whole loop, whatever the step. |
| Args.LoopNext | src/args.py:135-224 | One more option applies the step to the metadata the earlier options left. |
| BBCode.ReplaceTwiceUnchanged | src/bbcode.py:229 | Two successive replacements that both lengthen, or both shorten, leave a text unchanged exactly when neither pattern occurs in it. |
| BBCode.TagsRewritten | src/bbcode.py:225-259 | Two tag replacements whose replacements cannot re-create either pattern leave neither pattern in the text. |
| BBCode.ReplaceTags | src/bbcode.py:225-259 | The rewrite shared by the literal converters: neither old tag is left, and the text is unchanged exactly when it held neither. |
| BBCode.ConvertPreToCode | src/bbcode.py:225-229 | No `[pre]` or `[/pre]` is left after the rewrite. The text is unchanged exactly when it held neither. |
| BBCode.ConvertHideToSpoiler | src/bbcode.py:231-235 | No `[hide` or `[/hide]` is left after the rewrite. The text is unchanged exactly when it held neither. |
| BBCode.ConvertSpoilerToHide | src/bbcode.py:237-241 | No `[spoiler` or `[/spoiler]` is left after the rewrite. The text is unchanged exactly when it held neither. |
| BBCode.ConvertSpoilerToCode | src/bbcode.py:249-253 | No `[spoiler` or `[/spoiler]` is left after the rewrite. The text is unchanged exactly when it held neither. |
| BBCode.ConvertCodeToQuote | src/bbcode.py:255-259 | No `[code` or `[/code]` is left after the rewrite. The text is unchanged exactly when it held neither. |
| BBCode.SqueezeRun | src/bbcode.py:111 | A run of newlines keeps at most k of them (k = 2 for `\n\n+`). |
| BBCode.SqueezeRunsAtMost | src/bbcode.py:111 | After squeezing, no newline run is longer than k. |
| BBCode.PtpSqueezed | src/bbcode.py:110-111 | After the strip and the squeeze there are no three consecutive newlines. A text of newlines only becomes empty. |
| BBCode.SqueezedKeepsEnds | src/bbcode.py:109-113 | After the first strip and the squeeze the text neither starts nor ends with a newline, so the `startswith` loop never runs and the second strip changes nothing. |
| BBCode.PtpCleanup | src/bbcode.py:110-116 | The result is "" or the stripped text with its newline runs squeezed (`Squeeze` with k = 2, so a run of n newlines keeps min(n, 2) by SqueezeRun and SqueezeSplit). Only newlines are removed: the other characters all stay, in order. The result is "" exactly when the text has nothing but newlines. It neither starts nor ends with a newline and has no three consecutive newlines. |
| BBCode.CleanPtpDescription | src/bbcode.py:44-54 | A BDMV disc gives "". Otherwise the result is "" or the rewritten description stripped and squeezed with k = 2; it keeps every non-newline character of the rewritten description, in order, and is "" exactly when that has none. Every result has the clean-up's shape. |
| BBCode.Unit3dCleanup | src/bbcode.py:206-208 | The result is "" or the whitespace-stripped text with every newline run squeezed to one newline. It keeps every non-newline character of the stripped text, in order, has no two consecutive newlines, and is "" exactly when the text is blank. |
| BBCode.Unit3dRunKept | src/bbcode.py:206 | A run of newlines between two pieces of the stripped text becomes exactly one newline in the result, with the pieces on either side squeezed on their own. |
| BBCode.SqueezeSplit | src/bbcode.py:111 | A run of n newlines between two pieces of text keeps min(n, k) newlines, and each side is squeezed independently. |
| BBCode.SqueezeAppend | src/bbcode.py:111 | Text that ends in a non-newline and the text after it are squeezed independently. |
| BBCode.Unit3dSqueezed | src/bbcode.py:206 | Squeezing the stripped text leaves no blank line. It is blank exactly when the stripped text is empty. |
| Comparison.CompSources | src/bbcode.py:275 | The sources joined with ',' give back the header text with `[comparison=` and every space deleted. There is at least one source, and none holds a space or a comma. |
| Comparison.ImgSize | src/bbcode.py:280 | The size is at most 350, and n images of that size fit in the maximum width. It is the largest such size. |
| Comparison.Blocks | src/bbcode.py:285-288 | When no image is blank, block k is the block of stripped image k. A blank image gives fewer blocks than images. |
| Comparison.RowsShape | src/bbcode.py:283-292 | Row j is blocks j·n .. j·n+n-1 written one after another. Fewer than n blocks are left over, and they are dropped. |
| Comparison.BuildRows | src/bbcode.py:283-291 | The image loop emits exactly the full rows of the non-blank blocks. |
| Comparison.ConvertComparison | src/bbcode.py:261-297 | Each found block, in order, is replaced everywhere by its new layout. |
| Comparison.ReplaceComparisonsAbsent | src/bbcode.py:296 | Found blocks that no longer occur leave the description unchanged. |
| Comparison.Header | src/bbcode.py:364-367 | The header match succeeds exactly when the tag starts with the opening and a ']' follows. The header is a prefix of the tag ending at its first ']'. |
| Comparison.RemoveComparisonWord | src/bbcode.py:368 | The text is unchanged exactly when "comparison" occurs in it in no letter case. Every deletion removes ten characters. |
| Comparison.HeaderSources | src/bbcode.py:364-374 | There is at least one source, each stripped and free of ',', '\|' and '$'. |
| Comparison.HeaderSourcesStrip | src/bbcode.py:373-374 | Source k is part k stripped, so the count is kept. No source holds ',', '\|' or '$'. |
| Comparison.HeaderSourcesVs | src/bbcode.py:364-374 | `[spoiler=A vs B]` gives the sources [A stripped, B stripped] for names free of separators, brackets and the words "vs" and "comparison". |
| Comparison.ConvertCollapseToComparison | src/bbcode.py:336-381 | The loop computes `ReplaceCollapses`: each block with at least six images, in order, is replaced by its comparison tag. |
| Comparison.BuildReplacement | src/bbcode.py:355-379 | The replacement is built from the header's sources and the image URLs. |
| Comparison.ImageUrls | src/bbcode.py:359-361 | URL k is the URL extracted from image k. |
| Comparison.ReplaceCollapsesError | src/bbcode.py:349-380 | An exception on a prefix of the blocks is the result for all of them. |
| Comparison.FewImagesUnchanged | src/bbcode.py:348-354 | Blocks with fewer than six images never change the description. |
| Comparison.ImageUrlPlain | src/bbcode.py:360 | `[img]url[/img]` with no brackets in the URL yields the URL. |
| DiscParse.AfterColon | src/discparse.py:119 | The result is the text after the first ':' of the line. |
| DiscParse.BeforeDot | src/discparse.py:118-120 | The value is the text after the first ':' cut at its first '.', then stripped. It holds no '.'. |
| DiscParse.Padded | src/discparse.py:131-133 | Exactly nine fields: the given ones followed by "". |
| DiscParse.PadFields | src/discparse.py:132-133 | The padding loop yields the padded fields. |
| DiscParse.VideoOf | src/discparse.py:134-159 | A field 2 holding "Eye" is the 3D flag. It shifts the later fields by one and blanks bit depth, HDR and colour. Otherwise fields 2-8 are taken in order. |
| DiscParse.AudioOf | src/discparse.py:160-184 | The line is cut at its first '(' and stripped. Without a ':' it raises IndexError. Otherwise it gives `AudioFields` of the '/'-fields after the first ':'. No field of a parsed entry holds '('. |
| DiscParse.AudioFields | src/discparse.py:165-184 | The fields parse exactly when there are at least five, or six when field 2 names Atmos. Field 2 with Atmos becomes `dolby_atmos` and shifts the rest by one. Language, codec, channels, sample rate and bitrate are the stripped fields in order. The bit depth is the next field or "". |
| DiscParse.StepHeader | src/discparse.py:118-128 | Only a `disc size:` line can fail, with ValueError. Any other line sets the playlist and the length from its own key. The path, files, video, audio and subtitles stay. |
| DiscParse.WithSize | src/discparse.py:121-125 | A `disc size:` line raises ValueError exactly when `float()` rejects its text. Otherwise it stores the text before `bytes`, without commas. Any other line changes nothing. |
| DiscParse.StepDiscSize | src/discparse.py:121-125 | A whole `disc size:` step fails exactly when `float()` rejects the size text, with ValueError. Otherwise it only sets the size. |
| DiscParse.StepBody | src/discparse.py:129-194 | The body checks keep the path, files, playlist, size and length. Only a `video:` line (never-ending loop) or an `audio:` line (IndexError) can fail. |
| DiscParse.Step | src/discparse.py:114-194 | One line keeps the path and the file list. Only `disc size:` (ValueError), `video:` (never-ending loop) and `audio:` (IndexError) lines can fail. |
| DiscParse.StepKeyed | src/discparse.py:118-194 | The step for a classified line: the path and files stay, and each failure has the error of its key. |
| DiscParse.FilesOfAppend | src/discparse.py:195-210 | The file list of two runs of listing lines is the list of the first run followed by that of the second. |
| DiscParse.FilesOfComplete | src/discparse.py:197-210 | When every listing line has at least five tokens, there is one file per line. |
| DiscParse.FilesOfAt | src/discparse.py:197-210 | When lines 0..j all have five tokens, file j is `{tok0, tok2}` of line j, so the order is kept. |
| DiscParse.FilesOfNone | src/discparse.py:198-210 | Lines with fewer than five tokens add no file. |
| DiscParse.ParseLine | src/discparse.py:114-194 | One report line, with the padding loop, computes `Step`. |
| DiscParse.ParseFiles | src/discparse.py:197-210 | The listing loop computes `FilesOf`. |
| DiscParse.ParseBdinfo | src/discparse.py:107-211 | `parse_bdinfo` computes `Parse`: the report lines in order, then the listing. |
| DiscParse.LinesKeepPath | src/discparse.py:108-194 | The parsed report keeps the given path. A failure comes from some `disc size:`, `video:` or `audio:` line. |
| DiscParse.ParseShape | src/discparse.py:108-211 | Without `disc size:`, `video:` and `audio:` lines, the parse succeeds with the given path and the listed files. |
| DiscParse.VideoOverflowDiverges | src/discparse.py:129-133 | A `video:` line stops the parse exactly when it has more than nine '/' fields. It then never returns. |
| DiscParse.StepPlaylist | src/discparse.py:118-120 | A `playlist:` line cannot fail and sets the playlist. |
| DiscParse.PlaylistLastWins | src/discparse.py:114-120 | A later `playlist:` line overrides an earlier one. |
| DiscParse.LinesError | src/discparse.py:114-194 | An exception on a prefix of the report lines is the result for all of them. |
| DiscParse.FilesOfSound | src/discparse.py:197-208 | Every listed file is `{tok0, tok2}` of some listing line with at least five tokens. |
| DiscParse.LineKeyIgnoresCase | src/discparse.py:114-117 | Line keys ignore case: an upper-cased line is classified the same way. |
| Search.FileSearch | src/search.py:95-104 | True exactly when every word occurs in the name. |
| Search.EmptyQueryMatches | src/search.py:99-104 | No words: every name matches. |
| Search.MoreWordsFewerMatches | src/search.py:99-104 | Adding words can only turn a match into a miss. |
| Search.SearchNames | src/search.py:34-43 | The inner loop reports the wanted names of one directory, in order. |
| Search.SearchWalk | src/search.py:27-44 | The walk loop reports the matches entry by entry. |
| Search.SearchAll | src/search.py:14-53 | An empty query gives None. Otherwise the result is every match over the search directories, for the lower-cased query words. |
| Search.NameMatchesSound | src/search.py:33-43 | Every reported path is a wanted name joined to its root. |
| Search.NoNfoFiles | src/search.py:35 | A file search never reports a `.nfo` file. |
| Search.QueryCaseIgnored | src/search.py:19-25 | An upper-cased query reports the same paths. |
| Search.NameCaseIgnored | src/search.py:74-78 | A name and its upper-cased spelling are equally wanted. |

## Left out

- Torrent-client I/O is left out: the rTorrent XML-RPC calls, the qBittorrent REST calls, the Deluge RPC connection, `shutil.copy`, `os.remove`, `time.sleep` and the settle delays. Each adapter is modelled as the list of calls it makes. The answers of the outside world (directory tests, login, connection) are inputs.
- Dispatch.QbittorrentTrace: the bounded 30-step wait for the torrent to appear is not modelled. It changes no call that follows.
- `torf.Torrent.read`, `Torrent.dump`, the infohash and the `bencode` codec are not part of this model. A stored torrent is the record of its files, piece count and piece size. The metainfo is a decoded datatype.
- Filesystem queries are inputs: `os.path.exists`, `isdir`, `getsize`, `int(getmtime(...))`, `os.walk` and the platform name.
- FastResume.Metafile.AddFastResume: keys of `libtorrent_resume` other than `bitfield` and `files` are not modelled, and neither is the error message text.
- Reuse: the debug and message printing of `is_valid_torrent` is not modelled, only the message it settles on.
- Case mapping in `lower`/`upper` covers ASCII letters only.
- Args.Parse: the argparse machinery is not modelled, nor the `os.path.exists`-driven re-assembly of the path from unknown arguments (src/args.py:113-126). The options arrive as an ordered list of name/value pairs.
- Args.ListOption: `urllib.parse` is a parameter. It supplies the query value of a `ptp`/`hdb` link and the path of a `blu` link.
- Args: `int(...)` of the `screens` value covers the plain decimal form only: optional surrounding whitespace, a sign and ASCII digits. Underscores and non-ASCII digits are not modelled.
- BBCode.CleanPtpDescription: the regex passes, `html.unescape` and the placeholder handling before the clean-up are one function parameter. The contract covers the disc early exit and the clean-up.
- BBCode.Unit3dCleanup: models only the final clean-up of `clean_unit3d_description`. The link, spoiler and image passes before it, and the returned image list, are not modelled.
- `remove_spoiler` (a single regex substitution) is not modelled.
- Comparison: `re.findall` results are inputs. These are the found blocks and the images or URLs found inside each block.
- Comparison.ImgSize: `int(max_width / n)` is float division. It is modelled as integer division of a non-negative width, which agrees except where float rounding would differ.
- Comparison.ImageUrl: the greedy `\[img[\s\S]*\]` is modelled as cutting from the first "[img" (any case) through the last ']' after it.
- Comparison.ConvertCollapseToComparison: the tag kind is `spoiler` or `hide`. For any other kind the source reads an unset variable, and that case is not modelled.
- DiscParse: `float()` is the parameter `isFloat`, which says whether a text parses. The size is kept as its text, not divided into a float number of GiB.
- HeaderSources: the contract gives the shape of every result. The source names themselves are stated by HeaderSourcesStrip for every split and by HeaderSourcesVs for a `vs` header; the general header text is not.
- DiscParse.StepBody: `split('/', 12)` is modelled as an unlimited split. This gives the same fields whenever there are at most nine, and the same verdict (more than nine) otherwise.
- DiscParse.VideoOverflowDiverges: the endless padding loop is the outcome `Diverges`, not a run that does not end.
- `get_bdinfo`, `get_dvdinfo` and `get_hddvd_info` are not part of this model. They run external tools and compute float durations.
- Search.SearchAll: a single configured search directory is given as the one-element list. `os.walk` is given as the triples it yields for each directory.
- Upload.DupeCheck: only the no-dupes branch is modelled. The similarity comparison (`SequenceMatcher`, float thresholds) and its prompts are not.
- Upload.CheckBannedGroup: the confirmation prompt is an input, and the console messages are not modelled.
- `upload.py` outside these helpers is not modelled: configuration loading, `reconfigure`, `do_the_thing` and the console UI.
- `src/vs.py` (screenshots), `discordbot.py` (the Discord bot) and `src/exceptions.py` (exception declarations) are not part of this model.

## Findings

| source | as written | input that shows it | evidently intended | confidence | as-written member | corrected member |
|---|---|---|---|---|---|---|
| src/clients.py:47-54 | `meta.get('client', default)` returns the stored None. `Args.parse` always stores `client` (src/args.py:218-220), as None when `--client` is absent. `TORRENT_CLIENTS.get(None)['torrent_client']` then raises TypeError. | A job run without `--client`, with seeding on, a default client configured and the tracker's torrent file present. | Use the default client when `client` is None, as `find_existing_torrent` (line 103) and `remote_path_map` (line 505) do. | not executed | Dispatch.AddToClientNullClientFails | Dispatch.AddToClientFixedAgrees |
