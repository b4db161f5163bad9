/**
 * `Clients.add_fast_resume`: the `libtorrent_resume` block rTorrent reads
 * so that it treats a reused torrent's data as complete. The block is
 * added in place to the decoded metainfo dictionary; file sizes and
 * modification times come from a filesystem snapshot.
 */
module FastResume {
  import opened PyStr
  import opened PosixPath
  import opened Metainfo

  /** `errno.ENOENT`, raised by `os.path.getsize` on a missing file. */
  const ENOENT: int := 2
  /** `errno.EINVAL`, raised on a size mismatch. */
  const EINVAL: int := 22

  /** What `os.path.getsize` and `int(os.path.getmtime(...))` report. */
  datatype FileStat = FileStat(size: int, mtime: int)

  /** The filesystem as `add_fast_resume` queries it, with the process's working directory. */
  datatype FileSystem = FileSystem(cwd: string, dirs: set<string>, files: map<string, FileStat>)

  /** One element of `resume["files"]`. */
  datatype ResumeFile = ResumeFile(priority: int, mtime: int, completed: int)

  /** `libtorrent_resume` (keys other than `bitfield` and `files` are not modelled). */
  datatype Resume = Resume(bitfield: int, files: seq<ResumeFile>)

  /** A file to check: its path on disk and its recorded length. */
  datatype Source = Source(path: string, length: int)

  /** `completed` for a file starting at byte `offset`: pieces up to its end minus pieces before its start. */
  function Completed(offset: int, length: int, pieceLength: int): int
    requires pieceLength != 0
  {
    FloorDiv(offset + length + pieceLength - 1, pieceLength) - FloorDiv(offset, pieceLength)
  }

  /**
   * The files the loop walks, in declared order. Single-file mode has one
   * synthetic entry for the data path (joined with the torrent name when it
   * is a directory, made absolute); a missing `length` raises KeyError.
   */
  function ResumeSources(info: Info, datapath: string, fs: FileSystem): (r: Result<seq<Source>>)
    ensures info.files.Some? ==> r.Ok? && |r.value| == |info.files.value|
    ensures info.files.Some? ==> forall i :: 0 <= i < |r.value| ==> r.value[i].length == info.files.value[i].length
    ensures info.files.None? ==> (r.Ok? <==> info.length.Some?)
    ensures info.files.None? && r.Ok? ==> |r.value| == 1 && r.value[0].length == info.length.value
  {
    match info.files
    case None =>
      if info.length.None? then Err(KeyError("length"))
      else
        var dp := if datapath in fs.dirs then JoinPath(datapath, info.name) else datapath;
        Ok([Source(AbsPath(fs.cwd, dp), info.length.value)])
    case Some(entries) =>
      Ok(seq(|entries|, i requires 0 <= i < |entries| =>
        Source(JoinPath(datapath, StripSet(Join(Sep, entries[i].path), {'/'})), entries[i].length)))
  }

  /** The exception one file raises, if any: missing file, size mismatch, or a zero piece length. */
  function Failure(src: Source, fs: FileSystem, pieceLength: int): Option<PyError> {
    if src.path !in fs.files then Some(OSError(ENOENT, src.path))
    else if fs.files[src.path].size != src.length then Some(OSError(EINVAL, src.path))
    else if pieceLength == 0 then Some(ZeroDivisionError)
    else None
  }

  /** Index of the first file that raises, or the number of files. */
  function FirstFailure(sources: seq<Source>, fs: FileSystem, pieceLength: int): (k: nat)
    ensures k <= |sources|
    ensures forall j :: 0 <= j < k ==> Failure(sources[j], fs, pieceLength).None?
    ensures k < |sources| ==> Failure(sources[k], fs, pieceLength).Some?
    decreases |sources|
  {
    if sources == [] then 0
    else if Failure(sources[0], fs, pieceLength).Some? then 0
    else 1 + FirstFailure(sources[1..], fs, pieceLength)
  }

  /** Past the files that passed, the next file raises exactly when it is the first failure. */
  lemma {:induction false} FailureAt(sources: seq<Source>, fs: FileSystem, pieceLength: int, i: nat)
    requires i < |sources| && i <= FirstFailure(sources, fs, pieceLength)
    ensures Failure(sources[i], fs, pieceLength).Some? <==> FirstFailure(sources, fs, pieceLength) == i
  {
  }

  /** One more file that passes adds its entry and its length to the offset. */
  lemma {:induction false} EntriesNext(sources: seq<Source>, fs: FileSystem, pieceLength: int, i: nat)
    requires i < FirstFailure(sources, fs, pieceLength)
    ensures sources[i].path in fs.files && pieceLength != 0
    ensures Offset(sources, i + 1) == Offset(sources, i) + sources[i].length
    ensures Entries(sources, fs, pieceLength, i + 1)
            == Entries(sources, fs, pieceLength, i)
               + [ResumeFile(1, fs.files[sources[i].path].mtime, Completed(Offset(sources, i), sources[i].length, pieceLength))]
  {
  }

  /** Byte offset of file `n`: the sum of the lengths before it. */
  function Offset(sources: seq<Source>, n: nat): int
    requires n <= |sources|
  {
    if n == 0 then 0 else Offset(sources, n - 1) + sources[n - 1].length
  }

  /** The first `n` resume entries. */
  function Entries(sources: seq<Source>, fs: FileSystem, pieceLength: int, n: nat): (es: seq<ResumeFile>)
    requires n <= FirstFailure(sources, fs, pieceLength)
    ensures |es| == n
  {
    if n == 0 then []
    else
      var src := sources[n - 1];
      Entries(sources, fs, pieceLength, n - 1)
        + [ResumeFile(1, fs.files[src.path].mtime, Completed(Offset(sources, n - 1), src.length, pieceLength))]
  }

  /** The decoded metainfo dictionary that `add_fast_resume` extends in place. */
  class Metafile {
    const info: Info
    var resume: Option<Resume>

    constructor (info: Info, resume: Option<Resume>)
      ensures this.info == info && this.resume == resume
    {
      this.info := info;
      this.resume := resume;
    }

    /**
     * `Clients.add_fast_resume(metainfo, datapath, torrent)`. Returns the
     * exception raised, if any. The `bitfield` and an empty `files` list
     * are installed before the loop, so on an error the entries of the
     * files checked so far remain.
     */
    method AddFastResume(datapath: string, fs: FileSystem) returns (err: Option<PyError>)
      modifies this
      ensures ResumeSources(info, datapath, fs).Err? ==>
                err == Some(ResumeSources(info, datapath, fs).error) && resume == old(resume)
      ensures ResumeSources(info, datapath, fs).Ok? ==>
                var sources := ResumeSources(info, datapath, fs).value;
                var k := FirstFailure(sources, fs, info.pieceLength);
                resume == Some(Resume(PieceCount(info), Entries(sources, fs, info.pieceLength, k)))
                && err == (if k < |sources| then Failure(sources[k], fs, info.pieceLength) else None)
    {
      var result := ResumeSources(info, datapath, fs);
      if result.Err? {
        return Some(result.error);
      }
      resume := Some(Resume(|info.pieces| / HashLength, []));
      err := AppendEntries(result.value, fs);
    }

    /** The loop of `add_fast_resume`: one entry per file, with the running byte offset. */
    method AppendEntries(sources: seq<Source>, fs: FileSystem) returns (err: Option<PyError>)
      requires resume.Some? && resume.value.files == []
      modifies this
      ensures var k := FirstFailure(sources, fs, info.pieceLength);
              resume == Some(Resume(old(resume).value.bitfield, Entries(sources, fs, info.pieceLength, k)))
              && err == (if k < |sources| then Failure(sources[k], fs, info.pieceLength) else None)
    {
      var pieceLength := info.pieceLength;
      var bitfield := resume.value.bitfield;
      var offset := 0;
      var i := 0;
      while i < |sources|
        invariant i <= FirstFailure(sources, fs, pieceLength)
        invariant offset == Offset(sources, i)
        invariant resume == Some(Resume(bitfield, Entries(sources, fs, pieceLength, i)))
      {
        var src := sources[i];
        FailureAt(sources, fs, pieceLength, i);
        if src.path !in fs.files {
          return Some(OSError(ENOENT, src.path));
        }
        if fs.files[src.path].size != src.length {
          return Some(OSError(EINVAL, src.path));
        }
        if pieceLength == 0 {
          return Some(ZeroDivisionError);
        }
        var entry := ResumeFile(1, fs.files[src.path].mtime,
          FloorDiv(offset + src.length + pieceLength - 1, pieceLength) - FloorDiv(offset, pieceLength));
        EntriesNext(sources, fs, pieceLength, i);
        resume := Some(Resume(bitfield, resume.value.files + [entry]));
        offset := offset + src.length;
        i := i + 1;
      }
      return None;
    }
  }

  /** Piece `p` shares at least one byte with the byte range `[offset, offset + length)`. */
  predicate Overlaps(p: int, offset: int, length: int, pieceLength: int) {
    p * pieceLength < offset + length && offset < (p + 1) * pieceLength
  }

  /** `q * d <= a` exactly when `q <= a / d`, for a positive divisor. */
  lemma {:induction false} MulLeIffLeDiv(q: int, a: int, d: int)
    requires d > 0
    ensures q * d <= a <==> q <= a / d
  {
    var r := a / d;
    assert a == r * d + a % d && 0 <= a % d < d;
    if q <= r {
      MulMonotone(q, r, d);
    } else {
      MulMonotone(r + 1, q, d);
      assert (r + 1) * d == r * d + d;
    }
  }

  /** Multiplying by a non-negative factor keeps the order. */
  lemma {:induction false} MulMonotone(x: int, y: int, d: int)
    requires x <= y && d >= 0
    ensures x * d <= y * d
  {
    var k := y - x;
    assert y * d == x * d + k * d;
    assert k * d >= 0;
  }

  /** Integer division is determined by the bracketing multiples. */
  lemma {:induction false} DivUnique(a: int, d: int, q: int)
    requires d > 0 && q * d <= a < q * d + d
    ensures a / d == q
  {
    MulLeIffLeDiv(q, a, d);
    MulLeIffLeDiv(q + 1, a, d);
    assert (q + 1) * d == q * d + d;
  }

  /** `completed` is the index of the piece holding the last byte minus that of the first, plus one. */
  lemma {:induction false} CompletedSpan(offset: int, length: int, pieceLength: int)
    requires pieceLength > 0 && length > 0
    ensures Completed(offset, length, pieceLength)
            == (offset + length - 1) / pieceLength - offset / pieceLength + 1
  {
    var a := offset + length - 1;
    var last := a / pieceLength;
    MulLeIffLeDiv(last, a, pieceLength);
    MulLeIffLeDiv(last + 1, a, pieceLength);
    assert (last + 1) * pieceLength == last * pieceLength + pieceLength;
    assert (last + 2) * pieceLength == last * pieceLength + 2 * pieceLength;
    DivUnique(a + pieceLength, pieceLength, last + 1);
  }

  /**
   * For a non-empty file and a positive piece length, `completed` is the
   * number of pieces that overlap the file's bytes: exactly the pieces from
   * the one holding its first byte to the one holding its last.
   */
  lemma {:induction false} CompletedCountsOverlappingPieces(offset: int, length: int, pieceLength: int)
    requires pieceLength > 0 && length > 0
    ensures var first := offset / pieceLength;
            var last := (offset + length - 1) / pieceLength;
            Completed(offset, length, pieceLength) == last - first + 1
            && forall p :: Overlaps(p, offset, length, pieceLength) <==> first <= p <= last
  {
    CompletedSpan(offset, length, pieceLength);
    forall p
      ensures Overlaps(p, offset, length, pieceLength)
              <==> offset / pieceLength <= p <= (offset + length - 1) / pieceLength
    {
      MulLeIffLeDiv(p, offset + length - 1, pieceLength);
      MulLeIffLeDiv(p + 1, offset, pieceLength);
    }
  }

  /** The worked example: 1 MiB pieces, files of 2 MiB and 512 KiB. */
  lemma {:induction false} CompletedExample()
    ensures Completed(0, 2097152, 1048576) == 2
    ensures Completed(2097152, 524288, 1048576) == 1
  {
  }

  /**
   * When no file raises, there is one entry per file in declared order,
   * each with priority 1, the file's modification time, and `completed`
   * computed from the sum of the lengths before it.
   */
  lemma {:induction false} EntriesPerFile(sources: seq<Source>, fs: FileSystem, pieceLength: int, n: nat)
    requires n <= FirstFailure(sources, fs, pieceLength)
    ensures var es := Entries(sources, fs, pieceLength, n);
            forall i :: 0 <= i < n ==>
              sources[i].path in fs.files && fs.files[sources[i].path].size == sources[i].length && pieceLength != 0
              && es[i] == ResumeFile(1, fs.files[sources[i].path].mtime, Completed(Offset(sources, i), sources[i].length, pieceLength))
  {
    if n > 0 {
      EntriesPerFile(sources, fs, pieceLength, n - 1);
      var prev := Entries(sources, fs, pieceLength, n - 1);
      var es := Entries(sources, fs, pieceLength, n);
      forall i | 0 <= i < n
        ensures sources[i].path in fs.files && fs.files[sources[i].path].size == sources[i].length && pieceLength != 0
                && es[i] == ResumeFile(1, fs.files[sources[i].path].mtime, Completed(Offset(sources, i), sources[i].length, pieceLength))
      {
        if i < n - 1 {
          assert es[i] == prev[i];
        } else {
          assert Failure(sources[i], fs, pieceLength).None?;
        }
      }
    }
  }

  /** The offset of a file is the sum of the lengths before it, so it grows with non-negative lengths. */
  lemma {:induction false} OffsetMonotone(sources: seq<Source>, i: nat, j: nat)
    requires i <= j <= |sources|
    requires forall k :: 0 <= k < |sources| ==> sources[k].length >= 0
    ensures Offset(sources, i) <= Offset(sources, j)
    decreases j - i
  {
    if i < j {
      OffsetMonotone(sources, i, j - 1);
    }
  }

  /** A single-file torrent gets exactly one entry, whose length is `info["length"]`. */
  lemma {:induction false} SingleFileOneEntry(info: Info, datapath: string, fs: FileSystem)
    requires info.files.None? && info.length.Some?
    ensures ResumeSources(info, datapath, fs).Ok?
    ensures |ResumeSources(info, datapath, fs).value| == 1
    ensures ResumeSources(info, datapath, fs).value[0].length == info.length.value
  {
  }
}
