/**
 * The decoded metainfo (".torrent") dictionary of BEP 3 (The BitTorrent
 * Protocol Specification, section "Metainfo files"): the `info`
 * dictionary with `name`, `piece length`, `pieces` (concatenated 20-byte
 * SHA-1 hashes) and either `length` (single-file mode) or `files`.
 * Bencode decoding itself belongs to an external library and is not part
 * of this model: a value of `Info` stands for an already decoded dictionary.
 */
module Metainfo {
  import opened PyStr

  /** One element of `info["files"]`: path components and byte length. */
  datatype FileEntry = FileEntry(path: seq<string>, length: int)

  /** `info`; an absent optional key is `None`. */
  datatype Info = Info(
    name: string,
    pieceLength: int,
    pieces: seq<bv8>,
    length: Option<int>,
    files: Option<seq<FileEntry>>)

  /** Length in bytes of one SHA-1 piece hash inside `pieces`. */
  const HashLength: nat := 20

  /** Number of pieces the `pieces` string describes (`len(pieces) // 20`). */
  function PieceCount(info: Info): nat {
    |info.pieces| / HashLength
  }

  /** Sum of the `length` fields of a file list. */
  function SumLengths(files: seq<FileEntry>): int
    decreases |files|
  {
    if files == [] then 0 else SumLengths(files[..|files| - 1]) + files[|files| - 1].length
  }

  /** Python's floor division `a // b` (Dafny's `/` is Euclidean, which differs when b < 0). */
  function FloorDiv(a: int, b: int): (q: int)
    requires b != 0
    ensures b > 0 ==> q * b <= a < q * b + b
    ensures b < 0 ==> q * b >= a > q * b + b
  {
    if b > 0 then a / b else (-a) / (-b)
  }
}
