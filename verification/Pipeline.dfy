/**
 The payload pipeline, plain path: a stream is cut into chunks, each chunk is hashed and staged, and
 a manifest describes the result. The digest is a parameter; hashers are the bytes fed to them.
 */
module Pipeline {
  import opened Wrappers
  import opened Text
  import opened Identifiers
  import opened Manifest

  /** A digest prints as 64 hexadecimal characters; nothing else is known of it. */
  type Digest = f: seq<byte> -> string | HexDigest(f) witness ZeroDigest()

  const ZEROS: string := seq(64, _ => '0')

  function ZeroDigest(): (f: seq<byte> -> string)
    ensures HexDigest(f)
  {
    assert forall i :: 0 <= i < |ZEROS| ==> IsHexDigit(ZEROS[i]);
    (b: seq<byte>) => ZEROS
  }

  const CHUNK_THRESHOLD_BYTES: nat := 0x8000_0000

  const TARGET_CHUNK_SIZE_BYTES: nat := 1_887_436_800

  const STREAM_CHUNK_BUFFER_SIZE: nat := 65536

  // ----- how many chunks, and how large --------------------------------------------------------

  function CeilDiv(a: nat, b: nat): nat
    requires b > 0
  {
    (a + b - 1) / b
  }

  /** The chunk count, truncated to 32 bits as the source does. */
  function ExpectedChunkCount(size: nat): (k: nat)
    ensures k < 0x1_0000_0000
  {
    if size < CHUNK_THRESHOLD_BYTES then 1
    else CeilDiv(size, TARGET_CHUNK_SIZE_BYTES) % 0x1_0000_0000
  }

  /** All but the last chunk are full, so the remainder never underflows. */
  lemma FullChunksFit(size: nat)
    ensures var k := ExpectedChunkCount(size);
            k > 0 ==> (k - 1) * 1_887_436_800 <= size
  {
    if size >= CHUNK_THRESHOLD_BYTES {
      var c := CeilDiv(size, TARGET_CHUNK_SIZE_BYTES);
      assert (c - 1) * 1_887_436_800 < size;
      assert c % 0x1_0000_0000 <= c;
    }
  }

  /** Where chunk i starts in the file; the end of the last chunk is the end of the file. */
  function Boundary(size: nat, i: nat): nat
    requires i <= ExpectedChunkCount(size)
  {
    if i == 0 then 0 else if i == ExpectedChunkCount(size) then size else i * 1_887_436_800
  }

  /** The target size of chunk i. */
  function ExpectedChunkBytes(size: nat, i: nat): (n: nat)
    requires i < ExpectedChunkCount(size)
    ensures Boundary(size, i + 1) == Boundary(size, i) + n
  {
    FullChunksFit(size);
    var total := ExpectedChunkCount(size);
    if total == 1 then size
    else if i == total - 1 then size - i * TARGET_CHUNK_SIZE_BYTES
    else TARGET_CHUNK_SIZE_BYTES
  }

  /** The file is cut into at least one chunk, and every chunk stays below the 2 GiB threshold. */
  ghost predicate WithinLimits(size: nat) {
    ExpectedChunkCount(size) > 0 &&
    forall i :: 0 <= i < ExpectedChunkCount(size) ==> ExpectedChunkBytes(size, i) < CHUNK_THRESHOLD_BYTES
  }

  /** The limits hold exactly up to 2^32 - 1 target-sized chunks; beyond, the 32-bit count wraps. */
  lemma LimitsIffCountFits(size: nat)
    requires size < 0x1_0000_0000_0000_0000
    ensures WithinLimits(size) <==> size <= 0xFFFF_FFFF * 1_887_436_800
  {
    var k := ExpectedChunkCount(size);
    if size >= CHUNK_THRESHOLD_BYTES {
      var c := CeilDiv(size, TARGET_CHUNK_SIZE_BYTES);
      assert (c - 1) * 1_887_436_800 < size <= c * 1_887_436_800;
      if size <= 0xFFFF_FFFF * 1_887_436_800 {
        assert c <= 0xFFFF_FFFF && k == c > 1;
      } else if k > 0 {
        assert c >= 0x1_0000_0000;
        WrappedCount(c);
        assert ExpectedChunkBytes(size, k - 1) >= CHUNK_THRESHOLD_BYTES;
      }
    }
  }

  lemma WrappedCount(c: nat)
    requires c >= 0x1_0000_0000
    ensures c % 0x1_0000_0000 <= c - 0x1_0000_0000
  {
  }

  // ----- the source stream ---------------------------------------------------------------------

  /** A reader over the bytes still to come; each read may be short, and may fail. */
  class Reader {
    var rest: seq<byte>
    /** Some read failed. */
    ghost var failed: bool

    constructor (content: seq<byte>)
      ensures rest == content && !failed
    {
      rest, failed := content, false;
    }

    /** Returns at most `limit` bytes; none exactly at the end of the stream (or for a zero limit). */
    method Read(limit: nat) returns (data: Option<seq<byte>>)
      modifies this
      ensures data.None? ==> rest == old(rest) && failed
      ensures data.Some? ==> failed == old(failed) && old(rest) == data.value + rest && |data.value| <= limit
      ensures data.Some? ==> (data.value == [] <==> limit == 0 || old(rest) == [])
    {
      if * {
        failed := true;
        return None;
      }
      if limit == 0 || rest == [] {
        return Some([]);
      }
      var n: nat :| 1 <= n <= limit && n <= |rest|;
      data := Some(rest[..n]);
      rest := rest[n..];
    }
  }

  // ----- one chunk -----------------------------------------------------------------------------

  function Min(a: nat, b: nat): nat { if a < b then a else b }

  /** What one chunk fed to the two chunk hashers and wrote to its staging file. */
  datatype ChunkBytes = ChunkBytes(plain: seq<byte>, stored: seq<byte>, staged: seq<byte>, count: nat)

  /**
   Reads one chunk through the bounded buffer, feeding the whole-file hasher, both chunk hashers and
   the staging file; stops at the target size or at the end of the stream.
   */
  method ReadChunk(reader: Reader, expected: nat, whole: seq<byte>)
    returns (r: Option<ChunkBytes>, wholeAfter: seq<byte>)
    modifies reader
    ensures if r.None? then reader.failed else reader.failed == old(reader.failed)
    ensures r.Some? ==>
              var n := Min(expected, |old(reader.rest)|);
              var data := old(reader.rest)[..n];
              && r.value == ChunkBytes(data, data, data, n)
              && reader.rest == old(reader.rest)[n..]
              && wholeAfter == whole + data
  {
    var plain, stored, staged: seq<byte> := [], [], [];
    var chunkBytesRead := 0;
    wholeAfter := whole;
    ghost var start := reader.rest;
    while chunkBytesRead < expected
      invariant chunkBytesRead <= expected && chunkBytesRead <= |start|
      invariant plain == stored == staged == start[..chunkBytesRead]
      invariant reader.rest == start[chunkBytesRead..] && reader.failed == old(reader.failed)
      invariant wholeAfter == whole + start[..chunkBytesRead]
      decreases expected - chunkBytesRead
    {
      var toRead := Min(expected - chunkBytesRead, STREAM_CHUNK_BUFFER_SIZE);
      var data := reader.Read(toRead);
      if data.None? {
        return None, wholeAfter;
      }
      var n := |data.value|;
      if n == 0 {
        break;
      }
      assert start[..chunkBytesRead + n] == start[..chunkBytesRead] + data.value;
      wholeAfter := wholeAfter + data.value;
      plain := plain + data.value;
      stored := stored + data.value;
      staged := staged + data.value;
      chunkBytesRead := chunkBytesRead + n;
    }
    return Some(ChunkBytes(plain, stored, staged, chunkBytesRead)), wholeAfter;
  }

  // ----- one file ------------------------------------------------------------------------------

  datatype ProcessedChunk = ProcessedChunk(
    chunkId: string,
    chunkIndex: nat,
    totalChunks: nat,
    plaintextSize: nat,
    storedSize: nat,
    plaintextSha256: string,
    storedSha256: string,
    staged: seq<byte>)

  datatype ProcessedFile = ProcessedFile(
    fileId: string,
    totalSize: nat,
    chunks: seq<ProcessedChunk>,
    logicalFileHash: string,
    manifest: Manifest)

  datatype PipelineError = InvalidChunkId | ReadFailed

  function ChunkIdOf(fileId: string, i: nat): string {
    fileId + "-chk-" + PrintNat(i)
  }

  function ManifestIdOf(fileId: string, hash: string): string
    requires |hash| >= 16
  {
    "man-" + fileId + "-" + hash[..16]
  }

  /** The last normal component of a slash-separated path, or the path itself if there is none. */
  function FileNameOf(path: string): string {
    var names := NormalParts(Split(path, '/'));
    if names == [] || names[|names| - 1] == ".." then path else names[|names| - 1]
  }

  function NormalParts(parts: seq<string>): seq<string> {
    if parts == [] then []
    else (if parts[0] == "" || parts[0] == "." then [] else [parts[0]]) + NormalParts(parts[1..])
  }

  /** A digest function that yields 64 hexadecimal characters. */
  ghost predicate HexDigest(sha: seq<byte> -> string) {
    forall b :: |sha(b)| == 64 && forall i :: 0 <= i < 64 ==> IsHexDigit(sha(b)[i])
  }

  function ChunkOf(fileId: string, i: nat, total: nat, data: seq<byte>, sha: Digest): ProcessedChunk {
    ProcessedChunk(ChunkIdOf(fileId, i), i, total, |data|, |data|, sha(data), sha(data), data)
  }

  function EntryOf(fileId: string, i: nat, data: seq<byte>, sha: Digest): ChunkManifest {
    ChunkManifest(ChunkIdOf(fileId, i), i, |data|, |data|, sha(data), Pending)
  }

  /** The bytes of chunk i of a stream. */
  ghost function Piece(stream: seq<byte>, size: nat, i: nat): (p: seq<byte>)
    requires i < ExpectedChunkCount(size)
  {
    var lo, hi := Min(Boundary(size, i), |stream|), Min(Boundary(size, i + 1), |stream|);
    assert Boundary(size, i + 1) == Boundary(size, i) + ExpectedChunkBytes(size, i);
    stream[lo..hi]
  }

  /** The first i pieces make up the stream up to the i-th boundary. */
  ghost function Prefix(stream: seq<byte>, size: nat, i: nat): seq<byte>
    requires i <= ExpectedChunkCount(size)
  {
    stream[..Min(Boundary(size, i), |stream|)]
  }

  /** The result the pipeline must produce from a stream. */
  ghost predicate Describes(p: ProcessedFile, fileId: string, path: string, stream: seq<byte>, size: nat, sha: Digest)
  {
    var k := ExpectedChunkCount(size);
    var content := Prefix(stream, size, k);
    && |p.chunks| == k && |p.manifest.chunks| == k
    && (forall i :: 0 <= i < k ==> p.chunks[i] == ChunkOf(fileId, i, k, Piece(stream, size, i), sha))
    && (forall i :: 0 <= i < k ==> p.manifest.chunks[i] == EntryOf(fileId, i, Piece(stream, size, i), sha))
    && p.fileId == p.manifest.fileId == fileId
    && p.totalSize == p.manifest.originalSize == |content|
    && p.logicalFileHash == p.manifest.digest == sha(content)
    && p.manifest.manifestId == ManifestIdOf(fileId, sha(content))
    && p.manifest.relativePath == path && p.manifest.fileName == FileNameOf(path)
  }

  lemma PrefixStep(stream: seq<byte>, size: nat, i: nat)
    requires i < ExpectedChunkCount(size)
    ensures var lo := Min(Boundary(size, i), |stream|);
            var n := Min(ExpectedChunkBytes(size, i), |stream| - lo);
            && stream[lo..][..n] == Piece(stream, size, i)
            && stream[lo..][n..] == stream[Min(Boundary(size, i + 1), |stream|)..]
            && Prefix(stream, size, i) + Piece(stream, size, i) == Prefix(stream, size, i + 1)
  {
    CutStep(stream, Boundary(size, i), ExpectedChunkBytes(size, i));
  }

  /** Cutting the next n bytes off a stream at a position, as far as it goes. */
  lemma CutStep(stream: seq<byte>, at: nat, n: nat)
    ensures var lo, hi := Min(at, |stream|), Min(at + n, |stream|);
            var k := Min(n, |stream| - lo);
            && stream[lo..][..k] == stream[lo..hi] && stream[lo..][k..] == stream[hi..]
            && stream[..lo] + stream[lo..hi] == stream[..hi]
  {
  }

  /** Reads, hashes and stages chunk i, and writes its manifest entry. */
  method StageChunk(fileId: string, i: nat, reader: Reader, totalSize: nat, sha: Digest, whole: seq<byte>,
                    ghost stream: seq<byte>)
    returns (r: Result<(ProcessedChunk, ChunkManifest), PipelineError>, wholeAfter: seq<byte>)
    requires i < ExpectedChunkCount(totalSize)
    requires reader.rest == stream[Min(Boundary(totalSize, i), |stream|)..]
    requires whole == Prefix(stream, totalSize, i)
    modifies reader
    ensures r.Err? ==> if r.error == ReadFailed then reader.failed else !ValidId(ChunkIdOf(fileId, i))
    ensures r.Ok? ==>
              && ValidId(ChunkIdOf(fileId, i))
              && r.value.0 == ChunkOf(fileId, i, ExpectedChunkCount(totalSize), Piece(stream, totalSize, i), sha)
              && r.value.1 == EntryOf(fileId, i, Piece(stream, totalSize, i), sha)
              && reader.rest == stream[Min(Boundary(totalSize, i + 1), |stream|)..]
              && wholeAfter == Prefix(stream, totalSize, i + 1)
              && |wholeAfter| == |whole| + r.value.0.plaintextSize
  {
    wholeAfter := whole;
    var chunkId := ChunkIdOf(fileId, i);
    if !ValidId(chunkId) {
      return Err(InvalidChunkId), whole;
    }
    PrefixStep(stream, totalSize, i);
    var chunk;
    chunk, wholeAfter := ReadChunk(reader, ExpectedChunkBytes(totalSize, i), whole);
    if chunk.None? {
      return Err(ReadFailed), whole;
    }
    var b := chunk.value;
    var plaintextSha256, storedSha256 := sha(b.plain), sha(b.stored);
    var entry := ChunkManifest(chunkId, i, b.count, b.count, storedSha256, Pending);
    var staged := ProcessedChunk(chunkId, i, ExpectedChunkCount(totalSize), b.count, b.count,
                                 plaintextSha256, storedSha256, b.staged);
    return Ok((staged, entry)), wholeAfter;
  }

  /**
   The pipeline as written. For every reader, however short its reads, a successful run produces
   exactly the pieces of the first min(size, stream length) bytes with the hashes of those bytes.
   */
  method ProcessFile(fileId: string, relativePath: string, reader: Reader, totalSize: nat, sha: Digest)
    returns (r: Result<ProcessedFile, PipelineError>)
    modifies reader
    ensures r.Ok? ==> Describes(r.value, fileId, relativePath, old(reader.rest), totalSize, sha)
    ensures r.Err? ==>
              if r.error == ReadFailed then reader.failed
              else exists i :: 0 <= i < ExpectedChunkCount(totalSize) && !ValidId(ChunkIdOf(fileId, i))
  {
    var totalChunks := ExpectedChunkCount(totalSize);
    var processedChunks: seq<ProcessedChunk> := [];
    var chunkManifests: seq<ChunkManifest> := [];
    var whole: seq<byte> := [];
    var totalBytesRead := 0;
    ghost var stream := reader.rest;
    for i := 0 to totalChunks
      invariant |processedChunks| == |chunkManifests| == i
      invariant reader.rest == stream[Min(Boundary(totalSize, i), |stream|)..]
      invariant whole == Prefix(stream, totalSize, i) && totalBytesRead == |whole|
      invariant forall j :: 0 <= j < i ==>
                  processedChunks[j] == ChunkOf(fileId, j, totalChunks, Piece(stream, totalSize, j), sha)
      invariant forall j :: 0 <= j < i ==>
                  chunkManifests[j] == EntryOf(fileId, j, Piece(stream, totalSize, j), sha)
    {
      var chunk;
      chunk, whole := StageChunk(fileId, i, reader, totalSize, sha, whole, stream);
      if chunk.Err? {
        return Err(chunk.error);
      }
      totalBytesRead := totalBytesRead + chunk.value.0.plaintextSize;
      processedChunks := processedChunks + [chunk.value.0];
      chunkManifests := chunkManifests + [chunk.value.1];
    }
    var logicalFileHash := sha(whole);
    var manifest := Manifest(ManifestIdOf(fileId, logicalFileHash), fileId, FileNameOf(relativePath), relativePath,
                             totalBytesRead, logicalFileHash, chunkManifests);
    return Ok(ProcessedFile(fileId, totalBytesRead, processedChunks, logicalFileHash, manifest));
  }

  // ----- what the result means -----------------------------------------------------------------

  ghost function Concat(chunks: seq<ProcessedChunk>): seq<byte> {
    if chunks == [] then [] else Concat(chunks[..|chunks| - 1]) + chunks[|chunks| - 1].staged
  }

  lemma {:induction false} ConcatPieces(p: ProcessedFile, fileId: string, path: string, stream: seq<byte>, size: nat,
                                        sha: Digest, i: nat)
    requires Describes(p, fileId, path, stream, size, sha) && i <= |p.chunks|
    ensures Concat(p.chunks[..i]) == Prefix(stream, size, i)
    decreases i
  {
    if i > 0 {
      ConcatPieces(p, fileId, path, stream, size, sha, i - 1);
      assert p.chunks[..i][..i - 1] == p.chunks[..i - 1];
      PrefixStep(stream, size, i - 1);
    }
  }

  /**
   The staged chunks concatenate to the first min(size, stream length) bytes, if and only if the
   32-bit chunk count is not zero (or there was nothing to stage).
   */
  lemma StagedBytesAreTheStream(p: ProcessedFile, fileId: string, path: string, stream: seq<byte>, size: nat, sha: Digest)
    requires Describes(p, fileId, path, stream, size, sha)
    ensures Concat(p.chunks) == stream[..Min(size, |stream|)] <==>
            ExpectedChunkCount(size) != 0 || Min(size, |stream|) == 0
    ensures p.logicalFileHash == sha(Concat(p.chunks)) && p.totalSize == |Concat(p.chunks)|
  {
    ConcatPieces(p, fileId, path, stream, size, sha, |p.chunks|);
    assert p.chunks[..|p.chunks|] == p.chunks;
  }

  /** No staged chunk exceeds its target size; on a full stream each has exactly that size. */
  lemma PieceSizes(stream: seq<byte>, size: nat, i: nat)
    requires i < ExpectedChunkCount(size)
    ensures |Piece(stream, size, i)| <= ExpectedChunkBytes(size, i)
    ensures |stream| >= size ==> |Piece(stream, size, i)| == ExpectedChunkBytes(size, i)
  {
    BoundaryBelow(size, i + 1);
  }

  lemma BoundaryBelow(size: nat, i: nat)
    requires i <= ExpectedChunkCount(size)
    ensures ExpectedChunkCount(size) > 0 ==> Boundary(size, i) <= size
  {
    FullChunksFit(size);
  }

  // ----- the manifest validates ----------------------------------------------------------------

  lemma ChunkIdsDistinct(fileId: string, i: nat, j: nat)
    requires i != j
    ensures ChunkIdOf(fileId, i) != ChunkIdOf(fileId, j)
  {
    var p := fileId + "-chk-";
    if ChunkIdOf(fileId, i) == ChunkIdOf(fileId, j) {
      assert (p + PrintNat(i))[|p|..] == PrintNat(i) && (p + PrintNat(j))[|p|..] == PrintNat(j);
      PrintNatInjective(i, j);
    }
  }

  lemma HexDigestOk(sha: Digest, b: seq<byte>)
    ensures DigestOk(sha(b))
  {
    var d := sha(b);
    assert IsHexDigit(d[0]) && IsHexDigit(d[63]);
    TrimUnpadded(d);
  }

  lemma {:induction false} SumOfPieces(p: ProcessedFile, fileId: string, path: string, stream: seq<byte>, size: nat,
                                       sha: Digest, i: nat)
    requires Describes(p, fileId, path, stream, size, sha) && i <= |p.chunks|
    ensures PlaintextSum(p.manifest.chunks[..i]) == |Prefix(stream, size, i)|
    decreases i
  {
    if i > 0 {
      SumOfPieces(p, fileId, path, stream, size, sha, i - 1);
      assert p.manifest.chunks[..i][..i - 1] == p.manifest.chunks[..i - 1];
      PrefixStep(stream, size, i - 1);
    }
  }

  lemma ManifestIdNonEmpty(fileId: string, hash: string)
    requires |hash| >= 16
    ensures Trim(ManifestIdOf(fileId, hash)) != []
  {
    var s := ManifestIdOf(fileId, hash);
    assert s[0] == 'm';
    var k := TrimEndPrefix(s);
    assert !IsWhitespace(s[0]);
  }

  /**
   The pipeline's manifest passes validation if and only if its path is acceptable and at least one
   chunk was planned; nothing about the stream can make it fail.
   */
  lemma PipelineManifestValid(p: ProcessedFile, fileId: string, path: string, stream: seq<byte>, size: nat, sha: Digest)
    requires Describes(p, fileId, path, stream, size, sha)
    requires size < 0x1_0000_0000_0000_0000
    ensures WellFormed(p.manifest) <==> LogicalFileOk(FileNameOf(path), path) && ExpectedChunkCount(size) != 0
  {
    var k := ExpectedChunkCount(size);
    ManifestIdNonEmpty(fileId, p.logicalFileHash);
    HexDigestOk(sha, Prefix(stream, size, k));
    EntriesOk(p, fileId, path, stream, size, sha);
    SumOfPieces(p, fileId, path, stream, size, sha, k);
    assert p.manifest.chunks[..k] == p.manifest.chunks;
  }

  /** The entries are valid, numbered in order and distinct. */
  lemma EntriesOk(p: ProcessedFile, fileId: string, path: string, stream: seq<byte>, size: nat, sha: Digest)
    requires Describes(p, fileId, path, stream, size, sha)
    ensures ChunksOk(p.manifest.chunks)
  {
    var chunks := p.manifest.chunks;
    forall i | 0 <= i < |chunks| ensures ChunkOk(chunks[i]) && chunks[i].index == i % 0x1_0000_0000 {
      HexDigestOk(sha, Piece(stream, size, i));
    }
    forall i, j | 0 <= i < j < |chunks| ensures chunks[i].chunkId != chunks[j].chunkId {
      ChunkIdsDistinct(fileId, i, j);
    }
  }

  // ----- counts, sizes and hashes in numbers ---------------------------------------------------

  /**
   Below 2 GiB there is one chunk; otherwise the count is the least number of chunks of 1 887 436 800
   bytes that hold the file, as long as it fits 32 bits.
   */
  lemma ChunkCountInBytes(size: nat)
    requires size <= 0xFFFF_FFFF * 1_887_436_800
    ensures size < 2_147_483_648 ==> ExpectedChunkCount(size) == 1
    ensures size >= 2_147_483_648 ==>
              var k := ExpectedChunkCount(size); (k - 1) * 1_887_436_800 < size <= k * 1_887_436_800
  {
    if size >= 2_147_483_648 {
      var c := CeilDiv(size, TARGET_CHUNK_SIZE_BYTES);
      assert (c - 1) * 1_887_436_800 < size <= c * 1_887_436_800;
      assert c <= 0xFFFF_FFFF;
    }
  }

  /** On a full stream every chunk but the last has exactly 1 887 436 800 bytes, and the last has the rest. */
  lemma ChunkSizesInBytes(stream: seq<byte>, size: nat, i: nat)
    requires |stream| >= size && i < ExpectedChunkCount(size)
    ensures var k := ExpectedChunkCount(size);
            |Piece(stream, size, i)| == if i < k - 1 then 1_887_436_800 else size - (k - 1) * 1_887_436_800
  {
    PieceSizes(stream, size, i);
  }

  /** Every entry and chunk carries the hash and the size of the very bytes that are staged. */
  lemma HashesAreOfStagedBytes(p: ProcessedFile, fileId: string, path: string, stream: seq<byte>, size: nat, sha: Digest, i: nat)
    requires Describes(p, fileId, path, stream, size, sha) && i < |p.chunks|
    ensures var c, e := p.chunks[i], p.manifest.chunks[i];
            && c.storedSha256 == c.plaintextSha256 == e.digest == sha(c.staged)
            && c.storedSize == c.plaintextSize == e.storedSize == e.plaintextSize == |c.staged|
            && c.chunkIndex == e.index == i && c.chunkId == e.chunkId && c.totalChunks == |p.chunks|
            && e.storageRef == Pending
  {
    var piece := Piece(stream, size, i);
    assert p.chunks[i] == ChunkOf(fileId, i, |p.chunks|, piece, sha) && p.manifest.chunks[i] == EntryOf(fileId, i, piece, sha);
  }

  // ----- names and identifiers -----------------------------------------------------------------

  lemma ChunkIdExample(fileId: string, i: nat)
    requires fileId == "file-01" && i == 12
    ensures ChunkIdOf(fileId, i) == "file-01-chk-12"
  {
    assert PrintNat(1) == "1";
    assert PrintNat(12) == "12";
    assert "file-01" + "-chk-" + "12" == "file-01-chk-12";
  }

  /** A manifest identifier tells the file and the first 16 digits of its hash. */
  lemma ManifestIdTells(f: string, h: string, g: string, k: string)
    requires |h| >= 16 && |k| >= 16 && ManifestIdOf(f, h) == ManifestIdOf(g, k)
    ensures f == g && h[..16] == k[..16]
  {
    var a, b := ManifestIdOf(f, h), ManifestIdOf(g, k);
    assert a[4..|a| - 17] == f && b[4..|b| - 17] == g;
    assert a[|a| - 16..] == h[..16] && b[|b| - 16..] == k[..16];
  }

  lemma {:induction false} NormalPartsAppend(parts: seq<string>, name: string)
    requires name != [] && name != ['.']
    ensures NormalParts(parts + [name]) == NormalParts(parts) + [name]
  {
    if parts == [] {
      assert parts + [name] == [name];
    } else {
      assert (parts + [name])[1..] == parts[1..] + [name];
      NormalPartsAppend(parts[1..], name);
    }
  }

  /** The file name of a path is its last component. */
  lemma FileNameIsLast(dirs: seq<string>, name: string)
    requires forall i :: 0 <= i < |dirs| ==> '/' !in dirs[i]
    requires '/' !in name && name != [] && name != ['.'] && name != ['.', '.']
    ensures FileNameOf(Joined(dirs + [name], '/')) == name
  {
    JoinedSplits(dirs + [name], '/');
    NormalPartsAppend(dirs, name);
  }
}
