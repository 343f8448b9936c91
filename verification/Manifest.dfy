/** The manifest of a logical file and the validator that guards every save. */
module Manifest {
  import opened Wrappers
  import opened Text

  datatype StorageRef =
    | Telegram(chatId: int, messageId: int, fileId: string)
    | LocalStaging(relativePath: string)
    | Pending

  datatype ChunkManifest = ChunkManifest(
    chunkId: string,
    index: nat,
    plaintextSize: nat,
    storedSize: nat,
    digest: string,
    storageRef: StorageRef)

  /** An unencrypted version-1 manifest. */
  datatype Manifest = Manifest(
    manifestId: string,
    fileId: string,
    fileName: string,
    relativePath: string,
    originalSize: nat,
    digest: string,
    chunks: seq<ChunkManifest>)

  datatype ManifestError =
    | EmptyManifestId | EmptyFileName | EmptyRelativePath | UnsafePath
    | InvalidHash | InvalidReference
    | NoChunks | ChunkOrdering | DuplicateChunkId | SumOverflow | SizeMismatch

  // ----- parts of the rule ---------------------------------------------------------------------

  predicate IsHexDigit(c: char) {
    '0' <= c <= '9' || 'a' <= c <= 'f' || 'A' <= c <= 'F'
  }

  /** 64 hexadecimal characters after trimming. */
  predicate DigestOk(d: string) {
    var t := Trim(d);
    |t| == 64 && forall i :: 0 <= i < |t| ==> IsHexDigit(t[i])
  }

  predicate RefOk(r: StorageRef) {
    match r
    case Telegram(chat, msg, file) => chat != 0 && msg > 0 && Trim(file) != []
    case LocalStaging(path) => Trim(path) != []
    case Pending => true
  }

  /** A relative path without parent components, for slash-separated paths. */
  predicate SafePath(path: string) {
    !(path != [] && path[0] == '/') && ".." !in Split(path, '/')
  }

  predicate LogicalFileOk(fileName: string, relativePath: string) {
    Trim(fileName) != [] && Trim(relativePath) != [] && SafePath(relativePath)
  }

  predicate ChunkOk(c: ChunkManifest) {
    DigestOk(c.digest) && RefOk(c.storageRef)
  }

  ghost function PlaintextSum(chunks: seq<ChunkManifest>): nat {
    if chunks == [] then 0 else PlaintextSum(chunks[..|chunks| - 1]) + chunks[|chunks| - 1].plaintextSize
  }

  ghost predicate DistinctIds(chunks: seq<ChunkManifest>) {
    forall i, j :: 0 <= i < j < |chunks| ==> chunks[i].chunkId != chunks[j].chunkId
  }

  /** Valid chunks numbered 0, 1, ... with distinct identifiers. */
  ghost predicate ChunksOk(chunks: seq<ChunkManifest>) {
    && (forall i :: 0 <= i < |chunks| ==> ChunkOk(chunks[i]) && chunks[i].index == i % 0x1_0000_0000)
    && DistinctIds(chunks)
  }

  /** What a valid manifest is. */
  ghost predicate WellFormed(m: Manifest) {
    && Trim(m.manifestId) != []
    && LogicalFileOk(m.fileName, m.relativePath)
    && DigestOk(m.digest)
    && m.chunks != []
    && ChunksOk(m.chunks)
    && PlaintextSum(m.chunks) < 0x1_0000_0000_0000_0000
    && PlaintextSum(m.chunks) == m.originalSize
  }

  // ----- the validator as written --------------------------------------------------------------

  lemma {:induction false} SumMonotone(chunks: seq<ChunkManifest>, i: nat)
    requires i <= |chunks|
    ensures PlaintextSum(chunks[..i]) <= PlaintextSum(chunks)
    decreases |chunks|
  {
    if i == |chunks| {
      assert chunks[..i] == chunks;
    } else {
      var n := |chunks| - 1;
      SumMonotone(chunks[..n], i);
      assert chunks[..n][..i] == chunks[..i];
    }
  }

  ghost function ChunkIds(chunks: seq<ChunkManifest>): set<string> {
    set k | 0 <= k < |chunks| :: chunks[k].chunkId
  }

  /** One more chunk is fine exactly when it is valid, next in order and not seen before. */
  lemma ChunksOkExtend(chunks: seq<ChunkManifest>, c: ChunkManifest)
    ensures ChunksOk(chunks + [c]) <==>
            ChunksOk(chunks) && ChunkOk(c) && c.index == |chunks| % 0x1_0000_0000 && c.chunkId !in ChunkIds(chunks)
    ensures ChunkIds(chunks + [c]) == ChunkIds(chunks) + {c.chunkId}
  {
    var more := chunks + [c];
    assert more[|chunks|] == c;
    assert forall i :: 0 <= i < |chunks| ==> more[i] == chunks[i];
    forall id ensures id in ChunkIds(more) <==> id in ChunkIds(chunks) || id == c.chunkId {
      if id in ChunkIds(chunks) {
        var k :| 0 <= k < |chunks| && chunks[k].chunkId == id;
        assert more[k].chunkId == id;
      }
    }
    if ChunksOk(more) {
      forall i, j | 0 <= i < j < |chunks| ensures chunks[i].chunkId != chunks[j].chunkId {
        assert more[i].chunkId != more[j].chunkId;
      }
      forall k | 0 <= k < |chunks| ensures chunks[k].chunkId != c.chunkId {
        assert more[k].chunkId != more[|chunks|].chunkId;
      }
    }
  }

  lemma {:induction false} ChunksOkPrefix(chunks: seq<ChunkManifest>, i: nat)
    requires i <= |chunks| && ChunksOk(chunks)
    ensures ChunksOk(chunks[..i])
  {
  }

  /** What each error of the chunk pass means. */
  ghost predicate BlamesChunks(e: ManifestError, chunks: seq<ChunkManifest>) {
    match e
    case InvalidHash => exists i :: 0 <= i < |chunks| && !DigestOk(chunks[i].digest)
    case InvalidReference => exists i :: 0 <= i < |chunks| && !RefOk(chunks[i].storageRef)
    case ChunkOrdering => exists i :: 0 <= i < |chunks| && chunks[i].index != i % 0x1_0000_0000
    case DuplicateChunkId => !DistinctIds(chunks)
    case SumOverflow => PlaintextSum(chunks) >= 0x1_0000_0000_0000_0000
    case _ => false
  }

  /** What each error of the validator means. */
  ghost predicate Blames(e: ManifestError, m: Manifest) {
    match e
    case EmptyManifestId => Trim(m.manifestId) == []
    case EmptyFileName => Trim(m.fileName) == []
    case EmptyRelativePath => Trim(m.relativePath) == []
    case UnsafePath => !SafePath(m.relativePath)
    case InvalidHash => !DigestOk(m.digest) || BlamesChunks(e, m.chunks)
    case NoChunks => m.chunks == []
    case SizeMismatch => PlaintextSum(m.chunks) != m.originalSize
    case _ => BlamesChunks(e, m.chunks)
  }

  /** What each error of one chunk means, after the chunks before it. */
  ghost predicate BlamesChunk(e: ManifestError, c: ChunkManifest, i: nat, seen: set<string>, sum: nat) {
    match e
    case InvalidHash => !DigestOk(c.digest)
    case InvalidReference => !RefOk(c.storageRef)
    case ChunkOrdering => c.index != i % 0x1_0000_0000
    case DuplicateChunkId => c.chunkId in seen
    case SumOverflow => sum + c.plaintextSize >= 0x1_0000_0000_0000_0000
    case _ => false
  }

  /** The checks of one chunk, in order. */
  method CheckChunk(c: ChunkManifest, i: nat, seen: set<string>, sum: nat) returns (err: Option<ManifestError>)
    ensures err.None? <==>
              ChunkOk(c) && c.index == i % 0x1_0000_0000 && c.chunkId !in seen && sum + c.plaintextSize < 0x1_0000_0000_0000_0000
    ensures err.Some? ==> BlamesChunk(err.value, c, i, seen, sum)
  {
    if !DigestOk(c.digest) { return Some(InvalidHash); }
    if !RefOk(c.storageRef) { return Some(InvalidReference); }
    if c.index != i % 0x1_0000_0000 { return Some(ChunkOrdering); }
    if c.chunkId in seen { return Some(DuplicateChunkId); }
    if sum + c.plaintextSize >= 0x1_0000_0000_0000_0000 { return Some(SumOverflow); }
    return None;
  }

  lemma ChunkBlamed(chunks: seq<ChunkManifest>, i: nat, e: ManifestError)
    requires i < |chunks| && BlamesChunk(e, chunks[i], i, ChunkIds(chunks[..i]), PlaintextSum(chunks[..i]))
    ensures BlamesChunks(e, chunks)
  {
    if e == DuplicateChunkId {
      var k :| 0 <= k < i && chunks[..i][k].chunkId == chunks[i].chunkId;
      assert chunks[k].chunkId == chunks[i].chunkId;
    }
    assert chunks[..i + 1][..i] == chunks[..i];
    SumMonotone(chunks, i + 1);
  }

  /** What one more chunk adds to the pass. */
  lemma OneMoreChunk(chunks: seq<ChunkManifest>, i: nat)
    requires i < |chunks|
    ensures ChunksOk(chunks[..i + 1]) <==>
            && ChunksOk(chunks[..i]) && ChunkOk(chunks[i]) && chunks[i].index == i % 0x1_0000_0000
            && chunks[i].chunkId !in ChunkIds(chunks[..i])
    ensures ChunkIds(chunks[..i + 1]) == ChunkIds(chunks[..i]) + {chunks[i].chunkId}
  {
    assert chunks[..i + 1] == chunks[..i] + [chunks[i]];
    ChunksOkExtend(chunks[..i], chunks[i]);
  }

  lemma OneMoreSize(chunks: seq<ChunkManifest>, i: nat)
    requires i < |chunks|
    ensures PlaintextSum(chunks[..i + 1]) == PlaintextSum(chunks[..i]) + chunks[i].plaintextSize <= PlaintextSum(chunks)
  {
    assert chunks[..i + 1][..i] == chunks[..i];
    SumMonotone(chunks, i + 1);
  }

  /** A refused chunk makes the whole unacceptable. */
  lemma PrefixDecides(chunks: seq<ChunkManifest>, i: nat)
    requires i <= |chunks| && !(ChunksOk(chunks[..i]) && PlaintextSum(chunks[..i]) < 0x1_0000_0000_0000_0000)
    ensures !(ChunksOk(chunks) && PlaintextSum(chunks) < 0x1_0000_0000_0000_0000)
  {
    if ChunksOk(chunks) {
      ChunksOkPrefix(chunks, i);
    }
    SumMonotone(chunks, i);
  }

  /** One pass over the chunks with a set of seen identifiers and a 64-bit checked sum. */
  method ValidateChunks(chunks: seq<ChunkManifest>) returns (r: Result<nat, ManifestError>)
    ensures r.Ok? <==> ChunksOk(chunks) && PlaintextSum(chunks) < 0x1_0000_0000_0000_0000
    ensures r.Ok? ==> r.value == PlaintextSum(chunks)
    ensures r.Err? ==> BlamesChunks(r.error, chunks)
  {
    var seen: set<string> := {};
    var sum := 0;
    for i := 0 to |chunks|
      invariant ChunksOk(chunks[..i])
      invariant seen == ChunkIds(chunks[..i])
      invariant sum == PlaintextSum(chunks[..i]) < 0x1_0000_0000_0000_0000
    {
      var c := chunks[i];
      OneMoreChunk(chunks, i);
      OneMoreSize(chunks, i);
      var err := CheckChunk(c, i, seen, sum);
      if err.Some? {
        PrefixDecides(chunks, i + 1);
        ChunkBlamed(chunks, i, err.value);
        return Err(err.value);
      }
      seen, sum := seen + {c.chunkId}, sum + c.plaintextSize;
    }
    assert chunks[..|chunks|] == chunks;
    return Ok(sum);
  }

  /** The validator accepts exactly the well-formed manifests. */
  method Validate(m: Manifest) returns (r: Result<(), ManifestError>)
    ensures r.Ok? <==> WellFormed(m)
    ensures r.Err? ==> Blames(r.error, m)
  {
    if Trim(m.manifestId) == [] { return Err(EmptyManifestId); }
    if Trim(m.fileName) == [] { return Err(EmptyFileName); }
    if Trim(m.relativePath) == [] { return Err(EmptyRelativePath); }
    if !SafePath(m.relativePath) { return Err(UnsafePath); }
    if !DigestOk(m.digest) { return Err(InvalidHash); }
    if m.chunks == [] { return Err(NoChunks); }
    var sum := ValidateChunks(m.chunks);
    if sum.Err? { return Err(sum.error); }
    if sum.value != m.originalSize { return Err(SizeMismatch); }
    return Ok(());
  }

  /** Swapping one chunk's reference for another valid one keeps a manifest well formed. */
  lemma RefUpdateKeepsWellFormed(m: Manifest, i: nat, r: StorageRef)
    requires WellFormed(m) && i < |m.chunks| && RefOk(r)
    ensures WellFormed(m.(chunks := m.chunks[i := m.chunks[i].(storageRef := r)]))
  {
    SumIgnoresRefs(m.chunks, m.chunks[i := m.chunks[i].(storageRef := r)]);
    RefUpdateKeepsChunks(m.chunks, i, r);
  }

  lemma RefUpdateKeepsChunks(chunks: seq<ChunkManifest>, i: nat, r: StorageRef)
    requires ChunksOk(chunks) && i < |chunks| && RefOk(r)
    ensures ChunksOk(chunks[i := chunks[i].(storageRef := r)])
  {
    var updated := chunks[i := chunks[i].(storageRef := r)];
    forall k | 0 <= k < |updated| ensures ChunkOk(updated[k]) && updated[k].index == k % 0x1_0000_0000 {
      assert ChunkOk(chunks[k]);
    }
    assert forall k :: 0 <= k < |updated| ==> updated[k].chunkId == chunks[k].chunkId;
  }

  lemma {:induction false} SumIgnoresRefs(a: seq<ChunkManifest>, b: seq<ChunkManifest>)
    requires |a| == |b| && forall i :: 0 <= i < |a| ==> a[i].plaintextSize == b[i].plaintextSize
    ensures PlaintextSum(a) == PlaintextSum(b)
  {
    if a != [] {
      SumIgnoresRefs(a[..|a| - 1], b[..|b| - 1]);
    }
  }

  // ----- the parts of the rule, spelled out ----------------------------------------------------

  lemma HexDigits(c: char)
    ensures IsHexDigit(c) <==> c in "0123456789abcdefABCDEF"
  {
    var all := "0123456789abcdefABCDEF";
    if '0' <= c <= '9' { assert all[c as int - '0' as int] == c; }
    if 'a' <= c <= 'f' { assert all[10 + c as int - 'a' as int] == c; }
    if 'A' <= c <= 'F' { assert all[16 + c as int - 'A' as int] == c; }
  }

  /** A path of slash-separated components is safe exactly if it does not start with a slash and no component is "..". */
  lemma SafePathComponents(parts: seq<string>)
    requires parts != [] && forall i :: 0 <= i < |parts| ==> '/' !in parts[i]
    ensures SafePath(Joined(parts, '/')) <==>
            (|parts| == 1 || parts[0] != []) && forall i :: 0 <= i < |parts| ==> parts[i] != ['.', '.']
  {
    JoinedSplits(parts, '/');
    var path := Joined(parts, '/');
    if parts[0] != [] {
      assert path[0] == parts[0][0] && parts[0][0] in parts[0];
    }
    if forall i :: 0 <= i < |parts| ==> parts[i] != ['.', '.'] {
      assert ['.', '.'] !in parts;
    }
  }

  /** A manifest whose path climbs to a parent is refused, wherever the component stands. */
  lemma ParentComponentRefused(m: Manifest, parts: seq<string>, i: nat)
    requires i < |parts| && (forall k :: 0 <= k < |parts| ==> '/' !in parts[k])
    requires m.relativePath == Joined(parts, '/') && parts[i] == ['.', '.']
    ensures !WellFormed(m)
  {
    SafePathComponents(parts);
  }

  /** References that are refused: no chat, no message, or a blank file or path. */
  lemma RefusedReferences(chat: int, msg: int, text: string, blank: string)
    requires Blank(blank) && Trim(text) != []
    ensures !RefOk(Telegram(0, msg, text)) && !RefOk(Telegram(chat, 0, text)) && !RefOk(Telegram(chat, -1, text))
    ensures !RefOk(Telegram(chat, msg, blank)) && !RefOk(LocalStaging(blank))
    ensures RefOk(LocalStaging(text)) && RefOk(Pending) && (chat != 0 && msg > 0 ==> RefOk(Telegram(chat, msg, text)))
  {
    BlankTrims(blank);
  }

  lemma {:induction false} BlankTrims(s: string)
    requires Blank(s)
    ensures Trim(s) == []
  {
    assert s + [] == s;
    TrimStartSkips(s, []);
  }
}
