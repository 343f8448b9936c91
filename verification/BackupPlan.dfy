/**
 Plans and their execution so far: what a plan built by the change detector guarantees about the
 catalog it was built from, and what has been achieved for the changes already carried out.
 */
module BackupPlan {
  import opened Wrappers
  import opened ChangeDetector
  import opened Catalog
  import opened BackupSpec
  import opened Sealing
  import Text
  import M = Manifest
  import P = Pipeline

  type Disk = map<string, seq<byte>>

  // ----- listings and plans --------------------------------------------------------------------

  /** Rows of a snapshot: versions bound to it, each joined with its file's row. */
  ghost predicate RowsOf(t: Tables, sid: string, rows: seq<Row>) {
    forall i :: 0 <= i < |rows| ==>
      && rows[i].1.versionId in t.versions && t.versions[rows[i].1.versionId] == rows[i].1
      && rows[i].1.snapshotId == sid
      && rows[i].1.fileId in t.files && rows[i].0 == t.files[rows[i].1.fileId]
  }

  /** A listing of a snapshot: each of its versions once. */
  ghost predicate IsListing(t: Tables, sid: string, rows: seq<Row>) {
    && RowsOf(t, sid, rows)
    && (forall i, j :: 0 <= i < j < |rows| ==> rows[i].1.versionId != rows[j].1.versionId)
    && (forall v :: v in t.versions && t.versions[v].snapshotId == sid ==>
          exists i :: 0 <= i < |rows| && rows[i].1.versionId == v)
  }

  ghost predicate UniqueIds(rows: seq<Row>) {
    forall i, j :: 0 <= i < j < |rows| ==> rows[i].0.fileId != rows[j].0.fileId
  }

  /** One change of a plan fits the catalog it was computed from. */
  predicate ChangeFits(t: Tables, c: FileChange) {
    match c.kind
    case New =>
      c.scanned.Some? && c.scanned.value.relativePath == c.relativePath
    case Deleted =>
      c.previousFile.Some? && c.fileId in t.files && t.files[c.fileId] == c.previousFile.value
    case _ =>
      && c.scanned.Some? && c.scanned.value.relativePath == c.relativePath
      && c.fileId in t.files && t.files[c.fileId].relativePath == c.relativePath
      && (c.kind == Unchanged <==> SameContent(c.scanned.value, t.files[c.fileId]))
      && c.previousVersion.Some? && c.previousVersion.value.versionId in t.versions
      && t.versions[c.previousVersion.value.versionId] == c.previousVersion.value
      && c.previousVersion.value.fileId == c.fileId
  }

  predicate PlanFits(t: Tables, plan: seq<FileChange>) {
    && (forall i :: 0 <= i < |plan| ==> ChangeFits(t, plan[i]))
    && (forall i, j :: 0 <= i < j < |plan| && plan[i].kind != New && plan[j].kind != New ==>
          plan[i].fileId != plan[j].fileId)
  }

  /** A change computed from a listing fits the catalog the listing was read from. */
  lemma DetectedChangeFits(t: Tables, prevSid: string, scan: seq<ScannedFile>, prev: seq<Row>, newId: string -> string, c: FileChange)
    requires Inv(t) && RowsOf(t, prevSid, prev)
    requires UniqueScan(scan) && UniqueRows(prev)
    requires c in Changes(scan, prev, newId)
    ensures ChangeFits(t, c)
  {
    ChangeSetPartition(scan, prev, newId);
    if c.kind == Deleted {
      assert FromDeleted(c, scan, prev);
      var i :| 0 <= i < |prev| && prev[i].0.relativePath !in ScanPaths(scan) &&
               c == FileChange(Deleted, prev[i].0.fileId, prev[i].0.relativePath, None, Some(prev[i].0), Some(prev[i].1));
      assert t.files[prev[i].1.fileId].fileId == prev[i].1.fileId;
    } else {
      var i :| 0 <= i < |scan| && DescribesScan(c, scan[i], prev, newId);
      if c.kind != New {
        var k :| 0 <= k < |prev| && prev[k].0.relativePath == scan[i].relativePath;
        assert t.files[prev[k].1.fileId].fileId == prev[k].1.fileId;
      }
    }
  }

  /** Two changes that carry an earlier row carry rows with different identifiers. */
  lemma EarlierIdsDiffer(scan: seq<ScannedFile>, prev: seq<Row>, newId: string -> string, a: FileChange, b: FileChange)
    requires UniqueScan(scan) && UniqueRows(prev) && UniqueIds(prev)
    requires a in Changes(scan, prev, newId) && b in Changes(scan, prev, newId)
    requires a.kind != New && b.kind != New && a.relativePath != b.relativePath
    ensures a.fileId != b.fileId
  {
    var i := EarlierRow(scan, prev, newId, a);
    var j := EarlierRow(scan, prev, newId, b);
    assert i != j;
  }

  lemma EarlierRow(scan: seq<ScannedFile>, prev: seq<Row>, newId: string -> string, c: FileChange) returns (k: nat)
    requires UniqueScan(scan) && UniqueRows(prev)
    requires c in Changes(scan, prev, newId) && c.kind != New
    ensures k < |prev| && prev[k].0.fileId == c.fileId && prev[k].0.relativePath == c.relativePath
  {
    ChangeSetPartition(scan, prev, newId);
    if c.kind == Deleted {
      assert FromDeleted(c, scan, prev);
      var i :| 0 <= i < |prev| && prev[i].0.relativePath !in ScanPaths(scan) &&
               c == FileChange(Deleted, prev[i].0.fileId, prev[i].0.relativePath, None, Some(prev[i].0), Some(prev[i].1));
      k := i;
    } else {
      var i :| 0 <= i < |scan| && DescribesScan(c, scan[i], prev, newId);
      k :| 0 <= k < |prev| && prev[k].0.relativePath == scan[i].relativePath;
    }
  }

  /** A detected plan fits the catalog whose snapshot it was computed against. */
  lemma DetectedPlanFits(t: Tables, prevSid: string, scan: seq<ScannedFile>, prev: seq<Row>, newId: string -> string)
    requires Inv(t) && RowsOf(t, prevSid, prev)
    requires UniqueScan(scan) && UniqueRows(prev) && UniqueIds(prev)
    ensures PlanFits(t, Changes(scan, prev, newId))
  {
    var plan := Changes(scan, prev, newId);
    ChangeSetSorted(scan, prev, newId);
    forall i | 0 <= i < |plan| ensures ChangeFits(t, plan[i]) {
      DetectedChangeFits(t, prevSid, scan, prev, newId, plan[i]);
    }
    forall i, j | 0 <= i < j < |plan| && plan[i].kind != New && plan[j].kind != New
      ensures plan[i].fileId != plan[j].fileId
    {
      if plan[i].relativePath == plan[j].relativePath {
        Text.LexIrreflexive(plan[i].relativePath);
      }
      EarlierIdsDiffer(scan, prev, newId, plan[i], plan[j]);
    }
  }

  // ----- what is transferred -------------------------------------------------------------------

  predicate Transfers(c: FileChange) {
    c.kind == New || c.kind == Modified
  }

  /** The bytes of a change that a backup stores: the first `sizeBytes` of what its path holds. */
  function ContentOf(c: FileChange, disk: Disk): seq<byte>
    requires c.scanned.Some? && c.scanned.value.absolutePath in disk
  {
    var data := disk[c.scanned.value.absolutePath];
    data[..P.Min(c.scanned.value.sizeBytes, |data|)]
  }

  /** The manifest identifier a change will be saved under. */
  ghost function PlannedId(c: FileChange, disk: Disk, sha: P.Digest): string
    requires c.scanned.Some? && c.scanned.value.absolutePath in disk
  {
    var size := c.scanned.value.sizeBytes;
    P.ManifestIdOf(c.fileId, sha(P.Prefix(disk[c.scanned.value.absolutePath], size, P.ExpectedChunkCount(size))))
  }

  /** The identifiers under which a plan's files will be saved. */
  ghost function PlannedIds(plan: seq<FileChange>, disk: Disk, sha: P.Digest): set<string>
  {
    set i | 0 <= i < |plan| && Transfers(plan[i]) && plan[i].scanned.Some? && plan[i].scanned.value.absolutePath in disk ::
      PlannedId(plan[i], disk, sha)
  }

  /** What was sent: chunks and stored bytes. */
  datatype Sent = Sent(chunks: nat, bytes: nat)

  /** The stored sizes of the first n chunks together. */
  ghost function StoredBytes(chunks: seq<P.ProcessedChunk>, n: nat): nat
    requires n <= |chunks|
  {
    if n == 0 then 0 else StoredBytes(chunks, n - 1) + chunks[n - 1].storedSize
  }

  /** What a change sends. */
  ghost function SentFor(c: FileChange, disk: Disk): Sent {
    if c.scanned.Some? && c.scanned.value.absolutePath in disk
    then Sent(P.ExpectedChunkCount(c.scanned.value.sizeBytes), |ContentOf(c, disk)|)
    else Sent(0, 0)
  }

  /** What the first n changes send. */
  ghost function SentUpTo(plan: seq<FileChange>, n: nat, disk: Disk): Sent
    requires n <= |plan|
  {
    if n == 0 then Sent(0, 0)
    else if Transfers(plan[n - 1]) then
      var s, e := SentUpTo(plan, n - 1, disk), SentFor(plan[n - 1], disk);
      Sent(s.chunks + e.chunks, s.bytes + e.bytes)
    else SentUpTo(plan, n - 1, disk)
  }

  /** A processed chunk and the manifest entry beside it. */
  predicate ChunkMatchesEntry(c: P.ProcessedChunk, e: M.ChunkManifest, i: nat) {
    && c.chunkIndex == i == e.index && c.chunkId == e.chunkId
    && c.plaintextSize == e.plaintextSize && c.storedSize == e.storedSize && c.storedSha256 == e.digest
  }

  /** What the engine uses of a pipeline result. */
  ghost predicate Usable(p: P.ProcessedFile, c: FileChange, disk: Disk, sha: P.Digest)
    requires c.scanned.Some? && c.scanned.value.absolutePath in disk
  {
    && p.manifest.fileId == c.fileId && OwnedId(p.manifest.manifestId, c.fileId)
    && p.manifest.manifestId == PlannedId(c, disk, sha)
    && |p.chunks| == |p.manifest.chunks|
    && (forall i :: 0 <= i < |p.chunks| ==> ChunkMatchesEntry(p.chunks[i], p.manifest.chunks[i], i))
    && (p.chunks != [] ==> P.Concat(p.chunks) == ContentOf(c, disk))
    && p.logicalFileHash == sha(P.Concat(p.chunks))
    && |p.chunks| == P.ExpectedChunkCount(c.scanned.value.sizeBytes)
    && StoredBytes(p.chunks, |p.chunks|) == |P.Concat(p.chunks)|
  }

  lemma ProcessedIsUsable(p: P.ProcessedFile, c: FileChange, disk: Disk, sha: P.Digest)
    requires c.scanned.Some? && c.scanned.value.absolutePath in disk
    requires P.Describes(p, c.fileId, c.relativePath, disk[c.scanned.value.absolutePath], c.scanned.value.sizeBytes, sha)
    ensures Usable(p, c, disk, sha)
  {
    var s := c.scanned.value;
    var data := disk[s.absolutePath];
    forall i | 0 <= i < |p.chunks|
      ensures ChunkMatchesEntry(p.chunks[i], p.manifest.chunks[i], i) && p.chunks[i].storedSize == |p.chunks[i].staged|
    {
      DescribedChunk(p, c.fileId, c.relativePath, data, s.sizeBytes, sha, i);
    }
    DescribedWhole(p, c.fileId, c.relativePath, data, s.sizeBytes, sha);
    UsableFromParts(p, c, disk, sha);
  }

  lemma UsableFromParts(p: P.ProcessedFile, c: FileChange, disk: Disk, sha: P.Digest)
    requires c.scanned.Some? && c.scanned.value.absolutePath in disk
    requires p.manifest.fileId == c.fileId && OwnedId(p.manifest.manifestId, c.fileId)
    requires p.manifest.manifestId == PlannedId(c, disk, sha)
    requires |p.chunks| == |p.manifest.chunks| == P.ExpectedChunkCount(c.scanned.value.sizeBytes)
    requires p.chunks != [] ==> P.Concat(p.chunks) == ContentOf(c, disk)
    requires p.logicalFileHash == sha(P.Concat(p.chunks))
    requires forall i :: 0 <= i < |p.chunks| ==>
               ChunkMatchesEntry(p.chunks[i], p.manifest.chunks[i], i) && p.chunks[i].storedSize == |p.chunks[i].staged|
    ensures Usable(p, c, disk, sha)
  {
    StoredIsStaged(p.chunks, |p.chunks|);
    assert p.chunks[..|p.chunks|] == p.chunks;
  }

  lemma DescribedChunk(p: P.ProcessedFile, fid: string, path: string, data: seq<byte>, size: nat, sha: P.Digest, i: nat)
    requires P.Describes(p, fid, path, data, size, sha) && i < |p.chunks|
    ensures i < |p.manifest.chunks| && ChunkMatchesEntry(p.chunks[i], p.manifest.chunks[i], i)
    ensures p.chunks[i].storedSize == |p.chunks[i].staged|
  {
    var piece := P.Piece(data, size, i);
    assert p.chunks[i] == P.ChunkOf(fid, i, |p.chunks|, piece, sha) && p.manifest.chunks[i] == P.EntryOf(fid, i, piece, sha);
  }

  lemma DescribedWhole(p: P.ProcessedFile, fid: string, path: string, data: seq<byte>, size: nat, sha: P.Digest)
    requires P.Describes(p, fid, path, data, size, sha)
    ensures p.manifest.fileId == fid && OwnedId(p.manifest.manifestId, fid)
    ensures p.manifest.manifestId == P.ManifestIdOf(fid, sha(P.Prefix(data, size, P.ExpectedChunkCount(size))))
    ensures |p.chunks| == |p.manifest.chunks| == P.ExpectedChunkCount(size)
    ensures p.chunks != [] ==> P.Concat(p.chunks) == data[..P.Min(size, |data|)]
    ensures p.logicalFileHash == sha(P.Concat(p.chunks))
  {
    P.StagedBytesAreTheStream(p, fid, path, data, size, sha);
    PipelineIdOwned(fid, p.logicalFileHash);
  }

  lemma {:induction false} StoredIsStaged(chunks: seq<P.ProcessedChunk>, n: nat)
    requires n <= |chunks| && forall i :: 0 <= i < |chunks| ==> chunks[i].storedSize == |chunks[i].staged|
    ensures StoredBytes(chunks, n) == |P.Concat(chunks[..n])|
    decreases n
  {
    if n > 0 {
      StoredIsStaged(chunks, n - 1);
      assert chunks[..n][..n - 1] == chunks[..n - 1];
    }
  }

  // ----- what has been achieved so far ---------------------------------------------------------

  /** The versions of the run's snapshot are exactly one for each file in `done`. */
  ghost predicate OneVersionEach(t: Tables, sid: string, done: set<string>) {
    && (forall v :: v in t.versions && t.versions[v].snapshotId == sid ==> t.versions[v].fileId in done)
    && (forall f :: f in done ==> HasVersion(t, sid, f))
    && (forall v, w :: (v in t.versions && w in t.versions && t.versions[v].snapshotId == sid &&
                        t.versions[w].snapshotId == sid && t.versions[v].fileId == t.versions[w].fileId) ==> v == w)
  }

  lemma OneMoreVersion(t: Tables, u: Tables, sid: string, done: set<string>, vid: string, fid: string, mid: string)
    requires OneVersionEach(t, sid, done) && fid !in done && vid !in t.versions
    requires u.versions == t.versions[vid := VersionRecord(vid, fid, sid, mid, "active")]
    ensures OneVersionEach(u, sid, done + {fid})
  {
    forall f | f in done + {fid} ensures HasVersion(u, sid, f) {
      if f == fid {
        assert u.versions[vid].fileId == f;
      } else {
        VersionStable(t, u, sid, f);
      }
    }
  }

  /** A version in the snapshot binds the file to the manifest. */
  predicate Bound(t: Tables, sid: string, fid: string, mid: string) {
    exists v :: v in t.versions && t.versions[v] == VersionRecord(v, fid, sid, mid, "active")
  }

  lemma BoundStable(t: Tables, u: Tables, sid: string, fid: string, mid: string)
    requires Bound(t, sid, fid, mid)
    requires forall k :: k in t.versions ==> k in u.versions && u.versions[k] == t.versions[k]
    ensures Bound(u, sid, fid, mid)
  {
    var v :| v in t.versions && t.versions[v] == VersionRecord(v, fid, sid, mid, "active");
    assert v in u.versions && u.versions[v] == t.versions[v];
  }

  /**
   One carried-out change: its row records the scan, an unchanged file is bound to its earlier
   manifest, and a transferred one is stored, described by its row and bound to its own manifest.
   */
  ghost predicate CarriedOut(run: Run, t: Tables, store: Store, disk: Disk, sha: P.Digest, c: FileChange)
  {
    && c.kind != Deleted && RowFresh(t, c)
    && Unclaimed(run, run.before, c)
    && (c.kind == Unchanged ==>
          c.previousVersion.Some? && Bound(t, run.sid, c.fileId, c.previousVersion.value.manifestId))
    && (Transfers(c) ==>
          && c.scanned.value.absolutePath in disk
          && Bound(t, run.sid, c.fileId, PlannedId(c, disk, sha))
          && RowWritten(run, t, c, sha(ContentOf(c, disk)))
          && Stored(run, t, store, c.fileId, PlannedId(c, disk, sha), ContentOf(c, disk),
                    P.ExpectedChunkCount(c.scanned.value.sizeBytes)))
  }

  /** The changes carried out so far, by index, and the files they bound. */
  ghost predicate Achieved(run: Run, t: Tables, store: Store, disk: Disk, sha: P.Digest, did: set<int>, done: set<string>)
  {
    && OneVersionEach(t, run.sid, done)
    && AllCarried(run, t, store, disk, sha, did)
    && OwnFiles(run.plan, did, done)
    && NewRowsOnly(run, t, did)
    && ElsewhereKept(run.before.chunks, t.chunks, MovedIds(run.plan, did))
  }

  /** The files of some changes that are transferred. */
  ghost function MovedIds(plan: seq<FileChange>, did: set<int>): set<string> {
    set j | j in did && 0 <= j < |plan| && Transfers(plan[j]) :: plan[j].fileId
  }

  /** The chunk rows of all other files are as before. */
  ghost predicate ElsewhereKept(before: map<string, ChunkRecord>, chunks: map<string, ChunkRecord>, moved: set<string>) {
    && (forall k :: k in before && before[k].fileId !in moved ==> k in chunks && chunks[k] == before[k])
    && (forall k :: k in chunks && chunks[k].fileId !in moved ==> k in before && before[k] == chunks[k])
  }

  /** Rows that the catalog did not have before the run are those of new files carried out. */
  ghost predicate NewRowsOnly(run: Run, t: Tables, did: set<int>) {
    forall k :: k in t.files && k !in run.before.files ==> RowOfNew(run.plan, did, k)
  }

  ghost predicate RowOfNew(plan: seq<FileChange>, did: set<int>, fid: string) {
    exists j :: j in did && 0 <= j < |plan| && plan[j].kind == New && plan[j].fileId == fid
  }

  ghost predicate AllCarried(run: Run, t: Tables, store: Store, disk: Disk, sha: P.Digest, did: set<int>)
  {
    forall j :: j in did ==> 0 <= j < |run.plan| && CarriedOut(run, t, store, disk, sha, run.plan[j])
  }

  /** The changes carried out concern different files, and these are exactly the bound ones. */
  ghost predicate OwnFiles(plan: seq<FileChange>, did: set<int>, done: set<string>) {
    && (forall j :: j in did ==> 0 <= j < |plan| && plan[j].fileId in done)
    && (forall j, k :: j in did && k in did && j != k ==> plan[j].fileId != plan[k].fileId)
    && (forall f :: f in done ==> exists j :: j in did && plan[j].fileId == f)
  }

  /** An earlier file that this plan has not handled yet is not among the bound ones. */
  lemma EarlierNotDone(run: Run, t: Tables, store: Store, disk: Disk, sha: P.Digest, did: set<int>, done: set<string>, i: int)
    requires Achieved(run, t, store, disk, sha, did, done) && PlanFits(run.before, run.plan)
    requires 0 <= i < |run.plan| && i !in did && run.plan[i].kind != New
    ensures run.plan[i].fileId !in done
  {
    assert ChangeFits(run.before, run.plan[i]);
    forall j | j in did ensures run.plan[j].fileId != run.plan[i].fileId {
      assert CarriedOut(run, t, store, disk, sha, run.plan[j]);
    }
  }

  lemma NotDoneNoVersion(run: Run, t: Tables, done: set<string>, fid: string)
    requires Held(run, t) && OneVersionEach(t, run.sid, done) && fid !in done
    ensures NoVersionYet(run, t, fid)
  {
    Unfold(run, t);
  }

  lemma CarriedStable(run: Run, t: Tables, u: Tables, a: Store, b: Store, disk: Disk, sha: P.Digest, c: FileChange, other: string)
    requires CarriedOut(run, t, a, disk, sha, c) && OnlyFile(run, t, u, other) && other != c.fileId
    requires run.realReferences ==> StoreKept(a, b)
    ensures CarriedOut(run, u, b, disk, sha, c)
  {
    if c.kind == Unchanged {
      BoundStable(t, u, run.sid, c.fileId, c.previousVersion.value.manifestId);
    } else {
      BoundStable(t, u, run.sid, c.fileId, PlannedId(c, disk, sha));
      StoredStable(run, t, u, a, b, c.fileId, PlannedId(c, disk, sha), ContentOf(c, disk),
                   P.ExpectedChunkCount(c.scanned.value.sizeBytes), other);
    }
  }

  /** Carrying out one more change, on a file of its own. */
  lemma AchieveOneMore(run: Run, t: Tables, u: Tables, a: Store, b: Store, disk: Disk, sha: P.Digest,
                       did: set<int>, done: set<string>, i: int, vid: string, mid: string)
    requires Achieved(run, t, a, disk, sha, did, done)
    requires 0 <= i < |run.plan| && i !in did && run.plan[i].fileId !in done
    requires OnlyFile(run, t, u, run.plan[i].fileId) && (run.realReferences ==> StoreKept(a, b))
    requires vid !in t.versions
    requires u.versions == t.versions[vid := VersionRecord(vid, run.plan[i].fileId, run.sid, mid, "active")]
    requires CarriedOut(run, u, b, disk, sha, run.plan[i])
    requires run.plan[i].kind == New || run.plan[i].fileId in run.before.files
    requires Transfers(run.plan[i]) || u.chunks == t.chunks
    ensures Achieved(run, u, b, disk, sha, did + {i}, done + {run.plan[i].fileId})
  {
    var fid := run.plan[i].fileId;
    OneMoreVersion(t, u, run.sid, done, vid, fid, mid);
    AllCarriedStable(run, t, u, a, b, disk, sha, did, fid, done);
    OneMoreFile(run.plan, did, done, i);
    OneMoreRow(run, t, u, did, i);
    OneMoreMoved(run, t, u, did, i);
  }

  lemma OneMoreMoved(run: Run, t: Tables, u: Tables, did: set<int>, i: int)
    requires 0 <= i < |run.plan| && OnlyFile(run, t, u, run.plan[i].fileId)
    requires Transfers(run.plan[i]) || u.chunks == t.chunks
    requires ElsewhereKept(run.before.chunks, t.chunks, MovedIds(run.plan, did))
    ensures ElsewhereKept(run.before.chunks, u.chunks, MovedIds(run.plan, did + {i}))
  {
    assert MovedIds(run.plan, did) <= MovedIds(run.plan, did + {i});
    if Transfers(run.plan[i]) {
      assert run.plan[i].fileId in MovedIds(run.plan, did + {i});
    } else {
      assert MovedIds(run.plan, did + {i}) <= MovedIds(run.plan, did);
    }
  }

  lemma OneMoreRow(run: Run, t: Tables, u: Tables, did: set<int>, i: int)
    requires 0 <= i < |run.plan| && NewRowsOnly(run, t, did) && OnlyFile(run, t, u, run.plan[i].fileId)
    requires run.plan[i].kind == New || run.plan[i].fileId in run.before.files
    ensures NewRowsOnly(run, u, did + {i})
  {
    forall k | k in u.files && k !in run.before.files ensures RowOfNew(run.plan, did + {i}, k) {
      if k == run.plan[i].fileId {
        assert i in did + {i};
      } else {
        assert RowOfNew(run.plan, did, k);
        var j :| j in did && 0 <= j < |run.plan| && run.plan[j].kind == New && run.plan[j].fileId == k;
        assert j in did + {i};
      }
    }
  }

  lemma AllCarriedStable(run: Run, t: Tables, u: Tables, a: Store, b: Store, disk: Disk, sha: P.Digest,
                         did: set<int>, other: string, done: set<string>)
    requires AllCarried(run, t, a, disk, sha, did) && OnlyFile(run, t, u, other)
    requires OwnFiles(run.plan, did, done) && other !in done
    requires run.realReferences ==> StoreKept(a, b)
    ensures AllCarried(run, u, b, disk, sha, did)
  {
    forall j | j in did ensures CarriedOut(run, u, b, disk, sha, run.plan[j]) {
      CarriedStable(run, t, u, a, b, disk, sha, run.plan[j], other);
    }
  }

  lemma OneMoreFile(plan: seq<FileChange>, did: set<int>, done: set<string>, i: int)
    requires OwnFiles(plan, did, done) && 0 <= i < |plan| && i !in did && plan[i].fileId !in done
    ensures OwnFiles(plan, did + {i}, done + {plan[i].fileId})
  {
    forall f | f in done + {plan[i].fileId} ensures exists j :: j in did + {i} && plan[j].fileId == f {
      if f in done {
        var j :| j in did && plan[j].fileId == f;
        assert j in did + {i};
      } else {
        assert i in did + {i};
      }
    }
  }

  /** Rewriting the row of some other file undoes nothing. */
  lemma AchievedAfterUpdate(run: Run, t: Tables, u: Tables, store: Store, disk: Disk, sha: P.Digest,
                            did: set<int>, done: set<string>, fid: string)
    requires Achieved(run, t, store, disk, sha, did, done) && fid !in done
    requires fid in t.files && fid in u.files && u == t.(files := t.files[fid := u.files[fid]])
    ensures Achieved(run, u, store, disk, sha, did, done)
  {
    forall f | f in done ensures HasVersion(u, run.sid, f) {
      VersionStable(t, u, run.sid, f);
    }
    AllCarriedStable(run, t, u, store, store, disk, sha, did, fid, done);
  }

  // ----- the steps of the three loops ----------------------------------------------------------

  ghost predicate HasAchieved(x: (Run, Tables, Store, Disk, P.Digest, set<int>, set<string>)) {
    Achieved(x.0, x.1, x.2, x.3, x.4, x.5, x.6)
  }

  /** What has been achieved so far, sealed. */
  ghost predicate Standing(run: Run, t: Tables, store: Store, disk: Disk, sha: P.Digest, did: set<int>, done: set<string>)
  {
    Sealed(HasAchieved, (run, t, store, disk, sha, did, done), SealDepth(|run.plan|))
  }

  lemma StandingIs(run: Run, t: Tables, store: Store, disk: Disk, sha: P.Digest, did: set<int>, done: set<string>)
    ensures Standing(run, t, store, disk, sha, did, done) <==> Achieved(run, t, store, disk, sha, did, done)
  {
    SealedIs(HasAchieved, (run, t, store, disk, sha, did, done), SealDepth(|run.plan|));
  }

  /** The run's plan fits the catalog before it, and its planned saves are those of the plan. */
  ghost predicate WellPlanned(run: Run, disk: Disk, sha: P.Digest)
  {
    PlanFits(run.before, run.plan) && run.planned == PlannedIds(run.plan, disk, sha)
  }

  ghost predicate PlansWell(x: (Run, Disk, P.Digest)) { WellPlanned(x.0, x.1, x.2) }

  /** A well-planned run, sealed. */
  ghost predicate Planned(run: Run, disk: Disk, sha: P.Digest)
  {
    Sealed(PlansWell, (run, disk, sha), SealDepth(|run.plan|))
  }

  lemma PlannedIs(run: Run, disk: Disk, sha: P.Digest)
    ensures Planned(run, disk, sha) <==> WellPlanned(run, disk, sha)
  {
    SealedIs(PlansWell, (run, disk, sha), SealDepth(|run.plan|));
  }

  lemma PlannedEither(run: Run, disk: Disk, sha: P.Digest)
    requires Planned(run, disk, sha)
    ensures Planned(run.(mayComplete := false), disk, sha)
  {
    PlannedIs(run, disk, sha);
    PlannedIs(run.(mayComplete := false), disk, sha);
  }

  lemma PlannedFits(run: Run, disk: Disk, sha: P.Digest, i: int)
    requires Planned(run, disk, sha) && 0 <= i < |run.plan|
    ensures ChangeFits(run.before, run.plan[i])
  {
    PlannedIs(run, disk, sha);
  }

  /** Before anything is bound, nothing is claimed. */
  lemma NothingAchieved(run: Run, t: Tables, store: Store, disk: Disk, sha: P.Digest)
    requires Held(run, run.before) && run.sid !in run.before.snapshots
    requires t.versions == run.before.versions && t.files == run.before.files && t.chunks == run.before.chunks
    ensures Standing(run, t, store, disk, sha, {}, {})
  {
    Unfold(run, run.before);
    StandingIs(run, t, store, disk, sha, {}, {});
  }

  /** An earlier version's manifest still belongs to its file, and is intact if saves are new. */
  lemma EarlierManifest(run: Run, t: Tables, v: VersionRecord)
    requires Held(run, run.before) && Held(run, t)
    requires v.versionId in run.before.versions && run.before.versions[v.versionId] == v
    ensures v.manifestId in t.manifests && t.manifests[v.manifestId].fileId == v.fileId
    ensures SparesVersions(run) && Referenced(run.before) ==> FullyReferenced(t.manifests[v.manifestId].manifest)
  {
    Unfold(run, run.before);
    Unfold(run, t);
    var mid := v.manifestId;
    OwnerUnique(mid, run.before.manifests[mid].fileId, t.manifests[mid].fileId);
  }

  lemma LinkAchieves(run: Run, t: Tables, u: Tables, store: Store, disk: Disk, sha: P.Digest,
                     did: set<int>, done: set<string>, i: int, vid: string, mid: string)
    requires Standing(run, t, store, disk, sha, did, done) && Planned(run, disk, sha)
    requires 0 <= i < |run.plan| && i !in did && run.plan[i].kind == Unchanged && t.files == run.before.files
    requires vid !in t.versions && run.plan[i].previousVersion.Some? && mid == run.plan[i].previousVersion.value.manifestId
    requires u == t.(versions := t.versions[vid := VersionRecord(vid, run.plan[i].fileId, run.sid, mid, "active")])
    ensures Standing(run, u, store, disk, sha, did + {i}, done + {run.plan[i].fileId})
  {
    StandingIs(run, t, store, disk, sha, did, done);
    PlannedIs(run, disk, sha);
    EarlierNotDone(run, t, store, disk, sha, did, done, i);
    assert ChangeFits(run.before, run.plan[i]);
    assert u.versions[vid] == VersionRecord(vid, run.plan[i].fileId, run.sid, mid, "active");
    assert CarriedOut(run, u, store, disk, sha, run.plan[i]);
    AchieveOneMore(run, t, u, store, store, disk, sha, did, done, i, vid, mid);
    StandingIs(run, u, store, disk, sha, did + {i}, done + {run.plan[i].fileId});
  }

  lemma TransferAchieves(run: Run, t: Tables, u: Tables, a: Store, b: Store, disk: Disk, sha: P.Digest,
                         did: set<int>, done: set<string>, i: int, vid: string)
    requires Held(run, t) && Standing(run, t, a, disk, sha, did, done) && Planned(run, disk, sha)
    requires 0 <= i < |run.plan| && i !in did && Transfers(run.plan[i]) && run.plan[i].scanned.Some?
    requires run.plan[i].scanned.value.absolutePath in disk
    requires Transferred(run, t, u, b, run.plan[i], sha(ContentOf(run.plan[i], disk)), PlannedId(run.plan[i], disk, sha),
                         ContentOf(run.plan[i], disk), P.ExpectedChunkCount(run.plan[i].scanned.value.sizeBytes), vid)
    requires run.realReferences ==> StoreKept(a, b)
    ensures Standing(run, u, b, disk, sha, did + {i}, done + {run.plan[i].fileId})
  {
    var c := run.plan[i];
    StandingIs(run, t, a, disk, sha, did, done);
    NewIsFresh(run, t, done, c);
    PlannedIs(run, disk, sha);
    if c.kind != New {
      EarlierNotDone(run, t, a, disk, sha, did, done, i);
    }
    assert u.versions[vid] == VersionRecord(vid, c.fileId, run.sid, PlannedId(c, disk, sha), "active");
    assert CarriedOut(run, u, b, disk, sha, c);
    AchieveOneMore(run, t, u, a, b, disk, sha, did, done, i, vid, PlannedId(c, disk, sha));
    StandingIs(run, u, b, disk, sha, did + {i}, done + {c.fileId});
  }

  /** What a file's row could be created as was unclaimed before the run too, and is not bound by it. */
  lemma NewIsFresh(run: Run, t: Tables, done: set<string>, c: FileChange)
    requires Held(run, t) && OneVersionEach(t, run.sid, done) && Unclaimed(run, t, c)
    ensures Unclaimed(run, run.before, c) && (c.kind == New ==> c.fileId !in done)
  {
    Unfold(run, t);
  }

  /** What a plan needs of the current catalog before it transfers a file. */
  lemma ReadyToTransfer(run: Run, t: Tables, store: Store, disk: Disk, sha: P.Digest, did: set<int>, done: set<string>, i: int)
    requires Held(run, t) && Standing(run, t, store, disk, sha, did, done) && Planned(run, disk, sha)
    requires 0 <= i < |run.plan| && i !in did && Transfers(run.plan[i])
    ensures var c := run.plan[i];
            && c.scanned.Some? && c.scanned.value.relativePath == c.relativePath
            && (c.kind == Modified ==> c.fileId in t.files && t.files[c.fileId].relativePath == c.relativePath)
            && (c.kind == Modified ==> NoVersionYet(run, t, c.fileId))
            && (c.scanned.value.absolutePath in disk ==> PlannedId(c, disk, sha) in run.planned)
  {
    var c := run.plan[i];
    StandingIs(run, t, store, disk, sha, did, done);
    PlannedIs(run, disk, sha);
    assert ChangeFits(run.before, c);
    if c.kind == Modified {
      EarlierNotDone(run, t, store, disk, sha, did, done, i);
      NotDoneNoVersion(run, t, done, c.fileId);
      KnownFile(run, t, c.fileId);
    }
  }

  lemma KnownFile(run: Run, t: Tables, fid: string)
    requires Held(run, t) && fid in run.before.files
    ensures fid in t.files && t.files[fid].relativePath == run.before.files[fid].relativePath
  {
    Unfold(run, t);
  }

  /** A vanished file is known under its own path and is not bound by this run. */
  lemma DeletedIsOther(run: Run, t: Tables, store: Store, disk: Disk, sha: P.Digest, did: set<int>, done: set<string>, i: int)
    requires Held(run, run.before) && Held(run, t)
    requires Standing(run, t, store, disk, sha, did, done) && Planned(run, disk, sha)
    requires 0 <= i < |run.plan| && run.plan[i].kind == Deleted
    ensures var c := run.plan[i];
            && c.previousFile.Some? && c.previousFile.value.fileId == c.fileId && c.fileId !in done
            && c.fileId in t.files && t.files[c.fileId].relativePath == c.previousFile.value.relativePath
  {
    var c := run.plan[i];
    StandingIs(run, t, store, disk, sha, did, done);
    PlannedIs(run, disk, sha);
    assert ChangeFits(run.before, c);
    assert i !in did;
    EarlierNotDone(run, t, store, disk, sha, did, done, i);
    KnownFile(run, t, c.fileId);
    Unfold(run, run.before);
  }

  lemma UpdateKeepsStanding(run: Run, t: Tables, u: Tables, store: Store, disk: Disk, sha: P.Digest,
                            did: set<int>, done: set<string>, f: FileRecord)
    requires Standing(run, t, store, disk, sha, did, done) && f.fileId !in done
    requires UpdateFile(t, f) == Some(u)
    ensures Standing(run, u, store, disk, sha, did, done) && u.snapshots == t.snapshots
  {
    StandingIs(run, t, store, disk, sha, did, done);
    AchievedAfterUpdate(run, t, u, store, disk, sha, did, done, f.fileId);
    StandingIs(run, u, store, disk, sha, did, done);
  }

  // ----- new files find their place free -------------------------------------------------------

  /** No new file of the plan claims an identifier or path in use, nor the identifier of another new file. */
  ghost predicate FilesFree(run: Run) {
    && (forall i :: 0 <= i < |run.plan| ==> Unclaimed(run, run.before, run.plan[i]))
    && (forall i, j :: 0 <= i < j < |run.plan| && run.plan[i].kind == New && run.plan[j].kind == New ==>
          run.plan[i].fileId != run.plan[j].fileId)
  }

  /** The catalog refuses the row of this new file. */
  ghost predicate Refuses(run: Run, t: Tables, c: FileChange) {
    && c.kind == New && c.scanned.Some?
    && CreateFile(t, FileRow(c.fileId, run.pid, c.scanned.value, "")).None?
  }

  lemma RefusedAnyHash(run: Run, t: Tables, c: FileChange, hash: string)
    requires c.kind == New && c.scanned.Some?
    ensures CreateFile(t, FileRow(c.fileId, run.pid, c.scanned.value, hash)).None? <==> Refuses(run, t, c)
  {
  }

  /** While a plan with free places is being carried out, the catalog refuses none of its new files. */
  lemma FreeIsNotRefused(run: Run, t: Tables, store: Store, disk: Disk, sha: P.Digest, did: set<int>, done: set<string>, i: int)
    requires Held(run, t) && Standing(run, t, store, disk, sha, did, done) && Planned(run, disk, sha)
    requires FilesFree(run) && DistinctPaths(run.plan) && run.pid in run.before.profiles
    requires 0 <= i < |run.plan| && i !in did && run.plan[i].kind == New
    ensures !Refuses(run, t, run.plan[i])
  {
    var c := run.plan[i];
    StandingIs(run, t, store, disk, sha, did, done);
    PlannedIs(run, disk, sha);
    assert ChangeFits(run.before, c) && Unclaimed(run, run.before, c);
    forall k | k in t.files ensures k != c.fileId && !(t.files[k].profileId == Some(run.pid) && t.files[k].relativePath == c.relativePath) {
      RowIsElsewhere(run, t, store, disk, sha, did, i, k);
    }
    Unfold(run, t);
  }

  /** No row of the catalog is in the place of a new file that is still to come. */
  lemma RowIsElsewhere(run: Run, t: Tables, store: Store, disk: Disk, sha: P.Digest, did: set<int>, i: int, k: string)
    requires Held(run, t) && AllCarried(run, t, store, disk, sha, did) && NewRowsOnly(run, t, did)
    requires FilesFree(run) && DistinctPaths(run.plan) && 0 <= i < |run.plan| && i !in did && run.plan[i].kind == New
    requires k in t.files
    ensures k != run.plan[i].fileId
    ensures !(t.files[k].profileId == Some(run.pid) && t.files[k].relativePath == run.plan[i].relativePath)
  {
    if k in run.before.files {
      EarlierRowElsewhere(run, t, i, k);
    } else {
      var j := NewRowSource(run, t, did, k);
      CarriedPath(run, t, store, disk, sha, did, j);
      NewPlacesDiffer(run, i, j);
    }
  }

  lemma NewRowSource(run: Run, t: Tables, did: set<int>, k: string) returns (j: int)
    requires NewRowsOnly(run, t, did) && k in t.files && k !in run.before.files
    ensures j in did && 0 <= j < |run.plan| && run.plan[j].kind == New && run.plan[j].fileId == k
  {
    assert RowOfNew(run.plan, did, k);
    j :| j in did && 0 <= j < |run.plan| && run.plan[j].kind == New && run.plan[j].fileId == k;
  }

  lemma NewPlacesDiffer(run: Run, i: int, j: int)
    requires FilesFree(run) && DistinctPaths(run.plan) && 0 <= i < |run.plan| && 0 <= j < |run.plan| && i != j
    requires run.plan[i].kind == New && run.plan[j].kind == New
    ensures run.plan[i].fileId != run.plan[j].fileId && run.plan[i].relativePath != run.plan[j].relativePath
  {
    assert i < j || j < i;
  }

  lemma EarlierRowElsewhere(run: Run, t: Tables, i: int, k: string)
    requires Held(run, t) && 0 <= i < |run.plan| && run.plan[i].kind == New && Unclaimed(run, run.before, run.plan[i])
    requires k in run.before.files
    ensures k in t.files && k != run.plan[i].fileId
    ensures !(t.files[k].profileId == Some(run.pid) && t.files[k].relativePath == run.plan[i].relativePath)
  {
    KnownFileKept(run, t, k);
  }

  lemma CarriedPath(run: Run, t: Tables, store: Store, disk: Disk, sha: P.Digest, did: set<int>, j: int)
    requires AllCarried(run, t, store, disk, sha, did) && j in did
    ensures 0 <= j < |run.plan| && run.plan[j].fileId in t.files
    ensures t.files[run.plan[j].fileId].relativePath == run.plan[j].relativePath
  {
    assert CarriedOut(run, t, store, disk, sha, run.plan[j]);
  }

  lemma KnownFileKept(run: Run, t: Tables, fid: string)
    requires Held(run, t) && fid in run.before.files
    ensures fid in t.files && t.files[fid].relativePath == run.before.files[fid].relativePath
    ensures t.files[fid].profileId == run.before.files[fid].profileId
  {
    Unfold(run, t);
  }

  /** Indices of a plan's changes that are to be bound to the snapshot. */
  ghost predicate AllDone(run: Run, did: set<int>) {
    forall j :: 0 <= j < |run.plan| && run.plan[j].kind != Deleted ==> j in did
  }

  /**
   The plan is carried out: every scanned file as its change says, each under its own identifier,
   the snapshot binds exactly one version for each of them and nothing else, and files that were not
   transferred kept their chunk rows.
   */
  ghost predicate Accomplished(run: Run, t: Tables, store: Store, disk: Disk, sha: P.Digest)
  {
    && (forall i :: 0 <= i < |run.plan| && run.plan[i].kind != Deleted ==> CarriedOut(run, t, store, disk, sha, run.plan[i]))
    && (forall i, j :: 0 <= i < j < |run.plan| && run.plan[i].kind != Deleted && run.plan[j].kind != Deleted ==>
          run.plan[i].fileId != run.plan[j].fileId)
    && (forall v :: v in t.versions && t.versions[v].snapshotId == run.sid ==>
          exists i :: 0 <= i < |run.plan| && run.plan[i].kind != Deleted && run.plan[i].fileId == t.versions[v].fileId)
    && (forall v, w :: (v in t.versions && w in t.versions && t.versions[v].snapshotId == run.sid &&
                        t.versions[w].snapshotId == run.sid && t.versions[v].fileId == t.versions[w].fileId) ==> v == w)
    && ElsewhereKept(run.before.chunks, t.chunks, TransferredIds(run.plan))
  }

  /** The files that a plan transfers. */
  ghost function TransferredIds(plan: seq<FileChange>): set<string> {
    set j | 0 <= j < |plan| && Transfers(plan[j]) :: plan[j].fileId
  }

  lemma StandingAccomplishes(run: Run, t: Tables, store: Store, disk: Disk, sha: P.Digest, did: set<int>, done: set<string>)
    requires Standing(run, t, store, disk, sha, did, done) && AllDone(run, did)
    ensures Covered(run, t) && Accomplished(run, t, store, disk, sha)
  {
    StandingIs(run, t, store, disk, sha, did, done);
    forall v | v in t.versions && t.versions[v].snapshotId == run.sid
      ensures exists i :: 0 <= i < |run.plan| && run.plan[i].kind != Deleted && run.plan[i].fileId == t.versions[v].fileId
    {
      var i :| i in did && run.plan[i].fileId == t.versions[v].fileId;
    }
    assert MovedIds(run.plan, did) == TransferredIds(run.plan);
  }

  /** An accomplished plan found the places of all its new files free. */
  lemma AccomplishedIsFree(run: Run, t: Tables, store: Store, disk: Disk, sha: P.Digest)
    requires Accomplished(run, t, store, disk, sha)
    ensures FilesFree(run)
  {
    forall i | 0 <= i < |run.plan| ensures Unclaimed(run, run.before, run.plan[i]) {
      if run.plan[i].kind == New {
        assert CarriedOut(run, t, store, disk, sha, run.plan[i]);
      }
    }
  }

  /** What is accomplished does not depend on the snapshot's status, nor on whether it may be complete. */
  lemma AccomplishedAnyStatus(run: Run, t: Tables, u: Tables, store: Store, disk: Disk, sha: P.Digest)
    requires Accomplished(run.(mayComplete := false), t, store, disk, sha)
    requires u == t.(snapshots := u.snapshots)
    ensures Accomplished(run, u, store, disk, sha)
  {
    forall i | 0 <= i < |run.plan| && run.plan[i].kind != Deleted ensures CarriedOut(run, u, store, disk, sha, run.plan[i]) {
      CarriedAnyStatus(run, t, u, store, disk, sha, run.plan[i]);
    }
  }

  lemma CarriedAnyStatus(run: Run, t: Tables, u: Tables, store: Store, disk: Disk, sha: P.Digest, c: FileChange)
    requires CarriedOut(run.(mayComplete := false), t, store, disk, sha, c)
    requires u == t.(snapshots := u.snapshots)
    ensures CarriedOut(run, u, store, disk, sha, c)
  {
    if c.kind == Unchanged {
      BoundStable(t, u, run.sid, c.fileId, c.previousVersion.value.manifestId);
    } else {
      BoundStable(t, u, run.sid, c.fileId, PlannedId(c, disk, sha));
      assert RowsAreEntries(u, c.fileId, PlannedId(c, disk, sha));
    }
  }

  /** A run that may not complete its snapshot yet obeys the rules of one that may. */
  lemma HeldWhileOpen(run: Run, t: Tables)
    requires Held(run.(mayComplete := false), t)
    ensures Held(run, t) && !IsComplete(run, t)
  {
    Unfold(run.(mayComplete := false), t);
    assert !IsComplete(run, t);
    assert SnapshotsKept(run, t) && VersionsKept(run, t) && ManifestsKept(run, t);
    Fold(run, t);
  }
}
