/**
 What a backup run must keep at every catalog write, and what it must have achieved for each file.
 */
module BackupSpec {
  import opened Wrappers
  import opened ChangeDetector
  import opened Catalog
  import opened Sealing
  import M = Manifest
  import P = Pipeline

  type Store = map<M.StorageRef, seq<byte>>

  /**
   The fixed facts of one run: the catalog before it, its snapshot, its plan, how often the database
   had failed before, and what the run may do.
   */
  datatype Run = Run(
    before: Tables,
    sid: string,
    pid: string,
    plan: seq<FileChange>,
    planned: set<string>,
    failedBefore: nat,
    realReferences: bool,
    mayComplete: bool)

  // ----- every write ---------------------------------------------------------------------------

  /** Earlier file rows keep their profile and path. */
  predicate FilesKept(before: Tables, t: Tables) {
    forall k :: k in before.files ==>
      k in t.files && t.files[k].profileId == before.files[k].profileId && t.files[k].relativePath == before.files[k].relativePath
  }

  /** Other snapshots are untouched. */
  predicate SnapshotsKept(run: Run, t: Tables) {
    && (forall s :: s in run.before.snapshots && s != run.sid ==> s in t.snapshots && t.snapshots[s] == run.before.snapshots[s])
    && (forall s :: s in t.snapshots && s != run.sid ==> s in run.before.snapshots)
  }

  /** Earlier versions are untouched and new ones belong to this run's snapshot. */
  predicate VersionsKept(run: Run, t: Tables) {
    && (forall v :: v in run.before.versions ==> v in t.versions && t.versions[v] == run.before.versions[v])
    && (forall v :: v in t.versions && v !in run.before.versions ==> t.versions[v].snapshotId == run.sid)
  }

  /** Earlier manifests survive, and only those the run plans to save can change. */
  predicate ManifestsKept(run: Run, t: Tables) {
    forall m :: m in run.before.manifests ==>
      m in t.manifests && (m !in run.planned ==> t.manifests[m] == run.before.manifests[m])
  }

  predicate HasVersion(t: Tables, sid: string, fid: string) {
    exists v :: v in t.versions && t.versions[v].snapshotId == sid && t.versions[v].fileId == fid
  }

  /** Every scanned file of the plan has its version in the snapshot. */
  predicate Covered(run: Run, t: Tables) {
    forall i :: 0 <= i < |run.plan| && run.plan[i].kind != Deleted ==> HasVersion(t, run.sid, run.plan[i].fileId)
  }

  predicate IsComplete(run: Run, t: Tables) {
    run.sid in t.snapshots && t.snapshots[run.sid].status == Completed
  }

  /** The snapshot is complete only if it may be and covers the plan. */
  predicate CompleteOnlyIfCovered(run: Run, t: Tables) {
    IsComplete(run, t) ==> run.mayComplete && Covered(run, t)
  }

  predicate FullyReferenced(m: M.Manifest) {
    forall i :: 0 <= i < |m.chunks| ==> m.chunks[i].storageRef != M.Pending
  }

  /** Every version's manifest says where all its chunks are. */
  predicate Referenced(t: Tables) {
    forall v :: v in t.versions ==> t.versions[v].manifestId in t.manifests && FullyReferenced(t.manifests[t.versions[v].manifestId].manifest)
  }

  /** No file of the plan will be saved under a manifest that an earlier version names. */
  predicate SparesVersions(run: Run) {
    forall v :: v in run.before.versions ==> run.before.versions[v].manifestId !in run.planned
  }

  /** What holds after every catalog write of a run. */
  predicate StepOk(run: Run, t: Tables) {
    && Inv(t) && t.profiles == run.before.profiles
    && FilesKept(run.before, t)
    && SnapshotsKept(run, t)
    && VersionsKept(run, t)
    && ManifestsKept(run, t)
    && CompleteOnlyIfCovered(run, t)
    && (run.realReferences && SparesVersions(run) && Referenced(run.before) ==> Referenced(t))
  }

  ghost predicate RulesHold(x: (Run, Tables)) { StepOk(x.0, x.1) }

  /** The rules, sealed: proofs open them with `Unfold` and hand them on with `Fold`. */
  ghost predicate Held(run: Run, t: Tables) {
    Sealed(RulesHold, (run, t), SealDepth(|run.plan|))
  }

  lemma Unfold(run: Run, t: Tables)
    requires Held(run, t)
    ensures StepOk(run, t)
  {
    SealedIs(RulesHold, (run, t), SealDepth(|run.plan|));
  }

  lemma Fold(run: Run, t: Tables)
    requires StepOk(run, t)
    ensures Held(run, t)
  {
    SealedIs(RulesHold, (run, t), SealDepth(|run.plan|));
  }

  lemma StartOk(run: Run)
    requires Inv(run.before) && run.sid !in run.before.snapshots
    ensures Held(run, run.before)
  {
    Fold(run, run.before);
  }

  lemma CreateSnapshotOk(run: Run, t: Tables, pid: string)
    requires Held(run, t)
    ensures CreateSnapshot(t, run.sid, pid, BackingUp).Some? ==> Held(run, CreateSnapshot(t, run.sid, pid, BackingUp).value)
  {
    Unfold(run, t);
    SnapshotKeepsInv(t, run.sid, pid, BackingUp);
    if CreateSnapshot(t, run.sid, pid, BackingUp).Some? {
      Fold(run, CreateSnapshot(t, run.sid, pid, BackingUp).value);
    }
  }

  lemma SetStatusOk(run: Run, t: Tables, status: BackupStatus)
    requires Held(run, t) && (status == Completed ==> run.mayComplete && Covered(run, t))
    ensures SetStatus(t, run.sid, status).Some? ==> Held(run, SetStatus(t, run.sid, status).value)
  {
    Unfold(run, t);
    SnapshotKeepsInv(t, run.sid, "", status);
    if SetStatus(t, run.sid, status).Some? {
      var u := SetStatus(t, run.sid, status).value;
      CoveredByVersions(run, t, u);
      Fold(run, u);
    }
  }

  lemma CreateFileOk(run: Run, t: Tables, f: FileRecord)
    requires Held(run, t)
    ensures CreateFile(t, f).Some? ==> Held(run, CreateFile(t, f).value)
  {
    Unfold(run, t);
    FileKeepsInv(t, f);
    if CreateFile(t, f).Some? {
      CoveredByVersions(run, t, CreateFile(t, f).value);
      Fold(run, CreateFile(t, f).value);
    }
  }

  lemma UpdateFileOk(run: Run, t: Tables, f: FileRecord)
    requires Held(run, t) && (f.fileId in t.files ==> t.files[f.fileId].relativePath == f.relativePath)
    ensures UpdateFile(t, f).Some? ==> Held(run, UpdateFile(t, f).value)
  {
    Unfold(run, t);
    FileKeepsInv(t, f);
    if UpdateFile(t, f).Some? {
      CoveredByVersions(run, t, UpdateFile(t, f).value);
      Fold(run, UpdateFile(t, f).value);
    }
  }

  /** Coverage depends on snapshots and versions only, and more versions cover more. */
  lemma CoveredByVersions(run: Run, t: Tables, u: Tables)
    requires forall v :: v in t.versions ==> v in u.versions && u.versions[v] == t.versions[v]
    ensures Covered(run, t) ==> Covered(run, u)
  {
    if Covered(run, t) {
      forall i | 0 <= i < |run.plan| && run.plan[i].kind != Deleted ensures HasVersion(u, run.sid, run.plan[i].fileId) {
        VersionStable(t, u, run.sid, run.plan[i].fileId);
      }
    }
  }

  lemma VersionStable(t: Tables, u: Tables, sid: string, fid: string)
    requires HasVersion(t, sid, fid)
    requires forall k :: k in t.versions ==> k in u.versions && u.versions[k] == t.versions[k]
    ensures HasVersion(u, sid, fid)
  {
    var v :| v in t.versions && t.versions[v].snapshotId == sid && t.versions[v].fileId == fid;
    assert v in u.versions && u.versions[v] == t.versions[v];
  }

  lemma DeleteChunksOk(run: Run, t: Tables, fid: string)
    requires Held(run, t)
    ensures Held(run, DeleteChunksByFile(t, fid).value)
  {
    Unfold(run, t);
    DeleteKeepsInv(t, fid);
    CoveredByVersions(run, t, DeleteChunksByFile(t, fid).value);
    Fold(run, DeleteChunksByFile(t, fid).value);
  }

  /** No version names this manifest yet. */
  predicate Unnamed(t: Tables, mid: string) {
    forall v :: v in t.versions ==> t.versions[v].manifestId != mid
  }

  /** Saving a manifest that no version names takes no reference from any version. */
  lemma PutKeepsReferenced(t: Tables, m: M.Manifest)
    requires Referenced(t) && Unnamed(t, m.manifestId) && PutManifest(t, m).Some?
    ensures Referenced(PutManifest(t, m).value)
  {
  }

  /** The run may save this manifest: it is planned, and the rows that name it agree with it. */
  predicate Savable(run: Run, t: Tables, m: M.Manifest) {
    && OwnedId(m.manifestId, m.fileId) && m.manifestId in run.planned
    && (forall k :: k in t.chunks && t.chunks[k].manifestId == m.manifestId ==>
          RowAgrees(t.chunks[k], ManifestRow(m.fileId, m)))
    && (SparesVersions(run) ==> Unnamed(t, m.manifestId))
  }

  lemma PutManifestOk(run: Run, t: Tables, m: M.Manifest)
    requires Held(run, t) && Savable(run, t, m)
    ensures PutManifest(t, m).Some? ==> Held(run, PutManifest(t, m).value)
    ensures PutManifest(t, m).Some? ==>
              PutManifest(t, m).value == t.(manifests := t.manifests[m.manifestId := ManifestRow(m.fileId, m)])
  {
    Unfold(run, t);
    if PutManifest(t, m).Some? {
      PutKeepsInv(t, m);
      PutIsUnderOwnFile(t, m);
      var u := PutManifest(t, m).value;
      CoveredByVersions(run, t, u);
      if run.realReferences && SparesVersions(run) && Referenced(run.before) {
        PutKeepsReferenced(t, m);
      }
      assert Inv(u) && FilesKept(run.before, u) && SnapshotsKept(run, u) && VersionsKept(run, u) && ManifestsKept(run, u);
      Fold(run, u);
    }
  }

  lemma CreateChunkOk(run: Run, t: Tables, c: ChunkRecord)
    requires Held(run, t) && (c.manifestId in t.manifests ==> RowAgrees(c, t.manifests[c.manifestId]))
    ensures CreateChunk(t, c).Some? ==> Held(run, CreateChunk(t, c).value)
  {
    Unfold(run, t);
    ChunkKeepsInv(t, c);
    if CreateChunk(t, c).Some? {
      CoveredByVersions(run, t, CreateChunk(t, c).value);
      Fold(run, CreateChunk(t, c).value);
    }
  }

  lemma CreateVersionOk(run: Run, t: Tables, v: VersionRecord)
    requires Held(run, t) && v.snapshotId == run.sid
    requires v.manifestId in t.manifests ==> t.manifests[v.manifestId].fileId == v.fileId
    requires run.realReferences && SparesVersions(run) && Referenced(run.before) && v.manifestId in t.manifests ==>
               FullyReferenced(t.manifests[v.manifestId].manifest)
    ensures CreateVersion(t, v).Some? ==> Held(run, CreateVersion(t, v).value)
  {
    Unfold(run, t);
    VersionKeepsInv(t, v);
    if CreateVersion(t, v).Some? {
      CoveredByVersions(run, t, CreateVersion(t, v).value);
      Fold(run, CreateVersion(t, v).value);
    }
  }

  lemma UpsertJobOk(run: Run, t: Tables, jobId: string, fid: string, chunkId: string, status: TransferStatus)
    requires Held(run, t)
    ensures UpsertJob(t, jobId, fid, chunkId, status).Some? ==> Held(run, UpsertJob(t, jobId, fid, chunkId, status).value)
  {
    Unfold(run, t);
    JobKeepsInv(t, jobId, fid, chunkId, status);
    if UpsertJob(t, jobId, fid, chunkId, status).Some? {
      CoveredByVersions(run, t, UpsertJob(t, jobId, fid, chunkId, status).value);
      Fold(run, UpsertJob(t, jobId, fid, chunkId, status).value);
    }
  }

  // ----- one file ------------------------------------------------------------------------------

  /** The row that records a manifest entry. */
  function RowFor(fid: string, mid: string, e: M.ChunkManifest): ChunkRecord {
    ChunkRecord(e.chunkId, fid, mid, e.index, e.plaintextSize, e.storedSize, e.digest, e.storageRef)
  }

  /** What a restore reads back: the stored objects of all chunks, in order. */
  function Restored(store: Store, chunks: seq<M.ChunkManifest>): seq<byte> {
    if chunks == [] then []
    else
      var last := chunks[|chunks| - 1].storageRef;
      Restored(store, chunks[..|chunks| - 1]) + (if last in store then store[last] else [])
  }

  /** The chunk rows of a file are exactly the entries of its manifest, references included. */
  predicate RowsAreEntries(t: Tables, fid: string, mid: string) {
    && mid in t.manifests && t.manifests[mid].fileId == fid
    && var chunks := t.manifests[mid].manifest.chunks;
       && (forall i :: 0 <= i < |chunks| ==>
             && chunks[i].index == i && chunks[i].chunkId in t.chunks
             && t.chunks[chunks[i].chunkId] == RowFor(fid, mid, chunks[i]))
       && (forall k :: k in t.chunks && t.chunks[k].fileId == fid ==>
             t.chunks[k].chunkIndex < |chunks| && chunks[t.chunks[k].chunkIndex].chunkId == k)
  }

  /** All chunks of a manifest are stored under real references and read back as the content. */
  predicate Restorable(store: Store, m: M.Manifest, content: seq<byte>) {
    && (forall i :: 0 <= i < |m.chunks| ==> m.chunks[i].storageRef != M.Pending && m.chunks[i].storageRef in store)
    && Restored(store, m.chunks) == content
  }

  /** The catalog row of a scanned file records this scan. */
  predicate RowFresh(t: Tables, c: FileChange) {
    && c.scanned.Some? && c.fileId in t.files
    && t.files[c.fileId].relativePath == c.relativePath
    && SameContent(c.scanned.value, t.files[c.fileId])
  }

  /** A transferred file is stored in so many parts and described under manifest `mid`. */
  predicate Stored(run: Run, t: Tables, store: Store, fid: string, mid: string, content: seq<byte>, parts: nat) {
    RowsAreEntries(t, fid, mid) && OwnedId(mid, fid) && |t.manifests[mid].manifest.chunks| == parts &&
    (run.realReferences ==> Restorable(store, t.manifests[mid].manifest, content))
  }

  // ----- what processing one file leaves alone -------------------------------------------------

  /** From t to u only rows of one file changed; versions were only added, for that file. */
  predicate OnlyFile(run: Run, t: Tables, u: Tables, fid: string) {
    && u.profiles == t.profiles && u.snapshots == t.snapshots
    && (forall k :: k != fid && k in u.files ==> k in t.files)
    && (forall k :: k != fid && k in t.files ==> k in u.files && u.files[k] == t.files[k])
    && (forall k :: k in t.manifests && !OwnedId(k, fid) ==> k in u.manifests && u.manifests[k] == t.manifests[k])
    && (forall k :: k in t.chunks && t.chunks[k].fileId != fid ==> k in u.chunks && u.chunks[k] == t.chunks[k])
    && (forall k :: k in u.chunks && u.chunks[k].fileId != fid ==> k in t.chunks && t.chunks[k] == u.chunks[k])
    && (forall k :: k in t.versions ==> k in u.versions && u.versions[k] == t.versions[k])
    && (forall k :: k in u.versions && k !in t.versions ==> u.versions[k].fileId == fid && u.versions[k].snapshotId == run.sid)
  }

  predicate StoreKept(a: Store, b: Store) {
    forall k :: k in a ==> k in b && b[k] == a[k]
  }

  lemma {:induction false} RestoredStable(a: Store, b: Store, chunks: seq<M.ChunkManifest>)
    requires StoreKept(a, b) && forall i :: 0 <= i < |chunks| ==> chunks[i].storageRef in a
    ensures Restored(b, chunks) == Restored(a, chunks)
  {
    if chunks != [] {
      RestoredStable(a, b, chunks[..|chunks| - 1]);
    }
  }

  /** What was achieved for one file survives the processing of another. */
  lemma StoredStable(run: Run, t: Tables, u: Tables, a: Store, b: Store, fid: string, mid: string, content: seq<byte>,
                    parts: nat, other: string)
    requires Stored(run, t, a, fid, mid, content, parts) && OnlyFile(run, t, u, other) && other != fid
    requires run.realReferences ==> StoreKept(a, b)
    ensures Stored(run, u, b, fid, mid, content, parts)
  {
    if OwnedId(mid, other) {
      OwnerUnique(mid, fid, other);
    }
    assert u.manifests[mid] == t.manifests[mid];
    if run.realReferences {
      RestoredStable(a, b, t.manifests[mid].manifest.chunks);
    }
  }

  // ----- the chunk loop ------------------------------------------------------------------------

  /** The same manifest with other storage references. */
  predicate SameButRefs(m: M.Manifest, base: M.Manifest) {
    && m == base.(chunks := m.chunks) && |m.chunks| == |base.chunks|
    && forall i :: 0 <= i < |m.chunks| ==> m.chunks[i] == base.chunks[i].(storageRef := m.chunks[i].storageRef)
  }

  /** From a to b exactly the rows of the first n entries were added. */
  predicate RowsAdded(a: map<string, ChunkRecord>, b: map<string, ChunkRecord>, fid: string, mid: string,
                      chunks: seq<M.ChunkManifest>, n: nat)
  {
    && n <= |chunks|
    && (forall k :: k in a ==> k in b && b[k] == a[k])
    && (forall i :: 0 <= i < n ==> chunks[i].chunkId in b && b[chunks[i].chunkId] == RowFor(fid, mid, chunks[i]))
    && (forall k :: k in b && k !in a ==>
          b[k].fileId == fid && b[k].chunkIndex < n && chunks[b[k].chunkIndex].chunkId == k)
  }

  lemma RowsAddedNext(a: map<string, ChunkRecord>, b: map<string, ChunkRecord>, fid: string, mid: string,
                      chunks: seq<M.ChunkManifest>, n: nat, r: M.StorageRef)
    requires RowsAdded(a, b, fid, mid, chunks, n) && n < |chunks| && chunks[n].index == n
    requires chunks[n].chunkId !in b
    ensures var e := chunks[n].(storageRef := r);
            RowsAdded(a, b[e.chunkId := RowFor(fid, mid, e)], fid, mid, chunks[n := e], n + 1)
  {
  }

  /** The first n entries hold real references to the staged payloads. */
  predicate Landed(store: Store, entries: seq<M.ChunkManifest>, chunks: seq<P.ProcessedChunk>, n: nat) {
    && n <= |entries| && n <= |chunks|
    && forall i :: 0 <= i < n ==>
         && entries[i].storageRef != M.Pending && entries[i].storageRef in store
         && store[entries[i].storageRef] == chunks[i].staged
  }

  lemma LandedNext(a: Store, b: Store, entries: seq<M.ChunkManifest>, chunks: seq<P.ProcessedChunk>, n: nat, r: M.StorageRef)
    requires Landed(a, entries, chunks, n) && n < |entries| && n < |chunks| && StoreKept(a, b)
    requires r != M.Pending && r in b && b[r] == chunks[n].staged
    ensures Landed(b, entries[n := entries[n].(storageRef := r)], chunks, n + 1)
  {
  }

  /** Once every entry has landed, a restore reads back what was staged. */
  lemma {:induction false} LandedRestores(store: Store, entries: seq<M.ChunkManifest>, chunks: seq<P.ProcessedChunk>, n: nat)
    requires |entries| == |chunks| && Landed(store, entries, chunks, |chunks|) && n <= |chunks|
    ensures Restored(store, entries[..n]) == P.Concat(chunks[..n])
    decreases n
  {
    if n > 0 {
      LandedRestores(store, entries, chunks, n - 1);
      assert entries[..n][..n - 1] == entries[..n - 1];
      assert chunks[..n][..n - 1] == chunks[..n - 1];
    }
  }

  // ----- facts used between the statements of one file -----------------------------------------

  /** The file has no chunk rows. */
  predicate NoRows(t: Tables, fid: string) {
    forall k :: k in t.chunks ==> t.chunks[k].fileId != fid
  }

  /** This run has not bound a version of the file yet. */
  predicate NoVersionYet(run: Run, t: Tables, fid: string) {
    forall v :: v in t.versions && v !in run.before.versions ==> t.versions[v].fileId != fid
  }

  /** Without rows of the file, no row names one of its manifests. */
  lemma NoRowsName(run: Run, t: Tables, fid: string, mid: string)
    requires Held(run, t) && OwnedId(mid, fid) && NoRows(t, fid)
    ensures forall k :: k in t.chunks ==> t.chunks[k].manifestId != mid
  {
    Unfold(run, t);
    forall k | k in t.chunks && t.chunks[k].manifestId == mid ensures false {
      OwnerUnique(mid, fid, t.manifests[mid].fileId);
    }
  }

  /** A manifest that is new to the catalog is named only by versions this run bound for its file. */
  lemma UnnamedYet(run: Run, t: Tables, fid: string, mid: string)
    requires Held(run, run.before) && Held(run, t) && NoVersionYet(run, t, fid)
    requires OwnedId(mid, fid) && mid in run.planned && SparesVersions(run)
    ensures Unnamed(t, mid)
  {
    Unfold(run, run.before);
    Unfold(run, t);
    forall v | v in t.versions && t.versions[v].manifestId == mid ensures false {
      OwnerUnique(mid, fid, t.manifests[mid].fileId);
    }
  }

  /** The rows of the transferred chunks agree with the manifest that holds their references. */
  lemma AddedRowsAgree(run: Run, a: Tables, t: Tables, fid: string, m: M.Manifest)
    requires Held(run, a) && NoRows(a, fid) && OwnedId(m.manifestId, fid) && m.fileId == fid
    requires RowsAdded(a.chunks, t.chunks, fid, m.manifestId, m.chunks, |m.chunks|)
    requires forall i :: 0 <= i < |m.chunks| ==> m.chunks[i].index == i
    ensures forall k :: k in t.chunks && t.chunks[k].manifestId == m.manifestId ==>
              RowAgrees(t.chunks[k], ManifestRow(fid, m))
  {
    NoRowsName(run, a, fid, m.manifestId);
    forall k | k in t.chunks && t.chunks[k].manifestId == m.manifestId ensures RowAgrees(t.chunks[k], ManifestRow(fid, m)) {
      if k !in a.chunks {
        var i := t.chunks[k].chunkIndex;
        assert m.chunks[i].chunkId == k;
      }
    }
  }

  lemma AddedRowsAreEntries(a: Tables, t: Tables, fid: string, m: M.Manifest)
    requires NoRows(a, fid)
    requires RowsAdded(a.chunks, t.chunks, fid, m.manifestId, m.chunks, |m.chunks|)
    requires m.manifestId in t.manifests && t.manifests[m.manifestId] == ManifestRow(fid, m)
    requires forall i :: 0 <= i < |m.chunks| ==> m.chunks[i].index == i
    ensures RowsAreEntries(t, fid, m.manifestId)
  {
  }

  // ----- recording a file ----------------------------------------------------------------------

  /** The row the run writes for a scanned file. */
  function FileRow(fid: string, pid: string, scanned: ScannedFile, hash: string): FileRecord {
    FileRecord(fid, Some(pid), scanned.fileName, scanned.relativePath, scanned.sizeBytes, "backed_up", Some(hash),
               Some(scanned.modifiedAt))
  }

  /** The file's row is the one this run writes; a known file keeps its profile. */
  predicate RowWritten(run: Run, t: Tables, c: FileChange, hash: string) {
    && c.scanned.Some? && c.fileId in t.files
    && var row := t.files[c.fileId];
       var s := c.scanned.value;
       && row == FileRecord(c.fileId, row.profileId, s.fileName, s.relativePath, s.sizeBytes, "backed_up", Some(hash), Some(s.modifiedAt))
       && (c.kind == New ==> row.profileId == Some(run.pid))
  }

  /** A new file takes an identifier and a path that no row of its profile has. */
  predicate Unclaimed(run: Run, t: Tables, c: FileChange) {
    c.kind == New ==> c.fileId !in t.files && !PathTaken(t.files, Some(run.pid), c.relativePath, c.fileId)
  }

  /** From t to u the file's row was written for this scan and its chunk rows are gone. */
  predicate Recorded(run: Run, t: Tables, u: Tables, c: FileChange, hash: string) {
    && u == t.(files := u.files, chunks := u.chunks)
    && OnlyFile(run, t, u, c.fileId)
    && RowFresh(u, c) && RowWritten(run, u, c, hash)
    && NoRows(u, c.fileId)
    && Unclaimed(run, t, c)
  }

  lemma CreatedIsRecorded(run: Run, t: Tables, c: FileChange, hash: string)
    requires Held(run, t) && c.kind == New && c.scanned.Some? && c.scanned.value.relativePath == c.relativePath
    requires CreateFile(t, FileRow(c.fileId, run.pid, c.scanned.value, hash)).Some?
    ensures Recorded(run, t, CreateFile(t, FileRow(c.fileId, run.pid, c.scanned.value, hash)).value, c, hash)
  {
    Unfold(run, t);
  }

  lemma UpdatedIsRecorded(run: Run, t: Tables, c: FileChange, hash: string)
    requires c.kind == Modified && c.scanned.Some? && c.scanned.value.relativePath == c.relativePath
    requires UpdateFile(t, FileRow(c.fileId, run.pid, c.scanned.value, hash)).Some?
    ensures var u := UpdateFile(t, FileRow(c.fileId, run.pid, c.scanned.value, hash)).value;
            Recorded(run, t, DeleteChunksByFile(u, c.fileId).value, c, hash)
  {
  }

  /** A recorded new file cannot have a version yet: its row did not exist. */
  lemma RecordedNoVersion(run: Run, t: Tables, u: Tables, c: FileChange, hash: string)
    requires Held(run, t) && Recorded(run, t, u, c, hash) && (c.kind == New || NoVersionYet(run, t, c.fileId))
    ensures NoVersionYet(run, u, c.fileId)
  {
    Unfold(run, t);
  }

  // ----- a transferred file --------------------------------------------------------------------

  /** From t to u, with the provider's store, one change was carried out under manifest `mid`. */
  predicate Transferred(run: Run, t: Tables, u: Tables, store: Store, c: FileChange, hash: string, mid: string,
                        content: seq<byte>, parts: nat, vid: string)
  {
    && OnlyFile(run, t, u, c.fileId)
    && RowFresh(u, c) && RowWritten(run, u, c, hash)
    && Stored(run, u, store, c.fileId, mid, content, parts)
    && vid !in t.versions && u.versions == t.versions[vid := VersionRecord(vid, c.fileId, run.sid, mid, "active")]
    && Unclaimed(run, t, c)
  }

  /** Recording, saving, transferring, saving again and binding add up to a transferred file. */
  lemma TransferAddsUp(run: Run, t: Tables, a: Tables, u: Tables, store: Store, c: FileChange, hash: string,
                       m: M.Manifest, content: seq<byte>, vid: string)
    requires Recorded(run, t, a, c, hash) && OwnedId(m.manifestId, c.fileId)
    requires RowsAdded(a.chunks, u.chunks, c.fileId, m.manifestId, m.chunks, |m.chunks|)
    requires vid !in t.versions
    requires u == a.(chunks := u.chunks, jobs := u.jobs,
                     manifests := a.manifests[m.manifestId := ManifestRow(c.fileId, m)],
                     versions := a.versions[vid := VersionRecord(vid, c.fileId, run.sid, m.manifestId, "active")])
    requires run.realReferences ==> Restorable(store, m, content)
    requires forall i :: 0 <= i < |m.chunks| ==> m.chunks[i].index == i
    ensures Transferred(run, t, u, store, c, hash, m.manifestId, content, |m.chunks|, vid)
  {
    AddedRowsAreEntries(a, u, c.fileId, m);
  }
}
