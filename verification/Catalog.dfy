/**
 The catalog as tables with their key, uniqueness and reference constraints. A statement maps the
 tables to the new tables, or to nothing when a constraint fails or no row is found.
 */
module Catalog {
  import opened Wrappers
  import opened ChangeDetector
  import M = Manifest
  import P = Pipeline

  datatype BackupStatus = Idle | Scanning | BackingUp | Completed | Failed | Cancelled

  datatype TransferStatus = TransferPending | Transferring | Paused | TransferCompleted | TransferFailed | TransferCancelled

  datatype SnapshotRecord = SnapshotRecord(snapshotId: string, profileId: string, status: BackupStatus)

  /** The serialized manifest and the file column beside it. */
  datatype ManifestRow = ManifestRow(fileId: string, manifest: M.Manifest)

  datatype ChunkRecord = ChunkRecord(
    chunkId: string,
    fileId: string,
    manifestId: string,
    chunkIndex: nat,
    plaintextSize: nat,
    storedSize: nat,
    integrityHash: string,
    storageReference: M.StorageRef)

  datatype Tables = Tables(
    profiles: set<string>,
    files: map<string, FileRecord>,
    manifests: map<string, ManifestRow>,
    chunks: map<string, ChunkRecord>,
    snapshots: map<string, SnapshotRecord>,
    versions: map<string, VersionRecord>,
    jobs: map<string, TransferStatus>)

  // ----- statements ----------------------------------------------------------------------------

  function CreateSnapshot(t: Tables, sid: string, pid: string, status: BackupStatus): Option<Tables> {
    if sid in t.snapshots || pid !in t.profiles then None
    else Some(t.(snapshots := t.snapshots[sid := SnapshotRecord(sid, pid, status)]))
  }

  function SetStatus(t: Tables, sid: string, status: BackupStatus): Option<Tables> {
    if sid !in t.snapshots then None
    else Some(t.(snapshots := t.snapshots[sid := t.snapshots[sid].(status := status)]))
  }

  /** Another row of the same profile already has this path. */
  predicate PathTaken(files: map<string, FileRecord>, profile: Option<string>, path: string, except: string) {
    profile.Some? &&
    exists k :: k in files && k != except && files[k].profileId == profile && files[k].relativePath == path
  }

  function CreateFile(t: Tables, f: FileRecord): Option<Tables> {
    if f.fileId in t.files || PathTaken(t.files, f.profileId, f.relativePath, f.fileId) then None
    else if f.profileId.Some? && f.profileId.value !in t.profiles then None
    else Some(t.(files := t.files[f.fileId := f]))
  }

  /** Every column but the identifier and the profile is overwritten. */
  function UpdateFile(t: Tables, f: FileRecord): Option<Tables> {
    if f.fileId !in t.files then None
    else
      var row := f.(profileId := t.files[f.fileId].profileId);
      if PathTaken(t.files, row.profileId, row.relativePath, f.fileId) then None
      else Some(t.(files := t.files[f.fileId := row]))
  }

  function DeleteChunksByFile(t: Tables, fid: string): Option<Tables> {
    Some(t.(chunks := map c | c in t.chunks && t.chunks[c].fileId != fid :: t.chunks[c]))
  }

  /** Stores an already validated manifest; a known identifier keeps its file column. */
  function PutManifest(t: Tables, m: M.Manifest): Option<Tables> {
    if m.manifestId in t.manifests then
      Some(t.(manifests := t.manifests[m.manifestId := t.manifests[m.manifestId].(manifest := m)]))
    else if m.fileId !in t.files then None
    else Some(t.(manifests := t.manifests[m.manifestId := ManifestRow(m.fileId, m)]))
  }

  /** Another row of the same file already has this index. */
  predicate IndexTaken(chunks: map<string, ChunkRecord>, fid: string, index: nat, except: string) {
    exists k :: k in chunks && k != except && chunks[k].fileId == fid && chunks[k].chunkIndex == index
  }

  function CreateChunk(t: Tables, c: ChunkRecord): Option<Tables> {
    if c.chunkId in t.chunks || c.fileId !in t.files || c.manifestId !in t.manifests then None
    else if IndexTaken(t.chunks, c.fileId, c.chunkIndex, c.chunkId) then None
    else Some(t.(chunks := t.chunks[c.chunkId := c]))
  }

  function CreateVersion(t: Tables, v: VersionRecord): Option<Tables> {
    if v.versionId in t.versions || v.fileId !in t.files then None
    else if v.snapshotId !in t.snapshots || v.manifestId !in t.manifests then None
    else Some(t.(versions := t.versions[v.versionId := v]))
  }

  function UpsertJob(t: Tables, jobId: string, fid: string, chunkId: string, status: TransferStatus): Option<Tables> {
    if fid !in t.files || chunkId !in t.chunks then None
    else Some(t.(jobs := t.jobs[jobId := status]))
  }

  // ----- what the catalog keeps ----------------------------------------------------------------

  /** A manifest identifier made for a file: "man-", the file, "-", and 16 digest characters. */
  predicate OwnedId(mid: string, fid: string) {
    |mid| == 21 + |fid| && mid[..5 + |fid|] == "man-" + fid + "-"
  }

  lemma OwnerUnique(mid: string, a: string, b: string)
    requires OwnedId(mid, a) && OwnedId(mid, b)
    ensures a == b
  {
    var n := 5 + |a|;
    assert ("man-" + a + "-")[4..4 + |a|] == a;
    assert ("man-" + b + "-")[4..4 + |b|] == b;
  }

  lemma PipelineIdOwned(fid: string, hash: string)
    requires |hash| >= 16
    ensures OwnedId(P.ManifestIdOf(fid, hash), fid)
  {
  }

  /** Rows sit under their keys and every reference has its target. */
  predicate Keyed(t: Tables) {
    && (forall k :: k in t.files ==> t.files[k].fileId == k)
    && (forall k :: k in t.manifests ==> t.manifests[k].manifest.manifestId == k && t.manifests[k].fileId in t.files)
    && (forall k :: k in t.chunks ==> t.chunks[k].chunkId == k && t.chunks[k].fileId in t.files)
    && (forall k :: k in t.versions ==>
          t.versions[k].versionId == k && t.versions[k].fileId in t.files && t.versions[k].snapshotId in t.snapshots)
  }

  /** A chunk row agrees with the entry of a manifest on file, index, identifier, sizes and hash. */
  predicate RowAgrees(c: ChunkRecord, row: ManifestRow) {
    && c.fileId == row.fileId
    && c.chunkIndex < |row.manifest.chunks|
    && var e := row.manifest.chunks[c.chunkIndex];
       e.chunkId == c.chunkId && e.index == c.chunkIndex && e.plaintextSize == c.plaintextSize &&
       e.storedSize == c.storedSize && e.digest == c.integrityHash
  }

  /** Every chunk row agrees with the manifest it names. */
  predicate ChunksAgree(t: Tables) {
    forall k :: k in t.chunks ==> t.chunks[k].manifestId in t.manifests && RowAgrees(t.chunks[k], t.manifests[t.chunks[k].manifestId])
  }

  /** Manifest identifiers belong to their file, and a version's manifest belongs to its file. */
  predicate Owned(t: Tables) {
    && (forall k :: k in t.manifests ==> OwnedId(k, t.manifests[k].fileId))
    && (forall k :: k in t.versions ==>
          t.versions[k].manifestId in t.manifests &&
          t.manifests[t.versions[k].manifestId].fileId == t.versions[k].fileId)
  }

  /** No two rows of one profile have the same path. */
  predicate PathsUnique(files: map<string, FileRecord>) {
    forall k :: k in files ==> !PathTaken(files, files[k].profileId, files[k].relativePath, k)
  }

  /** No two chunk rows of one file have the same index. */
  predicate IndicesUnique(chunks: map<string, ChunkRecord>) {
    forall k :: k in chunks ==> !IndexTaken(chunks, chunks[k].fileId, chunks[k].chunkIndex, k)
  }

  /** Rows of files and snapshots belong to known profiles. */
  predicate ProfilesKnown(t: Tables) {
    && (forall k :: k in t.files && t.files[k].profileId.Some? ==> t.files[k].profileId.value in t.profiles)
    && (forall k :: k in t.snapshots ==> t.snapshots[k].profileId in t.profiles)
  }

  predicate Inv(t: Tables) {
    Keyed(t) && ChunksAgree(t) && Owned(t) && PathsUnique(t.files) && IndicesUnique(t.chunks) && ProfilesKnown(t)
  }

  // ----- statements keep the invariant ---------------------------------------------------------

  lemma SnapshotKeepsInv(t: Tables, sid: string, pid: string, status: BackupStatus)
    requires Inv(t)
    ensures CreateSnapshot(t, sid, pid, status).Some? ==> Inv(CreateSnapshot(t, sid, pid, status).value)
    ensures SetStatus(t, sid, status).Some? ==> Inv(SetStatus(t, sid, status).value)
  {
  }

  lemma FileKeepsInv(t: Tables, f: FileRecord)
    requires Inv(t)
    ensures CreateFile(t, f).Some? ==> Inv(CreateFile(t, f).value)
    ensures UpdateFile(t, f).Some? ==> Inv(UpdateFile(t, f).value)
  {
    if CreateFile(t, f).Some? {
      PutKeepsUnique(t.files, f);
    }
    if UpdateFile(t, f).Some? {
      PutKeepsUnique(t.files, f.(profileId := t.files[f.fileId].profileId));
    }
  }

  /** A row in a free place keeps the paths of its profile unique. */
  lemma PutKeepsUnique(files: map<string, FileRecord>, f: FileRecord)
    requires PathsUnique(files) && !PathTaken(files, f.profileId, f.relativePath, f.fileId)
    ensures PathsUnique(files[f.fileId := f])
  {
  }

  /** A row that keeps its path can always be rewritten. */
  lemma RewriteNotRefused(t: Tables, f: FileRecord)
    requires Inv(t) && f.fileId in t.files && t.files[f.fileId].relativePath == f.relativePath
    ensures UpdateFile(t, f) == Some(t.(files := t.files[f.fileId := f.(profileId := t.files[f.fileId].profileId)]))
  {
  }

  lemma DeleteKeepsInv(t: Tables, fid: string)
    requires Inv(t)
    ensures Inv(DeleteChunksByFile(t, fid).value)
    ensures forall k :: k in DeleteChunksByFile(t, fid).value.chunks ==> t.chunks[k].fileId != fid
  {
    FewerKeepUnique(t.chunks, DeleteChunksByFile(t, fid).value.chunks);
  }

  lemma FewerKeepUnique(chunks: map<string, ChunkRecord>, fewer: map<string, ChunkRecord>)
    requires IndicesUnique(chunks) && forall k :: k in fewer ==> k in chunks && fewer[k] == chunks[k]
    ensures IndicesUnique(fewer)
  {
  }

  lemma OneMoreKeepsUnique(chunks: map<string, ChunkRecord>, c: ChunkRecord)
    requires IndicesUnique(chunks) && c.chunkId !in chunks && !IndexTaken(chunks, c.fileId, c.chunkIndex, c.chunkId)
    ensures IndicesUnique(chunks[c.chunkId := c])
  {
  }

  lemma SameKeyKeepsUnique(chunks: map<string, ChunkRecord>, k: string, c: ChunkRecord)
    requires IndicesUnique(chunks) && k in chunks && c.fileId == chunks[k].fileId && c.chunkIndex == chunks[k].chunkIndex
    ensures IndicesUnique(chunks[k := c])
  {
  }

  /** Saving a file's manifest stores it under that file, new or not. */
  lemma PutIsUnderOwnFile(t: Tables, m: M.Manifest)
    requires Owned(t) && OwnedId(m.manifestId, m.fileId) && PutManifest(t, m).Some?
    ensures PutManifest(t, m).value == t.(manifests := t.manifests[m.manifestId := ManifestRow(m.fileId, m)])
  {
    if m.manifestId in t.manifests {
      OwnerUnique(m.manifestId, m.fileId, t.manifests[m.manifestId].fileId);
    }
  }

  /** Saving keeps the invariant if the rows that name this manifest agree with its new content. */
  lemma PutKeepsInv(t: Tables, m: M.Manifest)
    requires Inv(t) && OwnedId(m.manifestId, m.fileId) && PutManifest(t, m).Some?
    requires forall k :: k in t.chunks && t.chunks[k].manifestId == m.manifestId ==>
               RowAgrees(t.chunks[k], ManifestRow(m.fileId, m))
    ensures Inv(PutManifest(t, m).value)
  {
    PutIsUnderOwnFile(t, m);
    var u := PutManifest(t, m).value;
    if m.manifestId in t.manifests {
      OwnerUnique(m.manifestId, m.fileId, t.manifests[m.manifestId].fileId);
    }
    assert Keyed(u);
    assert Owned(u);
  }

  lemma ChunkKeepsInv(t: Tables, c: ChunkRecord)
    requires Inv(t)
    requires c.manifestId in t.manifests ==> RowAgrees(c, t.manifests[c.manifestId])
    ensures CreateChunk(t, c).Some? ==> Inv(CreateChunk(t, c).value)
  {
    if CreateChunk(t, c).Some? {
      OneMoreKeepsUnique(t.chunks, c);
    }
  }

  lemma VersionKeepsInv(t: Tables, v: VersionRecord)
    requires Inv(t)
    requires v.manifestId in t.manifests ==> t.manifests[v.manifestId].fileId == v.fileId
    ensures CreateVersion(t, v).Some? ==> Inv(CreateVersion(t, v).value)
  {
  }

  lemma JobKeepsInv(t: Tables, jobId: string, fid: string, chunkId: string, status: TransferStatus)
    requires Inv(t)
    ensures UpsertJob(t, jobId, fid, chunkId, status).Some? ==> Inv(UpsertJob(t, jobId, fid, chunkId, status).value)
  {
  }

  // ----- startup reconciliation ----------------------------------------------------------------

  predicate InFlight(s: BackupStatus) {
    s == Scanning || s == BackingUp
  }

  /** One transaction: in-flight snapshots and transferring jobs become failed; counts of both. */
  function Reconcile(t: Tables): (Tables, nat, nat) {
    var snaps := set k | k in t.snapshots && InFlight(t.snapshots[k].status);
    var jobs := set k | k in t.jobs && t.jobs[k] == Transferring;
    (t.(snapshots := map k | k in t.snapshots ::
          if InFlight(t.snapshots[k].status) then t.snapshots[k].(status := Failed) else t.snapshots[k],
        jobs := map k | k in t.jobs :: if t.jobs[k] == Transferring then TransferFailed else t.jobs[k]),
     |snaps|, |jobs|)
  }

  /**
   Reconciliation fails exactly the snapshots that were scanning or being backed up and the jobs that
   were transferring, keeps every other row and counts both kinds.
   */
  lemma ReconcileFailsInterrupted(t: Tables)
    ensures var (u, n, j) := Reconcile(t);
            && u == t.(snapshots := u.snapshots, jobs := u.jobs)
            && u.snapshots.Keys == t.snapshots.Keys && u.jobs.Keys == t.jobs.Keys
            && (forall k :: k in t.snapshots ==>
                  u.snapshots[k] == if t.snapshots[k].status in {Scanning, BackingUp}
                                    then SnapshotRecord(t.snapshots[k].snapshotId, t.snapshots[k].profileId, Failed)
                                    else t.snapshots[k])
            && (forall k :: k in t.jobs ==> u.jobs[k] == if t.jobs[k] == Transferring then TransferFailed else t.jobs[k])
            && n == |set k | k in t.snapshots && t.snapshots[k].status in {Scanning, BackingUp}|
            && j == |set k | k in t.jobs && t.jobs[k] == Transferring|
  {
    assert (set k | k in t.snapshots && t.snapshots[k].status in {Scanning, BackingUp}) ==
           (set k | k in t.snapshots && InFlight(t.snapshots[k].status));
  }

  /** After reconciliation nothing is in flight, and doing it again changes and counts nothing. */
  lemma ReconcileSettles(t: Tables)
    ensures var (u, n, j) := Reconcile(t);
            && (forall k :: k in u.snapshots ==> !InFlight(u.snapshots[k].status))
            && (forall k :: k in u.jobs ==> u.jobs[k] != Transferring)
            && Reconcile(u) == (u, 0, 0)
            && (forall k :: k in u.snapshots && u.snapshots[k].status == Completed ==>
                  k in t.snapshots && t.snapshots[k].status == Completed)
            && u.files == t.files && u.manifests == t.manifests && u.chunks == t.chunks && u.versions == t.versions
  {
    var u := Reconcile(t).0;
    assert (set k | k in u.snapshots && InFlight(u.snapshots[k].status)) == {};
    assert (set k | k in u.jobs && u.jobs[k] == Transferring) == {};
    var w := Reconcile(u).0;
    assert w.snapshots == u.snapshots;
    assert w.jobs == u.jobs;
  }

  lemma ReconcileKeepsInv(t: Tables)
    requires Inv(t)
    ensures Inv(Reconcile(t).0)
  {
  }

  // ----- pruning -------------------------------------------------------------------------------

  /** The versions bound to a snapshot. */
  function VersionsOf(versions: map<string, VersionRecord>, sid: string): set<string> {
    set v | v in versions && versions[v].snapshotId == sid
  }

  /** Deletes one snapshot and its versions. */
  function PruneOne(t: Tables, sid: string): Option<Tables> {
    if sid !in t.snapshots then None
    else Some(t.(versions := t.versions - VersionsOf(t.versions, sid), snapshots := t.snapshots - {sid}))
  }

  /** The batch: each identifier in turn, and nothing at all if one of them is unknown. */
  function PruneAll(t: Tables, sids: seq<string>): Option<Tables>
    decreases |sids|
  {
    if sids == [] then Some(t)
    else
      var init := PruneAll(t, sids[..|sids| - 1]);
      if init.None? then None else PruneOne(init.value, sids[|sids| - 1])
  }

  function Keep(versions: map<string, VersionRecord>, gone: set<string>): map<string, VersionRecord> {
    map v | v in versions && versions[v].snapshotId !in gone :: versions[v]
  }

  /** The tables without a set of snapshots and without their versions. */
  function Pruned(t: Tables, gone: set<string>): Tables {
    t.(versions := Keep(t.versions, gone), snapshots := t.snapshots - gone)
  }

  /** Pruning any set of snapshots keeps the invariant: no reference dangles. */
  lemma PrunedKeepsInv(t: Tables, gone: set<string>)
    requires Inv(t)
    ensures Inv(Pruned(t, gone))
  {
  }

  lemma KeepMore(versions: map<string, VersionRecord>, gone: set<string>, sid: string)
    ensures Keep(versions, gone) - VersionsOf(Keep(versions, gone), sid) == Keep(versions, gone + {sid})
  {
    var a, b := Keep(versions, gone) - VersionsOf(Keep(versions, gone), sid), Keep(versions, gone + {sid});
    assert forall v :: v in a <==> v in b;
  }

  lemma PruneOneMore(t: Tables, gone: set<string>, sid: string)
    ensures PruneOne(Pruned(t, gone), sid) ==
            if sid in t.snapshots && sid !in gone then Some(Pruned(t, gone + {sid})) else None
  {
    KeepMore(t.versions, gone, sid);
    assert t.snapshots - gone - {sid} == t.snapshots - (gone + {sid});
  }

  lemma RemovedCount(m: map<string, VersionRecord>, gone: set<string>)
    requires gone <= m.Keys
    ensures |gone| == |m| - |m - gone|
  {
    assert (m - gone).Keys == m.Keys - gone;
    assert m.Keys == (m - gone).Keys + gone;
  }

  ghost function Elements(sids: seq<string>): set<string> {
    if sids == [] then {} else Elements(sids[..|sids| - 1]) + {sids[|sids| - 1]}
  }

  lemma {:induction false} ElementsAreMembers(sids: seq<string>)
    ensures forall k :: k in Elements(sids) <==> k in sids
  {
    if sids != [] {
      var init := sids[..|sids| - 1];
      ElementsAreMembers(init);
      assert sids == init + [sids[|sids| - 1]];
    }
  }

  /** Known identifiers, none repeated. */
  ghost predicate Prunable(t: Tables, sids: seq<string>) {
    && (forall i :: 0 <= i < |sids| ==> sids[i] in t.snapshots)
    && (forall i, j :: 0 <= i < j < |sids| ==> sids[i] != sids[j])
  }

  lemma PrunableNext(t: Tables, sids: seq<string>)
    requires sids != []
    ensures var init := sids[..|sids| - 1]; var last := sids[|sids| - 1];
            Prunable(t, sids) <==> Prunable(t, init) && last in t.snapshots && last !in init
  {
    var init := sids[..|sids| - 1];
    var last := sids[|sids| - 1];
    assert forall i :: 0 <= i < |init| ==> init[i] == sids[i];
    if Prunable(t, init) && last in t.snapshots && last !in init {
      forall i, j | 0 <= i < j < |sids| ensures sids[i] != sids[j] {
        if j < |init| { assert init[i] != init[j]; } else { assert init[i] in init; }
      }
    }
  }

  /**
   A pruned batch loses exactly its snapshots and their versions; it is refused exactly when an
   identifier is unknown or repeated.
   */
  lemma {:induction false} PruneRemovesExactly(t: Tables, sids: seq<string>)
    ensures PruneAll(t, sids) == if Prunable(t, sids) then Some(Pruned(t, Elements(sids))) else None
    decreases |sids|
  {
    if sids == [] {
      assert Keep(t.versions, {}) == t.versions;
      assert t.snapshots - {} == t.snapshots;
    } else {
      var init, last := sids[..|sids| - 1], sids[|sids| - 1];
      PruneRemovesExactly(t, init);
      PrunableNext(t, sids);
      ElementsAreMembers(init);
      PruneOneMore(t, Elements(init), last);
    }
  }

  /** A batch is not prunable if one of its beginnings is refused. */
  lemma PrefixNotPrunable(t: Tables, sids: seq<string>, n: nat)
    requires n <= |sids| && PruneAll(t, sids[..n]).None?
    ensures !Prunable(t, sids)
  {
    PruneRemovesExactly(t, sids[..n]);
  }

  // ----- chunk repair --------------------------------------------------------------------------

  /** The chunk row and an already validated manifest are replaced together, or nothing is. */
  function ApplyChunkRepair(t: Tables, chunkId: string, ref: M.StorageRef, hash: string, size: nat, m: M.Manifest): Option<Tables> {
    if chunkId !in t.chunks || m.manifestId !in t.manifests then None
    else Some(t.(chunks := t.chunks[chunkId := RepairedRow(t.chunks[chunkId], ref, hash, size)],
                 manifests := t.manifests[m.manifestId := t.manifests[m.manifestId].(manifest := m)]))
  }

  function RepairedRow(c: ChunkRecord, ref: M.StorageRef, hash: string, size: nat): ChunkRecord {
    c.(storageReference := ref, integrityHash := hash, storedSize := size)
  }

  /** The manifest with one entry's reference, hash and stored size replaced. */
  function RepairedManifest(m: M.Manifest, i: nat, ref: M.StorageRef, hash: string, size: nat): M.Manifest
    requires i < |m.chunks|
  {
    m.(chunks := m.chunks[i := m.chunks[i].(storageRef := ref, digest := hash, storedSize := size)])
  }

  /** A repair keeps the invariant when its manifest is the chunk's own with the repaired entry. */
  lemma RepairKeepsInv(t: Tables, chunkId: string, ref: M.StorageRef, hash: string, size: nat)
    requires Inv(t) && chunkId in t.chunks
    ensures var c := t.chunks[chunkId];
            var m := RepairedManifest(t.manifests[c.manifestId].manifest, c.chunkIndex, ref, hash, size);
            var r := ApplyChunkRepair(t, chunkId, ref, hash, size, m);
            r.Some? ==> Inv(r.value)
  {
    var c := t.chunks[chunkId];
    var row := t.manifests[c.manifestId];
    var m := RepairedManifest(row.manifest, c.chunkIndex, ref, hash, size);
    var r := ApplyChunkRepair(t, chunkId, ref, hash, size, m);
    if r.Some? {
      RepairedRowsAgree(t, chunkId, ref, hash, size);
      SameKeyKeepsUnique(t.chunks, chunkId, RepairedRow(c, ref, hash, size));
      var u := r.value;
      assert u == t.(chunks := u.chunks, manifests := t.manifests[c.manifestId := row.(manifest := m)]);
      assert Keyed(u);
      assert Owned(u);
      assert ChunksAgree(u);
    }
  }

  /** Rows of the repaired manifest still agree with it: no other row shares the repaired entry. */
  lemma RepairedRowsAgree(t: Tables, chunkId: string, ref: M.StorageRef, hash: string, size: nat)
    requires Inv(t) && chunkId in t.chunks
    ensures var c := t.chunks[chunkId];
            var row := t.manifests[c.manifestId];
            var row' := row.(manifest := RepairedManifest(row.manifest, c.chunkIndex, ref, hash, size));
            && RowAgrees(RepairedRow(c, ref, hash, size), row')
            && forall k :: k in t.chunks && k != chunkId && t.chunks[k].manifestId == c.manifestId ==>
                 RowAgrees(t.chunks[k], row')
  {
    var c := t.chunks[chunkId];
    forall k | k in t.chunks && k != chunkId && t.chunks[k].manifestId == c.manifestId
      ensures t.chunks[k].chunkIndex != c.chunkIndex
    {
      assert RowAgrees(t.chunks[k], t.manifests[c.manifestId]) && RowAgrees(c, t.manifests[c.manifestId]);
    }
  }
}
