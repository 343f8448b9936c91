/**
 What a carried-out plan means for the next one: the new snapshot lists exactly what was scanned, and
 comparing the same scan with it finds nothing to do. Also what a crash leaves behind, and the two
 situations in which the engine does not keep what one would expect of it.
 */
module BackupResults {
  import opened Wrappers
  import opened ChangeDetector
  import opened Catalog
  import opened BackupSpec
  import opened BackupPlan
  import Text
  import M = Manifest
  import P = Pipeline

  // ----- the new snapshot ----------------------------------------------------------------------

  /** The listing holds exactly the scanned paths, once each, with the scan's size and time. */
  ghost predicate ListsExactly(rows: seq<Row>, scan: seq<ScannedFile>) {
    && UniqueRows(rows) && UniqueIds(rows)
    && (forall k :: 0 <= k < |rows| ==> Scanned(rows[k], scan))
    && (forall j :: 0 <= j < |scan| ==> Listed(scan[j], rows))
  }

  predicate Lists(row: Row, s: ScannedFile) {
    row.0.relativePath == s.relativePath && SameContent(s, row.0)
  }

  ghost predicate Scanned(row: Row, scan: seq<ScannedFile>) {
    exists j :: 0 <= j < |scan| && Lists(row, scan[j])
  }

  ghost predicate Listed(s: ScannedFile, rows: seq<Row>) {
    exists k :: 0 <= k < |rows| && Lists(rows[k], s)
  }

  /** Every row of the new snapshot comes from a change of the plan. */
  lemma RowFromPlan(run: Run, t: Tables, store: Store, disk: Disk, sha: P.Digest, rows: seq<Row>, k: nat) returns (i: nat)
    requires Accomplished(run, t, store, disk, sha) && IsListing(t, run.sid, rows) && k < |rows|
    ensures i < |run.plan| && run.plan[i].kind != Deleted && run.plan[i].fileId == rows[k].1.fileId
    ensures RowFresh(t, run.plan[i]) && rows[k].0.relativePath == run.plan[i].relativePath
    ensures SameContent(run.plan[i].scanned.value, rows[k].0)
  {
    assert rows[k].1.versionId in t.versions;
    i :| 0 <= i < |run.plan| && run.plan[i].kind != Deleted && run.plan[i].fileId == rows[k].1.fileId;
    assert CarriedOut(run, t, store, disk, sha, run.plan[i]);
  }

  /** Every scanned file of the plan has a row in the new snapshot. */
  lemma RowForPlan(run: Run, t: Tables, store: Store, disk: Disk, sha: P.Digest, rows: seq<Row>, i: nat) returns (k: nat)
    requires Accomplished(run, t, store, disk, sha) && IsListing(t, run.sid, rows)
    requires i < |run.plan| && run.plan[i].kind != Deleted
    ensures k < |rows| && rows[k].1.fileId == run.plan[i].fileId
    ensures RowFresh(t, run.plan[i]) && rows[k].0.relativePath == run.plan[i].relativePath
    ensures SameContent(run.plan[i].scanned.value, rows[k].0)
  {
    var c := run.plan[i];
    assert CarriedOut(run, t, store, disk, sha, c);
    var mid := if c.kind == Unchanged then c.previousVersion.value.manifestId else PlannedId(c, disk, sha);
    assert Bound(t, run.sid, c.fileId, mid);
    var v :| v in t.versions && t.versions[v] == VersionRecord(v, c.fileId, run.sid, mid, "active");
    k :| 0 <= k < |rows| && rows[k].1.versionId == v;
  }

  /** The changes of a detected plan that are not deletions carry the scanned files. */
  lemma PlanScans(scan: seq<ScannedFile>, prev: seq<Row>, newId: string -> string, i: nat) returns (j: nat)
    requires UniqueScan(scan) && UniqueRows(prev)
    requires i < |Changes(scan, prev, newId)| && Changes(scan, prev, newId)[i].kind != Deleted
    ensures j < |scan| && Changes(scan, prev, newId)[i].scanned == Some(scan[j])
    ensures Changes(scan, prev, newId)[i].relativePath == scan[j].relativePath
  {
    ChangeSetPartition(scan, prev, newId);
    var c := Changes(scan, prev, newId)[i];
    assert c in Changes(scan, prev, newId);
    j :| 0 <= j < |scan| && DescribesScan(c, scan[j], prev, newId);
  }

  lemma ScanPlanned(scan: seq<ScannedFile>, prev: seq<Row>, newId: string -> string, j: nat) returns (i: nat)
    requires UniqueScan(scan) && UniqueRows(prev) && j < |scan|
    ensures i < |Changes(scan, prev, newId)| && Changes(scan, prev, newId)[i].kind != Deleted
    ensures DescribesScan(Changes(scan, prev, newId)[i], scan[j], prev, newId)
  {
    ChangeSetPartition(scan, prev, newId);
    i := DescribedAt(Changes(scan, prev, newId), scan[j], prev, newId);
  }

  lemma DescribedAt(cs: seq<FileChange>, s: ScannedFile, prev: seq<Row>, newId: string -> string) returns (i: nat)
    requires exists c :: c in cs && DescribesScan(c, s, prev, newId)
    ensures i < |cs| && DescribesScan(cs[i], s, prev, newId)
  {
    var c :| c in cs && DescribesScan(c, s, prev, newId);
    i :| 0 <= i < |cs| && cs[i] == c;
  }

  /** Two rows of the new snapshot differ in file. */
  lemma RowFilesDiffer(run: Run, t: Tables, store: Store, disk: Disk, sha: P.Digest, rows: seq<Row>, k: nat, l: nat)
    requires Accomplished(run, t, store, disk, sha) && IsListing(t, run.sid, rows) && k < l < |rows|
    ensures rows[k].1.fileId != rows[l].1.fileId
  {
    assert rows[k].1.versionId in t.versions && rows[l].1.versionId in t.versions;
  }

  /** Two rows of the new snapshot differ in file and in path. */
  lemma RowsDiffer(run: Run, t: Tables, store: Store, disk: Disk, sha: P.Digest, rows: seq<Row>,
                   scan: seq<ScannedFile>, prev: seq<Row>, newId: string -> string, k: nat, l: nat)
    requires Accomplished(run, t, store, disk, sha) && IsListing(t, run.sid, rows) && Keyed(t)
    requires run.plan == Changes(scan, prev, newId) && UniqueScan(scan) && UniqueRows(prev) && k < l < |rows|
    ensures rows[k].0.fileId != rows[l].0.fileId && rows[k].0.relativePath != rows[l].0.relativePath
  {
    var a := RowFromPlan(run, t, store, disk, sha, rows, k);
    var b := RowFromPlan(run, t, store, disk, sha, rows, l);
    RowFilesDiffer(run, t, store, disk, sha, rows, k, l);
    PathsDiffer(scan, prev, newId, a, b);
  }

  lemma PathsDiffer(scan: seq<ScannedFile>, prev: seq<Row>, newId: string -> string, a: nat, b: nat)
    requires UniqueScan(scan) && UniqueRows(prev)
    requires a < |Changes(scan, prev, newId)| && b < |Changes(scan, prev, newId)| && a != b
    ensures Changes(scan, prev, newId)[a].relativePath != Changes(scan, prev, newId)[b].relativePath
  {
    ChangeSetSorted(scan, prev, newId);
    Text.LexIrreflexive(Changes(scan, prev, newId)[a].relativePath);
  }

  /** A carried-out plan leaves a snapshot that lists exactly the scan. */
  lemma SnapshotListsScan(run: Run, t: Tables, store: Store, disk: Disk, sha: P.Digest, rows: seq<Row>,
                          scan: seq<ScannedFile>, prev: seq<Row>, newId: string -> string)
    requires Accomplished(run, t, store, disk, sha) && IsListing(t, run.sid, rows) && Keyed(t)
    requires run.plan == Changes(scan, prev, newId) && UniqueScan(scan) && UniqueRows(prev)
    ensures ListsExactly(rows, scan)
  {
    forall k, l | 0 <= k < l < |rows|
      ensures rows[k].0.fileId != rows[l].0.fileId && rows[k].0.relativePath != rows[l].0.relativePath
    {
      RowsDiffer(run, t, store, disk, sha, rows, scan, prev, newId, k, l);
    }
    forall k | 0 <= k < |rows| ensures Scanned(rows[k], scan) {
      var i := RowFromPlan(run, t, store, disk, sha, rows, k);
      var j := PlanScans(scan, prev, newId, i);
      assert Lists(rows[k], scan[j]);
    }
    forall j | 0 <= j < |scan| ensures Listed(scan[j], rows) {
      var i := ScanPlanned(scan, prev, newId, j);
      var k := RowForPlan(run, t, store, disk, sha, rows, i);
      assert Lists(rows[k], scan[j]);
    }
  }

  /** Comparing a scan with a listing that holds exactly it finds every file unchanged and nothing else. */
  lemma SameScanFindsNothing(scan: seq<ScannedFile>, rows: seq<Row>, newId: string -> string)
    requires UniqueScan(scan) && ListsExactly(rows, scan)
    ensures forall c :: c in Changes(scan, rows, newId) ==> c.kind == Unchanged
    ensures |Changes(scan, rows, newId)| == |scan|
  {
    forall k | 0 <= k < |rows| ensures rows[k].0.relativePath in ScanPaths(scan) {
      assert Scanned(rows[k], scan);
    }
    NothingDeleted(rows, ScanPaths(scan));
    ChangeSetSorted(scan, rows, newId);
    forall c | c in Changes(scan, rows, newId) ensures c.kind == Unchanged {
      EntryUnchanged(scan, rows, newId, c);
    }
  }

  lemma EntryUnchanged(scan: seq<ScannedFile>, rows: seq<Row>, newId: string -> string, c: FileChange)
    requires ListsExactly(rows, scan) && c in Changes(scan, rows, newId)
    ensures c.kind == Unchanged
  {
    ChangeMembers(scan, rows, newId);
    forall i | 0 <= i < |rows| ensures rows[i].0.relativePath in ScanPaths(scan) {
      assert Scanned(rows[i], scan);
    }
    assert !FromDeleted(c, scan, rows);
    var j :| 0 <= j < |scan| && c == ScanEntry(scan[j], ByPath(rows), newId);
    ListedIsUnchanged(scan[j], rows, newId);
  }

  lemma ListedIsUnchanged(s: ScannedFile, rows: seq<Row>, newId: string -> string)
    requires UniqueRows(rows) && Listed(s, rows)
    ensures ScanEntry(s, ByPath(rows), newId).kind == Unchanged
  {
    ScanEntryDescribes(s, rows, newId);
    var k :| 0 <= k < |rows| && Lists(rows[k], s);
  }

  lemma {:induction false} NothingDeleted(rows: seq<Row>, seen: set<string>)
    requires forall k :: 0 <= k < |rows| ==> rows[k].0.relativePath in seen
    ensures DeletedEntries(rows, seen) == []
  {
    if rows != [] {
      NothingDeleted(rows[..|rows| - 1], seen);
    }
  }

  /** The snapshot lists exactly the scan, and comparing the scan with it finds nothing to do. */
  ghost predicate Settled(t: Tables, sid: string, scan: seq<ScannedFile>, newId: string -> string) {
    forall rows :: IsListing(t, sid, rows) ==>
      ListsExactly(rows, scan) && forall c :: c in Changes(scan, rows, newId) ==> c.kind == Unchanged
  }

  lemma AccomplishedSettles(run: Run, t: Tables, store: Store, disk: Disk, sha: P.Digest,
                            scan: seq<ScannedFile>, prev: seq<Row>, newId: string -> string)
    requires Accomplished(run, t, store, disk, sha) && Held(run, t)
    requires run.plan == Changes(scan, prev, newId) && UniqueScan(scan) && UniqueRows(prev)
    ensures Settled(t, run.sid, scan, newId)
  {
    assert Keyed(t) by {
      Unfold(run, t);
    }
    forall rows | IsListing(t, run.sid, rows)
      ensures ListsExactly(rows, scan) && forall c :: c in Changes(scan, rows, newId) ==> c.kind == Unchanged
    {
      SnapshotListsScan(run, t, store, disk, sha, rows, scan, prev, newId);
      SameScanFindsNothing(scan, rows, newId);
    }
  }

  // ----- a crash -------------------------------------------------------------------------------

  /**
   Whatever state a run was interrupted in, startup reconciliation leaves no snapshot in flight, the
   run's snapshot complete only if every scanned file has its version in it, other snapshots complete
   only if they were, the catalog consistent, and nothing for a second reconciliation to do.
   */
  lemma CrashThenReconcile(run: Run, t: Tables)
    requires Held(run, t)
    ensures var (u, n, j) := Reconcile(t);
            && Inv(u)
            && (forall s :: s in u.snapshots ==> !InFlight(u.snapshots[s].status))
            && (IsComplete(run, u) ==> run.mayComplete && Covered(run, u))
            && (forall s :: s in u.snapshots && s != run.sid && u.snapshots[s].status == Completed ==>
                  s in run.before.snapshots && run.before.snapshots[s].status == Completed)
            && (run.realReferences && SparesVersions(run) && Referenced(run.before) ==> Referenced(u))
            && Reconcile(u) == (u, 0, 0)
  {
    Unfold(run, t);
    var u := Reconcile(t).0;
    ReconcileSettles(t);
    ReconcileKeepsInv(t);
    CoveredByVersions(run, t, u);
  }

  // ----- maintenance ---------------------------------------------------------------------------

  /** Pruning snapshots leaves the rows of every file exactly the entries of its manifest. */
  lemma PruneKeepsEntries(t: Tables, gone: set<string>, fid: string, mid: string)
    ensures RowsAreEntries(Pruned(t, gone), fid, mid) <==> RowsAreEntries(t, fid, mid)
  {
  }

  /** The repaired chunk is not one of another manifest's entries. */
  lemma OtherManifestUntouched(t: Tables, u: Tables, chunkId: string, fid: string, mid: string)
    requires RowsAreEntries(t, fid, mid) && chunkId in t.chunks && t.chunks[chunkId].manifestId != mid
    requires mid in u.manifests && u.manifests[mid] == t.manifests[mid] && chunkId in u.chunks
    requires u.chunks == t.chunks[chunkId := u.chunks[chunkId]] && u.chunks[chunkId].fileId == t.chunks[chunkId].fileId
    ensures RowsAreEntries(u, fid, mid)
  {
  }

  /** The repaired row is the repaired entry, and no other entry has its identifier. */
  lemma OwnManifestRepaired(t: Tables, u: Tables, chunkId: string, fid: string, mid: string, i: nat, e: M.ChunkManifest)
    requires RowsAreEntries(t, fid, mid) && M.DistinctIds(t.manifests[mid].manifest.chunks)
    requires var m := t.manifests[mid].manifest;
             && i < |m.chunks| && m.chunks[i].chunkId == chunkId && e.chunkId == chunkId && e.index == i
             && mid in u.manifests && u.manifests[mid] == ManifestRow(fid, m.(chunks := m.chunks[i := e]))
    requires u.chunks == t.chunks[chunkId := RowFor(fid, mid, e)]
    ensures RowsAreEntries(u, fid, mid)
  {
  }

  /** So does a repair whose manifest is the chunk's own with the repaired entry. */
  lemma RepairKeepsEntries(t: Tables, chunkId: string, ref: M.StorageRef, hash: string, size: nat, fid: string, mid: string)
    requires Inv(t) && chunkId in t.chunks && RowsAreEntries(t, fid, mid) && M.DistinctIds(t.manifests[mid].manifest.chunks)
    ensures var c := t.chunks[chunkId];
            var m := RepairedManifest(t.manifests[c.manifestId].manifest, c.chunkIndex, ref, hash, size);
            var r := ApplyChunkRepair(t, chunkId, ref, hash, size, m);
            r.Some? ==> RowsAreEntries(r.value, fid, mid)
  {
    var c := t.chunks[chunkId];
    assert RowAgrees(c, t.manifests[c.manifestId]);
    var was := t.manifests[c.manifestId].manifest;
    var r := ApplyChunkRepair(t, chunkId, ref, hash, size, RepairedManifest(was, c.chunkIndex, ref, hash, size));
    if r.Some? {
      if c.manifestId == mid {
        var e := was.chunks[c.chunkIndex].(storageRef := ref, digest := hash, storedSize := size);
        OwnManifestRepaired(t, r.value, chunkId, fid, mid, c.chunkIndex, e);
      } else {
        OtherManifestUntouched(t, r.value, chunkId, fid, mid);
      }
    }
  }

  // ----- saving over a manifest that is in use -------------------------------------------------

  predicate AllPending(m: M.Manifest) {
    m.chunks != [] && forall i :: 0 <= i < |m.chunks| ==> m.chunks[i].storageRef == M.Pending
  }

  /**
   The first save of a file's manifest, before its chunks are transferred, takes the references from
   an earlier version exactly when some version names the same manifest.
   */
  lemma FirstSaveSparesIffUnnamed(t: Tables, m: M.Manifest)
    requires Referenced(t) && AllPending(m) && PutManifest(t, m).Some?
    ensures Referenced(PutManifest(t, m).value) <==> Unnamed(t, m.manifestId)
  {
    var u := PutManifest(t, m).value;
    if !Unnamed(t, m.manifestId) {
      var v :| v in t.versions && t.versions[v].manifestId == m.manifestId;
      assert u.manifests[u.versions[v].manifestId].manifest == m;
      assert m.chunks[0].storageRef == M.Pending;
    }
  }

  /** A saved manifest without references that some version names, before and after reconciliation. */
  lemma PendingTakesReferences(t: Tables, u: Tables, m: M.Manifest)
    requires AllPending(m) && !Unnamed(t, m.manifestId) && u.versions == t.versions
    requires m.manifestId in u.manifests && u.manifests[m.manifestId].manifest == m
    ensures !Referenced(u) && !Referenced(Reconcile(u).0)
  {
    var v :| v in t.versions && t.versions[v].manifestId == m.manifestId;
    assert v in u.versions && m.chunks[0].storageRef == M.Pending;
    assert v in Reconcile(u).0.versions;
  }

  /** Manifest identifiers depend on the file and its content only: touching a file saves over its manifest. */
  lemma SameContentSameId(c: FileChange, d: FileChange, before: Disk, now: Disk, sha: P.Digest)
    requires c.fileId == d.fileId
    requires c.scanned.Some? && c.scanned.value.absolutePath in before
    requires d.scanned.Some? && d.scanned.value.absolutePath in now
    requires P.ExpectedChunkCount(c.scanned.value.sizeBytes) != 0 && P.ExpectedChunkCount(d.scanned.value.sizeBytes) != 0
    requires ContentOf(c, before) == ContentOf(d, now)
    ensures PlannedId(c, before, sha) == PlannedId(d, now, sha)
  {
  }

  /** So a plan that holds a touched file of an earlier version does not spare that version. */
  lemma TouchedFileIsNotSpared(run: Run, i: nat, disk: Disk, sha: P.Digest, c: FileChange, earlier: Disk, v: string)
    requires Planned(run, disk, sha) && i < |run.plan| && Transfers(run.plan[i])
    requires run.plan[i].scanned.Some? && run.plan[i].scanned.value.absolutePath in disk
    requires c.fileId == run.plan[i].fileId && c.scanned.Some? && c.scanned.value.absolutePath in earlier
    requires P.ExpectedChunkCount(c.scanned.value.sizeBytes) != 0
    requires P.ExpectedChunkCount(run.plan[i].scanned.value.sizeBytes) != 0
    requires ContentOf(c, earlier) == ContentOf(run.plan[i], disk)
    requires v in run.before.versions && run.before.versions[v].manifestId == PlannedId(c, earlier, sha)
    ensures !SparesVersions(run)
  {
    PlannedIs(run, disk, sha);
    SameContentSameId(c, run.plan[i], earlier, disk, sha);
  }

  // ----- a file that comes back ----------------------------------------------------------------

  /** A scanned path that the earlier listing does not have. */
  ghost predicate Unlisted(s: ScannedFile, prev: seq<Row>) {
    forall k :: 0 <= k < |prev| ==> prev[k].0.relativePath != s.relativePath
  }

  /** An unlisted path although the catalog has a row in its place. */
  ghost predicate Returns(run: Run, s: ScannedFile, prev: seq<Row>, newId: string -> string) {
    && Unlisted(s, prev)
    && (newId(s.relativePath) in run.before.files ||
        PathTaken(run.before.files, Some(run.pid), s.relativePath, newId(s.relativePath)))
  }

  /** No scanned path returns, and no two unlisted ones get the same identifier. */
  ghost predicate NoneReturns(run: Run, scan: seq<ScannedFile>, prev: seq<Row>, newId: string -> string) {
    && (forall j :: 0 <= j < |scan| ==> !Returns(run, scan[j], prev, newId))
    && (forall i, j :: 0 <= i < j < |scan| && Unlisted(scan[i], prev) && Unlisted(scan[j], prev) ==>
          newId(scan[i].relativePath) != newId(scan[j].relativePath))
  }

  /** The change of an unlisted path is a new file under its own identifier, and only such changes are new. */
  lemma NewIsUnlisted(scan: seq<ScannedFile>, prev: seq<Row>, newId: string -> string, j: nat) returns (i: nat)
    requires UniqueScan(scan) && UniqueRows(prev) && j < |scan|
    ensures i < |Changes(scan, prev, newId)|
    ensures var c := Changes(scan, prev, newId)[i];
            c.relativePath == scan[j].relativePath && (c.kind == New <==> Unlisted(scan[j], prev)) &&
            (c.kind == New ==> c.fileId == newId(scan[j].relativePath))
  {
    i := ScanPlanned(scan, prev, newId, j);
  }

  lemma NewFromScan(scan: seq<ScannedFile>, prev: seq<Row>, newId: string -> string, i: nat) returns (j: nat)
    requires UniqueScan(scan) && UniqueRows(prev)
    requires i < |Changes(scan, prev, newId)| && Changes(scan, prev, newId)[i].kind == New
    ensures j < |scan| && Unlisted(scan[j], prev)
    ensures var c := Changes(scan, prev, newId)[i];
            c.relativePath == scan[j].relativePath && c.fileId == newId(scan[j].relativePath)
  {
    ChangeSetPartition(scan, prev, newId);
    var c := Changes(scan, prev, newId)[i];
    assert c in Changes(scan, prev, newId);
    j :| 0 <= j < |scan| && DescribesScan(c, scan[j], prev, newId);
  }

  /** A returning path, or two with one identifier, leave some new file of the plan without a place. */
  lemma ReturningIsNotFree(run: Run, scan: seq<ScannedFile>, prev: seq<Row>, newId: string -> string)
    requires UniqueScan(scan) && UniqueRows(prev) && run.plan == Changes(scan, prev, newId)
    requires FilesFree(run)
    ensures NoneReturns(run, scan, prev, newId)
  {
    forall j | 0 <= j < |scan| ensures !Returns(run, scan[j], prev, newId) {
      var i := NewIsUnlisted(scan, prev, newId, j);
      assert Unclaimed(run, run.before, run.plan[i]);
    }
    forall i, j | 0 <= i < j < |scan| && Unlisted(scan[i], prev) && Unlisted(scan[j], prev)
      ensures newId(scan[i].relativePath) != newId(scan[j].relativePath)
    {
      var a := NewIsUnlisted(scan, prev, newId, i);
      var b := NewIsUnlisted(scan, prev, newId, j);
      assert a < b || b < a;
    }
  }

  lemma NoneReturnsIsFree(run: Run, scan: seq<ScannedFile>, prev: seq<Row>, newId: string -> string)
    requires UniqueScan(scan) && UniqueRows(prev) && run.plan == Changes(scan, prev, newId)
    requires NoneReturns(run, scan, prev, newId)
    ensures FilesFree(run)
  {
    forall i | 0 <= i < |run.plan| ensures Unclaimed(run, run.before, run.plan[i]) {
      if run.plan[i].kind == New {
        var j := NewFromScan(scan, prev, newId, i);
        assert !Returns(run, scan[j], prev, newId);
      }
    }
    forall i, j | 0 <= i < j < |run.plan| && run.plan[i].kind == New && run.plan[j].kind == New
      ensures run.plan[i].fileId != run.plan[j].fileId
    {
      var a := NewFromScan(scan, prev, newId, i);
      var b := NewFromScan(scan, prev, newId, j);
      PathsDiffer(scan, prev, newId, i, j);
      assert a < b || b < a;
    }
  }

  /** The new files of a detected plan find their places free exactly when none returns. */
  lemma FreeIffNoneReturns(run: Run, scan: seq<ScannedFile>, prev: seq<Row>, newId: string -> string)
    requires UniqueScan(scan) && UniqueRows(prev) && run.plan == Changes(scan, prev, newId)
    ensures FilesFree(run) <==> NoneReturns(run, scan, prev, newId)
    ensures DistinctPaths(run.plan)
  {
    if FilesFree(run) {
      ReturningIsNotFree(run, scan, prev, newId);
    }
    if NoneReturns(run, scan, prev, newId) {
      NoneReturnsIsFree(run, scan, prev, newId);
    }
    forall i, j | 0 <= i < j < |run.plan| ensures run.plan[i].relativePath != run.plan[j].relativePath {
      PathsDiffer(scan, prev, newId, i, j);
    }
  }

  /** A path returns whenever its profile has a row for it that the listing lacks. */
  lemma RowWithoutListing(run: Run, s: ScannedFile, prev: seq<Row>, newId: string -> string, fid: string)
    requires Unlisted(s, prev) && fid in run.before.files
    requires run.before.files[fid].profileId == Some(run.pid) && run.before.files[fid].relativePath == s.relativePath
    ensures Returns(run, s, prev, newId)
  {
  }

  /**
   A file deleted in one backup keeps its row. So in every later run for the same profile, compared with
   that snapshot, its path returns when it is scanned again, and that run does not succeed.
   */
  lemma DeletedFileReturns(
      first: Run, t: Tables, store: Store, disk: Disk, sha: P.Digest, scan: seq<ScannedFile>, prev: seq<Row>,
      newId: string -> string, rows: seq<Row>, fid: string, second: Run, s: ScannedFile, nextId: string -> string)
    requires Held(first, t) && Accomplished(first, t, store, disk, sha)
    requires first.plan == Changes(scan, prev, newId) && UniqueScan(scan) && UniqueRows(prev)
    requires fid in first.before.files && first.before.files[fid].profileId == Some(second.pid)
    requires first.before.files[fid].relativePath !in ScanPaths(scan)
    requires IsListing(t, first.sid, rows) && second.before == t
    requires s.relativePath == first.before.files[fid].relativePath
    ensures Returns(second, s, rows, nextId)
  {
    KnownFileKept(first, t, fid);
    assert Keyed(t) by {
      Unfold(first, t);
    }
    SnapshotListsScan(first, t, store, disk, sha, rows, scan, prev, newId);
    forall k | 0 <= k < |rows| ensures rows[k].0.relativePath != s.relativePath {
      assert Scanned(rows[k], scan);
    }
    RowWithoutListing(second, s, rows, nextId, fid);
  }

  /**
   A run interrupted after the row of a new file was committed, and before its version was bound, leaves
   a row that no listing shows: the file returns at the next attempt.
   */
  lemma InterruptedFileReturns(first: Run, t: Tables, c: FileChange, hash: string, second: Run, prev: seq<Row>, nextId: string -> string)
    requires c.kind == New && c.scanned.Some? && c.scanned.value.relativePath == c.relativePath
    requires CreateFile(t, FileRow(c.fileId, first.pid, c.scanned.value, hash)) == Some(second.before)
    requires second.pid == first.pid && Unlisted(c.scanned.value, prev)
    ensures Returns(second, c.scanned.value, prev, nextId)
  {
    RowWithoutListing(second, c.scanned.value, prev, nextId, c.fileId);
  }

  /** Identifiers depend on the path only: a file that another profile has under the same path returns too. */
  lemma OtherProfilesFileReturns(run: Run, s: ScannedFile, prev: seq<Row>, newId: string -> string)
    requires Unlisted(s, prev) && newId(s.relativePath) in run.before.files
    ensures Returns(run, s, prev, newId)
  {
  }

  // ----- one such history ----------------------------------------------------------------------

  /** A catalog with one file in one snapshot, and the state after a backup of an empty directory. */
  ghost function OneFile(): Tables {
    var m := M.Manifest("man-f-0123456789abcdef", "f", "a", "a", 0, "", []);
    Tables({"P"},
           map["f" := FileRecord("f", Some("P"), "a", "a", 0, "backed_up", None, Some("t"))],
           map["man-f-0123456789abcdef" := ManifestRow("f", m)],
           map[], map["s0" := SnapshotRecord("s0", "P", Completed)],
           map["v0" := VersionRecord("v0", "f", "s0", "man-f-0123456789abcdef", "active")], map[])
  }

  ghost function AfterDeletion(): Tables {
    var t := OneFile();
    t.(files := map["f" := t.files["f"].(status := "deleted")],
       snapshots := t.snapshots["s1" := SnapshotRecord("s1", "P", Completed)])
  }

  ghost function DeletingRun(newId: string -> string): Run {
    Run(OneFile(), "s1", "P", Changes([], [(OneFile().files["f"], OneFile().versions["v0"])], newId), {}, 0, true, true)
  }

  /** The hypotheses of `DeletedFileReturns` hold of it, with an empty listing of the second snapshot. */
  lemma DeletedFileWitness(newId: string -> string, sha: P.Digest)
    ensures var first := DeletingRun(newId);
            && Held(first, AfterDeletion()) && Accomplished(first, AfterDeletion(), map[], map[], sha)
            && IsListing(AfterDeletion(), "s1", [])
            && "f" in first.before.files && first.before.files["f"].profileId == Some("P")
            && first.before.files["f"].relativePath !in ScanPaths([])
  {
    var first := DeletingRun(newId);
    var prev := [(OneFile().files["f"], OneFile().versions["v0"])];
    ChangeSetPartition([], prev, newId);
    forall i | 0 <= i < |first.plan| ensures first.plan[i].kind == Deleted {
      assert first.plan[i] in first.plan;
    }
    AfterDeletionObeys(first);
  }

  lemma AfterDeletionObeys(first: Run)
    requires first.before == OneFile() && first.sid == "s1" && first.mayComplete
    requires forall i :: 0 <= i < |first.plan| ==> first.plan[i].kind == Deleted
    ensures Held(first, AfterDeletion())
  {
    AfterDeletionInv();
    Fold(first, AfterDeletion());
  }

  lemma AfterDeletionInv()
    ensures Inv(AfterDeletion()) && OneFile().files.Keys == {"f"}
  {
    assert OwnedId("man-f-0123456789abcdef", "f");
  }

  /** So every run that scans the deleted path again, compared with that snapshot, has a path that returns. */
  lemma DeletedFileExample(newId: string -> string, sha: P.Digest, second: Run, s: ScannedFile, nextId: string -> string)
    requires second.before == AfterDeletion() && second.pid == "P" && s.relativePath == "a"
    ensures Returns(second, s, [], nextId)
  {
    DeletedFileWitness(newId, sha);
    DeletedFileReturns(DeletingRun(newId), AfterDeletion(), map[], map[], sha, [],
                       [(OneFile().files["f"], OneFile().versions["v0"])], newId, [], "f", second, s, nextId);
  }
}
