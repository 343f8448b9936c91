/**
 The summary of a backup, from the scan and the earlier rows alone: which scanned files it counts as
 new, modified and unchanged, which earlier ones as deleted, and what the byte and chunk counts are.
 */
module Summaries {
  import opened Wrappers
  import opened ChangeDetector
  import opened Catalog
  import opened BackupSpec
  import opened BackupPlan
  import P = Pipeline

  datatype BackupSummary = BackupSummary(
    snapshotId: string,
    profileId: string,
    newFiles: nat,
    modifiedFiles: nat,
    unchangedFiles: nat,
    deletedFiles: nat,
    transferredChunks: nat,
    transferredBytes: nat,
    reusedBytes: nat)

  /** The summary of a carried-out plan. */
  ghost function SummaryOf(plan: seq<FileChange>, pid: string, sid: string, disk: Disk): BackupSummary {
    var sent := SentUpTo(plan, |plan|, disk);
    BackupSummary(sid, pid, Count(plan, New), Count(plan, Modified), Count(plan, Unchanged), Count(plan, Deleted),
                  sent.chunks, sent.bytes, TotalReusedBytes(plan))
  }

  /** The sources of a plan hold at least what the scan saw. */
  ghost predicate SourcesComplete(plan: seq<FileChange>, disk: Disk) {
    forall i :: 0 <= i < |plan| && Transfers(plan[i]) && plan[i].scanned.Some? ==>
      plan[i].scanned.value.absolutePath in disk &&
      plan[i].scanned.value.sizeBytes <= |disk[plan[i].scanned.value.absolutePath]|
  }

  /** Sent bytes never exceed the transfer total of the plan, and equal it if the sources are complete. */
  lemma {:induction false} SentIsPlanned(plan: seq<FileChange>, n: nat, disk: Disk)
    requires n <= |plan|
    ensures SentUpTo(plan, n, disk).bytes <= TotalTransferBytes(plan[..n])
    ensures SourcesComplete(plan, disk) ==> SentUpTo(plan, n, disk).bytes == TotalTransferBytes(plan[..n])
  {
    if n > 0 {
      SentIsPlanned(plan, n - 1, disk);
      SumLast(plan[..n], BytesOf({New, Modified}));
      assert plan[..n][..n - 1] == plan[..n - 1];
    }
  }

  /**
   The summary accounts for the whole scan: every scanned file is counted once, and transferred plus
   reused bytes are the scan's bytes if every source still held what the scan saw, never more.
   */
  lemma SummaryAccountsForScan(scan: seq<ScannedFile>, prev: seq<Row>, newId: string -> string,
                               pid: string, sid: string, disk: Disk)
    ensures var plan := Changes(scan, prev, newId);
            var s := SummaryOf(plan, pid, sid, disk);
            && s.newFiles + s.modifiedFiles + s.unchangedFiles == |scan|
            && s.deletedFiles == |DeletedEntries(prev, ScanPaths(scan))|
            && s.transferredBytes + s.reusedBytes <= ScanBytes(scan)
            && (SourcesComplete(plan, disk) ==> s.transferredBytes + s.reusedBytes == ScanBytes(scan))
  {
    var plan := Changes(scan, prev, newId);
    EntriesConserved(scan, prev, newId);
    BytesConserved(scan, prev, newId);
    SentIsPlanned(plan, |plan|, disk);
    assert plan[..|plan|] == plan;
  }

  // ----- from the scan and the earlier rows ----------------------------------------------------

  /** No earlier row has the path. */
  ghost predicate Appeared(s: ScannedFile, prev: seq<Row>) {
    forall k :: 0 <= k < |prev| ==> prev[k].0.relativePath != s.relativePath
  }

  /** An earlier row has the path, with another size or time. */
  ghost predicate Altered(s: ScannedFile, prev: seq<Row>) {
    exists k :: 0 <= k < |prev| && prev[k].0.relativePath == s.relativePath &&
                (prev[k].0.originalSize != s.sizeBytes || prev[k].0.modifiedAt != Some(s.modifiedAt))
  }

  /** An earlier row has the path, with equal size and time. */
  ghost predicate Stayed(s: ScannedFile, prev: seq<Row>) {
    exists k :: 0 <= k < |prev| && prev[k].0.relativePath == s.relativePath &&
                prev[k].0.originalSize == s.sizeBytes && prev[k].0.modifiedAt == Some(s.modifiedAt)
  }

  /** No scanned file has the path of the row. */
  ghost predicate Vanished(r: Row, scan: seq<ScannedFile>) {
    forall j :: 0 <= j < |scan| ==> scan[j].relativePath != r.0.relativePath
  }

  ghost function AppearedIn(scan: seq<ScannedFile>, prev: seq<Row>): set<int> {
    set j | 0 <= j < |scan| && Appeared(scan[j], prev)
  }

  ghost function AlteredIn(scan: seq<ScannedFile>, prev: seq<Row>): set<int> {
    set j | 0 <= j < |scan| && Altered(scan[j], prev)
  }

  ghost function StayedIn(scan: seq<ScannedFile>, prev: seq<Row>): set<int> {
    set j | 0 <= j < |scan| && Stayed(scan[j], prev)
  }

  ghost function VanishedFrom(prev: seq<Row>, scan: seq<ScannedFile>): set<int> {
    set k | 0 <= k < |prev| && Vanished(prev[k], scan)
  }

  /** The weight of the chosen ones of the scanned files. */
  ghost function Total(scan: seq<ScannedFile>, chosen: set<int>, weight: ScannedFile -> nat): nat {
    if scan == [] then 0
    else
      var n := |scan| - 1;
      Total(scan[..n], chosen, weight) + (if n in chosen then weight(scan[n]) else 0)
  }

  ghost function One(): ScannedFile -> nat { (s: ScannedFile) => 1 }

  ghost function Size(): ScannedFile -> nat { (s: ScannedFile) => s.sizeBytes }

  /** What a backup reads of a file: what its path holds, up to the scanned size. */
  ghost function Read(disk: Disk): ScannedFile -> nat {
    (s: ScannedFile) => if s.absolutePath in disk then P.Min(s.sizeBytes, |disk[s.absolutePath]|) else 0
  }

  /** The summary tells exactly what the scan, the earlier rows and the disk amount to. */
  ghost predicate Tells(summary: BackupSummary, scan: seq<ScannedFile>, prev: seq<Row>, pid: string, sid: string, disk: Disk) {
    && summary.snapshotId == sid && summary.profileId == pid
    && summary.newFiles == |AppearedIn(scan, prev)|
    && summary.modifiedFiles == |AlteredIn(scan, prev)|
    && summary.unchangedFiles == |StayedIn(scan, prev)|
    && summary.deletedFiles == |VanishedFrom(prev, scan)|
    && summary.reusedBytes == Total(scan, StayedIn(scan, prev), Size())
    && summary.transferredBytes == Total(scan, AppearedIn(scan, prev) + AlteredIn(scan, prev), Read(disk))
  }

  lemma {:induction false} SumIsTotal(cs: seq<FileChange>, scan: seq<ScannedFile>, chosen: set<int>,
                                      weight: FileChange -> nat, each: ScannedFile -> nat)
    requires |cs| == |scan|
    requires forall j :: 0 <= j < |cs| ==> weight(cs[j]) == if j in chosen then each(scan[j]) else 0
    ensures Sum(cs, weight) == Total(scan, chosen, each)
  {
    if cs != [] {
      var n := |cs| - 1;
      SumIsTotal(cs[..n], scan[..n], chosen, weight, each);
      SumLast(cs, weight);
    }
  }

  ghost function Below(chosen: set<int>, n: nat): set<int> { set j | 0 <= j < n && j in chosen }

  lemma {:induction false} OnesAreCounted(scan: seq<ScannedFile>, chosen: set<int>)
    ensures Total(scan, chosen, One()) == |Below(chosen, |scan|)|
  {
    if scan != [] {
      var n := |scan| - 1;
      OnesAreCounted(scan[..n], chosen);
      assert Below(chosen, |scan|) == Below(chosen, n) + if n in chosen then {n} else {};
    } else {
      assert Below(chosen, 0) == {};
    }
  }

  /** The kind of a scanned file's entry is what the earlier rows say. */
  lemma EntryKind(s: ScannedFile, prev: seq<Row>, newId: string -> string)
    requires UniqueRows(prev)
    ensures var c := ScanEntry(s, ByPath(prev), newId);
            && c.scanned == Some(s)
            && (c.kind == New <==> Appeared(s, prev)) && (c.kind == Modified <==> Altered(s, prev))
            && (c.kind == Unchanged <==> Stayed(s, prev))
  {
    ScanEntryDescribes(s, prev, newId);
    if !Appeared(s, prev) {
      var k :| 0 <= k < |prev| && prev[k].0.relativePath == s.relativePath;
      assert forall l :: 0 <= l < |prev| && prev[l].0.relativePath == s.relativePath ==> l == k;
    }
  }

  lemma EntryKinds(scan: seq<ScannedFile>, prev: seq<Row>, newId: string -> string)
    requires UniqueRows(prev)
    ensures var a := ScanEntries(scan, ByPath(prev), newId);
            forall j :: 0 <= j < |scan| ==>
              && a[j].scanned == Some(scan[j])
              && (a[j].kind == New <==> j in AppearedIn(scan, prev)) && (a[j].kind == Modified <==> j in AlteredIn(scan, prev))
              && (a[j].kind == Unchanged <==> j in StayedIn(scan, prev))
  {
    forall j | 0 <= j < |scan| ensures
        var c := ScanEntry(scan[j], ByPath(prev), newId);
        && c.scanned == Some(scan[j])
        && (c.kind == New <==> j in AppearedIn(scan, prev)) && (c.kind == Modified <==> j in AlteredIn(scan, prev))
        && (c.kind == Unchanged <==> j in StayedIn(scan, prev))
    {
      EntryKind(scan[j], prev, newId);
    }
  }

  /** The entries of one kind are as many as the chosen files. */
  lemma KindCounted(scan: seq<ScannedFile>, prev: seq<Row>, newId: string -> string, kind: ChangeKind, chosen: set<int>)
    requires kind != Deleted && forall j :: j in chosen ==> 0 <= j < |scan|
    requires forall j :: 0 <= j < |scan| ==> (ScanEntries(scan, ByPath(prev), newId)[j].kind == kind <==> j in chosen)
    ensures Count(Changes(scan, prev, newId), kind) == |chosen|
  {
    var a := ScanEntries(scan, ByPath(prev), newId);
    ChangesSum(scan, prev, newId, OneOf({kind}), 0);
    SumIsTotal(a, scan, chosen, OneOf({kind}), One());
    OnesAreCounted(scan, chosen);
    assert Below(chosen, |scan|) == chosen;
  }

  lemma CountsTold(scan: seq<ScannedFile>, prev: seq<Row>, newId: string -> string)
    requires UniqueRows(prev)
    ensures var plan := Changes(scan, prev, newId);
            && Count(plan, New) == |AppearedIn(scan, prev)| && Count(plan, Modified) == |AlteredIn(scan, prev)|
            && Count(plan, Unchanged) == |StayedIn(scan, prev)|
  {
    EntryKinds(scan, prev, newId);
    KindCounted(scan, prev, newId, New, AppearedIn(scan, prev));
    KindCounted(scan, prev, newId, Modified, AlteredIn(scan, prev));
    KindCounted(scan, prev, newId, Unchanged, StayedIn(scan, prev));
  }

  /** The rows among the first n whose path was not scanned. */
  ghost function VanishedBelow(prev: seq<Row>, scan: seq<ScannedFile>, n: nat): set<int>
    requires n <= |prev|
  {
    set k | 0 <= k < n && Vanished(prev[k], scan)
  }

  lemma {:induction false} DeletedCounted(scan: seq<ScannedFile>, prev: seq<Row>, n: nat)
    requires n <= |prev|
    ensures |DeletedEntries(prev[..n], ScanPaths(scan))| == |VanishedBelow(prev, scan, n)|
  {
    if n > 0 {
      DeletedCounted(scan, prev, n - 1);
      var r := prev[n - 1];
      assert prev[..n][..n - 1] == prev[..n - 1] && prev[..n][n - 1] == r;
      assert r.0.relativePath in ScanPaths(scan) <==> !Vanished(r, scan);
      assert VanishedBelow(prev, scan, n) == VanishedBelow(prev, scan, n - 1) + if Vanished(r, scan) then {n - 1} else {};
    } else {
      assert VanishedBelow(prev, scan, 0) == {};
    }
  }

  ghost function SentBytes(disk: Disk): FileChange -> nat {
    (c: FileChange) => if Transfers(c) then SentFor(c, disk).bytes else 0
  }

  ghost function SentChunks(disk: Disk): FileChange -> nat {
    (c: FileChange) => if Transfers(c) then SentFor(c, disk).chunks else 0
  }

  lemma {:induction false} SentIsSum(plan: seq<FileChange>, n: nat, disk: Disk)
    requires n <= |plan|
    ensures SentUpTo(plan, n, disk) == Sent(Sum(plan[..n], SentChunks(disk)), Sum(plan[..n], SentBytes(disk)))
  {
    if n > 0 {
      SentIsSum(plan, n - 1, disk);
      SumLast(plan[..n], SentBytes(disk));
      SumLast(plan[..n], SentChunks(disk));
      assert plan[..n][..n - 1] == plan[..n - 1];
    }
  }

  lemma ReusedTold(scan: seq<ScannedFile>, prev: seq<Row>, newId: string -> string)
    requires UniqueRows(prev)
    ensures TotalReusedBytes(Changes(scan, prev, newId)) == Total(scan, StayedIn(scan, prev), Size())
  {
    EntryKinds(scan, prev, newId);
    ChangesSum(scan, prev, newId, BytesOf({Unchanged}), 0);
    SumIsTotal(ScanEntries(scan, ByPath(prev), newId), scan, StayedIn(scan, prev), BytesOf({Unchanged}), Size());
  }

  /** What the entry of a scanned file sends. */
  lemma EntrySends(c: FileChange, s: ScannedFile, disk: Disk)
    requires c.scanned == Some(s)
    ensures SentBytes(disk)(c) == if Transfers(c) then Read(disk)(s) else 0
  {
  }

  lemma SentTold(scan: seq<ScannedFile>, prev: seq<Row>, newId: string -> string, disk: Disk)
    requires UniqueRows(prev)
    ensures var plan := Changes(scan, prev, newId);
            SentUpTo(plan, |plan|, disk).bytes == Total(scan, AppearedIn(scan, prev) + AlteredIn(scan, prev), Read(disk))
  {
    var plan, a := Changes(scan, prev, newId), ScanEntries(scan, ByPath(prev), newId);
    var chosen := AppearedIn(scan, prev) + AlteredIn(scan, prev);
    SentIsSum(plan, |plan|, disk);
    assert plan[..|plan|] == plan;
    ChangesSum(scan, prev, newId, SentBytes(disk), 0);
    forall j | 0 <= j < |a| ensures SentBytes(disk)(a[j]) == if j in chosen then Read(disk)(scan[j]) else 0 {
      EntryKinds(scan, prev, newId);
      EntrySends(a[j], scan[j], disk);
    }
    SumIsTotal(a, scan, chosen, SentBytes(disk), Read(disk));
  }

  /** The summary of a detected plan tells what the scan and the earlier rows amount to. */
  lemma SummaryTells(scan: seq<ScannedFile>, prev: seq<Row>, newId: string -> string, pid: string, sid: string, disk: Disk)
    requires UniqueRows(prev)
    ensures Tells(SummaryOf(Changes(scan, prev, newId), pid, sid, disk), scan, prev, pid, sid, disk)
  {
    CountsTold(scan, prev, newId);
    ReusedTold(scan, prev, newId);
    SentTold(scan, prev, newId, disk);
    EntriesConserved(scan, prev, newId);
    DeletedCounted(scan, prev, |prev|);
    assert prev[..|prev|] == prev && VanishedBelow(prev, scan, |prev|) == VanishedFrom(prev, scan);
  }

  // ----- the chunk rows a run added ------------------------------------------------------------

  /** The rows of a file with an index below n. */
  ghost function RowsBelow(t: Tables, fid: string, n: nat): set<string> {
    set k | k in t.chunks && t.chunks[k].fileId == fid && t.chunks[k].chunkIndex < n
  }

  ghost function RowsOfFile(t: Tables, fid: string): set<string> {
    set k | k in t.chunks && t.chunks[k].fileId == fid
  }

  lemma {:induction false} PartsAreRows(t: Tables, fid: string, mid: string, n: nat)
    requires RowsAreEntries(t, fid, mid) && n <= |t.manifests[mid].manifest.chunks|
    ensures |RowsBelow(t, fid, n)| == n
  {
    if n > 0 {
      PartsAreRows(t, fid, mid, n - 1);
      var id := t.manifests[mid].manifest.chunks[n - 1].chunkId;
      assert t.chunks[id].chunkIndex == n - 1 && t.chunks[id].fileId == fid;
      assert RowsBelow(t, fid, n) == RowsBelow(t, fid, n - 1) + {id};
    } else {
      assert RowsBelow(t, fid, 0) == {};
    }
  }

  ghost function RowsOfFiles(t: Tables, fids: set<string>): set<string> {
    set k | k in t.chunks && t.chunks[k].fileId in fids
  }

  lemma OneMoreFilesRows(t: Tables, fids: set<string>, fid: string)
    requires fid !in fids
    ensures |RowsOfFiles(t, fids + {fid})| == |RowsOfFiles(t, fids)| + |RowsOfFile(t, fid)|
  {
    assert RowsOfFiles(t, fids + {fid}) == RowsOfFiles(t, fids) + RowsOfFile(t, fid);
    assert RowsOfFiles(t, fids) !! RowsOfFile(t, fid);
  }

  /** The transferred files among the first n changes. */
  ghost function FirstMoved(plan: seq<FileChange>, n: nat): set<string>
    requires n <= |plan|
  {
    if n == 0 then {}
    else FirstMoved(plan, n - 1) + if Transfers(plan[n - 1]) then {plan[n - 1].fileId} else {}
  }

  lemma {:induction false} FirstMovedMembers(plan: seq<FileChange>, n: nat)
    requires n <= |plan|
    ensures forall f :: f in FirstMoved(plan, n) <==> exists j :: 0 <= j < n && Transfers(plan[j]) && plan[j].fileId == f
  {
    if n > 0 {
      FirstMovedMembers(plan, n - 1);
    }
  }

  lemma NotMovedYet(plan: seq<FileChange>, n: nat)
    requires n < |plan| && Transfers(plan[n])
    requires forall i, j :: 0 <= i < j < |plan| && Transfers(plan[i]) && Transfers(plan[j]) ==> plan[i].fileId != plan[j].fileId
    ensures plan[n].fileId !in FirstMoved(plan, n)
  {
    FirstMovedMembers(plan, n);
  }

  /** A transferred file has as many rows as its change sent chunks. */
  lemma FileParts(run: Run, t: Tables, store: Store, disk: Disk, sha: P.Digest, c: FileChange)
    requires CarriedOut(run, t, store, disk, sha, c) && Transfers(c)
    ensures |RowsOfFile(t, c.fileId)| == SentFor(c, disk).chunks
  {
    var mid, parts := PlannedId(c, disk, sha), P.ExpectedChunkCount(c.scanned.value.sizeBytes);
    PartsAreRows(t, c.fileId, mid, parts);
    assert RowsBelow(t, c.fileId, parts) == RowsOfFile(t, c.fileId);
  }

  /** Every transferred file has as many rows as it weighs, other changes weigh nothing, and no two transfer the same file. */
  ghost predicate PartsRecorded(plan: seq<FileChange>, t: Tables, weight: FileChange -> nat) {
    && (forall i :: 0 <= i < |plan| ==> weight(plan[i]) == if Transfers(plan[i]) then |RowsOfFile(t, plan[i].fileId)| else 0)
    && (forall i, j :: 0 <= i < j < |plan| && Transfers(plan[i]) && Transfers(plan[j]) ==> plan[i].fileId != plan[j].fileId)
  }

  lemma AccomplishedParts(run: Run, t: Tables, store: Store, disk: Disk, sha: P.Digest)
    requires Accomplished(run, t, store, disk, sha)
    ensures PartsRecorded(run.plan, t, SentChunks(disk))
  {
    forall i | 0 <= i < |run.plan|
      ensures SentChunks(disk)(run.plan[i]) == if Transfers(run.plan[i]) then |RowsOfFile(t, run.plan[i].fileId)| else 0
    {
      if Transfers(run.plan[i]) {
        FileParts(run, t, store, disk, sha, run.plan[i]);
      }
    }
  }

  lemma RowsOfNext(plan: seq<FileChange>, t: Tables, weight: FileChange -> nat, n: nat)
    requires PartsRecorded(plan, t, weight) && n < |plan|
    ensures |RowsOfFiles(t, FirstMoved(plan, n + 1))| == |RowsOfFiles(t, FirstMoved(plan, n))| + weight(plan[n])
  {
    if Transfers(plan[n]) {
      NotMovedYet(plan, n);
      OneMoreFilesRows(t, FirstMoved(plan, n), plan[n].fileId);
    } else {
      assert FirstMoved(plan, n + 1) == FirstMoved(plan, n);
    }
  }

  lemma SumNext(plan: seq<FileChange>, weight: FileChange -> nat, n: nat)
    requires n < |plan|
    ensures Sum(plan[..n + 1], weight) == Sum(plan[..n], weight) + weight(plan[n])
  {
    SumLast(plan[..n + 1], weight);
    assert plan[..n + 1][..n] == plan[..n];
  }

  lemma {:induction false} WeightsAreRows(plan: seq<FileChange>, t: Tables, weight: FileChange -> nat, n: nat)
    requires PartsRecorded(plan, t, weight) && n <= |plan|
    ensures |RowsOfFiles(t, FirstMoved(plan, n))| == Sum(plan[..n], weight)
  {
    if n == 0 {
      assert RowsOfFiles(t, FirstMoved(plan, 0)) == {};
    } else {
      WeightsAreRows(plan, t, weight, n - 1);
      RowsOfNext(plan, t, weight, n - 1);
      SumNext(plan, weight, n - 1);
    }
  }

  lemma MovedAreTransferred(plan: seq<FileChange>)
    ensures FirstMoved(plan, |plan|) == TransferredIds(plan)
  {
    FirstMovedMembers(plan, |plan|);
  }

  lemma PartsAddUp(plan: seq<FileChange>, t: Tables, disk: Disk)
    requires PartsRecorded(plan, t, SentChunks(disk))
    ensures |RowsOfFiles(t, TransferredIds(plan))| == SentUpTo(plan, |plan|, disk).chunks
  {
    WeightsAreRows(plan, t, SentChunks(disk), |plan|);
    SentIsSum(plan, |plan|, disk);
    MovedAreTransferred(plan);
  }

  /** So many chunk rows were added, all of transferred files; those of other files are as before. */
  ghost predicate AddedRows(run: Run, t: Tables, n: nat) {
    var moved := TransferredIds(run.plan);
    && |RowsOfFiles(t, moved)| == n
    && ElsewhereKept(run.before.chunks, t.chunks, moved)
  }

  /** The chunks a carried-out plan sent are the rows it added. */
  lemma SentAreAddedRows(run: Run, t: Tables, store: Store, disk: Disk, sha: P.Digest)
    requires Accomplished(run, t, store, disk, sha)
    ensures AddedRows(run, t, SentUpTo(run.plan, |run.plan|, disk).chunks)
  {
    AccomplishedParts(run, t, store, disk, sha);
    PartsAddUp(run.plan, t, disk);
  }
}
