/**
 The backup engine: a plan is executed statement by statement against the catalog. Any statement,
 read, upload or check may fail or find the run cancelled. The database keeps a ghost trace of every
 state it committed, so that a crash after any write is a state of the trace.
 */
module Backup {
  import opened Wrappers
  import opened ChangeDetector
  import opened Catalog
  import opened BackupSpec
  import opened Sealing
  import opened BackupPlan
  import opened BackupResults
  import opened Summaries
  import opened Identifiers
  import M = Manifest
  import P = Pipeline
  import T = Transfer
  import TS = TransferState
  import Q = Queue

  datatype BackupError =
    | BackupCancelled
    | DbFailed
    | FileRefused
    | SourceUnreadable
    | PipelineFailed
    | InvalidJobId
    | TransferError(cause: TS.TransferError)

  /** The current state, and every state committed since `start`, obeys the run's rules. */
  ghost predicate TraceOk(run: Run, t: Tables, trace: seq<Tables>, start: nat) {
    && start <= |trace| && Held(run, t)
    && (forall i :: start <= i < |trace| ==> Held(run, trace[i]))
    && t == if start < |trace| then trace[|trace| - 1] else run.before
  }

  ghost predicate TraceHolds(x: (Run, Tables, seq<Tables>, nat)) { TraceOk(x.0, x.1, x.2, x.3) }

  ghost predicate Traced(run: Run, t: Tables, trace: seq<Tables>, start: nat) {
    Sealed(TraceHolds, (run, t, trace, start), SealDepth(|run.plan|))
  }

  lemma TracedIs(run: Run, t: Tables, trace: seq<Tables>, start: nat)
    ensures Traced(run, t, trace, start) <==> TraceOk(run, t, trace, start)
  {
    SealedIs(TraceHolds, (run, t, trace, start), SealDepth(|run.plan|));
  }

  // ----- the database --------------------------------------------------------------------------

  class Database {
    var t: Tables
    ghost var trace: seq<Tables>
    /** How often a statement that the constraints allow failed so far. */
    ghost var failures: nat
    /** How often one was refused. */
    ghost var refusals: nat

    constructor (tables: Tables)
      ensures t == tables && trace == [] && failures == 0 && refusals == 0
    {
      t, trace, failures, refusals := tables, [], 0, 0;
    }

    ghost predicate Tracked(run: Run, start: nat)
      reads this
    {
      Held(run, t) && Traced(run, t, trace, start)
    }

    lemma AlwaysHeld(run: Run, start: nat)
      requires Tracked(run, start)
      ensures TraceOk(run, t, trace, start)
    {
      TracedIs(run, t, trace, start);
    }

    lemma NeverComplete(run: Run, start: nat)
      requires Tracked(run.(mayComplete := false), start)
      ensures Tracked(run, start) && TraceOk(run, t, trace, start)
      ensures NeverCompleted(run, trace, start)
    {
      AlwaysHeld(run.(mayComplete := false), start);
      HeldWhileOpen(run, t);
      forall i | start <= i < |trace| ensures Held(run, trace[i]) && !IsComplete(run, trace[i]) {
        HeldWhileOpen(run, trace[i]);
      }
      TracedIs(run, t, trace, start);
    }

    /** Executes one statement: it may fail for reasons of its own, and then nothing changes. */
    method Exec(next: Option<Tables>, ghost run: Run, ghost start: nat) returns (ok: bool)
      requires Tracked(run, start) && (next.Some? ==> Held(run, next.value))
      modifies this
      ensures Tracked(run, start)
      ensures ok ==> next == Some(t) && trace == old(trace) + [t]
      ensures !ok ==> t == old(t) && trace == old(trace)
      ensures failures >= old(failures) && (ok <==> next.Some? && failures == old(failures))
      ensures Costs(!ok, old(failures + refusals), failures + refusals) && refusals >= old(refusals)
    {
      if next.None? {
        refusals := refusals + 1;
        return false;
      }
      if * {
        failures := failures + 1;
        return false;
      }
      AlwaysHeld(run, start);
      t := next.value;
      trace := trace + [t];
      TracedIs(run, t, trace, start);
      return true;
    }

    /** Prunes a batch inside a transaction: all of it or nothing. */
    method PruneSnapshots(sids: seq<string>) returns (r: Option<nat>)
      modifies this
      ensures r.Some? ==>
                && Prunable(old(t), sids) && t == Pruned(old(t), Elements(sids))
                && r.value == |old(t).versions| - |t.versions|
      ensures r.None? ==> t == old(t) && trace == old(trace)
      ensures failures >= old(failures) && (r.Some? <==> Prunable(old(t), sids) && failures == old(failures))
    {
      var tx := t;
      var total: nat := 0;
      for i := 0 to |sids|
        invariant PruneAll(t, sids[..i]) == Some(tx)
        invariant t == old(t) && trace == old(trace) && failures == old(failures)
        invariant total == |t.versions| - |tx.versions|
      {
        assert sids[..i + 1][..i] == sids[..i];
        var gone := VersionsOf(tx.versions, sids[i]);
        RemovedCount(tx.versions, gone);
        total := total + |gone|;
        var one := PruneOne(tx, sids[i]);
        if one.None? {
          PrefixNotPrunable(t, sids, i + 1);
          return None;
        }
        tx := one.value;
      }
      assert sids[..|sids|] == sids;
      PruneRemovesExactly(t, sids);
      if * {
        failures := failures + 1;
        return None;
      }
      t := tx;
      trace := trace + [t];
      return Some(total);
    }

    /** Repairs a chunk row together with its manifest inside a transaction. */
    method RepairChunk(chunkId: string, ref: M.StorageRef, hash: string, size: nat, m: M.Manifest) returns (ok: bool)
      modifies this
      ensures ok ==> M.WellFormed(m) && Some(t) == ApplyChunkRepair(old(t), chunkId, ref, hash, size, m)
      ensures !ok ==> t == old(t) && trace == old(trace)
      ensures failures >= old(failures)
      ensures ok <==> && M.WellFormed(m) && ApplyChunkRepair(old(t), chunkId, ref, hash, size, m).Some?
                      && failures == old(failures)
    {
      if chunkId !in t.chunks {
        return false;
      }
      var valid := M.Validate(m);
      if valid.Err? {
        return false;
      }
      var next := ApplyChunkRepair(t, chunkId, ref, hash, size, m);
      if next.None? {
        return false;
      }
      if * {
        failures := failures + 1;
        return false;
      }
      t := next.value;
      trace := trace + [t];
      return true;
    }

    /**
     Settles interrupted work at startup, in one transaction: nothing is in flight afterwards, nothing
     else changed, and the counts say how many snapshots and jobs were settled.
     */
    method ReconcileInterrupted() returns (r: Option<(nat, nat)>)
      modifies this
      ensures r.None? ==> t == old(t) && trace == old(trace)
      ensures failures >= old(failures) && (r.Some? <==> failures == old(failures))
      ensures r.Some? ==>
                && trace == old(trace) + [t] && (t, r.value.0, r.value.1) == Reconcile(old(t))
                && (forall k :: k in t.snapshots ==> !InFlight(t.snapshots[k].status))
                && (forall k :: k in t.jobs ==> t.jobs[k] != Transferring)
                && Reconcile(t) == (t, 0, 0) && (Inv(old(t)) ==> Inv(t))
    {
      var snapshots, settledSnapshots := SettleSnapshots(t.snapshots);
      var jobs, settledJobs := SettleJobs(t.jobs);
      if * {
        failures := failures + 1;
        return None;
      }
      ReconcileSettles(t);
      if Inv(t) {
        ReconcileKeepsInv(t);
      }
      t := t.(snapshots := snapshots, jobs := jobs);
      trace := trace + [t];
      return Some((settledSnapshots, settledJobs));
    }
  }

  /** The update of all snapshots that are scanning or being backed up. */
  method SettleSnapshots(rows: map<string, SnapshotRecord>) returns (settled: map<string, SnapshotRecord>, n: nat)
    ensures settled == map k | k in rows :: if InFlight(rows[k].status) then rows[k].(status := Failed) else rows[k]
    ensures n == |set k | k in rows && InFlight(rows[k].status)|
  {
    settled, n := rows, 0;
    var rest := rows.Keys;
    ghost var changed := {};
    while rest != {}
      invariant rest <= rows.Keys == settled.Keys
      invariant changed == set k | k in rows && k !in rest && InFlight(rows[k].status)
      invariant n == |changed|
      invariant forall k :: k in rows ==>
                  settled[k] == if k in changed then rows[k].(status := Failed) else rows[k]
      decreases rest
    {
      var k :| k in rest;
      rest := rest - {k};
      if InFlight(rows[k].status) {
        settled, n, changed := settled[k := rows[k].(status := Failed)], n + 1, changed + {k};
      }
    }
    assert changed == set k | k in rows && InFlight(rows[k].status);
  }

  /** The update of all jobs that are transferring. */
  method SettleJobs(rows: map<string, TransferStatus>) returns (settled: map<string, TransferStatus>, n: nat)
    ensures settled == map k | k in rows :: if rows[k] == Transferring then TransferFailed else rows[k]
    ensures n == |set k | k in rows && rows[k] == Transferring|
  {
    settled, n := rows, 0;
    var rest := rows.Keys;
    ghost var changed := {};
    while rest != {}
      invariant rest <= rows.Keys == settled.Keys
      invariant changed == set k | k in rows && k !in rest && rows[k] == Transferring
      invariant n == |changed|
      invariant forall k :: k in rows ==> settled[k] == if k in changed then TransferFailed else rows[k]
      decreases rest
    {
      var k :| k in rest;
      rest := rest - {k};
      if rows[k] == Transferring {
        settled, n, changed := settled[k := TransferFailed], n + 1, changed + {k};
      }
    }
    assert changed == set k | k in rows && rows[k] == Transferring;
  }

  /** Reads the run's token; another thread may have cancelled it. */
  method PollCancelled(token: Q.CancellationToken) returns (b: bool)
    modifies token
    ensures b == token.cancelled && (old(token.cancelled) ==> b)
  {
    if * {
      token.Trigger();
    }
    b := token.cancelled;
  }

  /** The file system that sources are read from; opening and reading may fail. */
  class Device {
    ghost var failures: nat

    constructor ()
      ensures failures == 0
    {
      failures := 0;
    }

    method TryOpen(present: bool) returns (ok: bool)
      modifies this
      ensures ok ==> present && failures == old(failures)
      ensures Costs(!ok, old(failures), failures)
    {
      var opens: bool := *;
      if present && opens {
        return true;
      }
      failures := failures + 1;
      return false;
    }

    /** Takes note of a failed read. */
    ghost method NoteRead(failed: bool)
      modifies this
      ensures failures == old(failures) + if failed then 1 else 0
    {
      failures := failures + if failed then 1 else 0;
    }
  }

  /** Troubles are only ever added, and an error of this kind means that one was. */
  ghost predicate Costs(failed: bool, before: nat, after: nat) {
    if failed then before < after else before <= after
  }

  /** A cancelled token stays so, and only a cancelled one makes a run report a cancellation. */
  ghost predicate Heeds(before: bool, after: bool, reported: bool) {
    (before || reported) ==> after
  }

  function StatusOf(s: TS.State): TransferStatus {
    match s
    case Pending => TransferPending
    case Preparing => TransferPending
    case Transferring => Transferring
    case Verifying => Transferring
    case Retrying => Paused
    case Completed => TransferCompleted
    case Failed => TransferFailed
    case Cancelled => TransferCancelled
  }

  // ----- chunks --------------------------------------------------------------------------------

  /** The chunks of a processed file and the entries of its manifest, which the catalog has. */
  ghost predicate Matched(t: Tables, p: P.ProcessedFile, fid: string) {
    && p.manifest.manifestId in t.manifests && t.manifests[p.manifest.manifestId] == ManifestRow(fid, p.manifest)
    && |p.chunks| == |p.manifest.chunks|
    && forall i :: 0 <= i < |p.chunks| ==> ChunkMatchesEntry(p.chunks[i], p.manifest.chunks[i], i)
  }

  /** Where the chunk loop stands after i chunks. */
  ghost predicate ChunkProgress(run: Run, t0: Tables, t: Tables, store0: Store, store: Store, p: P.ProcessedFile,
                                m: M.Manifest, fid: string, i: nat)
  {
    && Matched(t0, p, fid) && i <= |p.chunks| == |m.chunks|
    && SameButRefs(m, p.manifest)
    && (forall j :: i <= j < |p.chunks| ==> m.chunks[j] == p.manifest.chunks[j])
    && t == t0.(chunks := t.chunks, jobs := t.jobs)
    && RowsAdded(t0.chunks, t.chunks, fid, m.manifestId, m.chunks, i)
    && (run.realReferences ==> StoreKept(store0, store) && Landed(store, m.chunks, p.chunks, i))
  }

  ghost predicate Progresses(x: (Run, Tables, Tables, Store, Store, P.ProcessedFile, M.Manifest, string, nat)) {
    ChunkProgress(x.0, x.1, x.2, x.3, x.4, x.5, x.6, x.7, x.8)
  }

  /** The progress of the chunk loop, sealed. */
  ghost predicate Progress(run: Run, t0: Tables, t: Tables, store0: Store, store: Store, p: P.ProcessedFile,
                           m: M.Manifest, fid: string, i: nat)
  {
    Sealed(Progresses, (run, t0, t, store0, store, p, m, fid, i), SealDepth(|p.chunks|))
  }

  lemma ProgressIs(run: Run, t0: Tables, t: Tables, store0: Store, store: Store, p: P.ProcessedFile,
                   m: M.Manifest, fid: string, i: nat)
    ensures Progress(run, t0, t, store0, store, p, m, fid, i) <==> ChunkProgress(run, t0, t, store0, store, p, m, fid, i)
  {
    SealedIs(Progresses, (run, t0, t, store0, store, p, m, fid, i), SealDepth(|p.chunks|));
  }

  lemma ProgressStart(run: Run, t: Tables, store: Store, p: P.ProcessedFile, fid: string)
    requires Matched(t, p, fid)
    ensures Progress(run, t, t, store, store, p, p.manifest, fid, 0)
  {
    ProgressIs(run, t, t, store, store, p, p.manifest, fid, 0);
  }

  /** What the next chunk's transfer relies on. */
  lemma ProgressOffers(run: Run, t0: Tables, t: Tables, store0: Store, store: Store, p: P.ProcessedFile,
                       m: M.Manifest, fid: string, i: nat)
    requires Progress(run, t0, t, store0, store, p, m, fid, i) && i < |p.chunks|
    ensures i < |m.chunks| && ChunkMatchesEntry(p.chunks[i], m.chunks[i], i) && m.manifestId in t.manifests
    ensures RowAgrees(RowFor(fid, m.manifestId, m.chunks[i]), t.manifests[m.manifestId])
    ensures run.realReferences ==> StoreKept(store0, store)
  {
    ProgressIs(run, t0, t, store0, store, p, m, fid, i);
  }

  lemma ProgressNext(run: Run, t0: Tables, t: Tables, u: Tables, store0: Store, store: Store, after: Store,
                     p: P.ProcessedFile, m: M.Manifest, fid: string, i: nat, ref: M.StorageRef)
    requires Progress(run, t0, t, store0, store, p, m, fid, i) && i < |p.chunks| && i < |m.chunks|
    requires p.chunks[i].chunkId !in t.chunks
    requires u == t.(chunks := t.chunks[p.chunks[i].chunkId := RowFor(fid, m.manifestId, m.chunks[i].(storageRef := ref))], jobs := u.jobs)
    requires run.realReferences ==>
               StoreKept(store, after) && ref != M.Pending && ref in after && after[ref] == p.chunks[i].staged
    ensures Progress(run, t0, u, store0, after, p, m.(chunks := m.chunks[i := m.chunks[i].(storageRef := ref)]), fid, i + 1)
  {
    ProgressIs(run, t0, t, store0, store, p, m, fid, i);
    RowsAddedNext(t0.chunks, t.chunks, fid, m.manifestId, m.chunks, i, ref);
    OnlyRefsNext(m, p.manifest, i, ref);
    if run.realReferences {
      LandedNext(store, after, m.chunks, p.chunks, i, ref);
      KeptTwice(store0, store, after);
    }
    ProgressIs(run, t0, u, store0, after, p, m.(chunks := m.chunks[i := m.chunks[i].(storageRef := ref)]), fid, i + 1);
  }

  lemma OnlyRefsNext(m: M.Manifest, base: M.Manifest, i: nat, ref: M.StorageRef)
    requires SameButRefs(m, base) && i < |m.chunks| && forall j :: i <= j < |m.chunks| ==> m.chunks[j] == base.chunks[j]
    ensures var next := m.(chunks := m.chunks[i := m.chunks[i].(storageRef := ref)]);
            SameButRefs(next, base) && forall j :: i + 1 <= j < |next.chunks| ==> next.chunks[j] == base.chunks[j]
  {
  }

  lemma KeptTwice(a: Store, b: Store, c: Store)
    requires StoreKept(a, b) && StoreKept(b, c)
    ensures StoreKept(a, c)
  {
  }

  predicate Indexed(chunks: seq<M.ChunkManifest>) {
    forall i :: 0 <= i < |chunks| ==> chunks[i].index == i
  }

  /** All chunks of p are transferred: their rows are there, and m holds their references. */
  ghost predicate AllTransferred(run: Run, a: map<string, ChunkRecord>, b: map<string, ChunkRecord>, store: Store,
                                 p: P.ProcessedFile, m: M.Manifest, fid: string)
  {
    && m.manifestId == p.manifest.manifestId && m.fileId == p.manifest.fileId
    && |m.chunks| == |p.chunks| && Indexed(m.chunks)
    && RowsAdded(a, b, fid, m.manifestId, m.chunks, |m.chunks|)
    && (run.realReferences ==> FullyReferenced(m) && Restorable(store, m, P.Concat(p.chunks)))
  }

  lemma ProgressDone(run: Run, t0: Tables, t: Tables, store0: Store, store: Store, p: P.ProcessedFile, m: M.Manifest, fid: string)
    requires Progress(run, t0, t, store0, store, p, m, fid, |p.chunks|)
    ensures AllTransferred(run, t0.chunks, t.chunks, store, p, m, fid) && t == t0.(chunks := t.chunks, jobs := t.jobs)
    ensures run.realReferences ==> StoreKept(store0, store)
  {
    ProgressIs(run, t0, t, store0, store, p, m, fid, |p.chunks|);
    if run.realReferences {
      RestoreAfterLanding(store, m, p.chunks);
    }
  }

  /** Every new file of the plan has a place of its own, sealed. */
  ghost predicate Placeable(run: Run) {
    Sealed(HasPlaces, run, SealDepth(|run.plan|))
  }

  ghost predicate HasPlaces(run: Run) { FilesFree(run) && DistinctPaths(run.plan) }

  lemma PlaceableIs(run: Run)
    ensures Placeable(run) <==> FilesFree(run) && DistinctPaths(run.plan)
  {
    SealedIs(HasPlaces, run, SealDepth(|run.plan|));
  }

  /** Where the second pass stands before entry n: what it achieved and what it sent. */
  ghost predicate PassAt(run: Run, t: Tables, store: Store, disk: Disk, sha: P.Digest, n: nat, done: set<string>, sent: Sent) {
    && n <= |run.plan|
    && Standing(run, t, store, disk, sha, Moved(run.plan, n), done) && sent == SentUpTo(run.plan, n, disk)
  }

  ghost predicate Passes(x: (Run, Tables, Store, Disk, P.Digest, nat, set<string>, Sent)) {
    PassAt(x.0, x.1, x.2, x.3, x.4, x.5, x.6, x.7)
  }

  /** The second pass before entry n, sealed. */
  ghost predicate SecondPass(run: Run, t: Tables, store: Store, disk: Disk, sha: P.Digest, n: nat, done: set<string>, sent: Sent) {
    Sealed(Passes, (run, t, store, disk, sha, n, done, sent), SealDepth(|run.plan|))
  }

  lemma SecondPassIs(run: Run, t: Tables, store: Store, disk: Disk, sha: P.Digest, n: nat, done: set<string>, sent: Sent)
    ensures SecondPass(run, t, store, disk, sha, n, done, sent) <==> PassAt(run, t, store, disk, sha, n, done, sent)
  {
    SealedIs(Passes, (run, t, store, disk, sha, n, done, sent), SealDepth(|run.plan|));
  }

  /** What the next transfer relies on. */
  lemma SecondPassOffers(run: Run, t: Tables, store: Store, disk: Disk, sha: P.Digest, n: nat, done: set<string>, sent: Sent)
    requires SecondPass(run, t, store, disk, sha, n, done, sent) && n < |run.plan| && Transfers(run.plan[n])
    ensures Standing(run, t, store, disk, sha, Moved(run.plan, n), done) && n !in Moved(run.plan, n)
  {
    SecondPassIs(run, t, store, disk, sha, n, done, sent);
    NotYetMoved(run.plan, n);
  }

  lemma SecondPassSkips(run: Run, t: Tables, store: Store, disk: Disk, sha: P.Digest, n: nat, done: set<string>, sent: Sent)
    requires SecondPass(run, t, store, disk, sha, n, done, sent) && n < |run.plan| && !Transfers(run.plan[n])
    ensures SecondPass(run, t, store, disk, sha, n + 1, done, sent)
  {
    SecondPassIs(run, t, store, disk, sha, n, done, sent);
    SecondPassIs(run, t, store, disk, sha, n + 1, done, sent);
  }

  lemma SecondPassNext(run: Run, t: Tables, store: Store, disk: Disk, sha: P.Digest, n: nat, done: set<string>, sent: Sent,
                       u: Tables, after: Store, one: Sent)
    requires SecondPass(run, t, store, disk, sha, n, done, sent) && n < |run.plan| && Transfers(run.plan[n])
    requires Standing(run, u, after, disk, sha, Moved(run.plan, n) + {n}, done + {run.plan[n].fileId})
    requires one == SentFor(run.plan[n], disk)
    ensures SecondPass(run, u, after, disk, sha, n + 1, done + {run.plan[n].fileId},
                       Sent(sent.chunks + one.chunks, sent.bytes + one.bytes))
  {
    SecondPassIs(run, t, store, disk, sha, n, done, sent);
    SecondPassIs(run, u, after, disk, sha, n + 1, done + {run.plan[n].fileId},
                 Sent(sent.chunks + one.chunks, sent.bytes + one.bytes));
  }

  lemma PlaceableEither(run: Run)
    ensures Placeable(run) <==> Placeable(run.(mayComplete := false))
  {
    PlaceableIs(run);
    PlaceableIs(run.(mayComplete := false));
  }

  /** The unchanged entries among the first n. */
  ghost function Linked(plan: seq<FileChange>, n: nat): set<int>
    requires n <= |plan|
  {
    if n == 0 then {}
    else if plan[n - 1].kind == Unchanged then Linked(plan, n - 1) + {n - 1}
    else Linked(plan, n - 1)
  }

  /** All unchanged entries, and those to transfer among the first n. */
  ghost function Moved(plan: seq<FileChange>, n: nat): set<int>
    requires n <= |plan|
  {
    if n == 0 then Linked(plan, |plan|)
    else if Transfers(plan[n - 1]) then Moved(plan, n - 1) + {n - 1}
    else Moved(plan, n - 1)
  }

  lemma {:induction false} LinkedMembers(plan: seq<FileChange>, n: nat)
    requires n <= |plan|
    ensures forall j :: j in Linked(plan, n) <==> 0 <= j < n && plan[j].kind == Unchanged
  {
    if n > 0 {
      LinkedMembers(plan, n - 1);
    }
  }

  lemma {:induction false} MovedMembers(plan: seq<FileChange>, n: nat)
    requires n <= |plan|
    ensures forall j :: j in Moved(plan, n) <==>
              0 <= j < |plan| && (plan[j].kind == Unchanged || (j < n && Transfers(plan[j])))
  {
    if n == 0 {
      LinkedMembers(plan, |plan|);
    } else {
      MovedMembers(plan, n - 1);
    }
  }

  lemma NotYetLinked(plan: seq<FileChange>, n: nat)
    requires n < |plan|
    ensures n !in Linked(plan, n)
  {
    LinkedMembers(plan, n);
  }

  lemma NotYetMoved(plan: seq<FileChange>, n: nat)
    requires n < |plan| && Transfers(plan[n])
    ensures n !in Moved(plan, n)
  {
    MovedMembers(plan, n);
  }

  lemma MovedAll(run: Run)
    ensures AllDone(run, Moved(run.plan, |run.plan|))
  {
    MovedMembers(run.plan, |run.plan|);
  }

  /** From a to b at most rows of the plan's deleted files changed, into their earlier row marked deleted. */
  ghost predicate OnlyMarked(plan: seq<FileChange>, a: Tables, b: Tables) {
    && b == a.(files := b.files) && b.files.Keys == a.files.Keys
    && forall k :: k in b.files ==> b.files[k] == a.files[k] || MarkedIn(plan, k, b.files[k])
  }

  ghost predicate MarkedIn(plan: seq<FileChange>, fid: string, row: FileRecord) {
    exists i :: 0 <= i < |plan| && plan[i].kind == Deleted && plan[i].fileId == fid && plan[i].previousFile.Some? &&
                row == plan[i].previousFile.value.(status := "deleted", profileId := row.profileId)
  }

  lemma MarkedOneMore(plan: seq<FileChange>, a: Tables, b: Tables, c: Tables, i: nat)
    requires OnlyMarked(plan, a, b) && i < |plan| && plan[i].kind == Deleted
    requires plan[i].previousFile.Some? && plan[i].previousFile.value.fileId == plan[i].fileId
    requires c == b || Some(c) == UpdateFile(b, plan[i].previousFile.value.(status := "deleted"))
    ensures OnlyMarked(plan, a, c)
  {
    if c != b {
      assert MarkedIn(plan, plan[i].fileId, c.files[plan[i].fileId]);
    }
  }

  /** From a to b only the status of one snapshot changed. */
  ghost predicate OnlyStatus(a: Tables, b: Tables, sid: string, status: BackupStatus) {
    && sid in a.snapshots && sid in b.snapshots && b == a.(snapshots := a.snapshots[sid := b.snapshots[sid]])
    && b.snapshots[sid].status == status
    && b.snapshots[sid].snapshotId == a.snapshots[sid].snapshotId && b.snapshots[sid].profileId == a.snapshots[sid].profileId
  }

  /** The row of a vanished file is its earlier one marked deleted. */
  ghost predicate RowMarked(t: Tables, c: FileChange) {
    && c.previousFile.Some? && c.fileId in t.files
    && t.files[c.fileId] == c.previousFile.value.(status := "deleted", profileId := t.files[c.fileId].profileId)
  }

  /** The rows of the vanished files among the first n changes are marked. */
  ghost predicate AllMarked(plan: seq<FileChange>, t: Tables, n: nat) {
    n <= |plan| && forall i :: 0 <= i < n && plan[i].kind == Deleted ==> RowMarked(t, plan[i])
  }

  lemma AllMarkedNext(run: Run, disk: Disk, sha: P.Digest, t: Tables, u: Tables, n: nat)
    requires Planned(run, disk, sha) && n < |run.plan| && run.plan[n].kind == Deleted && AllMarked(run.plan, t, n)
    requires run.plan[n].previousFile.Some? && run.plan[n].previousFile.value.fileId == run.plan[n].fileId
    requires Some(u) == UpdateFile(t, run.plan[n].previousFile.value.(status := "deleted"))
    ensures AllMarked(run.plan, u, n + 1)
  {
    PlannedIs(run, disk, sha);
  }

  /** Closing the snapshot of an accomplished plan leaves everything else as it is. */
  lemma ClosedIsAccomplished(run: Run, t: Tables, u: Tables, store: Store, disk: Disk, sha: P.Digest)
    requires Accomplished(run.(mayComplete := false), t, store, disk, sha) && OnlyStatus(t, u, run.sid, Completed)
    ensures IsComplete(run, u) && Accomplished(run, u, store, disk, sha) && FilesFree(run)
    ensures AllMarked(run.plan, t, |run.plan|) ==> AllMarked(run.plan, u, |run.plan|)
  {
    AccomplishedAnyStatus(run, t, u, store, disk, sha);
    AccomplishedIsFree(run, u, store, disk, sha);
  }

  lemma KnownNotRefused(run: Run, t: Tables, f: FileRecord)
    requires Held(run, t) && f.fileId in t.files && t.files[f.fileId].relativePath == f.relativePath
    ensures UpdateFile(t, f).Some?
  {
    Unfold(run, t);
    RewriteNotRefused(t, f);
  }

  class BackupEngine {
    const db: Database
    const provider: T.Provider
    const queue: Q.TransferQueue
    const maxRetries: nat
    const sha: P.Digest
    const device: Device
    /** What each absolute path holds while the run reads it. */
    const disk: map<string, seq<byte>>

    constructor (database: Database, storage: T.Provider, transfers: Q.TransferQueue, retries: nat,
                 digest: P.Digest, files: Device, contents: map<string, seq<byte>>)
      ensures db == database && provider == storage && queue == transfers && maxRetries == retries
      ensures sha == digest && device == files && disk == contents
    {
      db, provider, queue, maxRetries, sha := database, storage, transfers, retries, digest;
      device, disk := files, contents;
    }

    /** How often the database failed or refused a statement and a source could not be read. */
    ghost function Troubles(): nat
      reads db, device
    {
      db.failures + db.refusals + device.failures
    }

    ghost predicate Ready(run: Run, start: nat)
      reads db, queue
    {
      && queue.Valid() && db.Tracked(run, start) && run.sid in db.t.snapshots && db.failures >= run.failedBefore
      && run.realReferences == provider.realReferences && Held(run, run.before)
    }

    method FailSnapshot(sid: string, ghost run: Run, ghost start: nat) returns (ok: bool)
      requires Ready(run, start) && sid == run.sid
      modifies db
      ensures Costs(!ok, old(Troubles()), Troubles())
      ensures Ready(run, start) && db.failures >= old(db.failures) && (ok <==> db.failures == old(db.failures))
      ensures if ok then OnlyStatus(old(db.t), db.t, sid, Failed) else db.t == old(db.t)
    {
      SetStatusOk(run, db.t, Failed);
      ok := db.Exec(SetStatus(db.t, sid, Failed), run, start);
    }

    /** A cancelled run marks its snapshot failed and stops. */
    method StopIfCancelled(sid: string, token: Q.CancellationToken, ghost run: Run, ghost start: nat)
      returns (err: Option<BackupError>)
      requires Ready(run, start) && sid == run.sid
      modifies db, token
      ensures Costs(err in {Some(DbFailed), Some(SourceUnreadable)}, old(Troubles()), Troubles())
      ensures Ready(run, start)
      ensures err.Some? <==> token.cancelled
      ensures old(token.cancelled) ==> token.cancelled
      ensures err.None? ==> db.t == old(db.t) && db.failures == old(db.failures)
      ensures err.Some? ==>
                && db.t == old(db.t).(snapshots := db.t.snapshots)
                && if db.failures == old(db.failures) then err.value == BackupCancelled && IsFailed(run, db.t)
                   else err.value == DbFailed && db.failures > old(db.failures)
    {
      var cancelled := PollCancelled(token);
      if !cancelled {
        return None;
      }
      var marked := FailSnapshot(sid, run, start);
      return Some(if marked then BackupCancelled else DbFailed);
    }

    /** Uploads one staged payload under a fresh job; the queue then knows the job's final state. */
    method UploadStaged(jobId: string, staged: seq<byte>, token: Q.CancellationToken)
      returns (r: Result<M.StorageRef, TS.TransferError>)
      requires queue.Valid()
      modifies provider, queue, token
      ensures queue.Valid() && (old(token.cancelled) ==> token.cancelled && r.Err?)
      ensures r == Err(TS.TransferError.TransferCancelled) ==> token.cancelled
      ensures provider.realReferences ==> StoreKept(old(provider.store), provider.store)
      ensures r.Ok? ==>
                && jobId in queue.jobs && queue.jobs[jobId].state == TS.Completed
                && (provider.realReferences ==>
                      r.value != M.Pending && r.value in provider.store && provider.store[r.value] == staged)
    {
      var job := new T.TransferJob(jobId);
      var staging := new T.StagingFile(staged);
      var log := new T.Log();
      r := T.ExecuteStagedUpload(job, staging, token, provider, queue, maxRetries, log);
    }

    method InsertChunk(row: ChunkRecord, ghost run: Run, ghost start: nat) returns (ok: bool)
      requires Ready(run, start)
      requires row.manifestId in db.t.manifests && RowAgrees(row, db.t.manifests[row.manifestId])
      modifies db
      ensures Costs(!ok, old(Troubles()), Troubles())
      ensures Ready(run, start) && db.failures >= old(db.failures)
      ensures ok ==>
                && row.chunkId !in old(db.t).chunks && row.fileId in old(db.t).files
                && db.t == old(db.t).(chunks := old(db.t).chunks[row.chunkId := row])
    {
      CreateChunkOk(run, db.t, row);
      ok := db.Exec(CreateChunk(db.t, row), run, start);
    }

    /** Records the job's final state; a failure to do so is ignored. */
    method SyncJob(jobId: string, fid: string, chunkId: string, status: TransferStatus, ghost run: Run, ghost start: nat)
      requires Ready(run, start)
      modifies db
      ensures Costs(false, old(Troubles()), Troubles())
      ensures Ready(run, start) && db.t == old(db.t).(jobs := db.t.jobs) && db.failures >= old(db.failures)
      ensures db.t.jobs == old(db.t).jobs || db.t.jobs == old(db.t).jobs[jobId := status]
      ensures fid in db.t.files && chunkId in db.t.chunks && db.failures == old(db.failures) ==>
                db.t.jobs == old(db.t).jobs[jobId := status]
    {
      UpsertJobOk(run, db.t, jobId, fid, chunkId, status);
      var _ := db.Exec(UpsertJob(db.t, jobId, fid, chunkId, status), run, start);
    }

    /** Records the row of a transferred chunk and its job. */
    method RecordChunk(chunk: P.ProcessedChunk, fid: string, mid: string, ref: M.StorageRef, status: TransferStatus,
                       ghost entry: M.ChunkManifest, ghost run: Run, ghost start: nat)
      returns (ok: bool)
      requires Ready(run, start) && ChunkMatchesEntry(chunk, entry, chunk.chunkIndex)
      requires mid in db.t.manifests && RowAgrees(RowFor(fid, mid, entry), db.t.manifests[mid])
      modifies db
      ensures Costs(!ok, old(Troubles()), Troubles())
      ensures Ready(run, start) && db.failures >= old(db.failures)
      ensures ok ==>
                var jobId := "job-" + chunk.chunkId;
                && chunk.chunkId !in old(db.t).chunks
                && db.t == old(db.t).(jobs := db.t.jobs, chunks :=
                     old(db.t).chunks[chunk.chunkId := RowFor(fid, mid, entry.(storageRef := ref))])
                && (db.t.jobs == old(db.t).jobs || db.t.jobs == old(db.t).jobs[jobId := status])
                && (db.failures == old(db.failures) ==> db.t.jobs == old(db.t).jobs[jobId := status])
    {
      var row := ChunkRecord(chunk.chunkId, fid, mid, chunk.chunkIndex, chunk.plaintextSize, chunk.storedSize, chunk.storedSha256, ref);
      ok := InsertChunk(row, run, start);
      if ok {
        SyncJob("job-" + chunk.chunkId, fid, chunk.chunkId, status, run, start);
      }
    }

    /** Transfers one staged chunk, records its row and its job. */
    method TransferChunk(chunk: P.ProcessedChunk, fid: string, mid: string, sid: string, token: Q.CancellationToken,
                         ghost entry: M.ChunkManifest, ghost run: Run, ghost start: nat)
      returns (r: Result<M.StorageRef, BackupError>)
      requires Ready(run, start) && sid == run.sid
      requires ChunkMatchesEntry(chunk, entry, chunk.chunkIndex)
      requires mid in db.t.manifests && RowAgrees(RowFor(fid, mid, entry), db.t.manifests[mid])
      modifies db, provider, queue, token
      ensures Costs(r in {Err(DbFailed), Err(SourceUnreadable)}, old(Troubles()), Troubles())
      ensures Ready(run, start)
      ensures run.realReferences ==> StoreKept(old(provider.store), provider.store)
      ensures Heeds(old(token.cancelled), token.cancelled, r == Err(BackupCancelled))
      ensures old(token.cancelled) ==>
                && db.t == old(db.t).(snapshots := db.t.snapshots) && provider.store == old(provider.store)
                && (r == Err(BackupCancelled) || (r == Err(DbFailed) && db.failures > old(db.failures)))
      ensures r == Err(BackupCancelled) ==> IsFailed(run, db.t)
      ensures r == Err(InvalidJobId) ==> !ValidId("job-" + chunk.chunkId)
      ensures r == Err(TransferError(TS.TransferError.TransferCancelled)) ==> token.cancelled
      ensures r.Err? ==> r.error != FileRefused
      ensures r.Ok? ==>
                var row := RowFor(fid, mid, entry.(storageRef := r.value));
                && chunk.chunkId !in old(db.t).chunks
                && db.t == old(db.t).(chunks := old(db.t).chunks[chunk.chunkId := row], jobs := db.t.jobs)
                && (db.t.jobs == old(db.t).jobs || db.t.jobs == old(db.t).jobs["job-" + chunk.chunkId := TransferCompleted])
                && (db.failures == old(db.failures) ==>
                      db.t.jobs == old(db.t).jobs["job-" + chunk.chunkId := TransferCompleted])
                && (run.realReferences ==>
                      r.value != M.Pending && r.value in provider.store && provider.store[r.value] == chunk.staged)
    {
      var stop := StopIfCancelled(sid, token, run, start);
      if stop.Some? {
        return Err(stop.value);
      }
      var jobId := "job-" + chunk.chunkId;
      if !ValidId(jobId) {
        return Err(InvalidJobId);
      }
      var upload := UploadStaged(jobId, chunk.staged, token);
      if upload.Err? {
        return Err(TransferError(upload.error));
      }
      var ok := RecordChunk(chunk, fid, mid, upload.value, StatusOf(queue.jobs[jobId].state), entry, run, start);
      return if ok then Ok(upload.value) else Err(DbFailed);
    }

    /** Transfers the next chunk of a processed file and puts its reference into the manifest. */
    method TransferNext(p: P.ProcessedFile, m: M.Manifest, i: nat, fid: string, sid: string, token: Q.CancellationToken,
                        ghost t0: Tables, ghost store0: Store, ghost run: Run, ghost start: nat)
      returns (r: Result<M.Manifest, BackupError>)
      requires Ready(run, start) && sid == run.sid && i < |p.chunks|
      requires Progress(run, t0, db.t, store0, provider.store, p, m, fid, i)
      modifies db, provider, queue, token
      ensures Costs(r in {Err(DbFailed), Err(SourceUnreadable)}, old(Troubles()), Troubles())
      ensures Ready(run, start)
      ensures run.realReferences ==> StoreKept(store0, provider.store)
      ensures Heeds(old(token.cancelled), token.cancelled, r == Err(BackupCancelled))
      ensures r.Err? ==> r.error != FileRefused
      ensures r.Ok? ==> Progress(run, t0, db.t, store0, provider.store, p, r.value, fid, i + 1)
    {
      ProgressOffers(run, t0, db.t, store0, provider.store, p, m, fid, i);
      var ref := TransferChunk(p.chunks[i], fid, m.manifestId, sid, token, m.chunks[i], run, start);
      if ref.Err? {
        return Err(ref.error);
      }
      ProgressNext(run, t0, old(db.t), db.t, store0, old(provider.store), provider.store, p, m, fid, i, ref.value);
      return Ok(m.(chunks := m.chunks[i := m.chunks[i].(storageRef := ref.value)]));
    }

    /** The loop over the chunks. */
    method TransferEach(p: P.ProcessedFile, fid: string, sid: string, token: Q.CancellationToken, ghost run: Run, ghost start: nat)
      returns (r: Result<M.Manifest, BackupError>, sent: Sent)
      requires Ready(run, start) && sid == run.sid
      requires Progress(run, db.t, db.t, provider.store, provider.store, p, p.manifest, fid, 0)
      modifies db, provider, queue, token
      ensures Costs(r in {Err(DbFailed), Err(SourceUnreadable)}, old(Troubles()), Troubles())
      ensures Ready(run, start)
      ensures Heeds(old(token.cancelled), token.cancelled, r == Err(BackupCancelled))
      ensures r.Err? ==> r.error != FileRefused && (run.realReferences ==> StoreKept(old(provider.store), provider.store))
      ensures r.Ok? ==>
                && Progress(run, old(db.t), db.t, old(provider.store), provider.store, p, r.value, fid, |p.chunks|)
                && sent == Sent(|p.chunks|, StoredBytes(p.chunks, |p.chunks|))
    {
      r := Ok(p.manifest);
      sent := Sent(0, 0);
      for i := 0 to |p.chunks|
        invariant Ready(run, start) && r.Ok? && (old(token.cancelled) ==> token.cancelled) && Troubles() >= old(Troubles())
        invariant Progress(run, old(db.t), db.t, old(provider.store), provider.store, p, r.value, fid, i)
        invariant sent == Sent(i, StoredBytes(p.chunks, i))
      {
        r := TransferNext(p, r.value, i, fid, sid, token, old(db.t), old(provider.store), run, start);
        if r.Err? {
          return;
        }
        sent := Sent(sent.chunks + 1, sent.bytes + p.chunks[i].storedSize);
      }
    }

    /**
     Transfers all chunks of a processed file. On success the catalog gained exactly their rows, and
     the returned manifest is the processed one with the references the provider gave.
     */
    method TransferChunks(p: P.ProcessedFile, fid: string, sid: string, token: Q.CancellationToken,
                          ghost run: Run, ghost start: nat)
      returns (r: Result<M.Manifest, BackupError>, sent: Sent)
      requires Ready(run, start) && sid == run.sid && Matched(db.t, p, fid)
      modifies db, provider, queue, token
      ensures Costs(r in {Err(DbFailed), Err(SourceUnreadable)}, old(Troubles()), Troubles())
      ensures Ready(run, start)
      ensures run.realReferences ==> StoreKept(old(provider.store), provider.store)
      ensures Heeds(old(token.cancelled), token.cancelled, r == Err(BackupCancelled))
      ensures r.Err? ==> r.error != FileRefused
      ensures r.Ok? ==>
                && db.t == old(db.t).(chunks := db.t.chunks, jobs := db.t.jobs)
                && AllTransferred(run, old(db.t).chunks, db.t.chunks, provider.store, p, r.value, fid)
                && sent == Sent(|p.chunks|, StoredBytes(p.chunks, |p.chunks|))
    {
      ProgressStart(run, db.t, provider.store, p, fid);
      r, sent := TransferEach(p, fid, sid, token, run, start);
      if r.Ok? {
        ProgressDone(run, old(db.t), db.t, old(provider.store), provider.store, p, r.value, fid);
      }
    }

    // ----- statements of one file ----------------------------------------------------------------

    /** A row whose identifier, path or profile the constraints forbid is refused. */
    method InsertFile(f: FileRecord, ghost run: Run, ghost start: nat) returns (err: Option<BackupError>)
      requires Ready(run, start)
      modifies db
      ensures Costs(err in {Some(DbFailed), Some(SourceUnreadable)}, old(Troubles()), Troubles())
      ensures Ready(run, start)
      ensures err in {None, Some(FileRefused), Some(DbFailed)}
      ensures err.None? ==> Some(db.t) == CreateFile(old(db.t), f)
      ensures err == Some(FileRefused) <==> CreateFile(old(db.t), f).None?
    {
      var next := CreateFile(db.t, f);
      CreateFileOk(run, db.t, f);
      var ok := db.Exec(next, run, start);
      return if ok then None else if next.None? then Some(FileRefused) else Some(DbFailed);
    }

    method ChangeFile(f: FileRecord, ghost run: Run, ghost start: nat) returns (ok: bool)
      requires Ready(run, start) && (f.fileId in db.t.files ==> db.t.files[f.fileId].relativePath == f.relativePath)
      modifies db
      ensures Costs(!ok, old(Troubles()), Troubles())
      ensures Ready(run, start) && db.failures >= old(db.failures)
      ensures ok ==> Some(db.t) == UpdateFile(old(db.t), f)
      ensures !ok ==> db.t == old(db.t)
      ensures ok <==> UpdateFile(old(db.t), f).Some? && db.failures == old(db.failures)
    {
      UpdateFileOk(run, db.t, f);
      ok := db.Exec(UpdateFile(db.t, f), run, start);
    }

    method DropChunks(fid: string, ghost run: Run, ghost start: nat) returns (ok: bool)
      requires Ready(run, start)
      modifies db
      ensures Costs(!ok, old(Troubles()), Troubles())
      ensures Ready(run, start)
      ensures ok ==> Some(db.t) == DeleteChunksByFile(old(db.t), fid)
    {
      DeleteChunksOk(run, db.t, fid);
      ok := db.Exec(DeleteChunksByFile(db.t, fid), run, start);
    }

    method StoreManifest(m: M.Manifest, ghost run: Run, ghost start: nat) returns (ok: bool)
      requires Ready(run, start) && Savable(run, db.t, m)
      modifies db
      ensures Costs(!ok, old(Troubles()), Troubles())
      ensures Ready(run, start)
      ensures ok ==> db.t == old(db.t).(manifests := old(db.t).manifests[m.manifestId := ManifestRow(m.fileId, m)])
    {
      PutManifestOk(run, db.t, m);
      ok := db.Exec(PutManifest(db.t, m), run, start);
    }

    /** Saving validates the manifest first. */
    method SaveManifest(m: M.Manifest, ghost run: Run, ghost start: nat) returns (ok: bool)
      requires Ready(run, start) && Savable(run, db.t, m)
      modifies db
      ensures Costs(!ok, old(Troubles()), Troubles())
      ensures Ready(run, start)
      ensures ok ==>
                && M.WellFormed(m)
                && db.t == old(db.t).(manifests := old(db.t).manifests[m.manifestId := ManifestRow(m.fileId, m)])
    {
      var valid := M.Validate(m);
      if valid.Err? {
        db.refusals := db.refusals + 1;
        return false;
      }
      ok := StoreManifest(m, run, start);
    }

    /** Binds a version of a file to the run's snapshot under a new version identifier. */
    method BindVersion(fid: string, mid: string, sid: string, ghost run: Run, ghost start: nat)
      returns (vid: Option<string>)
      requires Ready(run, start) && sid == run.sid
      requires mid in db.t.manifests ==> db.t.manifests[mid].fileId == fid
      requires run.realReferences && SparesVersions(run) && Referenced(run.before) && mid in db.t.manifests ==>
                 FullyReferenced(db.t.manifests[mid].manifest)
      modifies db
      ensures Costs(vid.None?, old(Troubles()), Troubles())
      ensures Ready(run, start)
      ensures vid.Some? ==>
                && vid.value !in old(db.t).versions
                && db.t == old(db.t).(versions := old(db.t).versions[vid.value := VersionRecord(vid.value, fid, sid, mid, "active")])
    {
      var id: string := *;
      var v := VersionRecord(id, fid, sid, mid, "active");
      CreateVersionOk(run, db.t, v);
      var ok := db.Exec(CreateVersion(db.t, v), run, start);
      return if ok then Some(id) else None;
    }

    // ----- one file ------------------------------------------------------------------------------

    /** Creates the row of a new file, or updates a known one and deletes its chunk rows. */
    method RecordFile(c: FileChange, pid: string, hash: string, ghost run: Run, ghost start: nat) returns (err: Option<BackupError>)
      requires Ready(run, start) && pid == run.pid
      requires c.kind == New || c.kind == Modified
      requires c.scanned.Some? && c.scanned.value.relativePath == c.relativePath
      requires c.kind == Modified ==> c.fileId in db.t.files && db.t.files[c.fileId].relativePath == c.relativePath
      modifies db
      ensures Costs(err in {Some(DbFailed), Some(SourceUnreadable)}, old(Troubles()), Troubles())
      ensures Ready(run, start)
      ensures err in {None, Some(FileRefused), Some(DbFailed)}
      ensures err.None? ==> Recorded(run, old(db.t), db.t, c, hash)
      ensures err == Some(FileRefused) ==> Refuses(run, old(db.t), c)
    {
      var row := FileRow(c.fileId, pid, c.scanned.value, hash);
      if c.kind == New {
        RefusedAnyHash(run, db.t, c, hash);
        err := InsertFile(row, run, start);
        if err.None? {
          CreatedIsRecorded(run, old(db.t), c, hash);
        }
        return;
      }
      var ok := ChangeFile(row, run, start);
      if !ok {
        return Some(DbFailed);
      }
      ok := DropChunks(c.fileId, run, start);
      if !ok {
        return Some(DbFailed);
      }
      UpdatedIsRecorded(run, old(db.t), c, hash);
      return None;
    }

    /** Opens and processes the source of a change. */
    method ReadSource(c: FileChange) returns (r: Result<P.ProcessedFile, BackupError>)
      requires c.scanned.Some?
      modifies device
      ensures r.Err? ==> r.error in {SourceUnreadable, PipelineFailed}
      ensures Costs(r == Err(SourceUnreadable), old(device.failures), device.failures)
      ensures r == Err(PipelineFailed) ==>
                || device.failures > old(device.failures)
                || exists i :: 0 <= i < P.ExpectedChunkCount(c.scanned.value.sizeBytes) && !ValidId(P.ChunkIdOf(c.fileId, i))
      ensures r.Ok? ==> c.scanned.value.absolutePath in disk && Usable(r.value, c, disk, sha)
    {
      var scanned := c.scanned.value;
      var found := device.TryOpen(scanned.absolutePath in disk);
      if !found {
        return Err(SourceUnreadable);
      }
      var reader := new P.Reader(disk[scanned.absolutePath]);
      var p := P.ProcessFile(c.fileId, c.relativePath, reader, scanned.sizeBytes, sha);
      device.NoteRead(reader.failed);
      if p.Err? {
        return Err(PipelineFailed);
      }
      ProcessedIsUsable(p.value, c, disk, sha);
      return Ok(p.value);
    }

    /** The first save of a file's manifest, while it has no chunk rows. */
    method SaveInitial(m: M.Manifest, ghost run: Run, ghost start: nat) returns (ok: bool)
      requires Ready(run, start) && OwnedId(m.manifestId, m.fileId) && m.manifestId in run.planned
      requires NoRows(db.t, m.fileId) && NoVersionYet(run, db.t, m.fileId)
      modifies db
      ensures Costs(!ok, old(Troubles()), Troubles())
      ensures Ready(run, start)
      ensures ok ==>
                && m.chunks != []
                && db.t == old(db.t).(manifests := old(db.t).manifests[m.manifestId := ManifestRow(m.fileId, m)])
      ensures ok && AllPending(m) && !Unnamed(old(db.t), m.manifestId) ==>
                !Referenced(db.t) && !Referenced(Reconcile(db.t).0)
    {
      NoRowsName(run, db.t, m.fileId, m.manifestId);
      if SparesVersions(run) {
        UnnamedYet(run, db.t, m.fileId, m.manifestId);
      }
      ok := SaveManifest(m, run, start);
      if ok && AllPending(m) && !Unnamed(old(db.t), m.manifestId) {
        PendingTakesReferences(old(db.t), db.t, m);
      }
    }

    /** The second save, with references, once the rows of all chunks are there. */
    method SaveFinal(m: M.Manifest, ghost a: Tables, ghost run: Run, ghost start: nat) returns (ok: bool)
      requires Ready(run, start) && OwnedId(m.manifestId, m.fileId) && m.manifestId in run.planned
      requires Held(run, a) && NoRows(a, m.fileId) && NoVersionYet(run, db.t, m.fileId)
      requires RowsAdded(a.chunks, db.t.chunks, m.fileId, m.manifestId, m.chunks, |m.chunks|)
      requires Indexed(m.chunks)
      modifies db
      ensures Costs(!ok, old(Troubles()), Troubles())
      ensures Ready(run, start)
      ensures ok ==> db.t == old(db.t).(manifests := old(db.t).manifests[m.manifestId := ManifestRow(m.fileId, m)])
    {
      AddedRowsAgree(run, a, db.t, m.fileId, m);
      if SparesVersions(run) {
        UnnamedYet(run, db.t, m.fileId, m.manifestId);
      }
      ok := SaveManifest(m, run, start);
    }

    /** Saves with references and binds the version of a file whose chunks are all transferred. */
    method FinishFile(c: FileChange, m: M.Manifest, sid: string, ghost a: Tables, ghost run: Run, ghost start: nat)
      returns (vid: Option<string>)
      requires Ready(run, start) && sid == run.sid && m.fileId == c.fileId
      requires OwnedId(m.manifestId, m.fileId) && m.manifestId in run.planned
      requires Held(run, a) && NoRows(a, m.fileId) && NoVersionYet(run, db.t, m.fileId)
      requires RowsAdded(a.chunks, db.t.chunks, m.fileId, m.manifestId, m.chunks, |m.chunks|)
      requires Indexed(m.chunks)
      requires run.realReferences ==> FullyReferenced(m)
      modifies db
      ensures Costs(vid.None?, old(Troubles()), Troubles())
      ensures Ready(run, start)
      ensures vid.Some? ==>
                && vid.value !in old(db.t).versions
                && db.t == old(db.t).(
                     manifests := old(db.t).manifests[m.manifestId := ManifestRow(c.fileId, m)],
                     versions := old(db.t).versions[vid.value := VersionRecord(vid.value, c.fileId, sid, m.manifestId, "active")])
    {
      var ok := SaveFinal(m, a, run, start);
      if !ok {
        return None;
      }
      vid := BindVersion(c.fileId, m.manifestId, sid, run, start);
    }

    /** Transfers the chunks of a file whose manifest is saved, then finishes it. */
    method TransferAndFinish(c: FileChange, p: P.ProcessedFile, sid: string, token: Q.CancellationToken,
                             ghost a: Tables, ghost run: Run, ghost start: nat)
      returns (r: Result<(M.Manifest, string), BackupError>, sent: Sent)
      requires Ready(run, start) && sid == run.sid
      requires Held(run, a) && NoRows(a, c.fileId) && NoVersionYet(run, a, c.fileId)
      requires p.manifest.fileId == c.fileId && OwnedId(p.manifest.manifestId, c.fileId)
      requires p.manifest.manifestId in run.planned
      requires |p.chunks| == |p.manifest.chunks|
      requires forall i :: 0 <= i < |p.chunks| ==> ChunkMatchesEntry(p.chunks[i], p.manifest.chunks[i], i)
      requires db.t == a.(manifests := a.manifests[p.manifest.manifestId := ManifestRow(c.fileId, p.manifest)])
      modifies db, provider, queue, token
      ensures Costs(r in {Err(DbFailed), Err(SourceUnreadable)}, old(Troubles()), Troubles())
      ensures Ready(run, start)
      ensures run.realReferences ==> StoreKept(old(provider.store), provider.store)
      ensures Heeds(old(token.cancelled), token.cancelled, r == Err(BackupCancelled))
      ensures r.Err? ==> r.error != FileRefused
      ensures r.Ok? ==> sent == Sent(|p.chunks|, StoredBytes(p.chunks, |p.chunks|))
      ensures r.Ok? ==>
                var (m, vid) := r.value;
                && m.manifestId == p.manifest.manifestId && |m.chunks| == |p.chunks| && Indexed(m.chunks)
                && RowsAdded(a.chunks, db.t.chunks, c.fileId, m.manifestId, m.chunks, |m.chunks|)
                && vid !in a.versions
                && db.t == a.(chunks := db.t.chunks, jobs := db.t.jobs,
                     manifests := a.manifests[m.manifestId := ManifestRow(c.fileId, m)],
                     versions := a.versions[vid := VersionRecord(vid, c.fileId, run.sid, m.manifestId, "active")])
                && (run.realReferences ==> Restorable(provider.store, m, P.Concat(p.chunks)))
    {
      var transferred;
      transferred, sent := TransferChunks(p, c.fileId, sid, token, run, start);
      if transferred.Err? {
        return Err(transferred.error), sent;
      }
      var m := transferred.value;
      var vid := FinishFile(c, m, sid, a, run, start);
      if vid.None? {
        return Err(DbFailed), sent;
      }
      OverwriteTwice(a.manifests, m.manifestId, ManifestRow(c.fileId, p.manifest), ManifestRow(c.fileId, m));
      return Ok((m, vid.value)), sent;
    }

    /** Saves, transfers, saves again and binds a processed file whose row is recorded. */
    method StoreFile(c: FileChange, p: P.ProcessedFile, sid: string, token: Q.CancellationToken,
                     ghost t: Tables, ghost run: Run, ghost start: nat)
      returns (r: Result<string, BackupError>, sent: Sent)
      requires Ready(run, start) && sid == run.sid
      requires Recorded(run, t, db.t, c, p.logicalFileHash) && NoVersionYet(run, db.t, c.fileId)
      requires p.manifest.fileId == c.fileId && OwnedId(p.manifest.manifestId, c.fileId)
      requires p.manifest.manifestId in run.planned
      requires |p.chunks| == |p.manifest.chunks|
      requires forall i :: 0 <= i < |p.chunks| ==> ChunkMatchesEntry(p.chunks[i], p.manifest.chunks[i], i)
      modifies db, provider, queue, token
      ensures Costs(r in {Err(DbFailed), Err(SourceUnreadable)}, old(Troubles()), Troubles())
      ensures Ready(run, start)
      ensures run.realReferences ==> StoreKept(old(provider.store), provider.store)
      ensures Heeds(old(token.cancelled), token.cancelled, r == Err(BackupCancelled))
      ensures r.Err? ==> r.error != FileRefused
      ensures r.Ok? ==>
                && p.chunks != [] && sent == Sent(|p.chunks|, StoredBytes(p.chunks, |p.chunks|))
                && Transferred(run, t, db.t, provider.store, c, p.logicalFileHash, p.manifest.manifestId, P.Concat(p.chunks),
                               |p.chunks|, r.value)
    {
      ghost var a := db.t;
      var ok := SaveInitial(p.manifest, run, start);
      if !ok {
        return Err(DbFailed), Sent(0, 0);
      }
      var stored;
      stored, sent := TransferAndFinish(c, p, sid, token, a, run, start);
      if stored.Err? {
        return Err(stored.error), sent;
      }
      TransferAddsUp(run, t, a, db.t, provider.store, c, p.logicalFileHash, stored.value.0, P.Concat(p.chunks), stored.value.1);
      return Ok(stored.value.1), sent;
    }

    /** Carries out a new or modified file: read, record, transfer, bind. */
    method TransferFile(c: FileChange, pid: string, sid: string, token: Q.CancellationToken,
                        ghost run: Run, ghost start: nat)
      returns (r: Result<string, BackupError>, sent: Sent)
      requires Ready(run, start) && sid == run.sid && pid == run.pid && Transfers(c) && c.scanned.Some?
      requires c.scanned.value.relativePath == c.relativePath
      requires c.kind == Modified ==> c.fileId in db.t.files && db.t.files[c.fileId].relativePath == c.relativePath
      requires c.kind == Modified ==> NoVersionYet(run, db.t, c.fileId)
      requires c.scanned.value.absolutePath in disk ==> PlannedId(c, disk, sha) in run.planned
      modifies db, provider, queue, token, device
      ensures Costs(r in {Err(DbFailed), Err(SourceUnreadable)}, old(Troubles()), Troubles())
      ensures Ready(run, start)
      ensures run.realReferences ==> StoreKept(old(provider.store), provider.store)
      ensures Heeds(old(token.cancelled), token.cancelled, r == Err(BackupCancelled))
      ensures old(token.cancelled) ==>
                && db.t == old(db.t).(snapshots := db.t.snapshots) && provider.store == old(provider.store)
                && (r == Err(BackupCancelled) || (r == Err(DbFailed) && db.failures > old(db.failures)))
      ensures r == Err(FileRefused) ==> Refuses(run, old(db.t), c)
      ensures r.Ok? ==>
                && c.scanned.value.absolutePath in disk && sent == SentFor(c, disk)
                && Transferred(run, old(db.t), db.t, provider.store, c, sha(ContentOf(c, disk)),
                               PlannedId(c, disk, sha), ContentOf(c, disk), P.ExpectedChunkCount(c.scanned.value.sizeBytes), r.value)
    {
      var stop := StopIfCancelled(sid, token, run, start);
      if stop.Some? {
        return Err(stop.value), Sent(0, 0);
      }
      var p := ReadSource(c);
      if p.Err? {
        return Err(p.error), Sent(0, 0);
      }
      ghost var t := db.t;
      var refusal := RecordFile(c, pid, p.value.logicalFileHash, run, start);
      if refusal.Some? {
        return Err(refusal.value), Sent(0, 0);
      }
      RecordedNoVersion(run, t, db.t, c, p.value.logicalFileHash);
      r, sent := StoreFile(c, p.value, sid, token, t, run, start);
    }

    // ----- the plan ------------------------------------------------------------------------------

    /** Binds an unchanged file to the snapshot with its earlier manifest. */
    method LinkUnchanged(c: FileChange, sid: string, token: Q.CancellationToken, ghost run: Run, ghost start: nat)
      returns (r: Result<string, BackupError>)
      requires Ready(run, start) && sid == run.sid && c.kind == Unchanged && ChangeFits(run.before, c)
      modifies db, token
      ensures Costs(r in {Err(DbFailed), Err(SourceUnreadable)}, old(Troubles()), Troubles())
      ensures Ready(run, start)
      ensures Heeds(old(token.cancelled), token.cancelled, r == Err(BackupCancelled))
      ensures old(token.cancelled) ==>
                && db.t == old(db.t).(snapshots := db.t.snapshots)
                && (r == Err(BackupCancelled) || (r == Err(DbFailed) && db.failures > old(db.failures)))
      ensures r.Err? ==> r.error != FileRefused
      ensures r.Ok? ==>
                && r.value !in old(db.t).versions
                && db.t == old(db.t).(versions := old(db.t).versions[r.value :=
                     VersionRecord(r.value, c.fileId, sid, c.previousVersion.value.manifestId, "active")])
    {
      var stop := StopIfCancelled(sid, token, run, start);
      if stop.Some? {
        return Err(stop.value);
      }
      var prev := c.previousVersion.value;
      EarlierManifest(run, db.t, prev);
      var vid := BindVersion(c.fileId, prev.manifestId, sid, run, start);
      if vid.None? {
        return Err(DbFailed);
      }
      return Ok(vid.value);
    }

    /** One unchanged file of the plan. */
    method LinkOne(c: FileChange, sid: string, token: Q.CancellationToken, ghost i: int,
                   ghost run: Run, ghost start: nat, ghost did: set<int>, ghost done: set<string>)
      returns (err: Option<BackupError>)
      requires Ready(run, start) && sid == run.sid && Planned(run, disk, sha)
      requires 0 <= i < |run.plan| && run.plan[i] == c && c.kind == Unchanged && i !in did
      requires Standing(run, db.t, provider.store, disk, sha, did, done) && db.t.files == run.before.files
      modifies db, token
      ensures Costs(err in {Some(DbFailed), Some(SourceUnreadable)}, old(Troubles()), Troubles())
      ensures Ready(run, start)
      ensures Heeds(old(token.cancelled), token.cancelled, err == Some(BackupCancelled))
      ensures err != Some(FileRefused) && (old(token.cancelled) ==> err.Some?)
      ensures err.None? ==>
                && Standing(run, db.t, provider.store, disk, sha, did + {i}, done + {c.fileId})
                && db.t.files == run.before.files
    {
      PlannedFits(run, disk, sha, i);
      var linked := LinkUnchanged(c, sid, token, run, start);
      if linked.Err? {
        return Some(linked.error);
      }
      LinkAchieves(run, old(db.t), db.t, provider.store, disk, sha, did, done, i, linked.value,
                   c.previousVersion.value.manifestId);
      return None;
    }

    /** The first pass at one entry of the plan. */
    method LinkAt(plan: seq<FileChange>, i: nat, sid: string, token: Q.CancellationToken,
                  ghost run: Run, ghost start: nat, ghost done: set<string>)
      returns (err: Option<BackupError>, ghost bound: set<string>)
      requires Ready(run, start) && sid == run.sid && plan == run.plan && Planned(run, disk, sha) && i < |plan|
      requires Standing(run, db.t, provider.store, disk, sha, Linked(plan, i), done) && db.t.files == run.before.files
      modifies db, token
      ensures Costs(err in {Some(DbFailed), Some(SourceUnreadable)}, old(Troubles()), Troubles())
      ensures Ready(run, start) && err != Some(FileRefused)
      ensures Heeds(old(token.cancelled), token.cancelled, err == Some(BackupCancelled))
      ensures old(token.cancelled) && plan[i].kind == Unchanged ==> err.Some?
      ensures err.None? ==>
                Standing(run, db.t, provider.store, disk, sha, Linked(plan, i + 1), bound) && db.t.files == run.before.files
    {
      if plan[i].kind != Unchanged {
        return None, done;
      }
      NotYetLinked(plan, i);
      err := LinkOne(plan[i], sid, token, i, run, start, Linked(plan, i), done);
      bound := done + {plan[i].fileId};
    }

    /** First pass: every unchanged file, without transfer. */
    method LinkAll(plan: seq<FileChange>, sid: string, token: Q.CancellationToken, ghost run: Run, ghost start: nat)
      returns (err: Option<BackupError>, ghost done: set<string>)
      requires Ready(run, start) && sid == run.sid && plan == run.plan && Planned(run, disk, sha)
      requires Standing(run, db.t, provider.store, disk, sha, {}, {}) && db.t.files == run.before.files
      modifies db, token
      ensures Costs(err in {Some(DbFailed), Some(SourceUnreadable)}, old(Troubles()), Troubles())
      ensures Ready(run, start)
      ensures Heeds(old(token.cancelled), token.cancelled, err == Some(BackupCancelled))
      ensures err != Some(FileRefused)
      ensures err.None? ==> Standing(run, db.t, provider.store, disk, sha, Linked(plan, |plan|), done)
    {
      err, done := None, {};
      for i := 0 to |plan|
        invariant Ready(run, start) && err.None? && (old(token.cancelled) ==> token.cancelled) && Troubles() >= old(Troubles())
        invariant Standing(run, db.t, provider.store, disk, sha, Linked(plan, i), done) && db.t.files == run.before.files
      {
        err, done := LinkAt(plan, i, sid, token, run, start, done);
        if err.Some? {
          return;
        }
      }
    }

    /** One new or modified file of the plan. */
    method TransferOne(c: FileChange, pid: string, sid: string, token: Q.CancellationToken, ghost i: int,
                       ghost run: Run, ghost start: nat, ghost did: set<int>, ghost done: set<string>)
      returns (err: Option<BackupError>, sent: Sent)
      requires Ready(run, start) && sid == run.sid && pid == run.pid && Planned(run, disk, sha)
      requires 0 <= i < |run.plan| && run.plan[i] == c && Transfers(c) && i !in did
      requires Standing(run, db.t, provider.store, disk, sha, did, done) && run.pid in run.before.profiles
      modifies db, provider, queue, token, device
      ensures Costs(err in {Some(DbFailed), Some(SourceUnreadable)}, old(Troubles()), Troubles())
      ensures Ready(run, start)
      ensures run.realReferences ==> StoreKept(old(provider.store), provider.store)
      ensures Heeds(old(token.cancelled), token.cancelled, err == Some(BackupCancelled))
      ensures old(token.cancelled) ==> err.Some?
      ensures err == Some(FileRefused) ==> !Placeable(run)
      ensures err.None? ==> Standing(run, db.t, provider.store, disk, sha, did + {i}, done + {c.fileId}) && sent == SentFor(c, disk)
    {
      ReadyToTransfer(run, db.t, provider.store, disk, sha, did, done, i);
      var moved;
      moved, sent := TransferFile(c, pid, sid, token, run, start);
      if moved.Err? {
        if Placeable(run) && c.kind == New {
          PlaceableIs(run);
          FreeIsNotRefused(run, old(db.t), old(provider.store), disk, sha, did, done, i);
        }
        return Some(moved.error), sent;
      }
      TransferAchieves(run, old(db.t), db.t, old(provider.store), provider.store, disk, sha, did, done, i, moved.value);
      return None, sent;
    }

    /** The second pass at one entry of the plan. */
    method TransferAt(c: FileChange, i: nat, pid: string, sid: string, token: Q.CancellationToken, sent: Sent,
                      ghost run: Run, ghost start: nat, ghost done: set<string>)
      returns (err: Option<BackupError>, total: Sent, ghost bound: set<string>)
      requires Ready(run, start) && sid == run.sid && pid == run.pid && Planned(run, disk, sha)
      requires i < |run.plan| && run.plan[i] == c && run.pid in run.before.profiles
      requires SecondPass(run, db.t, provider.store, disk, sha, i, done, sent)
      modifies db, provider, queue, token, device
      ensures Costs(err in {Some(DbFailed), Some(SourceUnreadable)}, old(Troubles()), Troubles())
      ensures Ready(run, start)
      ensures Heeds(old(token.cancelled), token.cancelled, err == Some(BackupCancelled))
      ensures old(token.cancelled) && Transfers(c) ==> err.Some?
      ensures err == Some(FileRefused) ==> !Placeable(run)
      ensures err.None? ==> SecondPass(run, db.t, provider.store, disk, sha, i + 1, bound, total)
    {
      if !Transfers(c) {
        SecondPassSkips(run, db.t, provider.store, disk, sha, i, done, sent);
        return None, sent, done;
      }
      SecondPassOffers(run, db.t, provider.store, disk, sha, i, done, sent);
      var one;
      err, one := TransferOne(c, pid, sid, token, i, run, start, Moved(run.plan, i), done);
      total, bound := Sent(sent.chunks + one.chunks, sent.bytes + one.bytes), done + {c.fileId};
      if err.None? {
        SecondPassNext(run, old(db.t), old(provider.store), disk, sha, i, done, sent, db.t, provider.store, one);
      }
    }

    /** Second pass: every new and modified file. */
    method TransferAll(plan: seq<FileChange>, pid: string, sid: string, token: Q.CancellationToken,
                       ghost run: Run, ghost start: nat, ghost linked: set<string>)
      returns (err: Option<BackupError>, sent: Sent, ghost done: set<string>)
      requires Ready(run, start) && sid == run.sid && pid == run.pid && plan == run.plan && Planned(run, disk, sha)
      requires run.pid in run.before.profiles && SecondPass(run, db.t, provider.store, disk, sha, 0, linked, Sent(0, 0))
      modifies db, provider, queue, token, device
      ensures Costs(err in {Some(DbFailed), Some(SourceUnreadable)}, old(Troubles()), Troubles())
      ensures Ready(run, start)
      ensures Heeds(old(token.cancelled), token.cancelled, err == Some(BackupCancelled))
      ensures err == Some(FileRefused) ==> !Placeable(run)
      ensures err.None? ==> SecondPass(run, db.t, provider.store, disk, sha, |plan|, done, sent)
    {
      err, sent, done := None, Sent(0, 0), linked;
      for i := 0 to |plan|
        invariant Ready(run, start) && err.None? && (old(token.cancelled) ==> token.cancelled) && Troubles() >= old(Troubles())
        invariant SecondPass(run, db.t, provider.store, disk, sha, i, done, sent)
      {
        err, sent, done := TransferAt(plan[i], i, pid, sid, token, sent, run, start, done);
        if err.Some? {
          return;
        }
      }
    }

    /** Third pass: vanished files are marked deleted; a failure to do so is ignored. */
    method MarkDeleted(plan: seq<FileChange>, ghost run: Run, ghost start: nat, ghost did: set<int>, ghost done: set<string>)
      requires Ready(run, start) && plan == run.plan && Planned(run, disk, sha)
      requires Standing(run, db.t, provider.store, disk, sha, did, done)
      modifies db
      ensures Costs(false, old(Troubles()), Troubles())
      ensures Ready(run, start)
      ensures Standing(run, db.t, provider.store, disk, sha, did, done)
      ensures OnlyMarked(plan, old(db.t), db.t)
      ensures db.failures >= old(db.failures) && (db.failures == old(db.failures) ==> AllMarked(plan, db.t, |plan|))
    {
      for i := 0 to |plan|
        invariant Ready(run, start) && Troubles() >= old(Troubles())
        invariant Standing(run, db.t, provider.store, disk, sha, did, done)
        invariant OnlyMarked(plan, old(db.t), db.t)
        invariant db.failures >= old(db.failures) && (db.failures == old(db.failures) ==> AllMarked(plan, db.t, i))
      {
        if plan[i].kind == Deleted {
          ghost var t := db.t;
          MarkOne(plan[i], i, run, start, did, done);
          MarkedOneMore(plan, old(db.t), t, db.t, i);
          if db.failures == old(db.failures) {
            AllMarkedNext(run, disk, sha, t, db.t, i);
          }
        }
      }
    }

    method MarkOne(c: FileChange, ghost i: int, ghost run: Run, ghost start: nat, ghost did: set<int>, ghost done: set<string>)
      requires Ready(run, start) && Planned(run, disk, sha)
      requires 0 <= i < |run.plan| && run.plan[i] == c && c.kind == Deleted
      requires Standing(run, db.t, provider.store, disk, sha, did, done)
      modifies db
      ensures Costs(false, old(Troubles()), Troubles())
      ensures Ready(run, start)
      ensures Standing(run, db.t, provider.store, disk, sha, did, done)
      ensures c.previousFile.Some? && c.previousFile.value.fileId == c.fileId
      ensures db.t == old(db.t) || Some(db.t) == UpdateFile(old(db.t), c.previousFile.value.(status := "deleted"))
      ensures db.failures >= old(db.failures)
      ensures db.failures == old(db.failures) ==> Some(db.t) == UpdateFile(old(db.t), c.previousFile.value.(status := "deleted"))
    {
      DeletedIsOther(run, db.t, provider.store, disk, sha, did, done, i);
      var gone := c.previousFile.value.(status := "deleted");
      KnownNotRefused(run, db.t, gone);
      var ok := ChangeFile(gone, run, start);
      if ok {
        UpdateKeepsStanding(run, old(db.t), db.t, provider.store, disk, sha, did, done, gone);
      }
    }

    /** The three passes over the plan; the snapshot stays open. */
    method CarryOut(plan: seq<FileChange>, pid: string, sid: string, token: Q.CancellationToken, ghost run: Run, ghost start: nat)
      returns (err: Option<BackupError>, sent: Sent)
      requires Ready(run, start) && sid == run.sid && pid == run.pid && plan == run.plan && Planned(run, disk, sha)
      requires Standing(run, db.t, provider.store, disk, sha, {}, {}) && db.t.files == run.before.files
      requires run.pid in run.before.profiles
      modifies db, provider, queue, token, device
      ensures Costs(err in {Some(DbFailed), Some(SourceUnreadable)}, old(Troubles()), Troubles())
      ensures Ready(run, start)
      ensures Heeds(old(token.cancelled), token.cancelled, err == Some(BackupCancelled))
      ensures err == Some(FileRefused) ==> !Placeable(run)
      ensures err.None? && db.failures == run.failedBefore ==> AllMarked(plan, db.t, |plan|)
      ensures err.None? ==>
                && Covered(run, db.t) && Accomplished(run, db.t, provider.store, disk, sha)
                && sent == SentUpTo(plan, |plan|, disk)
    {
      sent := Sent(0, 0);
      ghost var done;
      err, done := LinkAll(plan, sid, token, run, start);
      if err.Some? {
        return;
      }
      SecondPassIs(run, db.t, provider.store, disk, sha, 0, done, sent);
      err, sent, done := TransferAll(plan, pid, sid, token, run, start, done);
      if err.Some? {
        return;
      }
      ghost var did := Moved(plan, |plan|);
      MovedAll(run);
      SecondPassIs(run, db.t, provider.store, disk, sha, |plan|, done, sent);
      MarkDeleted(plan, run, start, did, done);
      StandingAccomplishes(run, db.t, provider.store, disk, sha, did, done);
    }

    /** Records the snapshot as being backed up; an identifier in use or an unknown profile is refused. */
    method OpenSnapshot(pid: string, sid: string, ghost run: Run) returns (ok: bool)
      requires queue.Valid() && Inv(db.t) && run.before == db.t
      requires sid == run.sid && pid == run.pid && run.realReferences == provider.realReferences && run.failedBefore == db.failures
      modifies db
      ensures Costs(!ok, old(Troubles()), Troubles())
      ensures db.failures >= old(db.failures)
      ensures ok <==> sid !in old(db.t).snapshots && pid in old(db.t).profiles && db.failures == old(db.failures)
      ensures ok ==>
                && Ready(run, |old(db.trace)|) && sid !in run.before.snapshots
                && pid in run.before.profiles
                && db.t == run.before.(snapshots := run.before.snapshots[sid := SnapshotRecord(sid, pid, BackingUp)])
      ensures !ok ==> db.t == old(db.t) && db.trace == old(db.trace)
    {
      if sid in db.t.snapshots {
        db.refusals := db.refusals + 1;
        return false;
      }
      StartOk(run);
      CreateSnapshotOk(run, db.t, pid);
      TracedIs(run, db.t, db.trace, |db.trace|);
      ok := db.Exec(CreateSnapshot(db.t, sid, pid, BackingUp), run, |db.trace|);
    }

    /** Marks the snapshot complete: the one write that a run allowed to complete adds to an open one. */
    method CloseSnapshot(sid: string, ghost run: Run, ghost start: nat) returns (ok: bool)
      requires Ready(run.(mayComplete := false), start) && run.mayComplete && sid == run.sid && Covered(run, db.t)
      modifies db
      ensures Costs(!ok, old(Troubles()), Troubles())
      ensures !ok ==> Ready(run.(mayComplete := false), start)
      ensures db.failures >= old(db.failures) && (ok <==> db.failures == old(db.failures))
      ensures ok ==> Ready(run, start) && OnlyStatus(old(db.t), db.t, sid, Completed)
    {
      db.NeverComplete(run, start);
      HeldWhileOpen(run, run.before);
      SetStatusOk(run, db.t, Completed);
      ok := db.Exec(SetStatus(db.t, sid, Completed), run, start);
    }

    /** Completes the snapshot of an accomplished plan. */
    method Complete(sid: string, ghost run: Run, ghost start: nat) returns (ok: bool)
      requires Ready(run.(mayComplete := false), start) && run.mayComplete && sid == run.sid && Covered(run, db.t)
      requires Accomplished(run.(mayComplete := false), db.t, provider.store, disk, sha)
      modifies db
      ensures Costs(!ok, old(Troubles()), Troubles())
      ensures !ok ==> Ready(run.(mayComplete := false), start)
      ensures db.failures >= old(db.failures)
      ensures ok ==>
                && Ready(run, start) && IsComplete(run, db.t) && Accomplished(run, db.t, provider.store, disk, sha) && FilesFree(run)
                && (AllMarked(run.plan, old(db.t), |run.plan|) ==> AllMarked(run.plan, db.t, |run.plan|))
    {
      ok := CloseSnapshot(sid, run, start);
      if ok {
        ClosedIsAccomplished(run, old(db.t), db.t, provider.store, disk, sha);
      }
    }

    /** Carries out the plan of an opened snapshot, completes the snapshot and sums up. */
    method ExecuteOpened(plan: seq<FileChange>, pid: string, sid: string, token: Q.CancellationToken, ghost run: Run, ghost start: nat)
      returns (r: Result<BackupSummary, BackupError>)
      requires Ready(run.(mayComplete := false), start) && run.mayComplete && Planned(run, disk, sha)
      requires sid == run.sid && pid == run.pid && plan == run.plan && run.pid in run.before.profiles
      requires Standing(run.(mayComplete := false), db.t, provider.store, disk, sha, {}, {}) && db.t.files == run.before.files
      modifies db, provider, queue, token, device
      ensures Costs(r in {Err(DbFailed), Err(SourceUnreadable)}, old(Troubles()), Troubles())
      ensures r.Ok? ==>
                && Ready(run, start) && IsComplete(run, db.t) && Accomplished(run, db.t, provider.store, disk, sha)
                && FilesFree(run) && r.value == SummaryOf(plan, pid, sid, disk)
                && (db.failures == run.failedBefore ==> AllMarked(plan, db.t, |plan|))
      ensures r.Err? ==> Ready(run.(mayComplete := false), start)
      ensures r == Err(FileRefused) ==> !Placeable(run)
      ensures Heeds(old(token.cancelled), token.cancelled, r == Err(BackupCancelled))
    {
      ghost var open := run.(mayComplete := false);
      PlannedEither(run, disk, sha);
      PlaceableEither(run);
      var err, sent := CarryOut(plan, pid, sid, token, open, start);
      if err.Some? {
        return Err(err.value);
      }
      var ok := Complete(sid, run, start);
      if !ok {
        return Err(DbFailed);
      }
      return Ok(BackupSummary(sid, pid, Count(plan, New), Count(plan, Modified), Count(plan, Unchanged),
                              Count(plan, Deleted), sent.chunks, sent.bytes, TotalReusedBytes(plan)));
    }

    /** Executes the plan of a snapshot that was just opened, and marks the snapshot failed if that fails. */
    method ExecuteOrFail(plan: seq<FileChange>, pid: string, sid: string, token: Q.CancellationToken, ghost run: Run, ghost start: nat)
      returns (r: Result<BackupSummary, BackupError>)
      requires Ready(run.(mayComplete := false), start) && run.mayComplete && Planned(run, disk, sha)
      requires sid == run.sid && pid == run.pid && plan == run.plan && run.pid in run.before.profiles
      requires sid !in run.before.snapshots && db.t == run.before.(snapshots := db.t.snapshots)
      modifies db, provider, queue, token, device
      ensures Costs(r in {Err(DbFailed), Err(SourceUnreadable)}, old(Troubles()), Troubles())
      ensures r.Ok? ==>
                && Ready(run, start) && IsComplete(run, db.t) && Accomplished(run, db.t, provider.store, disk, sha)
                && FilesFree(run) && r.value == SummaryOf(plan, pid, sid, disk)
                && (db.failures == run.failedBefore ==> AllMarked(plan, db.t, |plan|))
      ensures r.Err? ==> Ready(run.(mayComplete := false), start) && (db.failures == run.failedBefore ==> IsFailed(run, db.t))
      ensures r == Err(FileRefused) ==> !Placeable(run)
      ensures Heeds(old(token.cancelled), token.cancelled, r == Err(BackupCancelled))
    {
      ghost var open := run.(mayComplete := false);
      NothingAchieved(open, db.t, provider.store, disk, sha);
      r := ExecuteOpened(plan, pid, sid, token, run, start);
      if r.Err? {
        var _ := FailSnapshot(sid, open, start);
      }
    }

    /** Opens the snapshot of a run and executes its plan. */
    method OpenAndExecute(plan: seq<FileChange>, pid: string, sid: string, token: Q.CancellationToken, ghost run: Run)
      returns (r: Result<BackupSummary, BackupError>)
      requires queue.Valid() && Inv(db.t) && run.before == db.t && run.failedBefore == db.failures
      requires sid == run.sid && pid == run.pid && plan == run.plan && run.mayComplete
      requires run.realReferences == provider.realReferences && Planned(run, disk, sha)
      modifies db, provider, queue, token, device
      ensures Costs(r in {Err(DbFailed), Err(SourceUnreadable)}, old(Troubles()), Troubles())
      ensures queue.Valid()
      ensures r.Ok? ==>
                && Ready(run, |old(db.trace)|) && IsComplete(run, db.t) && Accomplished(run, db.t, provider.store, disk, sha)
                && FilesFree(run) && r.value == SummaryOf(plan, pid, sid, disk)
                && (db.failures == old(db.failures) ==> AllMarked(plan, db.t, |plan|))
      ensures r.Err? ==>
                || (db.t == old(db.t) && db.trace == old(db.trace))
                || (Ready(run.(mayComplete := false), |old(db.trace)|) && (db.failures == old(db.failures) ==> IsFailed(run, db.t)))
      ensures r == Err(FileRefused) ==> !Placeable(run)
      ensures Heeds(old(token.cancelled), token.cancelled, r == Err(BackupCancelled))
    {
      ghost var start := |db.trace|;
      var ok := OpenSnapshot(pid, sid, run.(mayComplete := false));
      if !ok {
        return Err(DbFailed);
      }
      r := ExecuteOrFail(plan, pid, sid, token, run, start);
    }

    /**
     Executes a plan. If it succeeds, the plan is accomplished and its snapshot complete; if it fails,
     no state of the run ever showed the snapshot as complete. Every committed state obeys the rules.
     */
    method ExecuteBackup(plan: seq<FileChange>, pid: string, sid: string, token: Q.CancellationToken, ghost run: Run)
      returns (r: Result<BackupSummary, BackupError>)
      requires queue.Valid() && Inv(db.t) && run.before == db.t && run.failedBefore == db.failures
      requires sid == run.sid && pid == run.pid && plan == run.plan && run.mayComplete
      requires run.realReferences == provider.realReferences && Planned(run, disk, sha)
      modifies db, provider, queue, token, device
      ensures Costs(r in {Err(DbFailed), Err(SourceUnreadable)}, old(Troubles()), Troubles())
      ensures queue.Valid()
      ensures r.Ok? ==> IsComplete(run, db.t) && Accomplished(run, db.t, provider.store, disk, sha)
      ensures r.Ok? ==> r.value == SummaryOf(plan, pid, sid, disk)
      ensures !FilesFree(run) ==> r.Err?
      ensures r == Err(FileRefused) ==> !Placeable(run)
      ensures r.Ok? ==> Ready(run, |old(db.trace)|)
      ensures r.Err? ==>
                || (db.t == old(db.t) && db.trace == old(db.trace))
                || Ready(run.(mayComplete := false), |old(db.trace)|)
      ensures Heeds(old(token.cancelled), token.cancelled, r == Err(BackupCancelled))
      ensures old(token.cancelled) ==> r == Err(BackupCancelled) && db.t == old(db.t) && db.trace == old(db.trace)
      ensures r.Ok? && db.failures == old(db.failures) ==> AllMarked(plan, db.t, |plan|)
      ensures r.Err? && db.failures == old(db.failures) ==> db.t == old(db.t) || IsFailed(run, db.t)
    {
      var cancelled := PollCancelled(token);
      if cancelled {
        return Err(BackupCancelled);
      }
      r := OpenAndExecute(plan, pid, sid, token, run);
    }

    /** Plans a backup of a scan against an earlier snapshot's rows and executes it. */
    method ExecuteDetected(scan: seq<ScannedFile>, ghost prevSid: string, prev: seq<Row>, newId: string -> string,
                           pid: string, sid: string, token: Q.CancellationToken)
      returns (r: Result<BackupSummary, BackupError>, ghost run: Run)
      requires queue.Valid() && Inv(db.t) && RowsOf(db.t, prevSid, prev)
      requires UniqueScan(scan) && UniqueRows(prev) && UniqueIds(prev)
      modifies db, provider, queue, token, device
      ensures Costs(r in {Err(DbFailed), Err(SourceUnreadable)}, old(Troubles()), Troubles())
      ensures run == RunOf(old(db.t), sid, pid, scan, prev, newId, disk, sha, old(db.failures), provider.realReferences)
      ensures r.Ok? ==>
                && IsComplete(run, db.t) && Accomplished(run, db.t, provider.store, disk, sha)
                && Ready(run, |old(db.trace)|) && r.value == SummaryOf(run.plan, pid, sid, disk)
      ensures r.Err? ==>
                || (db.t == old(db.t) && db.trace == old(db.trace))
                || Ready(run.(mayComplete := false), |old(db.trace)|)
      ensures !FilesFree(run) ==> r.Err?
      ensures r == Err(FileRefused) ==> !Placeable(run)
      ensures Heeds(old(token.cancelled), token.cancelled, r == Err(BackupCancelled))
      ensures old(token.cancelled) ==> r == Err(BackupCancelled) && db.t == old(db.t) && db.trace == old(db.trace)
      ensures r.Ok? && db.failures == old(db.failures) ==> AllMarked(run.plan, db.t, |run.plan|)
      ensures r.Err? && db.failures == old(db.failures) ==> db.t == old(db.t) || IsFailed(run, db.t)
    {
      var plan := DetectChanges(scan, prev, newId);
      run := RunOf(db.t, sid, pid, scan, prev, newId, disk, sha, db.failures, provider.realReferences);
      DetectedRunPlanned(db.t, sid, pid, prevSid, scan, prev, newId, disk, sha, db.failures, provider.realReferences);
      r := ExecuteBackup(plan, pid, sid, token, run);
    }

    /**
     Plans and executes a backup of a scan against an earlier snapshot's rows (none for a first
     backup). After success the new snapshot is complete and lists exactly the scan, and the same scan
     would find nothing to do. After failure no state of the run showed the snapshot as complete.
     If a path returns, or two new ones share an identifier, the backup fails; otherwise the catalog
     refuses the row of no new file.
     */
    method ExecuteProfileBackup(scan: seq<ScannedFile>, ghost prevSid: string, prev: seq<Row>, newId: string -> string,
                                pid: string, sid: string, token: Q.CancellationToken)
      returns (r: Result<BackupSummary, BackupError>, ghost run: Run)
      requires queue.Valid() && Inv(db.t) && RowsOf(db.t, prevSid, prev)
      requires UniqueScan(scan) && UniqueRows(prev) && UniqueIds(prev)
      modifies db, provider, queue, token, device
      ensures Costs(r in {Err(DbFailed), Err(SourceUnreadable)}, old(Troubles()), Troubles())
      ensures run == RunOf(old(db.t), sid, pid, scan, prev, newId, disk, sha, old(db.failures), provider.realReferences)
      ensures Committed(run, old(db.t), old(db.trace), db.t, db.trace)
      ensures r.Ok? ==>
                && IsComplete(run, db.t) && Accomplished(run, db.t, provider.store, disk, sha)
                && Settled(db.t, sid, scan, newId)
                && Tells(r.value, scan, prev, pid, sid, disk) && AddedRows(run, db.t, r.value.transferredChunks)
      ensures r.Err? ==> NeverCompleted(run, db.trace, |old(db.trace)|)
      ensures (exists j :: 0 <= j < |scan| && Returns(run, scan[j], prev, newId)) ==> r.Err?
      ensures !NoneReturns(run, scan, prev, newId) ==> r.Err?
      ensures NoneReturns(run, scan, prev, newId) ==> r != Err(FileRefused)
      ensures Heeds(old(token.cancelled), token.cancelled, r == Err(BackupCancelled))
      ensures old(token.cancelled) ==> r == Err(BackupCancelled) && db.t == old(db.t) && db.trace == old(db.trace)
      ensures r.Ok? && db.failures == old(db.failures) ==> MarkedDeleted(db.t, scan, prev)
      ensures r.Err? && db.failures == old(db.failures) ==> db.t == old(db.t) || IsFailed(run, db.t)
    {
      r, run := ExecuteDetected(scan, prevSid, prev, newId, pid, sid, token);
      FreeIffNoneReturns(run, scan, prev, newId);
      PlaceableIs(run);
      if r.Ok? {
        db.AlwaysHeld(run, |old(db.trace)|);
        AccomplishedSettles(run, db.t, provider.store, disk, sha, scan, prev, newId);
        SummaryTells(scan, prev, newId, pid, sid, disk);
        SentAreAddedRows(run, db.t, provider.store, disk, sha);
        if AllMarked(run.plan, db.t, |run.plan|) {
          MarkedAreVanished(db.t, scan, prev, newId);
        }
      } else if db.Tracked(run.(mayComplete := false), |old(db.trace)|) {
        db.NeverComplete(run, |old(db.trace)|);
      }
    }
  }

  /** The run's snapshot is recorded as failed. */
  ghost predicate IsFailed(run: Run, t: Tables) {
    run.sid in t.snapshots && t.snapshots[run.sid].status == Failed
  }

  /** Every state committed since the start obeys the rules, and the catalog is in the last of them. */
  ghost predicate Committed(run: Run, before: Tables, trace: seq<Tables>, t: Tables, trace': seq<Tables>) {
    && (forall i :: |trace| <= i < |trace'| ==> Held(run, trace'[i]))
    && (t == before || (|trace| < |trace'| && t == trace'[|trace'| - 1]))
  }

  /** No committed state showed the run's snapshot as complete. */
  ghost predicate NeverCompleted(run: Run, trace: seq<Tables>, start: nat) {
    forall i :: start <= i < |trace| ==> !IsComplete(run, trace[i])
  }

  /** The run that plans a scan against an earlier snapshot's rows. */
  ghost function RunOf(before: Tables, sid: string, pid: string, scan: seq<ScannedFile>, prev: seq<Row>,
                       newId: string -> string, disk: Disk, sha: P.Digest, failures: nat, realReferences: bool): Run
  {
    var plan := Changes(scan, prev, newId);
    Run(before, sid, pid, plan, PlannedIds(plan, disk, sha), failures, realReferences, true)
  }

  lemma DetectedRunPlanned(t: Tables, sid: string, pid: string, prevSid: string, scan: seq<ScannedFile>, prev: seq<Row>,
                           newId: string -> string, disk: Disk, sha: P.Digest, failures: nat, realReferences: bool)
    requires Inv(t) && RowsOf(t, prevSid, prev)
    requires UniqueScan(scan) && UniqueRows(prev) && UniqueIds(prev)
    ensures Planned(RunOf(t, sid, pid, scan, prev, newId, disk, sha, failures, realReferences), disk, sha)
  {
    DetectedPlanFits(t, prevSid, scan, prev, newId);
    PlannedIs(RunOf(t, sid, pid, scan, prev, newId, disk, sha, failures, realReferences), disk, sha);
  }

  /** The row of every file that the scan did not see is marked deleted. */
  ghost predicate MarkedDeleted(t: Tables, scan: seq<ScannedFile>, prev: seq<Row>) {
    forall k :: 0 <= k < |prev| && Vanished(prev[k], scan) ==>
      prev[k].0.fileId in t.files && t.files[prev[k].0.fileId].status == "deleted"
  }

  lemma MarkedAreVanished(t: Tables, scan: seq<ScannedFile>, prev: seq<Row>, newId: string -> string)
    requires AllMarked(Changes(scan, prev, newId), t, |Changes(scan, prev, newId)|)
    requires UniqueScan(scan) && UniqueRows(prev)
    ensures MarkedDeleted(t, scan, prev)
  {
    var plan := Changes(scan, prev, newId);
    ChangeSetPartition(scan, prev, newId);
    forall k | 0 <= k < |prev| && Vanished(prev[k], scan)
      ensures prev[k].0.fileId in t.files && t.files[prev[k].0.fileId].status == "deleted"
    {
      assert FromDeleted(DeletedEntry(prev[k]), scan, prev);
      var i :| 0 <= i < |plan| && plan[i] == DeletedEntry(prev[k]);
      assert RowMarked(t, plan[i]);
    }
  }

  lemma OverwriteTwice(m: map<string, ManifestRow>, k: string, x: ManifestRow, y: ManifestRow)
    ensures m[k := x][k := y] == m[k := y]
  {
  }

  lemma RestoreAfterLanding(store: Store, m: M.Manifest, chunks: seq<P.ProcessedChunk>)
    requires |m.chunks| == |chunks| && Landed(store, m.chunks, chunks, |chunks|)
    ensures Restorable(store, m, P.Concat(chunks))
  {
    LandedRestores(store, m.chunks, chunks, |chunks|);
    assert m.chunks[..|chunks|] == m.chunks && chunks[..|chunks|] == chunks;
  }
}
