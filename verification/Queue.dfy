/**
 The transfer queue: bounded concurrency, cancellation by token, and a first-in first-out pending
 list. `Step` is the atomic effect of one call under the queue's lock; the class refines it, and the
 lemmas are about every sequence of calls.
 */
module Queue {
  import opened Wrappers
  import opened TransferState

  /** The lock-protected state; `tokens` maps a job to whether its token is cancelled. */
  datatype QState = QState(
    pending: seq<string>,
    jobs: map<string, Job>,
    active: set<string>,
    tokens: map<string, bool>,
    limit: nat)

  datatype Op =
    | Submit(job: Job)
    | Cancel(id: string)
    | CancelToken(id: string)
    | Acquire
    | Finish(job: Job)
    | Requeue(job: Job)

  datatype Outcome = Done | Rejected | Handed(job: Job) | Nothing

  /** An id that acquire may hand out: a live token and a known job. */
  predicate Live(q: QState, id: string) {
    id in q.tokens && !q.tokens[id] && id in q.jobs
  }

  function Without(s: seq<string>, id: string): (r: seq<string>)
    ensures id !in r
    ensures forall x :: x in r <==> x in s && x != id
  {
    if s == [] then [] else (if s[0] == id then [] else [s[0]]) + Without(s[1..], id)
  }

  /** Length of the leading run of pending ids that acquire drops. */
  function Dropped(q: QState, pending: seq<string>): (k: nat)
    ensures k <= |pending|
    ensures forall i :: 0 <= i < k ==> !Live(q, pending[i])
    ensures k < |pending| ==> Live(q, pending[k])
  {
    if pending == [] || Live(q, pending[0]) then 0 else 1 + Dropped(q, pending[1..])
  }

  function Create(maxConcurrency: nat): QState {
    QState([], map[], {}, map[], if maxConcurrency < 1 then 1 else maxConcurrency)
  }

  function Step(q: QState, op: Op): (QState, Outcome) {
    match op
    case Submit(job) =>
      if job.jobId in q.jobs then (q, Rejected)
      else (q.(pending := q.pending + [job.jobId],
               tokens := q.tokens[job.jobId := false],
               jobs := q.jobs[job.jobId := job]), Done)
    case Cancel(id) =>
      (q.(tokens := if id in q.tokens then q.tokens[id := true] else q.tokens,
          jobs := if id in q.jobs && CanTransition(q.jobs[id].state, Cancelled)
                  then q.jobs[id := q.jobs[id].(state := Cancelled)] else q.jobs,
          pending := Without(q.pending, id)), Done)
    case CancelToken(id) =>
      (q.(tokens := if id in q.tokens then q.tokens[id := true] else q.tokens), Done)
    case Acquire =>
      if |q.active| >= q.limit then (q, Nothing)
      else
        var k := Dropped(q, q.pending);
        if k == |q.pending| then (q.(pending := []), Nothing)
        else
          var id := q.pending[k];
          (q.(pending := q.pending[k + 1..], active := q.active + {id}), Handed(q.jobs[id]))
    case Finish(job) =>
      (q.(active := q.active - {job.jobId}, jobs := q.jobs[job.jobId := job]), Done)
    case Requeue(job) =>
      (q.(active := q.active - {job.jobId}, jobs := q.jobs[job.jobId := job],
          pending := q.pending + [job.jobId]), Done)
  }

  /** The id that an acquire hands out, if any. */
  function AcquiredId(q: QState): Option<string> {
    if |q.active| < q.limit && Dropped(q, q.pending) < |q.pending| then Some(q.pending[Dropped(q, q.pending)]) else None
  }

  function Run(q: QState, ops: seq<Op>): QState {
    if ops == [] then q else Step(Run(q, ops[..|ops| - 1]), ops[|ops| - 1]).0
  }

  // ----- the class -----------------------------------------------------------------------------

  class CancellationToken {
    var cancelled: bool

    constructor ()
      ensures !cancelled
    {
      cancelled := false;
    }

    /** Sets the shared flag; nothing ever clears it. */
    method Trigger()
      modifies this
      ensures cancelled
    {
      cancelled := true;
    }
  }

  class TransferQueue {
    var pending: seq<string>
    var jobs: map<string, Job>
    var active: set<string>
    var tokens: map<string, CancellationToken>
    const limit: nat

    /** Every job has its own token. */
    ghost predicate Valid()
      reads this
    {
      forall a, b :: a in tokens && b in tokens && a != b ==> tokens[a] != tokens[b]
    }

    ghost function View(): QState
      reads this, tokens.Values
    {
      QState(pending, jobs, active, map id | id in tokens :: tokens[id].cancelled, limit)
    }

    constructor (maxConcurrency: nat)
      ensures Valid() && View() == Create(maxConcurrency)
    {
      pending, jobs, active, tokens := [], map[], {}, map[];
      limit := if maxConcurrency < 1 then 1 else maxConcurrency;
    }

    method SubmitJob(job: Job) returns (token: Option<CancellationToken>)
      requires Valid()
      modifies this
      ensures Valid()
      ensures View() == old(Step(View(), Submit(job)).0)
      ensures token.Some? <==> job.jobId !in old(jobs)
      ensures token.Some? ==> fresh(token.value) && job.jobId in tokens && tokens[job.jobId] == token.value
    {
      if job.jobId in jobs {
        return None;
      }
      var t := new CancellationToken();
      pending := pending + [job.jobId];
      tokens := tokens[job.jobId := t];
      jobs := jobs[job.jobId := job];
      return Some(t);
    }

    method CancelJob(id: string)
      requires Valid()
      modifies this, tokens.Values
      ensures Valid() && tokens == old(tokens)
      ensures View() == old(Step(View(), Cancel(id)).0)
    {
      if id in tokens {
        tokens[id].Trigger();
      }
      if id in jobs && CanTransition(jobs[id].state, Cancelled) {
        jobs := jobs[id := jobs[id].(state := Cancelled)];
      }
      pending := Without(pending, id);
    }

    /** Pops pending ids up to and including the first live one. */
    method PopLive() returns (id: Option<string>)
      requires Valid()
      modifies this`pending
      ensures var q := old(View()); var k := Dropped(q, q.pending);
              if k < |q.pending| then id == Some(q.pending[k]) && pending == q.pending[k + 1..] else id == None && pending == []
    {
      ghost var q := View();
      ghost var popped := 0;
      while pending != []
        invariant popped <= |q.pending| && pending == q.pending[popped..]
        invariant popped + Dropped(q, pending) == Dropped(q, q.pending)
        decreases |pending|
      {
        var next := pending[0];
        pending := pending[1..];
        if next in tokens && !tokens[next].cancelled && next in jobs {
          return Some(next);
        }
        popped := popped + 1;
      }
      return None;
    }

    method AcquireNextJob() returns (r: Option<(Job, CancellationToken)>)
      requires Valid()
      modifies this
      ensures Valid() && tokens == old(tokens)
      ensures View() == old(Step(View(), Acquire).0)
      ensures match old(Step(View(), Acquire).1)
              case Handed(job) => r.Some? && r.value.0 == job
              case _ => r.None?
      ensures old(AcquiredId(View())).Some? <==> r.Some?
      ensures r.Some? ==> var id := old(AcquiredId(View())).value; id in tokens && r.value.1 == tokens[id]
    {
      if |active| >= limit {
        return None;
      }
      var id := PopLive();
      if id.None? {
        return None;
      }
      assert Live(old(View()), id.value);
      active := active + {id.value};
      return Some((jobs[id.value], tokens[id.value]));
    }

    method FinishJob(job: Job)
      requires Valid()
      modifies this
      ensures Valid() && tokens == old(tokens)
      ensures View() == old(Step(View(), Finish(job)).0)
    {
      active := active - {job.jobId};
      jobs := jobs[job.jobId := job];
    }

    method RequeueJob(job: Job)
      requires Valid()
      modifies this
      ensures Valid() && tokens == old(tokens)
      ensures View() == old(Step(View(), Requeue(job)).0)
    {
      active := active - {job.jobId};
      jobs := jobs[job.jobId := job];
      pending := pending + [job.jobId];
    }
  }

  // ----- what every run keeps ------------------------------------------------------------------

  /** At most `limit` active jobs; every token belongs to a known job. */
  predicate Inv(q: QState) {
    |q.active| <= q.limit && q.limit >= 1 && q.tokens.Keys <= q.jobs.Keys
  }

  lemma StepKeepsInv(q: QState, op: Op)
    requires Inv(q)
    ensures Inv(Step(q, op).0)
  {
    match op {
      case Finish(job) => SubsetSize(q.active - {job.jobId}, q.active);
      case Requeue(job) => SubsetSize(q.active - {job.jobId}, q.active);
      case _ =>
    }
  }

  lemma {:induction false} SubsetSize(a: set<string>, b: set<string>)
    requires a <= b
    ensures |a| <= |b|
    decreases a
  {
    if a != {} {
      var x :| x in a;
      SubsetSize(a - {x}, b - {x});
    }
  }

  /** In every run the number of active jobs stays within the limit. */
  lemma {:induction false} ActiveNeverExceedsLimit(q: QState, ops: seq<Op>)
    requires Inv(q)
    ensures Inv(Run(q, ops)) && Run(q, ops).limit == q.limit
    decreases |ops|
  {
    if ops != [] {
      ActiveNeverExceedsLimit(q, ops[..|ops| - 1]);
      StepKeepsInv(Run(q, ops[..|ops| - 1]), ops[|ops| - 1]);
    }
  }

  // ----- no job is lost ------------------------------------------------------------------------

  /** The jobs that are owed a run: submitted or requeued, and since then neither cancelled nor finished. */
  ghost function Owed(q: QState, ops: seq<Op>): set<string>
    decreases |ops|
  {
    if ops == [] then {}
    else
      var before := Owed(q, ops[..|ops| - 1]);
      var state := Run(q, ops[..|ops| - 1]);
      match ops[|ops| - 1]
      case Submit(job) => if job.jobId in state.jobs then before else before + {job.jobId}
      case Cancel(id) => before - {id}
      case CancelToken(id) => before - {id}
      case Acquire => before
      case Finish(job) => before - {job.jobId}
      case Requeue(job) =>
        if job.jobId in state.tokens && !state.tokens[job.jobId] then before + {job.jobId} else before
  }

  ghost predicate Tracked(q: QState, owed: set<string>) {
    forall id :: id in owed ==> Live(q, id) && (id in q.pending || id in q.active)
  }

  lemma StepTracks(q: QState, owed: set<string>, op: Op, owed': set<string>)
    requires Inv(q) && Tracked(q, owed)
    requires owed' == match op
                      case Submit(job) => (if job.jobId in q.jobs then owed else owed + {job.jobId})
                      case Cancel(id) => owed - {id}
                      case CancelToken(id) => owed - {id}
                      case Acquire => owed
                      case Finish(job) => owed - {job.jobId}
                      case Requeue(job) =>
                        (if job.jobId in q.tokens && !q.tokens[job.jobId] then owed + {job.jobId} else owed)
    ensures Tracked(Step(q, op).0, owed')
  {
    var q' := Step(q, op).0;
    match op {
      case Acquire =>
        if |q.active| < q.limit {
          AcquireTracks(q, owed);
        }
      case Requeue(job) =>
        assert q'.pending[|q.pending|] == job.jobId;
        assert forall id :: id in q.pending ==> id in q'.pending;
      case Submit(job) =>
        if job.jobId !in q.jobs {
          assert q'.pending[|q.pending|] == job.jobId;
          assert forall id :: id in q.pending ==> id in q'.pending;
        }
      case _ =>
    }
  }

  lemma AcquireTracks(q: QState, owed: set<string>)
    requires Tracked(q, owed) && |q.active| < q.limit
    ensures Tracked(Step(q, Acquire).0, owed)
  {
    var q' := Step(q, Acquire).0;
    var k := Dropped(q, q.pending);
    forall id | id in owed ensures id in q'.pending || id in q'.active {
      if id in q.pending {
        var i :| 0 <= i < |q.pending| && q.pending[i] == id;
        assert i >= k;
        if i > k {
          assert q'.pending[i - (k + 1)] == id;
        }
      }
    }
  }

  /** Every job that is owed a run is pending or active, with a live token, after every run. */
  lemma {:induction false} NoJobIsLost(q: QState, ops: seq<Op>)
    requires Inv(q)
    ensures Tracked(Run(q, ops), Owed(q, ops))
    decreases |ops|
  {
    if ops != [] {
      var init := ops[..|ops| - 1];
      NoJobIsLost(q, init);
      ActiveNeverExceedsLimit(q, init);
      StepTracks(Run(q, init), Owed(q, init), ops[|ops| - 1], Owed(q, ops));
    }
  }

  // ----- cancellation is final -----------------------------------------------------------------

  predicate TokenCancelled(q: QState, id: string) {
    id in q.tokens && q.tokens[id]
  }

  lemma StepKeepsCancelled(q: QState, op: Op, id: string)
    requires Inv(q) && TokenCancelled(q, id)
    ensures TokenCancelled(Step(q, op).0, id)
    ensures Step(q, op).1.Handed? ==> |q.pending| > Dropped(q, q.pending) && q.pending[Dropped(q, q.pending)] != id
  {
  }

  lemma {:induction false} CancelledForGood(q: QState, ops: seq<Op>, id: string)
    requires Inv(q) && TokenCancelled(q, id)
    ensures TokenCancelled(Run(q, ops), id)
    decreases |ops|
  {
    if ops != [] {
      var init := ops[..|ops| - 1];
      CancelledForGood(q, init, id);
      ActiveNeverExceedsLimit(q, init);
      StepKeepsCancelled(Run(q, init), ops[|ops| - 1], id);
    }
  }

  lemma {:induction false} RunSplit(q: QState, a: seq<Op>, b: seq<Op>)
    ensures Run(q, a + b) == Run(Run(q, a), b)
    decreases |b|
  {
    if b == [] {
      assert a + b == a;
    } else {
      RunSplit(q, a, b[..|b| - 1]);
      assert (a + b)[..|a + b| - 1] == a + b[..|b| - 1];
    }
  }

  /**
   Once a submitted job is cancelled, no later acquire hands it out, whatever is submitted, finished
   or requeued in between.
   */
  lemma CancelledNeverAcquired(q: QState, before: seq<Op>, id: string, after: seq<Op>)
    requires Inv(q) && id in Run(q, before).tokens
    ensures AcquiredId(Run(q, before + [Cancel(id)] + after)) != Some(id)
  {
    var mid := Run(q, before);
    var cut := Run(q, before + [Cancel(id)]);
    ActiveNeverExceedsLimit(q, before);
    RunSplit(q, before, [Cancel(id)]);
    assert Run(mid, [Cancel(id)]) == Step(mid, Cancel(id)).0 by {
      assert [Cancel(id)][..0] == [];
    }
    StepKeepsInv(mid, Cancel(id));
    RunSplit(q, before + [Cancel(id)], after);
    CancelledForGood(cut, after, id);
  }

  // ----- acquire is first-in first-out ---------------------------------------------------------

  /**
   Acquire hands out the earliest queued live job, in the state the queue holds for it, and drops
   only ids that are cancelled or have no token.
   */
  lemma AcquireTakesEarliestLive(q: QState)
    requires Inv(q) && |q.active| < q.limit
    ensures var (q', out) := Step(q, Acquire);
            match AcquiredId(q)
            case Some(id) =>
              exists k :: 0 <= k < |q.pending| && q.pending[k] == id
                && out == Handed(q.jobs[id]) && q'.active == q.active + {id} && q'.pending == q.pending[k + 1..]
                && Live(q, id)
                && forall i :: 0 <= i < k ==> q.pending[i] !in q.tokens || q.tokens[q.pending[i]]
            case None =>
              out == Nothing && q'.pending == [] && q'.active == q.active
              && forall i :: 0 <= i < |q.pending| ==> q.pending[i] !in q.tokens || q.tokens[q.pending[i]]
  {
    var k := Dropped(q, q.pending);
    forall i | 0 <= i < k ensures q.pending[i] !in q.tokens || q.tokens[q.pending[i]] {
      assert !Live(q, q.pending[i]);
    }
  }

  // ----- no job is handed to two workers -------------------------------------------------------

  predicate NoDuplicates(s: seq<string>) {
    forall i, j :: 0 <= i < j < |s| ==> s[i] != s[j]
  }

  /** Pending ids are distinct, known, and not active. */
  predicate Exclusive(q: QState) {
    && NoDuplicates(q.pending)
    && (forall i :: 0 <= i < |q.pending| ==> q.pending[i] !in q.active && q.pending[i] in q.jobs)
    && q.active <= q.jobs.Keys
  }

  lemma {:induction false} WithoutNoDuplicates(s: seq<string>, id: string)
    requires NoDuplicates(s)
    ensures NoDuplicates(Without(s, id))
  {
    if s != [] {
      WithoutNoDuplicates(s[1..], id);
      var rest := Without(s[1..], id);
      forall j | 0 <= j < |rest| ensures rest[j] != s[0] {
        assert rest[j] in s[1..];
      }
    }
  }

  /** The only way to break exclusiveness is to requeue an id that is already pending. */
  lemma StepExclusive(q: QState, op: Op)
    requires Inv(q) && Exclusive(q)
    ensures Exclusive(Step(q, op).0) <==> !(op.Requeue? && op.job.jobId in q.pending)
  {
    var q' := Step(q, op).0;
    match op {
      case Cancel(id) =>
        WithoutNoDuplicates(q.pending, id);
        forall i | 0 <= i < |q'.pending| ensures q'.pending[i] !in q'.active && q'.pending[i] in q'.jobs {
          assert q'.pending[i] in q.pending;
        }
      case Requeue(job) =>
        if job.jobId in q.pending {
          var k :| 0 <= k < |q.pending| && q.pending[k] == job.jobId;
          assert q'.pending[k] == q'.pending[|q.pending|];
        }
      case _ =>
    }
  }

  /** Position of a requeue of a pending id in a run. */
  ghost predicate RequeuesPending(q: QState, ops: seq<Op>, i: int)
    requires 0 <= i < |ops|
  {
    ops[i].Requeue? && ops[i].job.jobId in Run(q, ops[..i]).pending
  }

  /**
   Every state of a run is exclusive if and only if the run never requeues an id that is still
   pending; requeueing active jobs only is one way to obey this.
   */
  lemma ExclusiveIffNoPendingRequeue(q: QState, ops: seq<Op>)
    requires Inv(q) && Exclusive(q)
    ensures (forall n :: 0 <= n <= |ops| ==> Exclusive(Run(q, ops[..n]))) <==>
            (forall i :: 0 <= i < |ops| ==> !RequeuesPending(q, ops, i))
  {
    if forall i :: 0 <= i < |ops| ==> !RequeuesPending(q, ops, i) {
      forall n | 0 <= n <= |ops| ensures Exclusive(Run(q, ops[..n])) {
        ExclusiveUpTo(q, ops, n);
      }
    } else {
      var i :| 0 <= i < |ops| && RequeuesPending(q, ops, i);
      if Exclusive(Run(q, ops[..i])) {
        ActiveNeverExceedsLimit(q, ops[..i]);
        StepExclusive(Run(q, ops[..i]), ops[i]);
        assert ops[..i + 1][..i] == ops[..i];
        assert !Exclusive(Run(q, ops[..i + 1]));
      }
    }
  }

  lemma {:induction false} ExclusiveUpTo(q: QState, ops: seq<Op>, n: nat)
    requires Inv(q) && Exclusive(q) && n <= |ops|
    requires forall i :: 0 <= i < |ops| ==> !RequeuesPending(q, ops, i)
    ensures Exclusive(Run(q, ops[..n]))
    decreases n
  {
    if n > 0 {
      ExclusiveUpTo(q, ops, n - 1);
      ActiveNeverExceedsLimit(q, ops[..n - 1]);
      assert !RequeuesPending(q, ops, n - 1);
      ExclusiveNext(q, ops, n);
    }
  }

  lemma ExclusiveNext(q: QState, ops: seq<Op>, n: nat)
    requires 0 < n <= |ops| && !RequeuesPending(q, ops, n - 1)
    requires Inv(Run(q, ops[..n - 1])) && Exclusive(Run(q, ops[..n - 1]))
    ensures Exclusive(Run(q, ops[..n]))
  {
    assert ops[..n][..n - 1] == ops[..n - 1];
    StepExclusive(Run(q, ops[..n - 1]), ops[n - 1]);
  }

  /** In an exclusive state an acquire never hands out a job that some worker already holds. */
  lemma ExclusiveHandsOutOnce(q: QState)
    requires Exclusive(q) && AcquiredId(q).Some?
    ensures AcquiredId(q).value !in q.active
  {
  }

  /** Requeueing a job that is still pending does hand it to two workers. */
  lemma PendingRequeueHandsOutTwice(job: Job)
    ensures var q := Run(Create(2), [Submit(job), Requeue(job), Acquire]);
            AcquiredId(q) == Some(job.jobId) && job.jobId in q.active
  {
    var q0 := Create(2);
    var q1 := Step(q0, Submit(job)).0;
    RunAppend(q0, [], Submit(job));
    assert [] + [Submit(job)] == [Submit(job)];
    var q2 := Step(q1, Requeue(job)).0;
    RunAppend(q0, [Submit(job)], Requeue(job));
    assert [Submit(job)] + [Requeue(job)] == [Submit(job), Requeue(job)];
    RunAppend(q0, [Submit(job), Requeue(job)], Acquire);
    assert [Submit(job), Requeue(job)] + [Acquire] == [Submit(job), Requeue(job), Acquire];
    TwiceQueued(q2, job);
  }

  lemma TwiceQueued(q: QState, job: Job)
    requires q == QState([job.jobId, job.jobId], map[job.jobId := job], {}, map[job.jobId := false], 2)
    ensures var q' := Step(q, Acquire).0;
            AcquiredId(q') == Some(job.jobId) && job.jobId in q'.active
  {
    assert Dropped(q, q.pending) == 0;
    var q' := Step(q, Acquire).0;
    assert q'.pending == [job.jobId];
    assert Dropped(q', q'.pending) == 0;
  }

  lemma RunAppend(q: QState, ops: seq<Op>, op: Op)
    ensures Run(q, ops + [op]) == Step(Run(q, ops), op).0
  {
    assert (ops + [op])[..|ops|] == ops;
  }

  // ----- first come, first served --------------------------------------------------------------

  /** The ids that entered the pending list, in order: accepted submissions and requeued jobs. */
  ghost function Arrivals(q: QState, ops: seq<Op>): seq<string>
    decreases |ops|
  {
    if ops == [] then q.pending
    else
      var before := Arrivals(q, ops[..|ops| - 1]);
      match ops[|ops| - 1]
      case Submit(job) => if job.jobId in Run(q, ops[..|ops| - 1]).jobs then before else before + [job.jobId]
      case Requeue(job) => before + [job.jobId]
      case _ => before
  }

  /** The ids that acquire handed out, in order. */
  ghost function HandedOut(q: QState, ops: seq<Op>): seq<string>
    decreases |ops|
  {
    if ops == [] then []
    else
      var before, id := HandedOut(q, ops[..|ops| - 1]), AcquiredId(Run(q, ops[..|ops| - 1]));
      if ops[|ops| - 1].Acquire? && id.Some? then before + [id.value] else before
  }

  /** a is b with some entries left out. */
  ghost predicate Within(a: seq<string>, b: seq<string>)
    decreases |b|
  {
    a == [] || (b != [] && ((a[0] == b[0] && Within(a[1..], b[1..])) || Within(a, b[1..])))
  }

  lemma {:induction false} WithinItself(a: seq<string>)
    ensures Within(a, a)
  {
    if a != [] {
      WithinItself(a[1..]);
    }
  }

  lemma {:induction false} WithinSuffix(a: seq<string>, b: seq<string>, k: nat)
    requires k <= |b| && a == b[k..]
    ensures Within(a, b)
    decreases k
  {
    if k == 0 {
      WithinItself(a);
    } else if a != [] {
      assert b[1..][k - 1..] == a;
      WithinSuffix(a, b[1..], k - 1);
    }
  }

  lemma {:induction false} WithinAppend(a: seq<string>, b: seq<string>, x: string)
    requires Within(a, b)
    ensures Within(a + [x], b + [x])
    decreases |b|
  {
    var b' := b + [x];
    if a == [] {
      assert a + [x] == [x] && b'[|b|..] == [x];
      WithinSuffix([x], b', |b|);
    } else {
      assert b'[1..] == b[1..] + [x] && (a + [x])[1..] == a[1..] + [x];
      if a[0] == b[0] && Within(a[1..], b[1..]) {
        WithinAppend(a[1..], b[1..], x);
      } else {
        WithinAppend(a, b[1..], x);
      }
    }
  }

  lemma {:induction false} WithinPrefix(h: seq<string>, a: seq<string>, b: seq<string>)
    requires Within(a, b)
    ensures Within(h + a, h + b)
  {
    if h == [] {
      assert h + a == a && h + b == b;
    } else {
      WithinPrefix(h[1..], a, b);
      assert (h + a)[1..] == h[1..] + a && (h + b)[1..] == h[1..] + b;
    }
  }

  lemma {:induction false} WithinBoth(a: seq<string>, b: seq<string>, c: seq<string>)
    requires Within(a, b) && Within(b, c)
    ensures Within(a, c)
    decreases |b| + |c|
  {
    if a != [] {
      if b[0] == c[0] && Within(b[1..], c[1..]) {
        if a[0] == b[0] && Within(a[1..], b[1..]) {
          WithinBoth(a[1..], b[1..], c[1..]);
        } else {
          WithinBoth(a, b[1..], c[1..]);
        }
      } else {
        WithinBoth(a, b, c[1..]);
      }
    }
  }

  lemma {:induction false} WithoutIsWithin(s: seq<string>, id: string)
    ensures Within(Without(s, id), s)
  {
    if s != [] {
      WithoutIsWithin(s[1..], id);
      if s[0] != id {
        assert Without(s, id)[1..] == Without(s[1..], id);
      } else {
        assert Without(s, id) == Without(s[1..], id);
      }
    }
  }

  /**
   Jobs are handed out in the order they arrived: in every run, what was handed out followed by what is
   still pending is the list of arrivals with some left out.
   */
  lemma {:induction false} FirstComeFirstServed(q: QState, ops: seq<Op>)
    ensures Within(HandedOut(q, ops) + Run(q, ops).pending, Arrivals(q, ops))
    decreases |ops|
  {
    if ops == [] {
      assert [] + q.pending == q.pending;
      WithinItself(q.pending);
    } else {
      var init, op := ops[..|ops| - 1], ops[|ops| - 1];
      FirstComeFirstServed(q, init);
      ServedAfter(Run(q, init), op, HandedOut(q, init), Arrivals(q, init));
    }
  }

  lemma ServedAfter(q: QState, op: Op, handed: seq<string>, arrived: seq<string>)
    requires Within(handed + q.pending, arrived)
    ensures var u := Step(q, op).0;
            match op
            case Submit(job) => Within(handed + u.pending, if job.jobId in q.jobs then arrived else arrived + [job.jobId])
            case Requeue(job) => Within(handed + u.pending, arrived + [job.jobId])
            case Acquire =>
              Within((if AcquiredId(q).Some? then handed + [AcquiredId(q).value] else handed) + u.pending, arrived)
            case _ => Within(handed + u.pending, arrived)
  {
    match op {
      case Submit(job) =>
        assert handed + (q.pending + [job.jobId]) == handed + q.pending + [job.jobId];
        WithinAppend(handed + q.pending, arrived, job.jobId);
      case Requeue(job) =>
        assert handed + (q.pending + [job.jobId]) == handed + q.pending + [job.jobId];
        WithinAppend(handed + q.pending, arrived, job.jobId);
      case Cancel(id) =>
        WithoutIsWithin(q.pending, id);
        WithinPrefix(handed, Without(q.pending, id), q.pending);
        WithinBoth(handed + Without(q.pending, id), handed + q.pending, arrived);
      case Acquire => ServedByAcquire(q, handed, arrived);
      case _ =>
    }
  }

  /** Dropping pending jobs from the front keeps the order. */
  lemma StillWithin(handed: seq<string>, pending: seq<string>, k: nat, arrived: seq<string>)
    requires Within(handed + pending, arrived) && k <= |pending|
    ensures Within(handed + pending[k..], arrived)
  {
    WithinSuffix(pending[k..], pending, k);
    WithinPrefix(handed, pending[k..], pending);
    WithinBoth(handed + pending[k..], handed + pending, arrived);
  }

  lemma ServedByAcquire(q: QState, handed: seq<string>, arrived: seq<string>)
    requires Within(handed + q.pending, arrived)
    ensures var u := Step(q, Acquire).0;
            Within((if AcquiredId(q).Some? then handed + [AcquiredId(q).value] else handed) + u.pending, arrived)
  {
    if |q.active| < q.limit {
      var k := Dropped(q, q.pending);
      StillWithin(handed, q.pending, k, arrived);
      if k < |q.pending| {
        assert handed + [q.pending[k]] + q.pending[k + 1..] == handed + q.pending[k..];
      } else {
        assert handed + [] == handed + q.pending[k..];
      }
    }
  }

  // ----- capacity and cancellation, spelled out ------------------------------------------------

  /**
   A queue made for n workers never has more than n jobs active (one if n is 0), and hands out a job
   whenever fewer are active and a live one is pending.
   */
  lemma CapacityIsUsed(n: nat, ops: seq<Op>)
    ensures var q, most := Run(Create(n), ops), if n == 0 then 1 else n;
            && |q.active| <= most
            && (|q.active| < most && (exists i :: 0 <= i < |q.pending| && Live(q, q.pending[i])) ==> AcquiredId(q).Some?)
  {
    ActiveNeverExceedsLimit(Create(n), ops);
  }

  /** Cancelling marks a job that is not finished, leaves others alone, and takes the id out of the pending list. */
  lemma CancelMarks(q: QState, id: string, other: string)
    requires id in q.jobs && other in q.jobs && other != id
    ensures var u := Step(q, Cancel(id)).0;
            && u.jobs.Keys == q.jobs.Keys && u.jobs[other] == q.jobs[other] && id !in u.pending
            && u.jobs[id] == q.jobs[id].(state := if q.jobs[id].state in {Completed, Failed} then q.jobs[id].state else Cancelled)
            && (id in q.tokens ==> u.tokens == q.tokens[id := true])
  {
  }

  /** Finishing and requeueing store the job as given and free its place; only requeueing puts it back in line. */
  lemma FinishAndRequeue(q: QState, job: Job)
    ensures var f, r := Step(q, Finish(job)).0, Step(q, Requeue(job)).0;
            && f.jobs == r.jobs == q.jobs[job.jobId := job] && f.active == r.active && job.jobId !in f.active
            && (forall id :: id in q.active && id != job.jobId ==> id in f.active)
            && f.pending == q.pending && |r.pending| == |q.pending| + 1 && r.pending[|q.pending|] == job.jobId
  {
  }
}
