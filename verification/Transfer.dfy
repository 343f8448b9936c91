/**
 Upload execution: one attempt (the worker) and the retry loop around it (the engine). The provider
 may answer anything; another thread may cancel the token before any check; opening and removing
 the staging file may fail. A ghost log records the checks and provider calls of a run in order.
 */
module Transfer {
  import opened Wrappers
  import opened TransferState
  import opened Queue
  import opened Sealing
  import M = Manifest
  import P = Pipeline

  datatype Event =
    | Checked(sawCancelled: bool)
    | Uploaded(upload: Result<M.StorageRef, StorageError>)
    | Verified(ref: M.StorageRef, verdict: Result<bool, StorageError>)

  /** The log of one upload. */
  class Log {
    ghost var events: seq<Event>

    constructor ()
      ensures events == []
    {
      events := [];
    }
  }

  ghost function Uploads(events: seq<Event>): nat {
    if events == [] then 0
    else Uploads(events[..|events| - 1]) + (if events[|events| - 1].Uploaded? then 1 else 0)
  }

  type Answer = Result<M.StorageRef, StorageError>

  /** The answers to the uploads of a log, in order. */
  ghost function Answers(events: seq<Event>): seq<Answer> {
    if events == [] then []
    else
      var e := events[|events| - 1];
      Answers(events[..|events| - 1]) + (if e.Uploaded? then [e.upload] else [])
  }

  lemma AnswersNext(before: seq<Event>, e: Event)
    ensures Answers(before + [e]) == Answers(before) + (if e.Uploaded? then [e.upload] else [])
  {
    assert (before + [e])[..|before|] == before;
  }

  /** An upload that failed with an error worth another attempt. */
  predicate FailedTransiently(a: Answer) {
    a.Err? && Transient(a.error)
  }

  /** An upload is followed by another only if it failed with an error worth another attempt. */
  ghost predicate Justified(answers: seq<Answer>) {
    forall i :: 0 <= i < |answers| - 1 ==> FailedTransiently(answers[i])
  }

  ghost predicate LastFailedTransiently(answers: seq<Answer>) {
    answers != [] && FailedTransiently(answers[|answers| - 1])
  }

  /** Where the loop may try again: nothing was uploaded, all failed transiently, or the last is being verified. */
  ghost predicate MayGoOn(answers: seq<Answer>, state: State) {
    && Justified(answers)
    && (answers == [] || LastFailedTransiently(answers) || state == Verifying)
    && (LastFailedTransiently(answers) ==> state == Retrying)
  }

  ghost function AsList(up: Option<Answer>): seq<Answer> {
    if up.None? then [] else [up.value]
  }

  /** The provider refused something: an upload failed, or a verification did or was negative. */
  ghost predicate Refused(events: seq<Event>) {
    exists i :: 0 <= i < |events| && IsRefusal(events[i])
  }

  predicate IsRefusal(e: Event) {
    (e.Uploaded? && e.upload.Err?) || (e.Verified? && e.verdict != Ok(true))
  }

  predicate Startable(s: State) {
    s in {Pending, Preparing, Retrying}
  }

  /** Every error of an attempt has its cause: a check that saw the cancellation, a refusal, or a job that could not start. */
  ghost predicate Caused(e: TransferError, events: seq<Event>, startable: bool) {
    if e == TransferCancelled then Checked(true) in events else Refused(events) || !startable
  }

  /** So has every error of the loop, where the staged file may also fail. */
  ghost predicate Explained(e: TransferError, events: seq<Event>, staging: bool, startable: bool) {
    if e == TransferCancelled then Checked(true) in events else Refused(events) || staging || !startable
  }

  lemma RefusedStays(before: seq<Event>, after: seq<Event>)
    requires before <= after
    ensures Refused(before) ==> Refused(after)
  {
    if Refused(before) {
      var i :| 0 <= i < |before| && IsRefusal(before[i]);
      assert after[i] == before[i];
    }
  }

  /** A check that saw a cancelled token leaves it cancelled for good. */
  ghost predicate Sound(events: seq<Event>, cancelled: bool) {
    Checked(true) in events ==> cancelled
  }

  /** Reads the token; some other thread may have cancelled it in the meantime. */
  method CheckCancelled(token: CancellationToken, log: Log) returns (b: bool)
    modifies token, log
    ensures b == token.cancelled && (old(token.cancelled) ==> b)
    ensures log.events == old(log.events) + [Checked(b)]
    ensures Sound(old(log.events), old(token.cancelled)) ==> Sound(log.events, token.cancelled)
    ensures Sound(old(log.events), old(token.cancelled)) && !b ==> Checked(true) !in log.events
  {
    MeanwhileElsewhere(token);
    b := token.cancelled;
    log.events := log.events + [Checked(b)];
  }

  /** Time in which another thread may cancel the token. */
  method MeanwhileElsewhere(token: CancellationToken)
    modifies token
    ensures old(token.cancelled) ==> token.cancelled
  {
    if * {
      token.Trigger();
    }
  }

  // ----- the storage provider ------------------------------------------------------------------

  /**
   A remote store. `store` is what was last uploaded under each reference. A provider with
   `realReferences` never answers with an invalid or pending reference nor with one already in use;
   any other provider may answer anything.
   */
  class Provider {
    var store: map<M.StorageRef, seq<byte>>
    const realReferences: bool

    constructor (wellBehaved: bool)
      ensures store == map[] && realReferences == wellBehaved
    {
      store := map[];
      realReferences := wellBehaved;
    }

    method Upload(content: seq<byte>, log: Log) returns (r: Result<M.StorageRef, StorageError>)
      modifies this, log
      ensures log.events == old(log.events) + [Uploaded(r)]
      ensures store == if r.Ok? then old(store)[r.value := content] else old(store)
      ensures r.Ok? && realReferences ==> r.value !in old(store) && M.RefOk(r.value) && r.value != M.Pending
    {
      var reference: M.StorageRef := *;
      var problem: StorageError := *;
      if * {
        r := Err(problem);
      } else if realReferences && (reference in store || !M.RefOk(reference) || reference == M.Pending) {
        r := Err(OtherStorageError);
      } else {
        r := Ok(reference);
        store := store[reference := content];
      }
      log.events := log.events + [Uploaded(r)];
    }

    method Verify(reference: M.StorageRef, log: Log) returns (r: Result<bool, StorageError>)
      modifies log
      ensures log.events == old(log.events) + [Verified(reference, r)]
    {
      r := *;
      log.events := log.events + [Verified(reference, r)];
    }
  }

  // ----- the staging file ----------------------------------------------------------------------

  /** A temporary payload file, removed explicitly after success and otherwise when dropped. */
  class StagingFile {
    const content: seq<byte>
    var present: bool
    var owned: bool
    ghost var removalFailed: bool
    ghost var openFailed: bool

    constructor (data: seq<byte>)
      ensures content == data && present && owned && !removalFailed && !openFailed
    {
      content, present, owned, removalFailed, openFailed := data, true, true, false, false;
    }

    method Remove() returns (ok: bool)
      modifies this`present, this`removalFailed
      ensures ok ==> !present && removalFailed == old(removalFailed)
      ensures !ok ==> removalFailed && present == old(present)
    {
      if * {
        present := false;
        return true;
      }
      removalFailed := true;
      return false;
    }

    method Open() returns (r: Result<seq<byte>, IoKind>)
      modifies this`openFailed
      ensures r.Ok? ==> r.value == content && present && openFailed == old(openFailed)
      ensures r.Err? ==> openFailed
    {
      var kind: IoKind := *;
      var opens: bool := *;
      if present && opens {
        return Ok(content);
      }
      openFailed := true;
      return Err(kind);
    }

    /** Explicit removal; ownership ends even if it fails. */
    method Cleanup() returns (ok: bool)
      modifies this`present, this`owned, this`removalFailed
      ensures !removalFailed ==> !present && ok
      ensures old(removalFailed) ==> removalFailed
      ensures !owned
    {
      owned := false;
      ok := true;
      if present {
        ok := Remove();
      }
    }

    /** Going out of scope: an owned file is removed, a disowned or cleaned-up one is left alone. */
    method Drop()
      modifies this`present, this`removalFailed
      ensures old(owned) && !removalFailed ==> !present
      ensures !old(owned) ==> present == old(present) && removalFailed == old(removalFailed)
      ensures old(removalFailed) ==> removalFailed
    {
      if owned && present {
        var _ := Remove();
      }
    }
  }

  // ----- the job -------------------------------------------------------------------------------

  class TransferJob {
    const jobId: string
    var state: State
    var retryCount: nat
    var errorMessage: Option<TransferError>
    var storageReference: Option<M.StorageRef>
    var bytesTransferred: nat

    /** A fresh upload job. */
    constructor (id: string)
      ensures jobId == id && state == Pending && retryCount == 0
      ensures errorMessage == None && storageReference == None && bytesTransferred == 0
    {
      jobId, state, retryCount := id, Pending, 0;
      errorMessage, storageReference, bytesTransferred := None, None, 0;
    }

    function Snapshot(): Job
      reads this
    {
      Job(jobId, state, retryCount, errorMessage, storageReference, bytesTransferred)
    }

    method Transition(next: State) returns (r: Result<(), TransferError>)
      modifies this`state
      ensures r.Ok? <==> CanTransition(old(state), next)
      ensures state == Attempt(old(state), next)
      ensures r.Err? ==> r.error == InvalidStateTransition(old(state), next)
    {
      if !CanTransition(state, next) {
        return Err(InvalidStateTransition(state, next));
      }
      state := next;
      return Ok(());
    }
  }

  // ----- one attempt ---------------------------------------------------------------------------

  /** The log of an attempt that succeeded with r. */
  function SuccessLog(r: M.StorageRef): seq<Event> {
    [Checked(false), Uploaded(Ok(r)), Checked(false), Verified(r, Ok(true))]
  }

  /** How an attempt that failed retryably can have left the job. */
  predicate RetryableOutcome(before: State, after: State, retriesBefore: nat, retriesAfter: nat, maxRetries: nat) {
    || (after == Retrying && retriesBefore < maxRetries && retriesAfter == retriesBefore + 1)
    || (after == Failed && retriesBefore >= maxRetries && retriesAfter == retriesBefore)
    || (after == Verifying && before != Verifying && retriesAfter == retriesBefore)
  }

  /** Nothing stored before is lost or changed. */
  ghost predicate Keeps(before: map<M.StorageRef, seq<byte>>, after: map<M.StorageRef, seq<byte>>) {
    forall k :: k in before ==> k in after && after[k] == before[k]
  }

  /** r is a proper reference that was not in use. */
  ghost predicate NewReference(r: M.StorageRef, before: map<M.StorageRef, seq<byte>>) {
    r !in before && M.RefOk(r) && r != M.Pending
  }

  lemma CountNext(before: seq<Event>, e: Event)
    ensures Uploads(before + [e]) == Uploads(before) + if e.Uploaded? then 1 else 0
  {
    assert (before + [e])[..|before|] == before;
  }

  lemma NotAnUpload(before: seq<Event>, b: bool)
    ensures Uploads(before + [Checked(b)]) == Uploads(before) && Answers(before + [Checked(b)]) == Answers(before)
  {
    CountNext(before, Checked(b));
    AnswersNext(before, Checked(b));
  }

  /** The worker's reaction to an upload error. */
  method HandleUploadError(job: TransferJob, e: StorageError, token: CancellationToken, maxRetries: nat, log: Log)
    returns (error: TransferError)
    requires job.state == Transferring
    modifies job, token, log
    ensures log.events == old(log.events) + [Checked(error == TransferCancelled)]
    ensures Uploads(log.events) == Uploads(old(log.events)) && Answers(log.events) == Answers(old(log.events))
    ensures Sound(old(log.events), old(token.cancelled)) ==> Sound(log.events, token.cancelled)
    ensures old(token.cancelled) ==> token.cancelled
    ensures error == TransferCancelled || error == Storage(e)
    ensures error == TransferCancelled ==> job.state == Cancelled && job.retryCount == old(job.retryCount)
    ensures error == Storage(e) ==>
              if Transient(e) && old(job.retryCount) < maxRetries
              then job.state == Retrying && job.retryCount == old(job.retryCount) + 1
              else job.state == Failed && job.retryCount == old(job.retryCount)
  {
    NotAnUpload(log.events, true);
    NotAnUpload(log.events, false);
    var cancelled := CheckCancelled(token, log);
    if cancelled {
      var _ := job.Transition(Cancelled);
      return TransferCancelled;
    }
    error := Storage(e);
    RetryableErrors(error);
    if IsRetryable(error) && CanRetry(maxRetries, job.retryCount) {
      var step := job.Transition(Retrying);
      assert step.Ok?;
      job.retryCount := job.retryCount + 1;
      job.errorMessage := Some(error);
    } else {
      var step := job.Transition(Failed);
      assert step.Ok?;
      job.errorMessage := Some(error);
    }
  }

  /** The provider's verdict on `reference` and what it makes of the job. */
  method AskProvider(job: TransferJob, reference: M.StorageRef, size: nat, provider: Provider, log: Log)
    returns (r: Result<M.StorageRef, TransferError>, ghost verdict: Result<bool, StorageError>)
    requires job.state == Transferring
    modifies job, log
    ensures log.events == old(log.events) + [Verified(reference, verdict)]
    ensures job.retryCount == old(job.retryCount)
    ensures match verdict
            case Ok(true) => r == Ok(reference) && job.state == Completed && job.storageReference == Some(reference)
            case Ok(false) => r == Err(VerificationFailed) && job.state == Failed
            case Err(e) => r == Err(Storage(e)) && job.state == Verifying
  {
    var step := job.Transition(Verifying);
    assert step.Ok?;
    var verified := provider.Verify(reference, log);
    verdict := verified;
    if verified.Err? {
      return Err(Storage(verified.error)), verdict;
    }
    if !verified.value {
      step := job.Transition(Failed);
      assert step.Ok?;
      job.errorMessage := Some(VerificationFailed);
      return Err(VerificationFailed), verdict;
    }
    step := job.Transition(Completed);
    assert step.Ok?;
    job.storageReference := Some(reference);
    job.bytesTransferred := size;
    return Ok(reference), verdict;
  }

  /** A check followed by a verification uploads nothing, and reports no cancellation the check did not see. */
  lemma VerificationLogged(before: seq<Event>, reference: M.StorageRef, verdict: Result<bool, StorageError>)
    ensures var after := before + [Checked(false), Verified(reference, verdict)];
            && before + [Checked(false)] + [Verified(reference, verdict)] == after
            && Uploads(after) == Uploads(before) && Answers(after) == Answers(before)
            && (Checked(true) in after <==> Checked(true) in before) && (verdict != Ok(true) ==> Refused(after))
  {
    var middle := before + [Checked(false)];
    NotAnUpload(before, false);
    CountNext(middle, Verified(reference, verdict));
    AnswersNext(middle, Verified(reference, verdict));
    assert middle + [Verified(reference, verdict)] == before + [Checked(false), Verified(reference, verdict)];
    assert verdict != Ok(true) ==> IsRefusal((before + [Checked(false), Verified(reference, verdict)])[|before| + 1]);
  }

  /** The remote verification phase, after an upload that answered with `reference`. */
  method VerifyUpload(job: TransferJob, reference: M.StorageRef, size: nat, token: CancellationToken,
                      provider: Provider, log: Log)
    returns (r: Result<M.StorageRef, TransferError>)
    requires job.state == Transferring
    modifies job, token, log
    ensures old(log.events) <= log.events && Uploads(log.events) == Uploads(old(log.events))
    ensures Answers(log.events) == Answers(old(log.events)) && (old(token.cancelled) ==> token.cancelled)
    ensures Sound(old(log.events), old(token.cancelled)) ==> Sound(log.events, token.cancelled)
    ensures r.Ok? && Sound(old(log.events), old(token.cancelled)) ==> Checked(true) !in log.events
    ensures job.retryCount == old(job.retryCount)
    ensures r.Ok? ==>
              && r.value == reference && job.state == Completed && job.storageReference == Some(reference)
              && log.events == old(log.events) + [Checked(false), Verified(reference, Ok(true))]
    ensures r.Err? ==> !r.error.Io? && (IsRetryable(r.error) ==> job.state == Verifying)
    ensures old(token.cancelled) ==> r == Err(TransferCancelled)
    ensures r.Err? ==> Caused(r.error, log.events, true)
  {
    ghost var before := log.events;
    NotAnUpload(before, true);
    var cancelled := CheckCancelled(token, log);
    if cancelled {
      assert log.events[|log.events| - 1] == Checked(true);
      var _ := job.Transition(Cancelled);
      return Err(TransferCancelled);
    }
    ghost var verdict;
    r, verdict := AskProvider(job, reference, size, provider, log);
    VerificationLogged(before, reference, verdict);
    MeanwhileElsewhere(token);
  }

  /** The transitions of a job that starts to transfer. */
  method StartTransfer(job: TransferJob) returns (r: Result<(), TransferError>)
    modifies job`state
    ensures r.Ok? ==> job.state == Transferring && old(job.state) != Verifying
    ensures r.Err? ==> r.error.InvalidStateTransition? && !Startable(old(job.state))
  {
    r := job.Transition(Preparing);
    if r.Ok? {
      r := job.Transition(Transferring);
    }
  }

  /** The first check and the transitions up to the transfer itself. */
  method BeginUpload(job: TransferJob, token: CancellationToken, log: Log) returns (r: Result<(), TransferError>)
    modifies job, token, log
    ensures Sound(old(log.events), old(token.cancelled)) ==> Sound(log.events, token.cancelled)
    ensures Uploads(log.events) == Uploads(old(log.events)) && job.retryCount == old(job.retryCount)
    ensures old(log.events) <= log.events
    ensures Answers(log.events) == Answers(old(log.events)) && (old(token.cancelled) ==> token.cancelled && r.Err?)
    ensures r.Ok? ==>
              && log.events == old(log.events) + [Checked(false)]
              && job.state == Transferring && old(job.state) != Verifying
    ensures r.Err? ==> !IsRetryable(r.error) && !r.error.Io?
    ensures r.Err? && Checked(true) !in log.events ==> !Startable(old(job.state))
    ensures r.Err? ==> Caused(r.error, log.events, Startable(old(job.state)))
  {
    NotAnUpload(log.events, true);
    NotAnUpload(log.events, false);
    var cancelled := CheckCancelled(token, log);
    if cancelled {
      assert log.events[|log.events| - 1] == Checked(true);
      var _ := job.Transition(Cancelled);
      return Err(TransferCancelled);
    }
    r := StartTransfer(job);
  }

  /** The upload itself, and the reaction to its failure. */
  method SendContent(job: TransferJob, content: seq<byte>, token: CancellationToken,
                     provider: Provider, maxRetries: nat, log: Log)
    returns (r: Result<M.StorageRef, TransferError>, ghost answer: Answer)
    requires job.state == Transferring
    modifies job, token, provider, log
    ensures Sound(old(log.events), old(token.cancelled)) ==> Sound(log.events, token.cancelled)
    ensures Uploads(log.events) == Uploads(old(log.events)) + 1 && old(log.events) <= log.events
    ensures Answers(log.events) == Answers(old(log.events)) + [answer] && (old(token.cancelled) ==> token.cancelled)
    ensures answer.Err? ==> r == Err(Storage(answer.error)) || (r == Err(TransferCancelled) && Checked(true) in log.events)
    ensures answer.Ok? ==> r == Ok(answer.value)
    ensures answer.Err? ==> Refused(log.events)
    ensures provider.realReferences ==> Keeps(old(provider.store), provider.store)
    ensures r.Ok? ==>
              && log.events == old(log.events) + [Uploaded(Ok(r.value))] && r.value in provider.store
              && provider.store[r.value] == content && (provider.realReferences ==> NewReference(r.value, old(provider.store)))
              && job.state == Transferring && job.retryCount == old(job.retryCount)
    ensures r.Err? ==> !r.error.Io? && job.state in {Retrying, Failed, Cancelled}
    ensures r.Err? && IsRetryable(r.error) ==>
              RetryableOutcome(Transferring, job.state, old(job.retryCount), job.retryCount, maxRetries)
    ensures r.Err? && !IsRetryable(r.error) ==> job.retryCount == old(job.retryCount)
  {
    var upload := provider.Upload(content, log);
    CountNext(old(log.events), Uploaded(upload));
    AnswersNext(old(log.events), Uploaded(upload));
    answer := upload;
    MeanwhileElsewhere(token);
    if upload.Err? {
      var error := HandleUploadError(job, upload.error, token, maxRetries, log);
      RetryableErrors(error);
      assert log.events[|log.events| - 1] == Checked(error == TransferCancelled);
      assert IsRefusal(log.events[|old(log.events)|]);
      return Err(error), answer;
    }
    return Ok(upload.value), answer;
  }

  /** How the answer to an attempt's upload, if it made one, and its result belong together. */
  ghost predicate AttemptLogged(before: State, after: State, up: Option<Answer>, r: Result<M.StorageRef, TransferError>, events: seq<Event>) {
    && (before == Verifying ==> up.None?)
    && (up.None? ==> r.Err? && !IsRetryable(r.error) && (Checked(true) in events || !Startable(before)))
    && (up.Some? && up.value.Err? ==>
          r == Err(Storage(up.value.error)) || (r == Err(TransferCancelled) && Checked(true) in events))
    && (r.Err? && IsRetryable(r.error) && after != Verifying ==> up.Some? && FailedTransiently(up.value))
    && (r.Err? && IsRetryable(r.error) && after == Verifying ==> up.Some? && up.value.Ok?)
    && (r.Err? ==> Caused(r.error, events, Startable(before))) && (r.Err? && IsRetryable(r.error) ==> Refused(events))
  }

  /** Upload and verification of a job that is transferring. */
  method SendAndVerify(job: TransferJob, content: seq<byte>, token: CancellationToken,
                       provider: Provider, maxRetries: nat, log: Log)
    returns (r: Result<M.StorageRef, TransferError>, ghost answer: Answer)
    requires job.state == Transferring
    modifies job, token, provider, log
    ensures old(log.events) <= log.events && (old(token.cancelled) ==> token.cancelled)
    ensures Answers(log.events) == Answers(old(log.events)) + [answer] && Uploads(log.events) == Uploads(old(log.events)) + 1
    ensures Sound(old(log.events), old(token.cancelled)) ==> Sound(log.events, token.cancelled)
    ensures r.Ok? && Sound(old(log.events), old(token.cancelled)) ==> Checked(true) !in log.events
    ensures r.Ok? ==>
              && log.events == old(log.events) + [Uploaded(Ok(r.value)), Checked(false), Verified(r.value, Ok(true))]
              && job.state == Completed && job.storageReference == Some(r.value)
              && r.value in provider.store && provider.store[r.value] == content
              && (provider.realReferences ==> NewReference(r.value, old(provider.store)))
    ensures provider.realReferences ==> Keeps(old(provider.store), provider.store)
    ensures r.Ok? ==> answer.Ok?
    ensures r.Err? ==> !r.error.Io? && Caused(r.error, log.events, true) && Logged(job.state, answer, r.error)
    ensures r.Err? && IsRetryable(r.error) ==>
              RetryableOutcome(Transferring, job.state, old(job.retryCount), job.retryCount, maxRetries) && Refused(log.events)
    ensures r.Ok? || !IsRetryable(r.error) ==> job.retryCount == old(job.retryCount)
  {
    r, answer := SendContent(job, content, token, provider, maxRetries, log);
    if r.Ok? {
      r := VerifyUpload(job, r.value, |content|, token, provider, log);
    } else {
      RetryableErrors(r.error);
    }
  }

  /** How the answer to an upload and the error of its attempt belong together. */
  ghost predicate Logged(after: State, answer: Answer, e: TransferError) {
    && (answer.Err? ==> e == Storage(answer.error) || e == TransferCancelled)
    && (IsRetryable(e) ==> if after == Verifying then answer.Ok? else FailedTransiently(answer))
  }

  lemma NotBegunLogged(before: State, after: State, e: TransferError, events: seq<Event>)
    requires !IsRetryable(e) && Caused(e, events, Startable(before)) && (Checked(true) in events || !Startable(before))
    ensures AttemptLogged(before, after, None, Err(e), events)
  {
  }

  lemma SentLogged(before: State, after: State, answer: Answer, r: Result<M.StorageRef, TransferError>, events: seq<Event>)
    requires before != Verifying && (r.Ok? ==> answer.Ok?)
    requires r.Err? ==> Caused(r.error, events, true) && Logged(after, answer, r.error) && (IsRetryable(r.error) ==> Refused(events))
    ensures AttemptLogged(before, after, Some(answer), r, events)
  {
  }

  lemma SuccessLogged(before: seq<Event>, ref: M.StorageRef)
    ensures before + [Checked(false)] + [Uploaded(Ok(ref)), Checked(false), Verified(ref, Ok(true))] == before + SuccessLog(ref)
  {
  }

  /** One pass of the upload worker. */
  method ExecuteUpload(job: TransferJob, content: seq<byte>, token: CancellationToken,
                       provider: Provider, maxRetries: nat, log: Log)
    returns (r: Result<M.StorageRef, TransferError>, ghost up: Option<Answer>)
    modifies job, token, provider, log
    ensures old(log.events) <= log.events && (old(token.cancelled) ==> token.cancelled && r.Err? && up.None?)
    ensures Answers(log.events) == Answers(old(log.events)) + AsList(up)
    ensures AttemptLogged(old(job.state), job.state, up, r, log.events)
    ensures Sound(old(log.events), old(token.cancelled)) ==> Sound(log.events, token.cancelled)
    ensures r.Ok? && Sound(old(log.events), old(token.cancelled)) ==> Checked(true) !in log.events
    ensures r.Ok? ==>
              && log.events == old(log.events) + SuccessLog(r.value)
              && job.state == Completed && job.storageReference == Some(r.value)
              && r.value in provider.store && provider.store[r.value] == content
              && (provider.realReferences ==> NewReference(r.value, old(provider.store)))
    ensures provider.realReferences ==> Keeps(old(provider.store), provider.store)
    ensures r.Err? ==> !r.error.Io?
    ensures r.Err? && IsRetryable(r.error) ==>
              && RetryableOutcome(old(job.state), job.state, old(job.retryCount), job.retryCount, maxRetries)
              && Uploads(log.events) == Uploads(old(log.events)) + 1
    ensures r.Ok? || !IsRetryable(r.error) ==> job.retryCount == old(job.retryCount)
    ensures Uploads(log.events) <= Uploads(old(log.events)) + (if old(job.state) == Verifying then 0 else 1)
  {
    var begun := BeginUpload(job, token, log);
    if begun.Err? {
      NotBegunLogged(old(job.state), job.state, begun.error, log.events);
      return Err(begun.error), None;
    }
    ghost var answer;
    r, answer := SendAndVerify(job, content, token, provider, maxRetries, log);
    up := Some(answer);
    SentLogged(old(job.state), job.state, answer, r, log.events);
    if r.Ok? {
      SuccessLogged(old(log.events), r.value);
    }
  }

  // ----- the retry loop ------------------------------------------------------------------------

  /** The attempt, followed by the report to the queue. */
  method UploadStream(job: TransferJob, content: seq<byte>, token: CancellationToken,
                      provider: Provider, queue: TransferQueue, maxRetries: nat, log: Log)
    returns (r: Result<M.StorageRef, TransferError>, ghost up: Option<Answer>)
    requires queue.Valid()
    modifies job, token, provider, log, queue
    ensures queue.Valid() && queue.tokens == old(queue.tokens)
    ensures job.jobId in queue.jobs && queue.jobs[job.jobId] == job.Snapshot() && job.jobId !in queue.active
    ensures old(log.events) <= log.events && (old(token.cancelled) ==> token.cancelled && r.Err? && up.None?)
    ensures Answers(log.events) == Answers(old(log.events)) + AsList(up)
    ensures AttemptLogged(old(job.state), job.state, up, r, log.events)
    ensures Sound(old(log.events), old(token.cancelled)) ==> Sound(log.events, token.cancelled)
    ensures r.Ok? && Sound(old(log.events), old(token.cancelled)) ==> Checked(true) !in log.events
    ensures r.Ok? ==>
              && log.events == old(log.events) + SuccessLog(r.value)
              && job.state == Completed && job.storageReference == Some(r.value)
              && r.value in provider.store && provider.store[r.value] == content
              && (provider.realReferences ==> NewReference(r.value, old(provider.store)))
    ensures provider.realReferences ==> Keeps(old(provider.store), provider.store)
    ensures r.Err? ==> !r.error.Io?
    ensures r.Err? && IsRetryable(r.error) ==>
              && RetryableOutcome(old(job.state), job.state, old(job.retryCount), job.retryCount, maxRetries)
              && Uploads(log.events) == Uploads(old(log.events)) + 1
    ensures r.Ok? || !IsRetryable(r.error) ==> job.retryCount == old(job.retryCount)
    ensures Uploads(log.events) <= Uploads(old(log.events)) + (if old(job.state) == Verifying then 0 else 1)
  {
    r, up := ExecuteUpload(job, content, token, provider, maxRetries, log);
    queue.FinishJob(job.Snapshot());
  }

  /** What success means for the log, the token's history aside. */
  ghost predicate EndsInSuccess(events: seq<Event>, r: M.StorageRef) {
    |events| >= 4 && events[|events| - 4..] == SuccessLog(r)
  }

  /** What success delivers: a completed job, known to the queue, whose verified reference holds the content. */
  ghost predicate Delivered(ref: M.StorageRef, job: Job, jobs: map<string, Job>, events: seq<Event>, content: seq<byte>,
                            genuine: bool, before: map<M.StorageRef, seq<byte>>, store: map<M.StorageRef, seq<byte>>)
  {
    && job.state == Completed && job.storageReference == Some(ref)
    && job.jobId in jobs && jobs[job.jobId] == job
    && EndsInSuccess(events, ref) && Checked(true) !in events
    && ref in store && store[ref] == content
    && (genuine ==> NewReference(ref, before))
  }

  /**
   If the last upload failed with an error worth another attempt and no check saw a cancellation, then
   the limit is reached, unless the staged file could not be opened again.
   */
  ghost predicate GaveUpRightly(answers: seq<Answer>, events: seq<Event>, r: Result<M.StorageRef, TransferError>, retries: nat, limit: nat) {
    LastFailedTransiently(answers) && Checked(true) !in events && !(r.Err? && r.error.Io?) ==> retries >= limit
  }

  lemma StillJustified(answers: seq<Answer>, state: State, up: Option<Answer>)
    requires MayGoOn(answers, state) && (state == Verifying ==> up.None?)
    ensures Justified(answers + AsList(up))
    ensures up.Some? ==> (LastFailedTransiently(answers + AsList(up)) <==> FailedTransiently(up.value))
    ensures up.None? ==> answers + AsList(up) == answers
  {
  }

  /** After an attempt the loop may go on, or it ends with reason. */
  lemma AttemptSettles(answers: seq<Answer>, before: State, after: State, up: Option<Answer>, r: Result<M.StorageRef, TransferError>,
                       events: seq<Event>, retriesBefore: nat, retries: nat, limit: nat)
    requires MayGoOn(answers, before) && AttemptLogged(before, after, up, r, events)
    requires r.Err? && IsRetryable(r.error) ==> RetryableOutcome(before, after, retriesBefore, retries, limit)
    requires before == Verifying ==> up.None?
    ensures Justified(answers + AsList(up))
    ensures var again := r.Err? && IsRetryable(r.error) && retries < limit;
            if again then MayGoOn(answers + AsList(up), after)
            else GaveUpRightly(answers + AsList(up), events, r, retries, limit)
  {
    StillJustified(answers, before, up);
  }

  /** After an attempt: clean up on success, keep the file for another attempt, or give up and drop it. */
  method Settle(staging: StagingFile, attempt: Result<M.StorageRef, TransferError>, retries: nat, maxRetries: nat)
    returns (again: bool, r: Result<M.StorageRef, TransferError>)
    requires staging.owned && !staging.removalFailed
    modifies staging`present, staging`owned, staging`removalFailed
    ensures attempt.Ok? ==> !again && (r == attempt || r == Err(Storage(TempStorage)))
    ensures attempt.Err? ==> r == attempt && (again <==> IsRetryable(attempt.error) && retries < maxRetries)
    ensures if again then staging.owned && !staging.removalFailed else !staging.removalFailed ==> !staging.present
    ensures attempt.Ok? && r.Err? ==> staging.removalFailed
  {
    again, r := false, attempt;
    if attempt.Ok? {
      var cleaned := staging.Cleanup();
      if !cleaned {
        r := Err(Storage(TempStorage));
      }
    } else if IsRetryable(attempt.error) && CanRetry(maxRetries, retries) {
      again := true;
    } else {
      staging.Drop();
    }
  }

  /** What an earlier store held is still there, so what is new now was new then. */
  lemma DeliveredSince(ref: M.StorageRef, job: Job, jobs: map<string, Job>, events: seq<Event>, content: seq<byte>, genuine: bool,
                       first: map<M.StorageRef, seq<byte>>, before: map<M.StorageRef, seq<byte>>, store: map<M.StorageRef, seq<byte>>)
    requires Delivered(ref, job, jobs, events, content, genuine, before, store) && (genuine ==> Keeps(first, before))
    ensures Delivered(ref, job, jobs, events, content, genuine, first, store)
  {
  }

  /** The books of the loop: retries and uploads so far, from a job that started with r0 retries. */
  ghost predicate Counted(again: bool, started: bool, r0: nat, retries: nat, state: State, uploads: nat,
                          limit: nat, r: Result<M.StorageRef, TransferError>)
  {
    if again then
      && retries >= r0 && (if started then retries < limit else retries == r0)
      && uploads == retries - r0 + (if state == Verifying && started then 1 else 0)
    else
      && uploads <= Max(1, limit - r0)
      && (r.Err? && IsRetryable(r.error) && !r.error.Io? && r0 < limit ==>
            retries == limit && state == Retrying && uploads == limit - r0)
  }

  lemma CountedNext(started: bool, r0: nat, retries: nat, state: State, uploads: nat, r: Result<M.StorageRef, TransferError>,
                    again: bool, retries': nat, state': State, uploads': nat, limit: nat, r': Result<M.StorageRef, TransferError>)
    requires Counted(true, started, r0, retries, state, uploads, limit, r)
    requires uploads' <= uploads + (if state == Verifying then 0 else 1)
    requires r'.Err? && IsRetryable(r'.error) && !r'.error.Io? ==>
               RetryableOutcome(state, state', retries, retries', limit) && uploads' == uploads + 1
    requires again <==> r'.Err? && IsRetryable(r'.error) && !r'.error.Io? && retries' < limit
    ensures Counted(again, true, r0, retries', state', uploads', limit, r')
    ensures again ==> retries' > retries || (retries' == retries && state' == Verifying && state != Verifying)
  {
  }

  function Max(a: int, b: int): int { if a < b then b else a }

  // ----- the loop over values ------------------------------------------------------------------

  /** All that the loop looks at or changes, at one moment. */
  datatype Moment = Moment(
    job: Job,
    events: seq<Event>,
    cancelled: bool,
    owned: bool,
    present: bool,
    removalFailed: bool,
    openFailed: bool,
    store: map<M.StorageRef, seq<byte>>,
    jobs: map<string, Job>)

  ghost function Now(job: TransferJob, staging: StagingFile, token: CancellationToken, provider: Provider,
                     queue: TransferQueue, log: Log): Moment
    reads job, staging, token, provider, queue, log
  {
    Moment(job.Snapshot(), log.events, token.cancelled, staging.owned, staging.present, staging.removalFailed,
           staging.openFailed, provider.store, queue.jobs)
  }

  type Reply = Result<M.StorageRef, TransferError>

  /** What an attempt, reported to the queue, leads to. */
  ghost predicate Attempted(b: Moment, m: Moment, up: Option<Answer>, r: Reply, content: seq<byte>, genuine: bool, limit: nat) {
    && b.events <= m.events && (b.cancelled ==> m.cancelled) && Sound(m.events, m.cancelled)
    && Answers(m.events) == Answers(b.events) + AsList(up) && AttemptLogged(b.job.state, m.job.state, up, r, m.events)
    && (r.Ok? ==> Delivered(r.value, m.job, m.jobs, m.events, content, genuine, b.store, m.store))
    && (genuine ==> Keeps(b.store, m.store)) && (r.Err? ==> !r.error.Io?)
    && Uploads(m.events) <= Uploads(b.events) + (if b.job.state == Verifying then 0 else 1)
    && (r.Err? && IsRetryable(r.error) ==>
          && RetryableOutcome(b.job.state, m.job.state, b.job.retryCount, m.job.retryCount, limit)
          && Uploads(m.events) == Uploads(b.events) + 1)
  }

  ghost predicate Attempts(x: (Moment, Moment, Option<Answer>, Reply, seq<byte>, bool, nat)) {
    Attempted(x.0, x.1, x.2, x.3, x.4, x.5, x.6)
  }

  /** What an attempt leads to, sealed. */
  ghost predicate AttemptMade(b: Moment, m: Moment, up: Option<Answer>, r: Reply, content: seq<byte>, genuine: bool, limit: nat) {
    Sealed(Attempts, (b, m, up, r, content, genuine, limit), SealDepth(limit))
  }

  lemma AttemptMadeIs(b: Moment, m: Moment, up: Option<Answer>, r: Reply, content: seq<byte>, genuine: bool, limit: nat)
    ensures AttemptMade(b, m, up, r, content, genuine, limit) <==> Attempted(b, m, up, r, content, genuine, limit)
  {
    SealedIs(Attempts, (b, m, up, r, content, genuine, limit), SealDepth(limit));
  }

  /** What settling an attempt leads to: only the staging file changes. */
  ghost predicate Settled(m: Moment, a: Moment, attempt: Reply, again: bool, r: Reply, limit: nat) {
    && a == m.(owned := a.owned, present := a.present, removalFailed := a.removalFailed)
    && (attempt.Ok? ==> !again && (r == attempt || (r == Err(Storage(TempStorage)) && a.removalFailed)))
    && (attempt.Err? ==> r == attempt && (again <==> IsRetryable(attempt.error) && m.job.retryCount < limit))
    && (if again then a.owned && !a.removalFailed else !a.removalFailed ==> !a.present)
  }

  /** How one round of the loop ends. */
  ghost predicate RoundEnds(b: Moment, a: Moment, again: bool, r: Reply, content: seq<byte>, genuine: bool, limit: nat) {
    && b.events <= a.events && (b.cancelled ==> a.cancelled) && Sound(a.events, a.cancelled)
    && Justified(Answers(a.events)) && (again ==> MayGoOn(Answers(a.events), a.job.state) && Refused(a.events))
    && (!again ==> GaveUpRightly(Answers(a.events), a.events, r, a.job.retryCount, limit))
    && (if again then a.owned && !a.removalFailed else !a.removalFailed ==> !a.present)
    && (r.Ok? ==> Delivered(r.value, a.job, a.jobs, a.events, content, genuine, b.store, a.store))
    && (genuine ==> Keeps(b.store, a.store))
    && Uploads(a.events) <= Uploads(b.events) + (if b.job.state == Verifying then 0 else 1)
    && (r.Err? && IsRetryable(r.error) && !r.error.Io? ==>
          && RetryableOutcome(b.job.state, a.job.state, b.job.retryCount, a.job.retryCount, limit)
          && Uploads(a.events) == Uploads(b.events) + 1)
    && (r.Err? ==> Explained(r.error, a.events, a.removalFailed || a.openFailed, Startable(b.job.state)))
    && (again <==> r.Err? && IsRetryable(r.error) && !r.error.Io? && a.job.retryCount < limit)
  }

  ghost predicate Ends(x: (Moment, Moment, bool, Reply, seq<byte>, bool, nat)) {
    RoundEnds(x.0, x.1, x.2, x.3, x.4, x.5, x.6)
  }

  /** The end of a round, sealed. */
  ghost predicate RoundEnded(b: Moment, a: Moment, again: bool, r: Reply, content: seq<byte>, genuine: bool, limit: nat) {
    Sealed(Ends, (b, a, again, r, content, genuine, limit), SealDepth(limit))
  }

  lemma RoundEndedIs(b: Moment, a: Moment, again: bool, r: Reply, content: seq<byte>, genuine: bool, limit: nat)
    ensures RoundEnded(b, a, again, r, content, genuine, limit) <==> RoundEnds(b, a, again, r, content, genuine, limit)
  {
    SealedIs(Ends, (b, a, again, r, content, genuine, limit), SealDepth(limit));
  }

  /** An attempt that is settled ends the round. */
  lemma AttemptEndsRound(b: Moment, m: Moment, a: Moment, up: Option<Answer>, attempt: Reply, again: bool, r: Reply,
                         content: seq<byte>, genuine: bool, limit: nat)
    requires MayGoOn(Answers(b.events), b.job.state) && AttemptMade(b, m, up, attempt, content, genuine, limit)
    requires Settled(m, a, attempt, again, r, limit)
    ensures RoundEnded(b, a, again, r, content, genuine, limit)
  {
    AttemptMadeIs(b, m, up, attempt, content, genuine, limit);
    AttemptSettles(Answers(b.events), b.job.state, m.job.state, up, attempt, m.events, b.job.retryCount, m.job.retryCount, limit);
    RoundEndedIs(b, a, again, r, content, genuine, limit);
  }

  lemma SameAnswers(events: seq<Event>)
    ensures Answers(events + [Checked(false)]) == Answers(events)
  {
    NotAnUpload(events, false);
  }

  /** A check that saw the cancellation ends the round, and the staged file is dropped. */
  lemma CancelledRoundEnds(b: Moment, a: Moment, content: seq<byte>, genuine: bool, limit: nat)
    requires MayGoOn(Answers(b.events), b.job.state)
    requires a == b.(events := b.events + [Checked(true)], cancelled := true, present := a.present, removalFailed := a.removalFailed)
    requires !a.removalFailed ==> !a.present
    ensures RoundEnded(b, a, false, Err(TransferCancelled), content, genuine, limit)
  {
    NotAnUpload(b.events, true);
    assert a.events[|b.events|] == Checked(true);
    RoundEndedIs(b, a, false, Err(TransferCancelled), content, genuine, limit);
  }

  /** So does a staged file that cannot be opened. */
  lemma UnopenedRoundEnds(b: Moment, a: Moment, kind: IoKind, content: seq<byte>, genuine: bool, limit: nat)
    requires MayGoOn(Answers(b.events), b.job.state) && a.openFailed && Sound(a.events, a.cancelled) && (b.cancelled ==> a.cancelled)
    requires a == b.(events := b.events + [Checked(false)], cancelled := a.cancelled, openFailed := true,
                     present := a.present, removalFailed := a.removalFailed)
    requires !a.removalFailed ==> !a.present
    ensures RoundEnded(b, a, false, Err(Io(kind)), content, genuine, limit)
  {
    NotAnUpload(b.events, false);
    RoundEndedIs(b, a, false, Err(Io(kind)), content, genuine, limit);
  }

  /** A check that saw no cancellation is part of the round. */
  lemma CheckedRoundEnds(b: Moment, c: Moment, a: Moment, again: bool, r: Reply, content: seq<byte>, genuine: bool, limit: nat)
    requires c == b.(events := b.events + [Checked(false)], cancelled := c.cancelled) && (b.cancelled ==> c.cancelled)
    requires RoundEnded(c, a, again, r, content, genuine, limit)
    ensures RoundEnded(b, a, again, r, content, genuine, limit)
  {
    RoundEndedIs(c, a, again, r, content, genuine, limit);
    NotAnUpload(b.events, false);
    RoundEndedIs(b, a, again, r, content, genuine, limit);
  }

  /** Where the loop stands: after some rounds, or before the first. */
  ghost predicate LoopAt(first: Moment, s: Moment, again: bool, r: Reply, content: seq<byte>, genuine: bool, limit: nat) {
    && Sound(s.events, s.cancelled) && Justified(Answers(s.events))
    && (again ==> MayGoOn(Answers(s.events), s.job.state) && (s.events == [] || Refused(s.events)))
    && (again && s.events == [] ==> s.job.state == first.job.state)
    && (!again ==> GaveUpRightly(Answers(s.events), s.events, r, s.job.retryCount, limit))
    && (if again then s.owned && !s.removalFailed else !s.removalFailed ==> !s.present)
    && (genuine ==> Keeps(first.store, s.store))
    && (first.cancelled ==>
          s.cancelled && Answers(s.events) == [] && (again ==> s.events == []) && r == Err(TransferCancelled))
    && Counted(again, s.events != [], first.job.retryCount, s.job.retryCount, s.job.state, Uploads(s.events), limit, r)
    && (!again && r.Ok? ==> Delivered(r.value, s.job, s.jobs, s.events, content, genuine, first.store, s.store))
    && (!again && r.Err? ==> Explained(r.error, s.events, s.removalFailed || s.openFailed, Startable(first.job.state)))
  }

  ghost predicate Loops(x: (Moment, Moment, bool, Reply, seq<byte>, bool, nat)) {
    LoopAt(x.0, x.1, x.2, x.3, x.4, x.5, x.6)
  }

  /** Where the loop stands, sealed. */
  ghost predicate Looping(first: Moment, s: Moment, again: bool, r: Reply, content: seq<byte>, genuine: bool, limit: nat) {
    Sealed(Loops, (first, s, again, r, content, genuine, limit), SealDepth(limit))
  }

  lemma LoopingIs(first: Moment, s: Moment, again: bool, r: Reply, content: seq<byte>, genuine: bool, limit: nat)
    ensures Looping(first, s, again, r, content, genuine, limit) <==> LoopAt(first, s, again, r, content, genuine, limit)
  {
    SealedIs(Loops, (first, s, again, r, content, genuine, limit), SealDepth(limit));
  }

  lemma LoopStarts(first: Moment, content: seq<byte>, genuine: bool, limit: nat)
    requires first.events == [] && first.owned && !first.removalFailed
    ensures Looping(first, first, true, Err(TransferCancelled), content, genuine, limit)
  {
    LoopingIs(first, first, true, Err(TransferCancelled), content, genuine, limit);
  }

  /** What the next round relies on. */
  lemma LoopOffers(first: Moment, s: Moment, r: Reply, content: seq<byte>, genuine: bool, limit: nat)
    requires Looping(first, s, true, r, content, genuine, limit)
    ensures s.owned && !s.removalFailed && Sound(s.events, s.cancelled) && MayGoOn(Answers(s.events), s.job.state)
    ensures s.events != [] ==> s.job.retryCount < limit
  {
    LoopingIs(first, s, true, r, content, genuine, limit);
  }

  lemma LoopNext(first: Moment, b: Moment, a: Moment, r: Reply, again: bool, r': Reply, content: seq<byte>, genuine: bool, limit: nat)
    requires Looping(first, b, true, r, content, genuine, limit) && RoundEnded(b, a, again, r', content, genuine, limit)
    requires b.events < a.events
    requires b.cancelled ==> r' == Err(TransferCancelled) && a.events == b.events + [Checked(true)]
    ensures Looping(first, a, again, r', content, genuine, limit) && (again ==> a.job.retryCount < limit)
    ensures again ==>
              || a.job.retryCount > b.job.retryCount
              || (a.job.retryCount == b.job.retryCount && a.job.state == Verifying && b.job.state != Verifying)
  {
    LoopingIs(first, b, true, r, content, genuine, limit);
    RoundEndedIs(b, a, again, r', content, genuine, limit);
    CountedNext(b.events != [], first.job.retryCount, b.job.retryCount, b.job.state, Uploads(b.events), r,
                again, a.job.retryCount, a.job.state, Uploads(a.events), limit, r');
    LoopAtNext(first, b, a, r, again, r', content, genuine, limit);
    LoopingIs(first, a, again, r', content, genuine, limit);
  }

  lemma LoopAtNext(first: Moment, b: Moment, a: Moment, r: Reply, again: bool, r': Reply, content: seq<byte>, genuine: bool, limit: nat)
    requires LoopAt(first, b, true, r, content, genuine, limit) && RoundEnds(b, a, again, r', content, genuine, limit)
    requires b.events < a.events
    requires b.cancelled ==> r' == Err(TransferCancelled) && a.events == b.events + [Checked(true)]
    requires Counted(again, true, first.job.retryCount, a.job.retryCount, a.job.state, Uploads(a.events), limit, r')
    ensures LoopAt(first, a, again, r', content, genuine, limit)
  {
    RefusedStays(b.events, a.events);
    NotAnUpload(b.events, true);
    if r'.Ok? {
      DeliveredSince(r'.value, a.job, a.jobs, a.events, content, genuine, first.store, b.store, a.store);
    }
  }

  /** The attempt of a round. */
  method AttemptOnce(job: TransferJob, content: seq<byte>, ghost staging: StagingFile, token: CancellationToken,
                     provider: Provider, queue: TransferQueue, maxRetries: nat, log: Log)
    returns (r: Result<M.StorageRef, TransferError>, ghost up: Option<Answer>)
    requires queue.Valid() && Sound(log.events, token.cancelled)
    modifies job, token, provider, log, queue
    ensures queue.Valid() && queue.tokens == old(queue.tokens) && old(log.events) <= log.events
    ensures AttemptMade(old(Now(job, staging, token, provider, queue, log)), Now(job, staging, token, provider, queue, log),
                        up, r, content, provider.realReferences, maxRetries)
  {
    ghost var b := Now(job, staging, token, provider, queue, log);
    r, up := UploadStream(job, content, token, provider, queue, maxRetries, log);
    assert r.Ok? ==> EndsInSuccess(log.events, r.value);
    AttemptMadeIs(b, Now(job, staging, token, provider, queue, log), up, r, content, provider.realReferences, maxRetries);
  }

  /** The second half of a round: upload, then clean up, retry or give up. */
  method TryAndSettle(job: TransferJob, content: seq<byte>, staging: StagingFile, token: CancellationToken,
                      provider: Provider, queue: TransferQueue, maxRetries: nat, log: Log)
    returns (again: bool, r: Result<M.StorageRef, TransferError>)
    requires queue.Valid() && staging.owned && !staging.removalFailed && content == staging.content
    requires Sound(log.events, token.cancelled) && MayGoOn(Answers(log.events), job.state)
    modifies job, staging, token, provider, log, queue
    ensures queue.Valid() && queue.tokens == old(queue.tokens) && old(log.events) <= log.events
    ensures RoundEnded(old(Now(job, staging, token, provider, queue, log)), Now(job, staging, token, provider, queue, log),
                      again, r, content, provider.realReferences, maxRetries)
  {
    ghost var b := Now(job, staging, token, provider, queue, log);
    ghost var up;
    var attempt;
    attempt, up := AttemptOnce(job, content, staging, token, provider, queue, maxRetries, log);
    ghost var m := Now(job, staging, token, provider, queue, log);
    again, r := Settle(staging, attempt, job.retryCount, maxRetries);
    AttemptEndsRound(b, m, Now(job, staging, token, provider, queue, log), up, attempt, again, r,
                     content, provider.realReferences, maxRetries);
  }

  /** One round of the loop: check, open, upload, then clean up, retry or give up. */
  method OneRound(job: TransferJob, staging: StagingFile, token: CancellationToken,
                  provider: Provider, queue: TransferQueue, maxRetries: nat, log: Log)
    returns (again: bool, r: Result<M.StorageRef, TransferError>)
    requires queue.Valid() && staging.owned && !staging.removalFailed
    requires Sound(log.events, token.cancelled) && MayGoOn(Answers(log.events), job.state)
    modifies job, staging, token, provider, log, queue
    ensures queue.Valid() && queue.tokens == old(queue.tokens) && old(log.events) < log.events
    ensures RoundEnded(old(Now(job, staging, token, provider, queue, log)), Now(job, staging, token, provider, queue, log),
                      again, r, staging.content, provider.realReferences, maxRetries)
    ensures old(token.cancelled) ==> r == Err(TransferCancelled) && log.events == old(log.events) + [Checked(true)]
  {
    ghost var b := Now(job, staging, token, provider, queue, log);
    SameAnswers(b.events);
    var cancelled := CheckCancelled(token, log);
    if cancelled {
      staging.Drop();
      CancelledRoundEnds(b, Now(job, staging, token, provider, queue, log), staging.content, provider.realReferences, maxRetries);
      return false, Err(TransferCancelled);
    }
    var file := staging.Open();
    if file.Err? {
      staging.Drop();
      UnopenedRoundEnds(b, Now(job, staging, token, provider, queue, log), file.error, staging.content, provider.realReferences, maxRetries);
      return false, Err(Io(file.error));
    }
    ghost var c := Now(job, staging, token, provider, queue, log);
    again, r := TryAndSettle(job, file.value, staging, token, provider, queue, maxRetries, log);
    CheckedRoundEnds(b, c, Now(job, staging, token, provider, queue, log), again, r, staging.content, provider.realReferences, maxRetries);
  }

  /**
   The engine's loop over a staged file. It terminates for every provider: a retry either raises the
   retry count, below the limit, or leaves the job verifying, and the next pass rejects that.

   Success means that the provider verified the returned reference right after uploading it, that the
   job is completed and holds it, and that no check of the whole run saw the token cancelled. On
   every exit the staging file is gone unless removing it failed. At most max(1, limit - retries so
   far) uploads are made, and giving up on a retryable provider error leaves the count at the limit.
   */
  method ExecuteStagedUpload(job: TransferJob, staging: StagingFile, token: CancellationToken,
                             provider: Provider, queue: TransferQueue, maxRetries: nat, log: Log)
    returns (r: Result<M.StorageRef, TransferError>)
    requires queue.Valid() && staging.owned && !staging.removalFailed && log.events == []
    modifies job, staging, token, provider, log, queue
    ensures queue.Valid() && queue.tokens == old(queue.tokens) && Sound(log.events, token.cancelled)
    ensures !staging.removalFailed ==> !staging.present
    ensures old(token.cancelled) ==> token.cancelled && r == Err(TransferCancelled) && Answers(log.events) == []
    ensures Justified(Answers(log.events))
    ensures GaveUpRightly(Answers(log.events), log.events, r, job.retryCount, maxRetries)
    ensures r.Ok? ==>
              Delivered(r.value, job.Snapshot(), queue.jobs, log.events, staging.content,
                        provider.realReferences, old(provider.store), provider.store)
    ensures provider.realReferences ==> Keeps(old(provider.store), provider.store)
    ensures Uploads(log.events) <= Max(1, maxRetries - old(job.retryCount))
    ensures r.Err? && r.error.Storage? && Transient(r.error.storage) && old(job.retryCount) < maxRetries ==>
              && job.retryCount == maxRetries && job.state == Retrying
              && Uploads(log.events) == maxRetries - old(job.retryCount)
    ensures r.Err? ==>
              Explained(r.error, log.events, staging.removalFailed || staging.openFailed, Startable(old(job.state)))
  {
    ghost var first := Now(job, staging, token, provider, queue, log);
    var again := true;
    r := Err(TransferCancelled);
    LoopStarts(first, staging.content, provider.realReferences, maxRetries);
    while again
      invariant queue.Valid() && queue.tokens == old(queue.tokens)
      invariant Looping(first, Now(job, staging, token, provider, queue, log), again, r, staging.content, provider.realReferences, maxRetries)
      decreases again,
                (if job.retryCount < maxRetries then maxRetries - job.retryCount else 0),
                (if job.state == Verifying then 0 else 1)
    {
      ghost var b, was := Now(job, staging, token, provider, queue, log), r;
      LoopOffers(first, b, r, staging.content, provider.realReferences, maxRetries);
      again, r := OneRound(job, staging, token, provider, queue, maxRetries, log);
      LoopNext(first, b, Now(job, staging, token, provider, queue, log), was, again, r,
               staging.content, provider.realReferences, maxRetries);
    }
    LoopingIs(first, Now(job, staging, token, provider, queue, log), false, r, staging.content, provider.realReferences, maxRetries);
    if r.Err? {
      RetryableErrors(r.error);
    }
  }
}
