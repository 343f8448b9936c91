/** The states of a transfer job, its errors, and the cancellation token its workers share. */
module TransferState {
  import opened Wrappers
  import M = Manifest

  datatype State = Pending | Preparing | Transferring | Verifying | Completed | Failed | Retrying | Cancelled

  predicate CanTransition(from: State, to: State) {
    || from == to
    || match from
       case Pending => to in {Preparing, Cancelled, Failed}
       case Preparing => to in {Transferring, Failed, Cancelled}
       case Transferring => to in {Verifying, Completed, Retrying, Failed, Cancelled}
       case Verifying => to in {Completed, Retrying, Failed, Cancelled}
       case Retrying => to in {Preparing, Transferring, Failed, Cancelled}
       case Completed => false
       case Failed => false
       case Cancelled => false
  }

  predicate IsTerminal(s: State) {
    s in {Completed, Failed, Cancelled}
  }

  /** A job as the queue stores it. */
  datatype Job = Job(
    jobId: string,
    state: State,
    retryCount: nat,
    errorMessage: Option<TransferError>,
    storageReference: Option<M.StorageRef>,
    bytesTransferred: nat)

  datatype StorageError =
    | UploadFailed(uploadRetryable: bool)
    | DownloadFailed(downloadRetryable: bool)
    | ProviderUnavailable
    | TempStorage
    | OtherStorageError

  datatype IoKind = TimedOut | ConnectionReset | ConnectionAborted | Interrupted | OtherKind

  datatype TransferError =
    | InvalidStateTransition(from: State, to: State)
    | InvalidJob
    | Storage(storage: StorageError)
    | Io(kind: IoKind)
    | VerificationFailed
    | TransferCancelled

  predicate IsRetryable(e: TransferError) {
    match e
    case Storage(UploadFailed(r)) => r
    case Storage(DownloadFailed(r)) => r
    case Storage(ProviderUnavailable) => true
    case Io(kind) => kind != OtherKind
    case _ => false
  }

  predicate CanRetry(maxRetries: nat, attemptsSoFar: nat) {
    attemptsSoFar < maxRetries
  }

  /** The state after an attempted transition: one that is not allowed changes nothing. */
  function Attempt(s: State, to: State): State {
    if CanTransition(s, to) then to else s
  }

  function AttemptAll(s: State, tos: seq<State>): State
    decreases |tos|
  {
    if tos == [] then s else AttemptAll(Attempt(s, tos[0]), tos[1..])
  }

  /** A terminal state is never left, whatever sequence of transitions is attempted. */
  lemma {:induction false} TerminalIsFinal(s: State, tos: seq<State>)
    requires IsTerminal(s)
    ensures AttemptAll(s, tos) == s
  {
    if tos != [] {
      TerminalIsFinal(s, tos[1..]);
    }
  }

  /** All moves between different states. */
  lemma AllowedMoves(a: State, b: State)
    ensures CanTransition(a, b) <==> a == b || (a, b) in MOVES
  {
  }

  const MOVES: set<(State, State)> :=
    {(Pending, Preparing), (Pending, Cancelled), (Pending, Failed),
     (Preparing, Transferring), (Preparing, Failed), (Preparing, Cancelled),
     (Transferring, Verifying), (Transferring, Completed), (Transferring, Retrying),
     (Transferring, Failed), (Transferring, Cancelled),
     (Verifying, Completed), (Verifying, Retrying), (Verifying, Failed), (Verifying, Cancelled),
     (Retrying, Preparing), (Retrying, Transferring), (Retrying, Failed), (Retrying, Cancelled)}

  /** Whatever is attempted, a job that never started to transfer is not verified, retried or completed. */
  lemma {:induction false} NoCompletionWithoutTransfer(s: State, tos: seq<State>)
    requires s in {Pending, Preparing, Failed, Cancelled} && Transferring !in tos
    ensures AttemptAll(s, tos) in {Pending, Preparing, Failed, Cancelled}
    decreases |tos|
  {
    if tos != [] {
      assert tos[0] in tos;
      NoCompletionWithoutTransfer(Attempt(s, tos[0]), tos[1..]);
    }
  }

  /** Whatever is attempted, a pending job that was never prepared did not get anywhere. */
  lemma {:induction false} NoTransferWithoutPreparation(s: State, tos: seq<State>)
    requires s in {Pending, Failed, Cancelled} && Preparing !in tos
    ensures AttemptAll(s, tos) in {Pending, Failed, Cancelled}
    decreases |tos|
  {
    if tos != [] {
      assert tos[0] in tos;
      NoTransferWithoutPreparation(Attempt(s, tos[0]), tos[1..]);
    }
  }

  /** Storage errors worth another attempt: a failed upload or download marked so, or no provider. */
  predicate Transient(e: StorageError) {
    e in {UploadFailed(true), DownloadFailed(true), ProviderUnavailable}
  }

  /** Retryable are exactly the transient storage errors and four kinds of interrupted input or output. */
  lemma RetryableErrors(e: TransferError)
    ensures IsRetryable(e) <==>
              || (e.Storage? && Transient(e.storage))
              || (e.Io? && e.kind in {TimedOut, ConnectionReset, ConnectionAborted, Interrupted})
  {
  }
}
