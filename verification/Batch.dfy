/** The value types of a batch call and the pure decisions `MemoryService.batch` takes about its result. */
module Batch {
  datatype ErrorCode =
    | InvalidInput | SnapshotInvalid | ScopeEscapesRoot | NotFound | Conflict | LockTimeout | IoError
    | LlmError | ProviderTimeout | EncryptedNoKey | RateLimited | RequestTimeout | ServiceUnavailable
    | QueueFull | QueueClosed | SensitiveData | InjectionDetected | TenantRequired | Internal

  datatype Operation = Store | Update | Delete | Export | Search
  {
    predicate Mutating() { Store? || Update? || Delete? }

    /** The label under which the ledger binds a key to an operation. */
    function Name(): string {
      match this
      case Store => "store"
      case Update => "update"
      case Delete => "delete"
      case Export => "export"
      case Search => "search"
    }
  }

  datatype Request = Request(operation: Operation, items: nat, body: string)

  datatype Outcome = Succeeded(text: string) | Failed(code: ErrorCode, message: string)

  datatype Idempotency = Unsupported | ReadOnly | Stored | Replayed

  datatype BatchResult = BatchResult(
    operation: Operation,
    requested: nat, succeeded: nat, failed: nat,
    results: seq<Outcome>,
    idempotency: Idempotency)

  const MAX_BATCH_ITEMS := 100
  const MAX_OUTCOME_TEXT := 2048

  function CountSucceeded(results: seq<Outcome>): (n: nat)
    ensures n <= |results|
    ensures n == |results| <==> forall i :: 0 <= i < |results| ==> results[i].Succeeded?
  {
    if results == [] then 0
    else
      var rest := CountSucceeded(results[..|results| - 1]);
      if results[|results| - 1].Succeeded? then rest + 1 else rest
  }

  /** The per-item response of a mutating batch. */
  function Summarize(operation: Operation, results: seq<Outcome>): BatchResult {
    var succeeded := CountSucceeded(results);
    BatchResult(operation, |results|, succeeded, |results| - succeeded, results, Unsupported)
  }

  predicate WellFormedOutcome(outcome: Outcome) {
    match outcome
    case Succeeded(text) => |text| <= MAX_OUTCOME_TEXT
    case Failed(_, message) => |message| <= MAX_OUTCOME_TEXT
  }

  /** `isBatchResult` for a keyed mutation: what may be persisted and what may be replayed. */
  predicate IsBatchResult(result: BatchResult, operation: Operation, count: nat) {
    && result.operation == operation
    && result.operation.Mutating()
    && result.idempotency == Stored
    && 1 <= result.requested <= MAX_BATCH_ITEMS
    && result.succeeded + result.failed == result.requested
    && result.requested == count
    && |result.results| == result.requested
    && (forall i :: 0 <= i < |result.results| ==> WellFormedOutcome(result.results[i]))
    && CountSucceeded(result.results) == result.succeeded
    && (forall i :: 0 <= i < |result.results| ==> result.results[i].Succeeded?)
  }

  predicate HasUnresolvedFailure(operation: Operation, results: seq<Outcome>) {
    operation.Mutating() && exists i :: 0 <= i < |results| && results[i].Failed?
  }

  predicate Releasable(code: ErrorCode) {
    code == NotFound || code == Conflict || code == InvalidInput
  }

  predicate ClaimCanBeReleased(operation: Operation, results: seq<Outcome>) {
    && operation.Mutating()
    && |results| > 0
    && forall i :: 0 <= i < |results| ==> results[i].Failed? && Releasable(results[i].code)
  }

  /** An item whose failure proves that it wrote nothing. */
  predicate WroteNothing(outcome: Outcome) {
    outcome.Failed? && (outcome.code.NotFound? || outcome.code.Conflict? || outcome.code.InvalidInput?)
  }

  /** The batch may be persisted: nothing failed, and every text is short enough. */
  predicate AllDone(results: seq<Outcome>) {
    forall i :: 0 <= i < |results| ==> results[i].Succeeded? && |results[i].text| <= 2048
  }

  function SucceededItems(results: seq<Outcome>): set<nat> {
    set i: nat | i < |results| && results[i].Succeeded?
  }

  /** The count is the number of items that succeeded. */
  lemma {:induction false} SucceededAreCounted(results: seq<Outcome>)
    ensures CountSucceeded(results) == |SucceededItems(results)|
  {
    if results == [] {
    } else {
      var last := |results| - 1;
      SucceededAreCounted(results[..last]);
      if results[last].Succeeded? {
        assert SucceededItems(results) == SucceededItems(results[..last]) + {last};
      } else {
        assert SucceededItems(results) == SucceededItems(results[..last]);
      }
    }
  }

  /**
   * A keyed batch is persisted, released or left in progress, and never two of these. It is released
   * exactly when it has items and every one failed with NOT_FOUND, CONFLICT or INVALID_INPUT; it is left
   * in progress exactly when some item failed while some item succeeded or failed with another code.
   */
  lemma SettlementIsExclusive(operation: Operation, results: seq<Outcome>)
    requires operation.Store? || operation.Update? || operation.Delete?
    ensures ClaimCanBeReleased(operation, results) ==> HasUnresolvedFailure(operation, results)
    ensures ClaimCanBeReleased(operation, results) <==>
              && results != []
              && forall i :: 0 <= i < |results| ==>
                   results[i].Failed? && results[i].code in {NotFound, Conflict, InvalidInput}
    ensures (HasUnresolvedFailure(operation, results) && !ClaimCanBeReleased(operation, results)) <==> (
              && (exists i :: 0 <= i < |results| && results[i].Failed?)
              && (exists i :: 0 <= i < |results| && !WroteNothing(results[i])))
    ensures !HasUnresolvedFailure(operation, results) <==> Summarize(operation, results).failed == 0
  {
    if ClaimCanBeReleased(operation, results) {
      assert results[0].Failed?;
    }
  }

  /**
   * Which results may be stored, and replayed: those of a write whose requested items all succeeded,
   * between one and a hundred, with short texts and with the counts to match.
   */
  lemma StoredExactlyWhen(result: BatchResult, operation: Operation, items: nat)
    ensures IsBatchResult(result, operation, items) <==>
              && result == BatchResult(operation, items, items, 0, result.results, Stored)
              && (operation.Store? || operation.Update? || operation.Delete?)
              && |result.results| == items && 1 <= items <= 100 && AllDone(result.results)
  {
    var results := result.results;
    if AllDone(results) {
      assert CountSucceeded(results) == |results|;
      assert forall i :: 0 <= i < |results| ==> WellFormedOutcome(results[i]);
    }
  }

  /** What is put together for an execution in which nothing failed. */
  lemma SummaryOfSuccess(operation: Operation, results: seq<Outcome>)
    requires forall i :: 0 <= i < |results| ==> results[i].Succeeded?
    ensures Summarize(operation, results) == BatchResult(operation, |results|, |results|, 0, results, Unsupported)
  {
    assert CountSucceeded(results) == |results|;
  }

  /** A read has nothing to settle. */
  lemma ReadsAreNotSettled(operation: Operation, results: seq<Outcome>)
    requires operation.Export? || operation.Search?
    ensures !HasUnresolvedFailure(operation, results) && !ClaimCanBeReleased(operation, results)
  {
  }
}
