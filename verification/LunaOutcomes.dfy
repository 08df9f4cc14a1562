/** What a ledger transition accepts and what it leaves behind, in terms of record fields alone. */
module LunaOutcomes {
  import opened Wrappers
  import opened LunaQueue
  import opened LunaResponse
  import opened LunaLedger

  /** Every record but `i` is as before. */
  predicate OnlyChanges(before: Ledger, after: Ledger, i: nat) {
    && |after.records| == |before.records| && after.queueSha == before.queueSha
    && forall k :: 0 <= k < |before.records| && k != i ==> after.records[k] == before.records[k]
  }

  /** The record of a job, in a valid ledger. */
  lemma {:induction false} RecordAt(ledger: Ledger, queue: Queue, i: nat)
    requires ValidLedger(ledger, queue) && i < |ledger.records|
    ensures IndexOf(ledger.records, ledger.records[i].jobId) == Some(i)
    ensures JobIndex(queue.jobs, ledger.records[i].jobId).Some?
    ensures forall j :: 0 <= j < |queue.jobs| && queue.jobs[j].jobId == ledger.records[i].jobId ==>
      JobIndex(queue.jobs, ledger.records[i].jobId) == Some(j)
  {
    hide QueueAccepted, RecordOk;
    assert InQueue(ledger.records[i], queue);
    assert DistinctRecords(ledger.records);
    IdsAreDistinct(ledger, queue);
  }

  lemma {:induction false} IdsAreDistinct(ledger: Ledger, queue: Queue)
    requires ValidLedger(ledger, queue)
    ensures DistinctIds(queue.jobs)
  {
    hide JobAdmitted, ContiguousOrder;
  }

  lemma {:induction false} CompletedHasOutputs(ledger: Ledger, queue: Queue, i: nat)
    requires ValidLedger(ledger, queue) && i < |ledger.records| && ledger.records[i].status == Completed
    ensures ledger.records[i].outputs.Some?
  {
    assert RecordOk(ledger.records[i]);
  }

  // ----- Completions -----

  /** A completion of the job of record `i` is accepted exactly when its response is admissible for
      the job and the record is completed with this response or leased to this worker under this
      token. Afterwards the record is completed with this response. */
  lemma {:induction false} CompletionAcceptedIff(ledger: Ledger, queue: Queue, i: nat, worker: string,
                                                 token: LeaseToken, response: Response)
    requires ValidLedger(ledger, queue) && i < |ledger.records|
    ensures var record := ledger.records[i];
      var stepped := Step(ledger, queue, CompleteOp(record.jobId, worker, token, response));
      var digest := PayloadDigest(ResponsePayload(response));
      && (stepped.Success? <==>
            && (exists j :: 0 <= j < |queue.jobs| && queue.jobs[j].jobId == record.jobId
                         && Admissible(response, queue.jobs[j]))
            && (|| (&& record.status == Completed
                    && record.outputs.Some? && record.outputs.value.responseSha == digest)
                || (&& record.status == Leased
                    && record.workerId == Some(worker) && record.leaseToken == Some(token))))
      && (stepped.Success? && record.status == Completed ==> stepped.value == ledger)
      && (stepped.Success? && record.status == Leased ==>
            && response.structured.Some?
            && OnlyChanges(ledger, stepped.value, i)
            && stepped.value.records[i] == record.(
                 status := Completed, lastError := None,
                 outputs := Some(Outputs(
                   ResponsePath(record.jobId, digest), digest,
                   StructuredPath(record.jobId, PayloadDigest(StructuredPayload(response.structured.value))),
                   PayloadDigest(StructuredPayload(response.structured.value))))))
  {
    hide ValidLedger, PagesBound;
    RecordAt(ledger, queue, i);
    if ledger.records[i].status == Completed {
      CompletedHasOutputs(ledger, queue, i);
    }
  }

  /** The record of the job is completed with the response. */
  predicate CompletedWith(records: seq<Record>, jobId: JobId, response: Response) {
    exists i :: 0 <= i < |records| && records[i].jobId == jobId && records[i].status == Completed
             && records[i].outputs.Some?
             && records[i].outputs.value.responseSha == PayloadDigest(ResponsePayload(response))
  }

  lemma {:induction false} AcceptedIsCompleted(ledger: Ledger, queue: Queue, op: Op)
    requires op.CompleteOp? && Step(ledger, queue, op).Success?
    ensures CompletedWith(Step(ledger, queue, op).value.records, op.jobId, op.response)
  {
    hide ValidLedger, Admissible;
    var i := IndexOf(ledger.records, op.jobId).value;
    CompletionAcceptedIff(ledger, queue, i, op.worker, op.token, op.response);
    assert Step(ledger, queue, op).value.records[i].jobId == op.jobId;
  }

  /** The record of the job failed for this reason. */
  predicate FailedWith(records: seq<Record>, jobId: JobId, error: string) {
    exists i :: 0 <= i < |records|
             && records[i].jobId == jobId && records[i].status == Failed && records[i].lastError == Some(error)
  }

  /** The record of the job is pending, and nobody's. */
  predicate IsPending(records: seq<Record>, jobId: JobId) {
    exists i :: 0 <= i < |records| && records[i].jobId == jobId && records[i].status == Pending
  }

  lemma {:induction false} AcceptedIsFailed(ledger: Ledger, queue: Queue, op: Op)
    requires op.FailOp? && Step(ledger, queue, op).Success?
    ensures FailedWith(Step(ledger, queue, op).value.records, op.jobId, op.error)
  {
    hide ValidLedger;
    var i := IndexOf(ledger.records, op.jobId).value;
    FailureAcceptedIff(ledger, queue, i, op.worker, op.token, op.error);
    assert Step(ledger, queue, op).value.records[i].jobId == op.jobId;
  }

  lemma {:induction false} AcceptedIsPending(ledger: Ledger, queue: Queue, op: Op)
    requires (op.RequeueOp? || op.ReclaimOp?) && Step(ledger, queue, op).Success?
    ensures IsPending(Step(ledger, queue, op).value.records, op.jobId)
  {
    hide ValidLedger;
    var i := IndexOf(ledger.records, op.jobId).value;
    ReturnAcceptedIff(ledger, queue, i);
    assert Step(ledger, queue, op).value.records[i].jobId == op.jobId;
  }

  // ----- Failures and returns -----

  /** A failure is accepted exactly with a reason, on a record failed for this very reason or leased
      to this worker under this token. */
  lemma {:induction false} FailureAcceptedIff(ledger: Ledger, queue: Queue, i: nat, worker: string,
                                              token: LeaseToken, error: string)
    requires ValidLedger(ledger, queue) && i < |ledger.records|
    ensures var record := ledger.records[i];
      var stepped := Step(ledger, queue, FailOp(record.jobId, worker, token, error));
      && (stepped.Success? <==>
            && error != ""
            && (|| (record.status == Failed && record.lastError == Some(error))
                || (&& record.status == Leased
                    && record.workerId == Some(worker) && record.leaseToken == Some(token))))
      && (stepped.Success? && record.status == Failed ==> stepped.value == ledger)
      && (stepped.Success? && record.status == Leased ==>
            && OnlyChanges(ledger, stepped.value, i)
            && stepped.value.records[i] == record.(status := Failed, lastError := Some(error)))
  {
    hide ValidLedger;
    RecordAt(ledger, queue, i);
  }

  /** A requeue is accepted exactly on a failed record, a reclaim exactly on a leased one, and both
      on a pending one; the attempts stay counted and the last error stays readable. */
  lemma {:induction false} ReturnAcceptedIff(ledger: Ledger, queue: Queue, i: nat)
    requires ValidLedger(ledger, queue) && i < |ledger.records|
    ensures var record := ledger.records[i];
      var requeued, reclaimed :=
        Step(ledger, queue, RequeueOp(record.jobId)), Step(ledger, queue, ReclaimOp(record.jobId));
      && (requeued.Success? <==> record.status == Failed || record.status == Pending)
      && (reclaimed.Success? <==> record.status == Leased || record.status == Pending)
      && (record.status == Pending ==> requeued.value == reclaimed.value == ledger)
      && (record.status == Failed || record.status == Leased ==>
            var after := if record.status == Failed then requeued.value else reclaimed.value;
            && OnlyChanges(ledger, after, i)
            && after.records[i] == record.(status := Pending, workerId := None, leaseToken := None))
  {
    hide ValidLedger;
    RecordAt(ledger, queue, i);
  }

  /** Operations on a job without a record are refused, and so is everything on an invalid ledger. */
  lemma {:induction false} StrangersRefused(ledger: Ledger, queue: Queue, op: Op)
    requires || !ValidLedger(ledger, queue)
             || (!op.ClaimOp? && forall i :: 0 <= i < |ledger.records| ==> ledger.records[i].jobId != op.jobId)
    ensures Step(ledger, queue, op).Failure?
  {
    hide ValidLedger;
  }

  // ----- Claims -----

  /** The pending records before record `n`. */
  function PendingBefore(records: seq<Record>, n: nat): set<nat>
    requires n <= |records|
  {
    set k: nat | k < n && records[k].status == Pending
  }

  lemma {:induction false} SizeStep(now: set<nat>, before: set<nat>, n: nat, added: bool)
    requires forall k: nat :: k in now <==> k in before || (k == n && added)
    requires n !in before
    ensures |now| == |before| + if added then 1 else 0
  {
    assert now == if added then before + {n} else before;
  }

  lemma {:induction false} CountIsSize(records: seq<Record>, n: nat, status: Status)
    requires n <= |records|
    ensures Count(records[..n], status) == |set k: nat | k < n && records[k].status == status|
  {
    var now := set k: nat | k < n && records[k].status == status;
    if n > 0 {
      CountIsSize(records, n - 1, status);
      assert records[..n][..n - 1] == records[..n - 1];
      var before := set k: nat | k < n - 1 && records[k].status == status;
      SizeStep(now, before, n - 1, records[n - 1].status == status);
    } else {
      assert now == {};
    }
  }

  /** The summary of a valid ledger counts its records by status. */
  lemma {:induction false} SummaryCounts(ledger: Ledger, queue: Queue)
    requires ValidLedger(ledger, queue)
    ensures var records := ledger.records;
      && ledger.summary.jobs == |records|
      && ledger.summary.pending == |set k: nat | k < |records| && records[k].status == Pending|
      && ledger.summary.leased == |set k: nat | k < |records| && records[k].status == Leased|
      && ledger.summary.completed == |set k: nat | k < |records| && records[k].status == Completed|
      && ledger.summary.failed == |set k: nat | k < |records| && records[k].status == Failed|
  {
    hide Count, QueueAccepted;
    assert ledger.records[..|ledger.records|] == ledger.records;
    CountIsSize(ledger.records, |ledger.records|, Pending);
    CountIsSize(ledger.records, |ledger.records|, Leased);
    CountIsSize(ledger.records, |ledger.records|, Completed);
    CountIsSize(ledger.records, |ledger.records|, Failed);
  }

  /** A claim is accepted exactly for a named worker and a positive number; it leases a record
      exactly if it is pending and fewer than that many pending records come before it. */
  lemma {:induction false} ClaimAcceptedIff(ledger: Ledger, queue: Queue, worker: string, maxWorkers: int)
    requires ValidLedger(ledger, queue)
    ensures var stepped := Step(ledger, queue, ClaimOp(worker, maxWorkers));
      && (stepped.Success? <==> worker != "" && maxWorkers >= 1)
      && (stepped.Success? ==>
            && |stepped.value.records| == |ledger.records| && stepped.value.queueSha == ledger.queueSha
            && forall i :: 0 <= i < |ledger.records| ==>
                 var record := ledger.records[i];
                 stepped.value.records[i] ==
                   if record.status == Pending && |PendingBefore(ledger.records, i)| < maxWorkers
                   then record.(
                     status := Leased, workerId := Some(worker), attempts := record.attempts + 1, lastError := None,
                     leaseToken := Some(LeaseToken(QueueDigest(queue), record.jobId, worker, record.attempts + 1)))
                   else record)
  {
    hide Count, RecordOk, InQueue, DistinctRecords, QueueAccepted;
    if worker != "" && maxWorkers >= 1 {
      forall i | 0 <= i < |ledger.records|
        ensures Count(ledger.records[..i], Pending) == |PendingBefore(ledger.records, i)|
      {
        CountIsSize(ledger.records, i, Pending);
      }
    }
  }

  /** The claims a worker is handed, and the previewed IDs: the k-th pending record is the k-th of
      both, up to the number asked for. */
  lemma {:induction false} ClaimsAreListed(records: seq<Record>, i: nat, worker: string, maxWorkers: int,
                                           queueSha: QueueDigest)
    requires i < |records| && records[i].status == Pending && |PendingBefore(records, i)| < maxWorkers
    ensures var k, record := |PendingBefore(records, i)|, records[i];
      && k < |ClaimsOn(records, worker, maxWorkers, queueSha)|
      && ClaimsOn(records, worker, maxWorkers, queueSha)[k]
         == Claim(record.jobId, record.chunkOrder, worker, record.attempts + 1,
                  LeaseToken(queueSha, record.jobId, worker, record.attempts + 1))
      && k < |FirstPending(records, maxWorkers)| && FirstPending(records, maxWorkers)[k] == record.jobId
    decreases |records|
  {
    hide Count;
    CountIsSize(records, i, Pending);
    var last := |records| - 1;
    assert records[..last][..i] == records[..i];
    if i < last {
      assert PendingBefore(records[..last], i) == PendingBefore(records, i);
      ClaimsAreListed(records[..last], i, worker, maxWorkers, queueSha);
    } else {
      ClaimCount(records[..last], worker, maxWorkers, queueSha);
    }
  }

  /** No more are handed out than are pending or asked for. */
  lemma {:induction false} ClaimsAreCounted(records: seq<Record>, worker: string, maxWorkers: nat,
                                            queueSha: QueueDigest)
    ensures var pending := |PendingBefore(records, |records|)|;
      && |ClaimsOn(records, worker, maxWorkers, queueSha)| == (if pending <= maxWorkers then pending else maxWorkers)
      && |FirstPending(records, maxWorkers)| == (if pending <= maxWorkers then pending else maxWorkers)
  {
    hide Count, ClaimsOn, FirstPending;
    assert records[..|records|] == records;
    CountIsSize(records, |records|, Pending);
    ClaimCount(records, worker, maxWorkers, queueSha);
  }
}
