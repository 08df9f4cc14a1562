/** Whole runs of ledger operations: every record keeps the history of its state changes, and
    the history explains the record (lease fencing, attempt accounting, finality). */
module LunaHistory {
  import opened Wrappers
  import opened LunaQueue
  import opened LunaResponse
  import opened LunaLedger

  /** One state change of one record. Finishing and failing record the token presented. */
  datatype Event =
    | Claimed(token: LeaseToken)
    | Finished(token: LeaseToken)
    | Errored(token: LeaseToken)
    | Requeued
    | Reclaimed

  /** How an operation may move a single record. */
  datatype Move = Stays | Moves(event: Event)

  function MoveOf(before: Record, after: Record, op: Op): Move {
    if before == after then Stays
    else match op
      case ClaimOp(_, _) => if after.leaseToken.Some? then Moves(Claimed(after.leaseToken.value)) else Stays
      case CompleteOp(_, _, token, _) => Moves(Finished(token))
      case FailOp(_, _, token, _) => Moves(Errored(token))
      case RequeueOp(_) => Moves(Requeued)
      case ReclaimOp(_) => Moves(Reclaimed)
  }

  function Extend(history: seq<Event>, move: Move): seq<Event> {
    if move.Stays? then history else history + [move.event]
  }

  /** A ledger with, for each record, the state changes it went through. */
  datatype Run = Run(ledger: Ledger, histories: seq<seq<Event>>)

  /** Operations applied in order to the initial ledger; a refused one changes nothing. */
  function RunOf(queue: Queue, ops: seq<Op>): (run: Run)
    ensures |run.histories| == |run.ledger.records| == |queue.jobs|
  {
    if ops == [] then Run(InitialLedger(queue), seq(|queue.jobs|, _ => []))
    else Advance(RunOf(queue, ops[..|ops| - 1]), queue, ops[|ops| - 1])
  }

  function Advance(run: Run, queue: Queue, op: Op): (after: Run)
    requires |run.histories| == |run.ledger.records|
    ensures |after.histories| == |after.ledger.records| == |run.histories|
  {
    hide ValidLedger;
    var r := Step(run.ledger, queue, op);
    if r.Failure? then run
    else
      var histories := seq(|run.histories|, i requires 0 <= i < |run.histories| =>
        Extend(run.histories[i], MoveOf(run.ledger.records[i], r.value.records[i], op)));
      Run(r.value, histories)
  }

  function Claims(h: seq<Event>): nat {
    if h == [] then 0 else Claims(h[..|h| - 1]) + if h[|h| - 1].Claimed? then 1 else 0
  }

  function Setbacks(h: seq<Event>): nat {
    if h == [] then 0
    else Setbacks(h[..|h| - 1]) + if h[|h| - 1].Errored? || h[|h| - 1].Reclaimed? then 1 else 0
  }

  /** The status a history leads to. */
  function StatusAfter(h: seq<Event>): Status {
    if h == [] then Pending
    else match h[|h| - 1]
      case Claimed(_) => Leased
      case Finished(_) => Completed
      case Errored(_) => Failed
      case Requeued => Pending
      case Reclaimed => Pending
  }

  /** Event `k` may follow what came before it: claims carry the running attempt number, work is
      closed only right after the claim that opened it and with that claim's token. */
  predicate EventInOrder(h: seq<Event>, k: nat, jobId: JobId, queueSha: QueueDigest)
    requires k < |h|
  {
    match h[k]
    case Claimed(token) =>
      && StatusAfter(h[..k]) == Pending
      && token == LeaseToken(queueSha, jobId, token.workerId, Claims(h[..k]) + 1)
    case Finished(token) => k > 0 && h[k - 1] == Claimed(token)
    case Errored(token) => k > 0 && h[k - 1] == Claimed(token)
    case Requeued => k > 0 && h[k - 1].Errored?
    case Reclaimed => k > 0 && h[k - 1].Claimed?
  }

  predicate InOrder(h: seq<Event>, jobId: JobId, queueSha: QueueDigest) {
    forall k :: 0 <= k < |h| ==> EventInOrder(h, k, jobId, queueSha)
  }

  /** The record is what its history says. */
  predicate Explains(h: seq<Event>, record: Record, queueSha: QueueDigest) {
    && InOrder(h, record.jobId, queueSha)
    && record.status == StatusAfter(h)
    && record.attempts == Claims(h)
    && (record.status == Leased ==>
          && record.leaseToken == Some(h[|h| - 1].token)
          && record.workerId == Some(h[|h| - 1].token.workerId))
  }

  // ----- One step -----

  /** The only ways an accepted operation changes a record. */
  predicate LegalMove(before: Record, after: Record, op: Op, queueSha: QueueDigest) {
    after == before ||
    match op
    case ClaimOp(worker, _) => before.status == Pending && after == LeaseTo(before, worker, queueSha)
    case CompleteOp(jobId, worker, token, response) =>
      && before.jobId == jobId && HoldsLease(before, worker, token)
      && after.status == Completed && response.structured.Some?
      && after == before.(status := Completed, outputs := Some(OutputsFor(jobId, response)), lastError := None)
    case FailOp(jobId, worker, token, error) =>
      && before.jobId == jobId && HoldsLease(before, worker, token)
      && after == before.(status := Failed, lastError := Some(error))
    case RequeueOp(jobId) =>
      && before.jobId == jobId && before.status == Failed
      && after == before.(status := Pending, workerId := None, leaseToken := None)
    case ReclaimOp(jobId) =>
      && before.jobId == jobId && before.status == Leased
      && after == before.(status := Pending, workerId := None, leaseToken := None)
  }

  lemma {:induction false} StepMovesLegally(ledger: Ledger, queue: Queue, op: Op)
    requires Step(ledger, queue, op).Success?
    ensures var after := Step(ledger, queue, op).value;
      && after.queueSha == ledger.queueSha
      && |after.records| == |ledger.records|
      && forall i :: 0 <= i < |ledger.records| ==>
           LegalMove(ledger.records[i], after.records[i], op, ledger.queueSha)
  {
    hide ValidLedger;
  }

  lemma {:induction false} MoveExplained(h: seq<Event>, before: Record, after: Record, op: Op, queueSha: QueueDigest)
    requires Explains(h, before, queueSha)
    requires LegalMove(before, after, op, queueSha)
    ensures Explains(Extend(h, MoveOf(before, after, op)), after, queueSha)
  {
    if before != after {
      var event := MoveOf(before, after, op).event;
      var longer := h + [event];
      assert longer[..|h|] == h;
      forall k | 0 <= k < |longer|
        ensures EventInOrder(longer, k, after.jobId, queueSha)
      {
        assert longer[..k] == if k < |h| then h[..k] else h;
        if k < |h| {
          assert EventInOrder(h, k, before.jobId, queueSha);
        }
      }
    }
  }

  /** For every run: each record is exactly what its history says, and the ledger is valid. */
  lemma {:induction false} RunExplained(queue: Queue, ops: seq<Op>)
    requires QueueAccepted(queue)
    ensures var run := RunOf(queue, ops);
      && ValidLedger(run.ledger, queue)
      && forall i :: 0 <= i < |run.histories| ==>
           && run.ledger.records[i].jobId == queue.jobs[i].jobId
           && Explains(run.histories[i], run.ledger.records[i], QueueDigest(queue))
  {
    hide Step, QueueAccepted, ValidLedger;
    if ops == [] {
      InitialLedgerValid(queue);
    } else {
      var last := |ops| - 1;
      RunExplained(queue, ops[..last]);
      AdvanceExplained(RunOf(queue, ops[..last]), queue, ops[last]);
    }
  }

  lemma {:induction false} AdvanceExplained(run: Run, queue: Queue, op: Op)
    requires |run.histories| == |run.ledger.records| == |queue.jobs|
    requires ValidLedger(run.ledger, queue)
    requires forall i :: 0 <= i < |run.histories| ==>
      && run.ledger.records[i].jobId == queue.jobs[i].jobId
      && Explains(run.histories[i], run.ledger.records[i], QueueDigest(queue))
    ensures var after := Advance(run, queue, op);
      && ValidLedger(after.ledger, queue)
      && forall i :: 0 <= i < |after.histories| ==>
           && after.ledger.records[i].jobId == queue.jobs[i].jobId
           && Explains(after.histories[i], after.ledger.records[i], QueueDigest(queue))
  {
    hide Step, ValidLedger, Explains;
    if Step(run.ledger, queue, op).Success? {
      StepValid(run.ledger, queue, op);
      StepMovesLegally(run.ledger, queue, op);
      var after := Advance(run, queue, op);
      forall i | 0 <= i < |after.histories|
        ensures after.ledger.records[i].jobId == queue.jobs[i].jobId
        ensures Explains(after.histories[i], after.ledger.records[i], QueueDigest(queue))
      {
        assert LegalMove(run.ledger.records[i], after.ledger.records[i], op, run.ledger.queueSha);
        MoveExplained(run.histories[i], run.ledger.records[i], after.ledger.records[i], op, QueueDigest(queue));
      }
    }
  }

  // ----- What the histories say over whole runs -----

  lemma {:induction false} ClaimsMonotone(h: seq<Event>, a: nat, b: nat)
    requires a <= b <= |h|
    ensures Claims(h[..a]) <= Claims(h[..b])
    decreases b
  {
    if a < b {
      ClaimsMonotone(h, a, b - 1);
      assert h[..b][..b - 1] == h[..b - 1];
    }
  }

  /** Lease tokens of one job are pairwise distinct over any run, and no two jobs share one. */
  lemma {:induction false} TokensNeverRepeat(queue: Queue, ops: seq<Op>, i: nat, a: nat, j: nat, b: nat)
    requires QueueAccepted(queue)
    requires i < |queue.jobs| && j < |queue.jobs|
    requires a < |RunOf(queue, ops).histories[i]| && RunOf(queue, ops).histories[i][a].Claimed?
    requires b < |RunOf(queue, ops).histories[j]| && RunOf(queue, ops).histories[j][b].Claimed?
    ensures RunOf(queue, ops).histories[i][a].token == RunOf(queue, ops).histories[j][b].token
      <==> (i == j && a == b)
  {
    RunExplained(queue, ops);
    var run := RunOf(queue, ops);
    var hi, hj := run.histories[i], run.histories[j];
    assert EventInOrder(hi, a, run.ledger.records[i].jobId, QueueDigest(queue));
    assert EventInOrder(hj, b, run.ledger.records[j].jobId, QueueDigest(queue));
    if i == j && a < b {
      EarlierClaimCountsLess(hi, a, b);
    } else if i == j && b < a {
      EarlierClaimCountsLess(hi, b, a);
    } else if i != j {
      assert queue.jobs[i].jobId != queue.jobs[j].jobId;
    }
  }

  lemma {:induction false} EarlierClaimCountsLess(h: seq<Event>, a: nat, b: nat)
    requires a < b < |h| && h[a].Claimed?
    ensures Claims(h[..a]) < Claims(h[..b])
  {
    assert h[..a + 1][..a] == h[..a];
    ClaimsMonotone(h, a + 1, b);
  }

  /** Fencing: an accepted completion or failure that changes a record presents the token of the
      job's latest claim, and nothing - no reclaim, no other outcome - happened since. */
  lemma {:induction false} StateChangesNeedTheLatestLease(queue: Queue, ops: seq<Op>, op: Op, i: nat)
    requires QueueAccepted(queue) && i < |queue.jobs|
    requires op.CompleteOp? || op.FailOp?
    requires Step(RunOf(queue, ops).ledger, queue, op).Success?
    requires Step(RunOf(queue, ops).ledger, queue, op).value.records[i] != RunOf(queue, ops).ledger.records[i]
    ensures RunOf(queue, ops).histories[i] != []
    ensures var h := RunOf(queue, ops).histories[i]; h[|h| - 1] == Claimed(op.token)
    ensures op.worker == op.token.workerId && op.jobId == queue.jobs[i].jobId
  {
    hide Step, QueueAccepted, ValidLedger;
    RunExplained(queue, ops);
    var run := RunOf(queue, ops);
    StepMovesLegally(run.ledger, queue, op);
    var after := Step(run.ledger, queue, op).value;
    assert LegalMove(run.ledger.records[i], after.records[i], op, run.ledger.queueSha);
    assert Explains(run.histories[i], run.ledger.records[i], QueueDigest(queue));
    assert run.ledger.records[i].status == Leased;
    var h := run.histories[i];
    assert StatusAfter(h) == Leased;
    assert h[|h| - 1].Claimed?;
  }

  /** Completed is final: no later operation touches the record. */
  lemma {:induction false} CompletedIsFinal(queue: Queue, ops: seq<Op>, n: nat, i: nat)
    requires n <= |ops| && i < |queue.jobs|
    requires RunOf(queue, ops[..n]).ledger.records[i].status == Completed
    ensures RunOf(queue, ops).ledger.records[i] == RunOf(queue, ops[..n]).ledger.records[i]
    decreases |ops|
  {
    hide Step;
    if n == |ops| {
      assert ops[..n] == ops;
    } else {
      var last := |ops| - 1;
      assert ops[..last][..n] == ops[..n];
      CompletedIsFinal(queue, ops[..last], n, i);
      CompletedStays(RunOf(queue, ops[..last]), queue, ops[last], i);
    }
  }

  lemma {:induction false} CompletedStays(run: Run, queue: Queue, op: Op, i: nat)
    requires |run.histories| == |run.ledger.records| && i < |run.histories|
    requires run.ledger.records[i].status == Completed
    ensures Advance(run, queue, op).ledger.records[i] == run.ledger.records[i]
  {
    hide Step;
    if Step(run.ledger, queue, op).Success? {
      StepMovesLegally(run.ledger, queue, op);
      assert LegalMove(run.ledger.records[i], Step(run.ledger, queue, op).value.records[i], op, run.ledger.queueSha);
    }
  }

  lemma {:induction false} EveryClaimIsClosed(h: seq<Event>, jobId: JobId, queueSha: QueueDigest)
    requires InOrder(h, jobId, queueSha)
    ensures Claims(h) == Setbacks(h) + if StatusAfter(h) == Leased || StatusAfter(h) == Completed then 1 else 0
  {
    if h != [] {
      var last := |h| - 1;
      var shorter := h[..last];
      forall k | 0 <= k < last
        ensures EventInOrder(shorter, k, jobId, queueSha)
      {
        assert EventInOrder(h, k, jobId, queueSha);
        assert shorter[..k] == h[..k];
      }
      EveryClaimIsClosed(shorter, jobId, queueSha);
      assert EventInOrder(h, last, jobId, queueSha);
    }
  }

  /** Attempt accounting: attempts = failures + reclaims + 1 if leased or completed. */
  lemma {:induction false} AttemptsAreAccountedFor(queue: Queue, ops: seq<Op>, i: nat)
    requires QueueAccepted(queue) && i < |queue.jobs|
    ensures var run := RunOf(queue, ops);
      run.ledger.records[i].attempts
      == Setbacks(run.histories[i])
         + if run.ledger.records[i].status == Leased || run.ledger.records[i].status == Completed then 1 else 0
  {
    RunExplained(queue, ops);
    var run := RunOf(queue, ops);
    assert Explains(run.histories[i], run.ledger.records[i], QueueDigest(queue));
    EveryClaimIsClosed(run.histories[i], run.ledger.records[i].jobId, QueueDigest(queue));
  }

  // ----- Completed records carry an admissible response -----

  /** A completed record points at both outputs of one response its job admits. */
  predicate Attested(record: Record, job: Job) {
    record.status == Completed ==>
      && record.outputs.Some?
      && record.outputs.value.responseSha.payload.ResponsePayload?
      && Admissible(ResponseOf(record), job)
      && record.outputs.value == OutputsFor(record.jobId, ResponseOf(record))
  }

  function ResponseOf(record: Record): Response
    requires record.outputs.Some? && record.outputs.value.responseSha.payload.ResponsePayload?
  {
    record.outputs.value.responseSha.payload.response
  }

  lemma {:induction false} RunAttested(queue: Queue, ops: seq<Op>)
    requires QueueAccepted(queue)
    ensures forall i :: 0 <= i < |queue.jobs| ==> Attested(RunOf(queue, ops).ledger.records[i], queue.jobs[i])
  {
    hide Step, QueueAccepted, ValidLedger;
    if ops != [] {
      var last := |ops| - 1;
      RunAttested(queue, ops[..last]);
      RunExplained(queue, ops[..last]);
      var run := RunOf(queue, ops[..last]);
      if Step(run.ledger, queue, ops[last]).Success? {
        StepMovesLegally(run.ledger, queue, ops[last]);
        forall i | 0 <= i < |queue.jobs|
          ensures Attested(RunOf(queue, ops).ledger.records[i], queue.jobs[i])
        {
          AttestedMove(run.ledger, queue, ops[last], i);
        }
      }
    }
  }

  lemma {:induction false} AttestedMove(ledger: Ledger, queue: Queue, op: Op, i: nat)
    requires QueueAccepted(queue) && Step(ledger, queue, op).Success?
    requires |ledger.records| == |queue.jobs| && i < |queue.jobs|
    requires ledger.records[i].jobId == queue.jobs[i].jobId
    requires Attested(ledger.records[i], queue.jobs[i])
    requires LegalMove(ledger.records[i], Step(ledger, queue, op).value.records[i], op, ledger.queueSha)
    ensures Attested(Step(ledger, queue, op).value.records[i], queue.jobs[i])
  {
    hide ValidLedger, Admissible;
    if op.CompleteOp? && Step(ledger, queue, op).value.records[i] != ledger.records[i] {
      var j := JobIndex(queue.jobs, op.jobId).value;
      assert queue.jobs[j].jobId == queue.jobs[i].jobId;
      assert j == i;
    }
  }
}
