/** What committed operations leave on disk, in every interleaving and with crashes anywhere. */
module LunaDelivery {
  import opened Wrappers
  import opened LunaQueue
  import opened LunaResponse
  import opened LunaLedger
  import opened LunaOutcomes
  import opened LunaHistory
  import opened LunaProtocol

  /** Every committed operation was accepted on the ledger it found. */
  predicate AllAccepted(queue: Queue, ops: seq<Op>) {
    forall n :: 0 <= n < |ops| ==> Step(RunOf(queue, ops[..n]).ledger, queue, ops[n]).Success?
  }

  lemma {:induction false} AcceptedSnoc(queue: Queue, ops: seq<Op>, op: Op)
    requires AllAccepted(queue, ops) && Step(RunOf(queue, ops).ledger, queue, op).Success?
    ensures AllAccepted(queue, ops + [op])
  {
    hide Step, RunOf;
    var longer := ops + [op];
    forall n | 0 <= n < |longer|
      ensures Step(RunOf(queue, longer[..n]).ledger, queue, longer[n]).Success?
    {
      assert longer[..n] == if n < |ops| then ops[..n] else ops;
    }
  }

  lemma {:induction false} CommittedWereAccepted(queue: Queue, schedule: seq<Turn>)
    ensures AllAccepted(queue, Play(queue, schedule).committed)
  {
    if schedule != [] {
      var front, turn := schedule[..|schedule| - 1], schedule[|schedule| - 1];
      CommittedWereAccepted(queue, front);
      InvAlways(queue, front);
      TakeCommitsAccepted(Play(queue, front), queue, turn);
    }
  }

  lemma {:induction false} TakeCommitsAccepted(world: World, queue: Queue, turn: Turn)
    requires Inv(world, queue) && AllAccepted(queue, world.committed)
    ensures AllAccepted(queue, Take(world, queue, turn).committed)
  {
    hide Step, Stored, InitialLedger, AllAccepted, ContentAddressed, HalfOk, ValidLedger, OutputsFor, RunOf;
    var w := turn.worker;
    if turn.action.Proceed? && PcOf(world, w).Snapshotted? {
      assert world.lock == Some(w);
      assert world.committed[..|world.committed|] == world.committed;
      AcceptedSnoc(queue, world.committed, PcOf(world, w).op);
    }
  }

  /** A completion accepted somewhere along a run is still the record's completion at its end. */
  lemma {:induction false} CompletionsStay(queue: Queue, ops: seq<Op>, n: nat)
    requires QueueAccepted(queue) && AllAccepted(queue, ops) && n < |ops| && ops[n].CompleteOp?
    ensures CompletedWith(RunOf(queue, ops).ledger.records, ops[n].jobId, ops[n].response)
  {
    hide Step, QueueAccepted, RunOf;
    var op := ops[n];
    AcceptedIsCompleted(RunOf(queue, ops[..n]).ledger, queue, op);
    assert ops[..n + 1] == ops[..n] + [op];
    CommitRuns(queue, ops[..n], op);
    var records := RunOf(queue, ops[..n + 1]).ledger.records;
    var i :| 0 <= i < |records| && records[i].jobId == op.jobId && records[i].status == Completed
          && records[i].outputs.Some?
          && records[i].outputs.value.responseSha == PayloadDigest(ResponsePayload(op.response));
    CompletedIsFinal(queue, ops, n + 1, i);
    assert RunOf(queue, ops).ledger.records[i] == records[i];
  }

  /** The visible ledger's record of the job names the response, and both its files hold it. */
  predicate Delivered(world: World, jobId: JobId, response: Response) {
    && world.pointer.Some?
    && exists i :: 0 <= i < |world.pointer.value.records|
         && var record := world.pointer.value.records[i];
         && record.jobId == jobId && record.status == Completed && record.outputs.Some?
         && var outputs := record.outputs.value;
         && outputs.responsePath in world.files && world.files[outputs.responsePath] == ResponsePayload(response)
         && response.structured.Some?
         && outputs.structuredPath in world.files
         && world.files[outputs.structuredPath] == StructuredPayload(response.structured.value)
  }

  /** Every completion that was committed - every one that was acknowledged, therefore - has its
      response and its structured transcript on disk, named by the visible ledger, whatever
      happened since. */
  lemma {:induction false} EveryCompletionIsDelivered(queue: Queue, schedule: seq<Turn>, op: Op)
    requires QueueAccepted(queue) && op.CompleteOp?
    requires op in Play(queue, schedule).committed || op in Play(queue, schedule).acknowledged
    ensures Delivered(Play(queue, schedule), op.jobId, op.response)
  {
    hide Play, Step, QueueAccepted, RunOf, ValidLedger, AllAccepted, Attested;
    var world := Play(queue, schedule);
    EveryInterleavingIsSafe(queue, schedule);
    CommittedWereAccepted(queue, schedule);
    assert op in world.committed by {
      if op in world.acknowledged {
        assert op in multiset(world.committed);
      }
    }
    var n :| 0 <= n < |world.committed| && world.committed[n] == op;
    CompletionsStay(queue, world.committed, n);
    RunAttested(queue, world.committed);
    var records := world.pointer.value.records;
    var i :| 0 <= i < |records| && records[i].jobId == op.jobId && records[i].status == Completed
          && records[i].outputs.Some?
          && records[i].outputs.value.responseSha == PayloadDigest(ResponsePayload(op.response));
    RunExplained(queue, world.committed);
    AttestedIsDelivered(world, queue.jobs[i], i, op.response);
  }

  lemma {:induction false} AttestedIsDelivered(world: World, job: Job, i: nat, response: Response)
    requires world.pointer.Some? && Stored(world.files, world.pointer.value) && i < |world.pointer.value.records|
    requires var record := world.pointer.value.records[i];
      && record.status == Completed && Attested(record, job) && record.outputs.Some?
      && record.outputs.value.responseSha == PayloadDigest(ResponsePayload(response))
    ensures Delivered(world, world.pointer.value.records[i].jobId, response)
  {
    hide PagesBound;
    var record := world.pointer.value.records[i];
    assert HoldsPayloads(world.files, record.outputs.value);
    assert ResponseOf(record) == response;
  }
}
