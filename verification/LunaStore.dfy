/** The locked calls of `luna_transcript.py` as straight-line code on an output root: each one
    leaves behind exactly what an undisturbed worker of the protocol leaves behind. */
module LunaStore {
  import opened Wrappers
  import opened LunaQueue
  import opened LunaResponse
  import opened LunaLedger
  import opened LunaOutcomes
  import opened LunaProtocol

  class OutputRoot {
    var pointer: Option<Ledger>
    var snapshots: set<Ledger>
    var files: map<OutputPath, Payload>
    var halfLinked: set<Name>

    function Contents(): Root
      reads this
    {
      Root(pointer, snapshots, files, halfLinked)
    }

    /** Payload names are the digests of what they hold. */
    predicate Valid()
      reads this
    {
      ContentAddressed(files)
    }

    constructor ()
      ensures Valid() && Contents() == Root(None, {}, map[], {})
    {
      pointer, snapshots, files, halfLinked := None, {}, map[], {};
    }

    /** Install exact bytes once - link, then remove the temporary name - reusing only identical
        content with one link. */
    method InstallFile(file: File) returns (ok: bool)
      requires Valid() && Addressed(file)
      modifies this`snapshots, this`files, this`halfLinked
      ensures Valid()
      ensures ok == Put(old(Contents()), file).done && Contents() == Put(old(Contents()), file).root
    {
      if NameOf(file) in halfLinked || !Same(files, file) {
        return false;
      }
      if Present(snapshots, files, file) {
        assert file.OutputFile? ==> files[file.path := file.payload] == files;
        assert file.SnapshotFile? ==> snapshots + {file.ledger} == snapshots;
        return true;
      }
      ghost var before := halfLinked;
      halfLinked := halfLinked + {NameOf(file)};
      match file {
        case SnapshotFile(ledger) => snapshots := snapshots + {ledger};
        case OutputFile(path, payload) => files := files[path := payload];
      }
      halfLinked := halfLinked - {NameOf(file)};
      assert halfLinked == before;
      return true;
    }

    /** Load the pointer, creating and saving the first ledger when it is absent. */
    method LoadLedger(queue: Queue) returns (r: Result<Ledger, LedgerError>)
      requires Valid()
      modifies this
      ensures Valid()
      ensures Contents() == if QueueAccepted(queue) then AfterLoad(old(Contents()), queue).root else old(Contents())
      ensures r == if !QueueAccepted(queue) then Failure(InvalidLedger)
                   else if !AfterLoad(old(Contents()), queue).done then Failure(InstallRefused)
                   else if ValidLedger(pointer.value, queue) then Success(pointer.value) else Failure(InvalidLedger)
    {
      hide ValidLedger, QueueAccepted, Put, InitialLedger;
      var admitted := ValidateJobs(queue);
      if admitted.Fail? {
        return Failure(InvalidLedger);
      }
      if pointer.None? {
        var ledger := InitialLedger(queue);
        InitialLedgerValid(queue);
        var saved := SaveLedger(ledger);
        return if saved then Success(ledger) else Failure(InstallRefused);
      }
      if !ValidLedger(pointer.value, queue) {
        return Failure(InvalidLedger);
      }
      return Success(pointer.value);
    }

    /** Retain an immutable snapshot, then replace the pointer by rename. */
    method SaveLedger(ledger: Ledger) returns (ok: bool)
      requires Valid()
      modifies this
      ensures Valid()
      ensures ok == AfterSave(old(Contents()), ledger).done && Contents() == AfterSave(old(Contents()), ledger).root
    {
      ok := InstallFile(SnapshotFile(ledger));
      if ok {
        pointer := Some(ledger);
      }
    }

    /** Persist one structured response and mark its lease completed, idempotently. */
    method CompleteChunk(ledger: Ledger, queue: Queue, jobId: JobId, worker: string, token: LeaseToken,
                         response: Response)
      returns (r: Result<Ledger, LedgerError>)
      requires Valid() && pointer == Some(ledger)
      modifies this`snapshots, this`files, this`halfLinked
      ensures Valid()
      ensures var op := CompleteOp(jobId, worker, token, response);
        var stepped := Step(ledger, queue, op);
        if stepped.Failure? then r == stepped && Contents() == old(Contents())
        else
          var stored := AfterPayloads(old(Contents()), op, stepped.value);
          Contents() == stored.root && r == if stored.done then stepped else Failure(InstallRefused)
      ensures r.Success? ==> CompletedWith(r.value.records, jobId, response)
    {
      hide ValidLedger, Admissible, CompletedWith;
      if !ValidLedger(ledger, queue) {
        return Failure(InvalidLedger);
      }
      var j := JobIndex(queue.jobs, jobId);
      if j.None? {
        return Failure(UnknownJob);
      }
      var i := FindRecord(ledger.records, jobId);
      if i.None? {
        return Failure(UnknownJob);
      }
      var checked := ValidateResponse(response, queue.jobs[j.value]);
      if checked.Fail? {
        return Failure(BadResponse);
      }
      if Step(ledger, queue, CompleteOp(jobId, worker, token, response)).Success? {
        AcceptedIsCompleted(ledger, queue, CompleteOp(jobId, worker, token, response));
      }
      var record := ledger.records[i.value];
      var digest := PayloadDigest(ResponsePayload(response));
      if record.status == Completed {
        CompletedHasOutputs(ledger, queue, i.value);
        if record.outputs.value.responseSha != digest {
          return Failure(DifferentResponse);
        }
        return Success(ledger);
      }
      if record.status != Leased || record.workerId != Some(worker) || record.leaseToken != Some(token) {
        return Failure(LeaseNotHeld);
      }
      AdmissibleHasStructured(response, queue.jobs[j.value]);
      var structured := StructuredPayload(response.structured.value);
      var op := CompleteOp(jobId, worker, token, response);
      var outputs := Outputs(ResponsePath(jobId, digest), digest,
                             StructuredPath(jobId, PayloadDigest(structured)), PayloadDigest(structured));
      CompletionStep(ledger, queue, op, i.value, outputs);
      var first := InstallFile(ResponseFile(op));
      if !first {
        return Failure(InstallRefused);
      }
      var second := InstallFile(StructuredFile(op));
      if !second {
        return Failure(InstallRefused);
      }
      var records :=
        ledger.records[i.value := record.(status := Completed, outputs := Some(outputs), lastError := None)];
      var summary := LedgerSummary(records);
      r := Success(ledger.(records := records, summary := summary));
      StepValid(ledger, queue, op);
      if !ValidLedger(r.value, queue) {
        return Failure(InvalidLedger);
      }
    }

    /** `lease_luna_chunks`. */
    method LeaseChunks(queue: Queue, worker: string, maxWorkers: int)
      returns (r: Result<Ledger, LedgerError>, claims: seq<Claim>)
      requires Valid() && QueueAccepted(queue)
      modifies this
      ensures Valid() && Contents() == AfterCall(old(Contents()), queue, ClaimOp(worker, maxWorkers)).root
      ensures r.Success? <==> AfterCall(old(Contents()), queue, ClaimOp(worker, maxWorkers)).done
      ensures r.Success? ==> pointer == Some(r.value)
      ensures r.Success? ==>
        claims == ClaimsOn(LedgerFor(old(Contents()), queue).records, worker, maxWorkers, QueueDigest(queue))
    {
      hide ValidLedger, Step, QueueAccepted, Put, InitialLedger, ClaimsOn;
      claims := [];
      var loaded := LoadLedger(queue);
      if pointer.Some? {
        InvalidRefused(pointer.value, queue, ClaimOp(worker, maxWorkers));
      }
      if loaded.Failure? {
        return loaded, claims;
      }
      QueueIsBound(loaded.value, queue);
      r, claims := ClaimChunks(loaded.value, queue, worker, maxWorkers);
      if r.Success? {
        var saved := SaveLedger(r.value);
        if !saved {
          r := Failure(InstallRefused);
        }
      }
    }

    /** `mark_finished`. */
    method MarkFinished(queue: Queue, jobId: JobId, worker: string, token: LeaseToken, response: Response)
      returns (r: Result<Ledger, LedgerError>)
      requires Valid() && QueueAccepted(queue)
      modifies this
      ensures Valid()
        && Contents() == AfterCall(old(Contents()), queue, CompleteOp(jobId, worker, token, response)).root
      ensures r.Success? <==> AfterCall(old(Contents()), queue, CompleteOp(jobId, worker, token, response)).done
      ensures r.Success? ==> pointer == Some(r.value) && CompletedWith(r.value.records, jobId, response)
    {
      hide ValidLedger, Step, QueueAccepted, Put, InitialLedger, CompletedWith;
      var loaded := LoadLedger(queue);
      if pointer.Some? {
        InvalidRefused(pointer.value, queue, CompleteOp(jobId, worker, token, response));
      }
      if loaded.Failure? {
        return loaded;
      }
      r := CompleteChunk(loaded.value, queue, jobId, worker, token, response);
      if r.Success? {
        var saved := SaveLedger(r.value);
        if !saved {
          r := Failure(InstallRefused);
        }
      }
    }

    /** `mark_failed`. */
    method MarkFailed(queue: Queue, jobId: JobId, worker: string, token: LeaseToken, error: string)
      returns (r: Result<Ledger, LedgerError>)
      requires Valid() && QueueAccepted(queue)
      modifies this
      ensures Valid() && Contents() == AfterCall(old(Contents()), queue, FailOp(jobId, worker, token, error)).root
      ensures r.Success? <==> AfterCall(old(Contents()), queue, FailOp(jobId, worker, token, error)).done
      ensures r.Success? ==> pointer == Some(r.value) && FailedWith(r.value.records, jobId, error)
    {
      hide ValidLedger, Step, QueueAccepted, Put, InitialLedger, FailedWith;
      var loaded := LoadLedger(queue);
      if pointer.Some? {
        InvalidRefused(pointer.value, queue, FailOp(jobId, worker, token, error));
      }
      if loaded.Failure? {
        return loaded;
      }
      r := FailChunk(loaded.value, queue, jobId, worker, token, error);
      if r.Success? {
        AcceptedIsFailed(loaded.value, queue, FailOp(jobId, worker, token, error));
        var saved := SaveLedger(r.value);
        if !saved {
          r := Failure(InstallRefused);
        }
      }
    }

    /** `requeue_failed_luna_chunk` and `reclaim`. */
    method Return(queue: Queue, jobId: JobId, from: Status) returns (r: Result<Ledger, LedgerError>)
      requires Valid() && QueueAccepted(queue) && (from == Failed || from == Leased)
      modifies this
      ensures Valid()
      ensures var op := if from == Failed then RequeueOp(jobId) else ReclaimOp(jobId);
        Contents() == AfterCall(old(Contents()), queue, op).root
          && (r.Success? <==> AfterCall(old(Contents()), queue, op).done)
      ensures r.Success? ==> pointer == Some(r.value) && IsPending(r.value.records, jobId)
    {
      hide ValidLedger, Step, QueueAccepted, Put, InitialLedger, IsPending;
      var loaded := LoadLedger(queue);
      if pointer.Some? {
        InvalidRefused(pointer.value, queue, if from == Failed then RequeueOp(jobId) else ReclaimOp(jobId));
      }
      if loaded.Failure? {
        return loaded;
      }
      r := ReturnToPending(loaded.value, queue, jobId, from);
      if r.Success? {
        AcceptedIsPending(loaded.value, queue, if from == Failed then RequeueOp(jobId) else ReclaimOp(jobId));
        var saved := SaveLedger(r.value);
        if !saved {
          r := Failure(InstallRefused);
        }
      }
    }
  }

  /** Every transition refuses a ledger that is not valid for its queue. */
  lemma {:induction false} InvalidRefused(ledger: Ledger, queue: Queue, op: Op)
    ensures !ValidLedger(ledger, queue) ==> Step(ledger, queue, op).Failure?
  {
    hide ValidLedger;
  }

  lemma {:induction false} QueueIsBound(ledger: Ledger, queue: Queue)
    requires ValidLedger(ledger, queue)
    ensures ledger.queueSha == QueueDigest(queue)
  {
    hide QueueAccepted;
  }

  /** What the transition makes of a completion that holds its lease. */
  lemma {:induction false} CompletionStep(ledger: Ledger, queue: Queue, op: Op, i: nat, outputs: Outputs)
    requires op.CompleteOp? && ValidLedger(ledger, queue) && JobIndex(queue.jobs, op.jobId).Some?
    requires IndexOf(ledger.records, op.jobId) == Some(i) && i < |ledger.records|
    requires Admissible(op.response, queue.jobs[JobIndex(queue.jobs, op.jobId).value])
    requires ledger.records[i].status == Leased && HoldsLease(ledger.records[i], op.worker, op.token)
    requires op.response.structured.Some? && outputs == OutputsFor(op.jobId, op.response)
    ensures var records :=
      ledger.records[i := ledger.records[i].(status := Completed, outputs := Some(outputs), lastError := None)];
      Step(ledger, queue, op) == Success(ledger.(records := records, summary := SummaryOf(records)))
    ensures WritesPayloads(op, ledger, Step(ledger, queue, op).value)
  {
    hide ValidLedger, Admissible;
    assert Step(ledger, queue, op).value.records[i].status == Completed;
  }

  lemma {:induction false} AdmissibleHasStructured(response: Response, job: Job)
    requires Admissible(response, job)
    ensures response.structured.Some?
  {
  }
}
