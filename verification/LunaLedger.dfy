/** The chunk ledger of `luna_transcript.py`: its validity, its five transitions, and the
    selection `get_next` previews. */
module LunaLedger {
  import opened Wrappers
  import opened LunaQueue
  import opened LunaResponse

  datatype Status = Pending | Leased | Completed | Failed

  /** Digests are free constructors over what they hash: SHA-256 taken as injective. */
  datatype QueueDigest = QueueDigest(queue: Queue)
  datatype Payload = ResponsePayload(response: Response) | StructuredPayload(structured: Structured)
  datatype PayloadDigest = PayloadDigest(payload: Payload)
  datatype LeaseToken = LeaseToken(queueSha: QueueDigest, jobId: JobId, workerId: string, attempts: nat)

  /** `responses/<job>/structured_transcript/<digest>.json` and `structured/<job>/<digest>.json`. */
  datatype OutputPath = ResponsePath(jobId: JobId, digest: PayloadDigest)
                      | StructuredPath(jobId: JobId, digest: PayloadDigest)

  /** The two immutable outputs a completed chunk points at. */
  datatype Outputs = Outputs(
    responsePath: OutputPath, responseSha: PayloadDigest,
    structuredPath: OutputPath, structuredSha: PayloadDigest)

  datatype Record = Record(
    jobId: JobId, bundleId: string, chunkOrder: nat, status: Status,
    workerId: Option<string>, attempts: nat, leaseToken: Option<LeaseToken>,
    outputs: Option<Outputs>, lastError: Option<string>)

  datatype Summary = Summary(jobs: nat, pending: nat, leased: nat, completed: nat, failed: nat)

  datatype Ledger = Ledger(queueSha: QueueDigest, records: seq<Record>, summary: Summary)

  datatype Claim = Claim(jobId: JobId, chunkOrder: nat, workerId: string, attempts: nat, leaseToken: LeaseToken)

  datatype LedgerError =
    | InvalidLedger | InvalidClaim | UnknownJob | BadResponse | DifferentResponse
    | LeaseNotHeld | ReasonRequired | OnlyFailedRequeued | OnlyLeasedReclaimed | InstallRefused

  // ----- Validity -----

  function Count(records: seq<Record>, status: Status): nat {
    if records == [] then 0
    else (if records[|records| - 1].status == status then 1 else 0) + Count(records[..|records| - 1], status)
  }

  function SummaryOf(records: seq<Record>): Summary {
    Summary(|records|, Count(records, Pending), Count(records, Leased),
            Count(records, Completed), Count(records, Failed))
  }

  predicate NonEmpty(text: Option<string>) {
    text.Some? && text.value != ""
  }

  predicate RecordOk(record: Record) {
    && (record.status == Leased ==> NonEmpty(record.workerId) && record.leaseToken.Some?)
    && (record.status == Completed ==> record.outputs.Some?)
    && (record.status == Failed ==> NonEmpty(record.lastError))
  }

  predicate InQueue(record: Record, queue: Queue) {
    exists k :: 0 <= k < |queue.jobs|
      && queue.jobs[k].jobId == record.jobId && queue.jobs[k].bundleId == record.bundleId
  }

  predicate DistinctRecords(records: seq<Record>) {
    forall i, j :: 0 <= i < j < |records| ==> records[i].jobId != records[j].jobId
  }

  /** What `validate_luna_ledger` accepts, bound to its queue. */
  predicate ValidLedger(ledger: Ledger, queue: Queue) {
    && (forall i :: 0 <= i < |ledger.records| ==>
          && ledger.records[i].chunkOrder == i + 1
          && RecordOk(ledger.records[i])
          && InQueue(ledger.records[i], queue))
    && DistinctRecords(ledger.records)
    && ledger.summary == SummaryOf(ledger.records)
    && QueueAccepted(queue)
    && ledger.queueSha == QueueDigest(queue)
  }

  method LedgerSummary(records: seq<Record>) returns (s: Summary)
    ensures s == SummaryOf(records)
  {
    var pending, leased, completed, failed := 0, 0, 0, 0;
    for i := 0 to |records|
      invariant pending == Count(records[..i], Pending) && leased == Count(records[..i], Leased)
      invariant completed == Count(records[..i], Completed) && failed == Count(records[..i], Failed)
    {
      assert records[..i + 1][..i] == records[..i];
      match records[i].status
      case Pending => pending := pending + 1;
      case Leased => leased := leased + 1;
      case Completed => completed := completed + 1;
      case Failed => failed := failed + 1;
    }
    assert records[..|records|] == records;
    s := Summary(|records|, pending, leased, completed, failed);
  }

  /** `build_luna_chunk_ledger`: the jobs of an accepted queue are already in chunk order. */
  function InitialLedger(queue: Queue): Ledger {
    var records := seq(|queue.jobs|, i requires 0 <= i < |queue.jobs| =>
      Record(queue.jobs[i].jobId, queue.jobs[i].bundleId, OrderOf(queue.jobs[i]), Pending, None, 0, None, None, None));
    Ledger(QueueDigest(queue), records, SummaryOf(records))
  }

  lemma {:induction false} InitialLedgerValid(queue: Queue)
    requires QueueAccepted(queue)
    ensures ValidLedger(InitialLedger(queue), queue)
  {
    var records := InitialLedger(queue).records;
    forall i | 0 <= i < |records|
      ensures records[i].chunkOrder == i + 1 && InQueue(records[i], queue)
    {
      assert queue.jobs[i].jobId == records[i].jobId;
    }
  }

  // ----- Where a job's record and job stand -----

  function IndexOf(records: seq<Record>, jobId: JobId): (i: Option<nat>)
    ensures i.Some? ==> i.value < |records| && records[i.value].jobId == jobId
    ensures i.None? <==> forall k :: 0 <= k < |records| ==> records[k].jobId != jobId
  {
    if records == [] then None
    else if records[0].jobId == jobId then Some(0)
    else
      var rest := IndexOf(records[1..], jobId);
      assert forall k :: 1 <= k < |records| ==> records[1..][k - 1] == records[k];
      if rest.Some? then Some(rest.value + 1) else None
  }

  function JobIndex(jobs: seq<Job>, jobId: JobId): (i: Option<nat>)
    ensures i.Some? ==> i.value < |jobs| && jobs[i.value].jobId == jobId
    ensures i.None? <==> forall k :: 0 <= k < |jobs| ==> jobs[k].jobId != jobId
  {
    if jobs == [] then None
    else if jobs[0].jobId == jobId then Some(0)
    else
      var rest := JobIndex(jobs[1..], jobId);
      assert forall k :: 1 <= k < |jobs| ==> jobs[1..][k - 1] == jobs[k];
      if rest.Some? then Some(rest.value + 1) else None
  }

  /** `next((item for item in records if item["job_id"] == job_id), None)`. */
  method FindRecord(records: seq<Record>, jobId: JobId) returns (i: Option<nat>)
    ensures i == IndexOf(records, jobId)
  {
    for k := 0 to |records|
      invariant forall m :: 0 <= m < k ==> records[m].jobId != jobId
    {
      if records[k].jobId == jobId {
        IndexOfFirst(records, jobId, k);
        return Some(k);
      }
    }
    return None;
  }

  lemma {:induction false} IndexOfFirst(records: seq<Record>, jobId: JobId, k: nat)
    requires k < |records| && records[k].jobId == jobId
    requires forall m :: 0 <= m < k ==> records[m].jobId != jobId
    ensures IndexOf(records, jobId) == Some(k)
  {
    if k > 0 {
      IndexOfFirst(records[1..], jobId, k - 1);
    }
  }

  // ----- Transitions -----

  datatype Op =
    | ClaimOp(worker: string, maxWorkers: int)
    | CompleteOp(jobId: JobId, worker: string, token: LeaseToken, response: Response)
    | FailOp(jobId: JobId, worker: string, token: LeaseToken, error: string)
    | RequeueOp(jobId: JobId)
    | ReclaimOp(jobId: JobId)

  function LeaseTo(record: Record, worker: string, queueSha: QueueDigest): Record {
    record.(status := Leased, workerId := Some(worker), attempts := record.attempts + 1,
            leaseToken := Some(LeaseToken(queueSha, record.jobId, worker, record.attempts + 1)),
            lastError := None)
  }

  function ClaimOf(record: Record, worker: string, queueSha: QueueDigest): Claim {
    Claim(record.jobId, record.chunkOrder, worker, record.attempts + 1,
          LeaseToken(queueSha, record.jobId, worker, record.attempts + 1))
  }

  /** Record `i` is among the first `maxWorkers` pending ones. */
  predicate Selected(records: seq<Record>, i: nat, maxWorkers: int)
    requires i < |records|
  {
    records[i].status == Pending && Count(records[..i], Pending) < maxWorkers
  }

  function ClaimedRecords(records: seq<Record>, worker: string, maxWorkers: int,
                          queueSha: QueueDigest): (r: seq<Record>)
    ensures |r| == |records|
  {
    seq(|records|, i requires 0 <= i < |records| =>
      if Selected(records, i, maxWorkers) then LeaseTo(records[i], worker, queueSha) else records[i])
  }

  function OutputsFor(jobId: JobId, response: Response): Outputs
    requires response.structured.Some?
  {
    var r := PayloadDigest(ResponsePayload(response));
    var s := PayloadDigest(StructuredPayload(response.structured.value));
    Outputs(ResponsePath(jobId, r), r, StructuredPath(jobId, s), s)
  }

  function WithRecord(ledger: Ledger, i: nat, record: Record): Ledger
    requires i < |ledger.records|
  {
    var records := ledger.records[i := record];
    ledger.(records := records, summary := SummaryOf(records))
  }

  predicate HoldsLease(record: Record, worker: string, token: LeaseToken) {
    record.status == Leased && record.workerId == Some(worker) && record.leaseToken == Some(token)
  }

  /** One operation on a loaded ledger: the sequential meaning of the five transitions. */
  function Step(ledger: Ledger, queue: Queue, op: Op): (r: Result<Ledger, LedgerError>)
    ensures r.Success? ==> |r.value.records| == |ledger.records|
  {
    match op
    case ClaimOp(worker, maxWorkers) =>
      if worker == "" || maxWorkers < 1 then Failure(InvalidClaim)
      else if !ValidLedger(ledger, queue) then Failure(InvalidLedger)
      else
        var records := ClaimedRecords(ledger.records, worker, maxWorkers, ledger.queueSha);
        Success(ledger.(records := records, summary := SummaryOf(records)))
    case CompleteOp(jobId, worker, token, response) =>
      if !ValidLedger(ledger, queue) then Failure(InvalidLedger)
      else
        var j, i := JobIndex(queue.jobs, jobId), IndexOf(ledger.records, jobId);
        if j.None? || i.None? then Failure(UnknownJob)
        else if !Admissible(response, queue.jobs[j.value]) then Failure(BadResponse)
        else
          var record := ledger.records[i.value];
          if record.status == Completed then
            if record.outputs.value.responseSha == PayloadDigest(ResponsePayload(response)) then Success(ledger)
            else Failure(DifferentResponse)
          else if !HoldsLease(record, worker, token) then Failure(LeaseNotHeld)
          else Success(WithRecord(ledger, i.value,
            record.(status := Completed, outputs := Some(OutputsFor(jobId, response)), lastError := None)))
    case FailOp(jobId, worker, token, error) =>
      if error == "" then Failure(ReasonRequired)
      else if !ValidLedger(ledger, queue) then Failure(InvalidLedger)
      else
        var i := IndexOf(ledger.records, jobId);
        if i.None? then Failure(UnknownJob)
        else
          var record := ledger.records[i.value];
          if record.status == Failed && record.lastError == Some(error) then Success(ledger)
          else if !HoldsLease(record, worker, token) then Failure(LeaseNotHeld)
          else Success(WithRecord(ledger, i.value, record.(status := Failed, lastError := Some(error))))
    case RequeueOp(jobId) =>
      if !ValidLedger(ledger, queue) then Failure(InvalidLedger)
      else
        var i := IndexOf(ledger.records, jobId);
        if i.None? then Failure(UnknownJob)
        else if ledger.records[i.value].status == Pending then Success(ledger)
        else if ledger.records[i.value].status != Failed then Failure(OnlyFailedRequeued)
        else Success(WithRecord(ledger, i.value,
          ledger.records[i.value].(status := Pending, workerId := None, leaseToken := None)))
    case ReclaimOp(jobId) =>
      if !ValidLedger(ledger, queue) then Failure(InvalidLedger)
      else
        var i := IndexOf(ledger.records, jobId);
        if i.None? then Failure(UnknownJob)
        else if ledger.records[i.value].status == Pending then Success(ledger)
        else if ledger.records[i.value].status != Leased then Failure(OnlyLeasedReclaimed)
        else Success(WithRecord(ledger, i.value,
          ledger.records[i.value].(status := Pending, workerId := None, leaseToken := None)))
  }

  // ----- Every transition keeps the ledger valid -----

  lemma {:induction false} WithRecordValid(ledger: Ledger, queue: Queue, i: nat, record: Record)
    requires ValidLedger(ledger, queue) && i < |ledger.records|
    requires record.jobId == ledger.records[i].jobId && record.bundleId == ledger.records[i].bundleId
    requires record.chunkOrder == ledger.records[i].chunkOrder && RecordOk(record)
    ensures ValidLedger(WithRecord(ledger, i, record), queue)
  {
    assert InQueue(ledger.records[i], queue);
    assert InQueue(record, queue);
  }

  lemma {:induction false} ClaimedValid(ledger: Ledger, queue: Queue, worker: string, maxWorkers: int)
    requires ValidLedger(ledger, queue) && worker != ""
    ensures Step(ledger, queue, ClaimOp(worker, maxWorkers)).Success? ==>
      ValidLedger(Step(ledger, queue, ClaimOp(worker, maxWorkers)).value, queue)
  {
    var records := ClaimedRecords(ledger.records, worker, maxWorkers, ledger.queueSha);
    forall i | 0 <= i < |records|
      ensures records[i].chunkOrder == i + 1 && RecordOk(records[i]) && InQueue(records[i], queue)
      ensures records[i].jobId == ledger.records[i].jobId
    {
      assert InQueue(ledger.records[i], queue);
    }
  }

  lemma {:induction false} StepValid(ledger: Ledger, queue: Queue, op: Op)
    requires Step(ledger, queue, op).Success?
    ensures ValidLedger(Step(ledger, queue, op).value, queue)
  {
    match op
    case ClaimOp(worker, maxWorkers) => ClaimedValid(ledger, queue, worker, maxWorkers);
    case CompleteOp(jobId, worker, token, response) =>
      var i := IndexOf(ledger.records, jobId).value;
      var record := ledger.records[i];
      if record.status != Completed {
        WithRecordValid(ledger, queue, i,
          record.(status := Completed, outputs := Some(OutputsFor(jobId, response)), lastError := None));
      }
    case FailOp(jobId, worker, token, error) =>
      var i := IndexOf(ledger.records, jobId).value;
      var record := ledger.records[i];
      if !(record.status == Failed && record.lastError == Some(error)) {
        WithRecordValid(ledger, queue, i, record.(status := Failed, lastError := Some(error)));
      }
    case RequeueOp(jobId) =>
      var i := IndexOf(ledger.records, jobId).value;
      if ledger.records[i].status != Pending {
        WithRecordValid(ledger, queue, i,
          ledger.records[i].(status := Pending, workerId := None, leaseToken := None));
      }
    case ReclaimOp(jobId) =>
      var i := IndexOf(ledger.records, jobId).value;
      if ledger.records[i].status != Pending {
        WithRecordValid(ledger, queue, i,
          ledger.records[i].(status := Pending, workerId := None, leaseToken := None));
      }
  }

  // ----- The transitions as the source runs them -----

  /** Claims made on a prefix of the records. */
  function ClaimsOn(records: seq<Record>, worker: string, maxWorkers: int, queueSha: QueueDigest): seq<Claim> {
    if records == [] then []
    else
      var last := |records| - 1;
      ClaimsOn(records[..last], worker, maxWorkers, queueSha)
      + if Selected(records, last, maxWorkers) then [ClaimOf(records[last], worker, queueSha)] else []
  }

  lemma {:induction false} ClaimCount(records: seq<Record>, worker: string, maxWorkers: int, queueSha: QueueDigest)
    requires maxWorkers >= 0
    ensures |ClaimsOn(records, worker, maxWorkers, queueSha)|
         == if Count(records, Pending) <= maxWorkers then Count(records, Pending) else maxWorkers
  {
    if records != [] {
      ClaimCount(records[..|records| - 1], worker, maxWorkers, queueSha);
    }
  }

  /** Whether the next record is claimed shows in the number of claims made so far. */
  lemma {:induction false} ClaimsOnStep(records: seq<Record>, i: nat, worker: string, maxWorkers: int,
                                        queueSha: QueueDigest)
    requires i < |records| && maxWorkers >= 0
    ensures var made := ClaimsOn(records[..i], worker, maxWorkers, queueSha);
            var chosen := records[i].status == Pending && |made| < maxWorkers;
            && ClaimsOn(records[..i + 1], worker, maxWorkers, queueSha)
               == made + (if chosen then [ClaimOf(records[i], worker, queueSha)] else [])
            && ClaimedRecords(records, worker, maxWorkers, queueSha)[i]
               == if chosen then LeaseTo(records[i], worker, queueSha) else records[i]
  {
    hide LeaseTo, ClaimOf;
    assert records[..i + 1][..i] == records[..i];
    ClaimCount(records[..i], worker, maxWorkers, queueSha);
  }

  lemma {:induction false} NoClaims(worker: string, maxWorkers: int, queueSha: QueueDigest)
    ensures ClaimsOn([], worker, maxWorkers, queueSha) == []
  {
  }

  lemma {:induction false} ClaimStep(ledger: Ledger, queue: Queue, worker: string, maxWorkers: int)
    ensures Step(ledger, queue, ClaimOp(worker, maxWorkers)) ==
      if worker == "" || maxWorkers < 1 then Failure(InvalidClaim)
      else if !ValidLedger(ledger, queue) then Failure(InvalidLedger)
      else
        var records := ClaimedRecords(ledger.records, worker, maxWorkers, ledger.queueSha);
        Success(ledger.(records := records, summary := SummaryOf(records)))
  {
    hide ValidLedger;
  }

  /** Lease the next pending chunks in deterministic order for one worker. */
  method ClaimChunks(ledger: Ledger, queue: Queue, worker: string, maxWorkers: int)
    returns (r: Result<Ledger, LedgerError>, claims: seq<Claim>)
    ensures r == Step(ledger, queue, ClaimOp(worker, maxWorkers))
    ensures r.Success? ==> claims == ClaimsOn(ledger.records, worker, maxWorkers, ledger.queueSha)
  {
    hide ValidLedger, Step, ClaimedRecords, ClaimsOn, LeaseTo, ClaimOf;
    ClaimStep(ledger, queue, worker, maxWorkers);
    claims := [];
    assert ClaimsOn([], worker, maxWorkers, ledger.queueSha) == [] by { NoClaims(worker, maxWorkers, ledger.queueSha); }
    if worker == "" || maxWorkers < 1 {
      return Failure(InvalidClaim), claims;
    }
    if !ValidLedger(ledger, queue) {
      return Failure(InvalidLedger), claims;
    }
    var old_ := ledger.records;
    var records := old_;
    for i := 0 to |old_|
      invariant |records| == |old_|
      invariant forall k :: i <= k < |old_| ==> records[k] == old_[k]
      invariant forall k :: 0 <= k < i ==>
        records[k] == ClaimedRecords(old_, worker, maxWorkers, ledger.queueSha)[k]
      invariant claims == ClaimsOn(old_[..i], worker, maxWorkers, ledger.queueSha)
    {
      var record := records[i];
      ClaimsOnStep(old_, i, worker, maxWorkers, ledger.queueSha);
      if |claims| >= maxWorkers || record.status != Pending {
        continue;
      }
      records := records[i := LeaseTo(record, worker, ledger.queueSha)];
      claims := claims + [ClaimOf(record, worker, ledger.queueSha)];
    }
    assert old_[..|old_|] == old_;
    assert records == ClaimedRecords(old_, worker, maxWorkers, ledger.queueSha);
    var summary := LedgerSummary(records);
    r := Success(ledger.(records := records, summary := summary));
    StepValid(ledger, queue, ClaimOp(worker, maxWorkers));
    if !ValidLedger(r.value, queue) {
      return Failure(InvalidLedger), claims;
    }
  }

  /** Record a failed lease without losing its attempt history. */
  method FailChunk(ledger: Ledger, queue: Queue, jobId: JobId, worker: string, token: LeaseToken, error: string)
    returns (r: Result<Ledger, LedgerError>)
    ensures r == Step(ledger, queue, FailOp(jobId, worker, token, error))
  {
    if error == "" {
      return Failure(ReasonRequired);
    }
    if !ValidLedger(ledger, queue) {
      return Failure(InvalidLedger);
    }
    var records := ledger.records;
    var i := FindRecord(records, jobId);
    if i.None? {
      return Failure(UnknownJob);
    }
    var record := records[i.value];
    if record.status == Failed && record.lastError == Some(error) {
      return Success(ledger);
    }
    if record.status != Leased || record.workerId != Some(worker) || record.leaseToken != Some(token) {
      return Failure(LeaseNotHeld);
    }
    records := records[i.value := record.(status := Failed, lastError := Some(error))];
    var summary := LedgerSummary(records);
    r := Success(ledger.(records := records, summary := summary));
    StepValid(ledger, queue, FailOp(jobId, worker, token, error));
    if !ValidLedger(r.value, queue) {
      return Failure(InvalidLedger);
    }
  }

  /** `requeue_luna_chunk` (from Failed) and `reclaim_luna_chunk` (from Leased) differ only in the
      state they accept. */
  method ReturnToPending(ledger: Ledger, queue: Queue, jobId: JobId, from: Status)
    returns (r: Result<Ledger, LedgerError>)
    requires from == Failed || from == Leased
    ensures r == Step(ledger, queue, if from == Failed then RequeueOp(jobId) else ReclaimOp(jobId))
  {
    if !ValidLedger(ledger, queue) {
      return Failure(InvalidLedger);
    }
    var records := ledger.records;
    var i := FindRecord(records, jobId);
    if i.None? {
      return Failure(UnknownJob);
    }
    var record := records[i.value];
    if record.status == Pending {
      return Success(ledger);
    }
    if record.status != from {
      return Failure(if from == Failed then OnlyFailedRequeued else OnlyLeasedReclaimed);
    }
    records := records[i.value := record.(status := Pending, workerId := None, leaseToken := None)];
    var summary := LedgerSummary(records);
    r := Success(ledger.(records := records, summary := summary));
    StepValid(ledger, queue, if from == Failed then RequeueOp(jobId) else ReclaimOp(jobId));
    if !ValidLedger(r.value, queue) {
      return Failure(InvalidLedger);
    }
  }

  // ----- get_next previews exactly what a claim would take -----

  /** The first `maxWorkers` pending chunks, in ledger order. */
  function FirstPending(records: seq<Record>, maxWorkers: int): (r: seq<JobId>)
    ensures |r| == if Count(records, Pending) <= maxWorkers then Count(records, Pending)
                   else if maxWorkers < 0 then 0 else maxWorkers
  {
    if records == [] then []
    else
      var last := |records| - 1;
      FirstPending(records[..last], maxWorkers)
      + if Selected(records, last, maxWorkers) then [records[last].jobId] else []
  }

  lemma {:induction false} ClaimTakesFirstPending(records: seq<Record>, worker: string, maxWorkers: int,
                                                  queueSha: QueueDigest)
    ensures |ClaimsOn(records, worker, maxWorkers, queueSha)| == |FirstPending(records, maxWorkers)|
    ensures forall k :: 0 <= k < |FirstPending(records, maxWorkers)| ==>
      ClaimsOn(records, worker, maxWorkers, queueSha)[k].jobId == FirstPending(records, maxWorkers)[k]
  {
    if records != [] {
      ClaimTakesFirstPending(records[..|records| - 1], worker, maxWorkers, queueSha);
    }
  }

  lemma {:induction false} FullPrefixIsFinal(records: seq<Record>, i: nat, maxWorkers: int)
    requires i <= |records| && Count(records[..i], Pending) >= maxWorkers
    ensures FirstPending(records, maxWorkers) == FirstPending(records[..i], maxWorkers)
    ensures Count(records, Pending) >= maxWorkers
    decreases |records|
  {
    if i < |records| {
      var shorter := records[..|records| - 1];
      assert shorter[..i] == records[..i];
      FullPrefixIsFinal(shorter, i, maxWorkers);
    } else {
      assert records[..i] == records;
    }
  }

  lemma {:induction false} NonePending(maxWorkers: int)
    ensures FirstPending([], maxWorkers) == []
  {
  }

  lemma {:induction false} FirstPendingStep(records: seq<Record>, i: nat, maxWorkers: int)
    requires i < |records| && |FirstPending(records[..i], maxWorkers)| < maxWorkers
    ensures FirstPending(records[..i + 1], maxWorkers) == FirstPending(records[..i], maxWorkers)
            + (if records[i].status == Pending then [records[i].jobId] else [])
    ensures Count(records[..i + 1], Pending) == |FirstPending(records[..i + 1], maxWorkers)|
  {
    assert records[..i + 1][..i] == records[..i];
  }

  /** `get_next`: the next pending chunks, without changing the ledger. */
  method NextPending(ledger: Ledger, queue: Queue, maxWorkers: int) returns (r: Result<seq<JobId>, LedgerError>)
    ensures r == if maxWorkers < 1 then Failure(InvalidClaim)
                 else if !ValidLedger(ledger, queue) then Failure(InvalidLedger)
                 else Success(FirstPending(ledger.records, maxWorkers))
  {
    hide ValidLedger, FirstPending, Count;
    if maxWorkers < 1 {
      return Failure(InvalidClaim);
    }
    if !ValidLedger(ledger, queue) {
      return Failure(InvalidLedger);
    }
    var records := ledger.records;
    var pending: seq<JobId> := [];
    assert FirstPending([], maxWorkers) == [] by { NonePending(maxWorkers); }
    for i := 0 to |records|
      invariant |pending| < maxWorkers
      invariant pending == FirstPending(records[..i], maxWorkers)
    {
      FirstPendingStep(records, i, maxWorkers);
      if records[i].status != Pending {
        continue;
      }
      pending := pending + [records[i].jobId];
      if |pending| >= maxWorkers {
        FullPrefixIsFinal(records, i + 1, maxWorkers);
        return Success(pending);
      }
    }
    assert records[..|records|] == records;
    return Success(pending);
  }
}
