/** What the three transcript validators admit - queues, responses and ledgers - written out field by
    field, and where a chunk may begin. */
module LunaAdmission {
  import opened Wrappers
  import opened Ranges
  import opened LunaQueue
  import opened LunaResponse
  import opened LunaLedger

  // ----- Queues -----

  /** A job alone: one structured pass, pages numbered from its start to its end, and the digest of
      its nine identity fields as its ID. */
  lemma {:induction false} JobIs(job: Job)
    ensures JobOk(job) <==>
      && job.passes == ["structured_transcript"] && job.start >= 1
      && |job.pages| >= 1 && |job.pages| == job.end + 1 - job.start
      && (forall k :: 0 <= k < |job.pages| ==> job.pages[k].pdfPage == job.start + k)
      && job.jobId == Sha256Of(JobIdentity(job.sourceSha, job.bundleId, job.bundleSha, job.start, job.end, job.model,
                                           job.passes, job.promptSha, job.schemaSha))
  {
    var numbers, range := PageNumbers(job.pages), Range(job.start, job.end + 1);
    if numbers == range {
      assert |numbers| == |range|;
      forall k | 0 <= k < |job.pages|
        ensures job.pages[k].pdfPage == job.start + k
      {
        assert numbers[k] == range[k];
      }
    }
  }

  /** A chunk that declares its overlap begins on page 1 if its source has none before it, and
      otherwise right after the last page with no overlap, or on the last page, which is then the
      only page it declares. */
  lemma {:induction false} ContinuesIff(job: Job, last: nat)
    requires JobOk(job)
    ensures ContinuesSource(job, last) <==> (job.overlap.Some? ==>
      || (job.overlap.value == [] && job.start == last + 1)
      || (job.overlap.value == [job.pages[0].pageId] && job.start == last > 0))
  {
    JobIs(job);
    if job.start == last || job.start == last + 1 {
      OverlapIsHead(job.pages, job.start, last);
    }
  }

  lemma {:induction false} OverlapIsHead(pages: seq<Page>, start: nat, last: nat)
    requires pages != [] && (start == last || start == last + 1)
    requires forall k :: 0 <= k < |pages| ==> pages[k].pdfPage == start + k
    ensures OverlapIds(pages, last) == if start == last then [pages[0].pageId] else []
  {
    NothingBelow(pages[1..], last);
    assert OverlapIds(pages[1..], last) == [];
  }

  lemma {:induction false} NothingBelow(pages: seq<Page>, last: nat)
    requires forall k :: 0 <= k < |pages| ==> pages[k].pdfPage > last
    ensures OverlapIds(pages, last) == []
  {
    if pages != [] {
      NothingBelow(pages[1..], last);
    }
  }

  /** The last page of a source: the end of the latest chunk of it that declares an overlap, 0 without one. */
  lemma {:induction false} LastPageIs(jobs: seq<Job>, source: string) returns (m: int)
    ensures -1 <= m < |jobs|
    ensures forall k :: m < k < |jobs| ==> jobs[k].overlap.None? || jobs[k].sourceSha != source
    ensures m == -1 ==> LastPage(jobs, source) == 0
    ensures m >= 0 ==>
      jobs[m].overlap.Some? && jobs[m].sourceSha == source && LastPage(jobs, source) == jobs[m].end
  {
    if jobs == [] {
      m := -1;
    } else {
      var last := |jobs| - 1;
      if jobs[last].overlap.Some? && jobs[last].sourceSha == source {
        m := last;
      } else {
        m := LastPageIs(jobs[..last], source);
      }
    }
  }

  /** A whole queue: one structured pass, a fresh summary, jobs that are sound alone, continue their
      source and agree with the queue, distinct IDs, and chunk orders from 1. */
  lemma {:induction false} QueueIs(queue: Queue)
    ensures QueueAccepted(queue) <==>
      && queue.passes == ["structured_transcript"]
      && queue.summary.jobs == |queue.jobs| && queue.summary.pending == |queue.jobs| && queue.summary.completed == 0
      && (forall i :: 0 <= i < |queue.jobs| ==>
            var job := queue.jobs[i];
            && JobOk(job) && ContinuesSource(job, LastPage(queue.jobs[..i], job.sourceSha))
            && job.model == queue.model && job.passes == queue.passes && job.promptVersion == queue.promptVersion
            && job.promptSha == queue.promptSha && job.schemaSha == queue.schemaSha
            && (if job.chunkOrder.Some? then job.chunkOrder.value else 0) == i + 1)
      && (forall i, j :: 0 <= i < j < |queue.jobs| ==> queue.jobs[i].jobId != queue.jobs[j].jobId)
  {
    hide JobOk, ContinuesSource;
    if QueueAccepted(queue) {
      forall i | 0 <= i < |queue.jobs|
        ensures JobAdmitted(queue, i) && OrderOf(queue.jobs[i]) == i + 1
      {
      }
    }
  }

  /** So no two jobs of an accepted queue are of one source, bundle and page span under one model,
      prompt and schema. */
  lemma {:induction false} IdentitiesAreDistinct(queue: Queue, i: nat, j: nat)
    requires QueueAccepted(queue) && i < j < |queue.jobs|
    ensures var a, b := queue.jobs[i], queue.jobs[j];
      || a.sourceSha != b.sourceSha || a.bundleId != b.bundleId || a.bundleSha != b.bundleSha
      || a.start != b.start || a.end != b.end
  {
    hide SchemaAdmits, ContinuesSource;
    assert JobAdmitted(queue, i) && JobAdmitted(queue, j);
  }

  // ----- Responses -----

  /** A response that may complete a job. */
  lemma {:induction false} AdmissibleIs(response: Response, job: Job)
    ensures Admissible(response, job) <==>
      && response.schemaVersion == "1.0.0" && response.pass == "structured_transcript"
      && response.jobId == job.jobId && response.sourceSha == job.sourceSha && response.model == job.model
      && response.promptSha == job.promptSha && response.schemaSha == job.schemaSha
      && response.transcript.Some? && response.structured.Some?
      && response.structured.value.source.sourceSha == job.sourceSha
      && response.structured.value.source.bundleId == job.bundleId
      && (job.overlap.Some? ==> PagesBound(response, job))
  {
    hide PagesBound;
  }

  /** And for a job that declares its overlap, page by page. */
  lemma {:induction false} PagesBoundIs(response: Response, job: Job)
    requires response.structured.Some?
    ensures PagesBound(response, job) <==>
      var structured := response.structured.value;
      && structured.source.catalogKey == job.catalogKey
      && structured.source.start == job.start && structured.source.end == job.end
      && response.chunkOrder == job.chunkOrder && response.catalogOrder == Some(job.catalogOrder)
      && response.overlap == job.overlap
      && |response.orderedPageIds| == |job.pages| && |response.pages| == |job.pages|
      && response.transcript == Some(structured.transcript)
      && (forall k :: 0 <= k < |job.pages| ==>
            && response.orderedPageIds[k] == job.pages[k].pageId
            && response.pages[k].pageId == job.pages[k].pageId && response.pages[k].pdfPage == job.pages[k].pdfPage
            && response.pages[k].text.Some?
            && (response.pages[k].text.value != "" ==> exists s ::
                  && 0 <= s < |structured.sections|
                  && structured.sections[s].sourcePageIds == [job.pages[k].pageId]
                  && structured.sections[s].text == response.pages[k].text.value))
  {
    var structured := response.structured.value;
    if |response.orderedPageIds| == |job.pages| && |response.pages| == |job.pages| {
      if response.orderedPageIds == PageIds(job.pages) {
        forall k | 0 <= k < |job.pages|
          ensures response.orderedPageIds[k] == job.pages[k].pageId
        {
          assert response.orderedPageIds[k] == PageIds(job.pages)[k];
        }
      }
      assert (forall k :: 0 <= k < |job.pages| ==> response.orderedPageIds[k] == job.pages[k].pageId) ==>
        response.orderedPageIds == PageIds(job.pages);
    }
  }

  // ----- Ledgers -----

  /** A ledger of a queue. */
  lemma {:induction false} LedgerIs(ledger: Ledger, queue: Queue)
    ensures ValidLedger(ledger, queue) <==>
      && QueueAccepted(queue) && ledger.queueSha == QueueDigest(queue)
      && ledger.summary == SummaryOf(ledger.records)
      && (forall i, j :: 0 <= i < j < |ledger.records| ==> ledger.records[i].jobId != ledger.records[j].jobId)
      && (forall i :: 0 <= i < |ledger.records| ==>
            var record := ledger.records[i];
            && record.chunkOrder == i + 1
            && (exists k ::
                  && 0 <= k < |queue.jobs|
                  && queue.jobs[k].jobId == record.jobId && queue.jobs[k].bundleId == record.bundleId)
            && match record.status
               case Pending => true
               case Leased => record.workerId.Some? && record.workerId.value != "" && record.leaseToken.Some?
               case Completed => record.outputs.Some?
               case Failed => record.lastError.Some? && record.lastError.value != "")
  {
    hide QueueAccepted, SummaryOf;
  }

  /** The first ledger: one untouched record per job. */
  lemma {:induction false} InitialLedgerIs(queue: Queue, i: nat)
    requires i < |queue.jobs|
    ensures |InitialLedger(queue).records| == |queue.jobs|
    ensures var record, job := InitialLedger(queue).records[i], queue.jobs[i];
      && record.jobId == job.jobId && record.bundleId == job.bundleId
      && record.chunkOrder == (if job.chunkOrder.Some? then job.chunkOrder.value else 0)
      && record.status == Pending && record.attempts == 0
      && record.workerId.None? && record.leaseToken.None? && record.outputs.None? && record.lastError.None?
  {
  }
}
