/** Transcript queues: the admission check of `validate_luna_jobs`, and what it guarantees
    about the pages a source's chunks own. */
module LunaQueue {
  import opened Wrappers
  import opened Ranges

  const TRANSCRIPT_PASSES: seq<string> := ["structured_transcript"]

  datatype Page = Page(pageId: string, pdfPage: nat)

  datatype PdfRef = PdfRef(path: string, sha256: string, bytes: nat)

  /** The fields a job's identity hashes over. `Sha256Of` is the digest itself: a constructor
      is injective, which is all the source relies on. */
  datatype JobIdentity = JobIdentity(
    source: string, bundleId: string, bundleSha: string, start: nat, end: nat,
    model: string, passes: seq<string>, promptSha: string, schemaSha: string)
  datatype JobId = Sha256Of(identity: JobIdentity)

  datatype Job = Job(
    jobId: JobId, chunkOrder: Option<nat>, overlap: Option<seq<string>>,
    model: string, passes: seq<string>, promptVersion: string, promptSha: string,
    schemaSha: string, catalogKey: string, catalogOrder: nat, sourceSha: string,
    sourceBytes: nat, originalPdf: PdfRef, bundleId: string, bundleSha: string,
    start: nat, end: nat, pages: seq<Page>)

  datatype QueueSummary = QueueSummary(jobs: nat, pending: nat, completed: nat)

  datatype Queue = Queue(
    model: string, passes: seq<string>, promptVersion: string, promptSha: string,
    schemaSha: string, jobs: seq<Job>, summary: QueueSummary)

  datatype QueueError =
    | SchemaViolation | WrongPasses | SummaryDiffers | IdentityDrift | PagesReordered
    | GapOrExcessiveOverlap | OverlapDeclarationDiffers | DuplicateJobId
    | DiffersFromQueue | OrderNotContiguous

  function IdentityOf(job: Job): JobIdentity {
    JobIdentity(job.sourceSha, job.bundleId, job.bundleSha, job.start, job.end,
                job.model, job.passes, job.promptSha, job.schemaSha)
  }

  function PageNumbers(pages: seq<Page>): (r: seq<int>)
    ensures |r| == |pages| && forall k :: 0 <= k < |r| ==> r[k] == pages[k].pdfPage
  {
    seq(|pages|, k requires 0 <= k < |pages| => pages[k].pdfPage)
  }

  /** The parts of the job schema the rest of the pipeline leans on: one pass, at least one
      page, page numbers from 1. */
  predicate SchemaAdmits(job: Job) {
    && job.passes == TRANSCRIPT_PASSES
    && job.pages != []
    && job.start >= 1
    && job.end >= 1
    && forall k :: 0 <= k < |job.pages| ==> job.pages[k].pdfPage >= 1
  }

  /** What `validate_luna_job` accepts. */
  predicate JobOk(job: Job) {
    && SchemaAdmits(job)
    && job.jobId == Sha256Of(IdentityOf(job))
    && PageNumbers(job.pages) == Range(job.start, job.end + 1)
  }

  /** `previous_end`: the last page of the latest chunk of `source` that declares an overlap. */
  function LastPage(jobs: seq<Job>, source: string): nat {
    if jobs == [] then 0
    else
      var job := jobs[|jobs| - 1];
      if job.overlap.Some? && job.sourceSha == source then job.end
      else LastPage(jobs[..|jobs| - 1], source)
  }

  /** IDs of the pages numbered at most `last`, in page order. */
  function OverlapIds(pages: seq<Page>, last: nat): seq<string> {
    if pages == [] then []
    else (if pages[0].pdfPage <= last then [pages[0].pageId] else []) + OverlapIds(pages[1..], last)
  }

  predicate ContinuesSource(job: Job, last: nat) {
    job.overlap.Some? ==>
      && (if last == 0 then job.start == 1 else job.start == last || job.start == last + 1)
      && job.overlap.value == OverlapIds(job.pages, last)
  }

  predicate AgreesWithQueue(job: Job, queue: Queue) {
    && job.model == queue.model
    && job.passes == queue.passes
    && job.promptVersion == queue.promptVersion
    && job.promptSha == queue.promptSha
    && job.schemaSha == queue.schemaSha
  }

  function OrderOf(job: Job): nat {
    if job.chunkOrder.Some? then job.chunkOrder.value else 0
  }

  /** Job `i` passes every per-job check, given the jobs before it. */
  predicate JobAdmitted(queue: Queue, i: nat)
    requires i < |queue.jobs|
  {
    && JobOk(queue.jobs[i])
    && ContinuesSource(queue.jobs[i], LastPage(queue.jobs[..i], queue.jobs[i].sourceSha))
    && AgreesWithQueue(queue.jobs[i], queue)
  }

  predicate DistinctIds(jobs: seq<Job>) {
    forall i, j :: 0 <= i < j < |jobs| ==> jobs[i].jobId != jobs[j].jobId
  }

  predicate ContiguousOrder(jobs: seq<Job>) {
    forall i :: 0 <= i < |jobs| ==> OrderOf(jobs[i]) == i + 1
  }

  /** The queues `validate_luna_jobs` accepts, stated without its loop. */
  predicate QueueAccepted(queue: Queue) {
    && queue.passes == TRANSCRIPT_PASSES
    && queue.summary == QueueSummary(|queue.jobs|, |queue.jobs|, 0)
    && (forall i :: 0 <= i < |queue.jobs| ==> JobAdmitted(queue, i))
    && DistinctIds(queue.jobs)
    && ContiguousOrder(queue.jobs)
  }

  lemma {:induction false} LastPageStep(jobs: seq<Job>, i: nat, source: string)
    requires i < |jobs|
    ensures LastPage(jobs[..i + 1], source)
         == if jobs[i].overlap.Some? && jobs[i].sourceSha == source then jobs[i].end else LastPage(jobs[..i], source)
  {
    assert jobs[..i + 1][..i] == jobs[..i];
  }

  method ValidateJob(job: Job) returns (r: Outcome<QueueError>)
    ensures r.Pass? <==> JobOk(job)
  {
    if !SchemaAdmits(job) {
      return Fail(SchemaViolation);
    }
    if job.jobId != Sha256Of(IdentityOf(job)) {
      return Fail(IdentityDrift);
    }
    if job.passes != TRANSCRIPT_PASSES {
      return Fail(WrongPasses);
    }
    if PageNumbers(job.pages) != Range(job.start, job.end + 1) {
      return Fail(PagesReordered);
    }
    return Pass;
  }

  method ExpectedOverlap(pages: seq<Page>, last: nat) returns (ids: seq<string>)
    ensures ids == OverlapIds(pages, last)
  {
    ids := [];
    for k := 0 to |pages|
      invariant ids + OverlapIds(pages[k..], last) == OverlapIds(pages, last)
    {
      if pages[k].pdfPage <= last {
        ids := ids + [pages[k].pageId];
      }
    }
  }

  /** Reject reordered passes, duplicate jobs, gaps, or false source identities. */
  method ValidateJobs(queue: Queue) returns (r: Outcome<QueueError>)
    ensures r.Pass? <==> QueueAccepted(queue)
  {
    hide JobOk, ContinuesSource, AgreesWithQueue;
    var jobs := queue.jobs;
    if queue.passes != TRANSCRIPT_PASSES {
      return Fail(WrongPasses);
    }
    if queue.summary != QueueSummary(|jobs|, |jobs|, 0) {
      return Fail(SummaryDiffers);
    }
    var seen: set<JobId> := {};
    var previousEnd: map<string, nat> := map[];
    for i := 0 to |jobs|
      invariant forall k :: 0 <= k < i ==> jobs[k].jobId in seen
      invariant forall id :: id in seen ==> exists k :: 0 <= k < i && jobs[k].jobId == id
      invariant Tracks(previousEnd, jobs[..i])
      invariant forall k :: 0 <= k < i ==> JobAdmitted(queue, k)
      invariant DistinctIds(jobs[..i])
    {
      var result;
      result, previousEnd := CheckJob(queue, i, previousEnd);
      if result.Fail? {
        assert !JobAdmitted(queue, i);
        return result;
      }
      if jobs[i].jobId in seen {
        return Fail(DuplicateJobId);
      }
      seen := seen + {jobs[i].jobId};
      if !AgreesWithQueue(jobs[i], queue) {
        assert !JobAdmitted(queue, i);
        return Fail(DiffersFromQueue);
      }
    }
    assert jobs[..|jobs|] == jobs;
    if !ContiguousOrder(jobs) {
      return Fail(OrderNotContiguous);
    }
    return Pass;
  }

  /** The dictionary `previous_end` after a prefix of the jobs. */
  ghost predicate Tracks(previousEnd: map<string, nat>, jobs: seq<Job>) {
    forall s :: LastPage(jobs, s) == if s in previousEnd then previousEnd[s] else 0
  }

  /** One turn of the queue loop, up to the duplicate check: validate the job and its overlap
      declaration and move `previous_end` on. */
  method CheckJob(queue: Queue, i: nat, previousEnd: map<string, nat>)
    returns (r: Outcome<QueueError>, updated: map<string, nat>)
    requires i < |queue.jobs| && Tracks(previousEnd, queue.jobs[..i])
    ensures r.Pass? <==>
      (&& JobOk(queue.jobs[i])
       && ContinuesSource(queue.jobs[i], LastPage(queue.jobs[..i], queue.jobs[i].sourceSha)))
    ensures r.Pass? ==> Tracks(updated, queue.jobs[..i + 1])
  {
    updated := previousEnd;
    var job := queue.jobs[i];
    r := ValidateJob(job);
    if r.Fail? {
      return;
    }
    forall s {
      LastPageStep(queue.jobs, i, s);
    }
    if job.overlap.Some? {
      var last := if job.sourceSha in previousEnd then previousEnd[job.sourceSha] else 0;
      if !(if last == 0 then job.start == 1 else job.start == last || job.start == last + 1) {
        return Fail(GapOrExcessiveOverlap), updated;
      }
      var expected := ExpectedOverlap(job.pages, last);
      if job.overlap.value != expected {
        return Fail(OverlapDeclarationDiffers), updated;
      }
      updated := previousEnd[job.sourceSha := job.end];
    }
  }

  // ----- Which pages a source's chunks own -----

  /** `f"sha256:{source}:page:{n:06d}"`. */
  function CanonicalPageId(source: string, n: nat): string {
    "sha256:" + source + ":page:" + Pad6(n)
  }

  lemma {:induction false} CanonicalPageIdInjective(source: string, m: nat, n: nat)
    requires CanonicalPageId(source, m) == CanonicalPageId(source, n)
    ensures m == n
  {
    var prefix := "sha256:" + source + ":page:";
    assert CanonicalPageId(source, m)[|prefix|..] == Pad6(m);
    assert CanonicalPageId(source, n)[|prefix|..] == Pad6(n);
    Pad6Injective(m, n);
  }

  predicate CanonicalPages(job: Job) {
    forall k :: 0 <= k < |job.pages| ==>
      job.pages[k].pageId == CanonicalPageId(job.sourceSha, job.pages[k].pdfPage)
  }

  /** The page's number, unless its ID is declared as overlap. */
  function OwnedPage(page: Page, declared: seq<string>): seq<int> {
    if page.pageId in declared then [] else [page.pdfPage as int]
  }

  /** Page numbers of the pages whose IDs are not in `declared`. */
  function OwnedPages(pages: seq<Page>, declared: seq<string>): seq<int> {
    if pages == [] then [] else OwnedPage(pages[0], declared) + OwnedPages(pages[1..], declared)
  }

  lemma {:induction false} OwnedPagesConcat(a: seq<Page>, b: seq<Page>, declared: seq<string>)
    ensures OwnedPages(a + b, declared) == OwnedPages(a, declared) + OwnedPages(b, declared)
  {
    hide OwnedPage;
    if a == [] {
      assert a + b == b;
    } else {
      OwnedPagesConcat(a[1..], b, declared);
      assert (a + b)[1..] == a[1..] + b;
    }
  }

  lemma {:induction false} OwnedPagesSingle(page: Page, declared: seq<string>)
    ensures OwnedPages([page], declared) == OwnedPage(page, declared)
  {
  }

  /** The pages owned by a document's chunks, in queue order. */
  function QueuedPages(jobs: seq<Job>, key: string): seq<int>
    requires forall i :: 0 <= i < |jobs| ==> jobs[i].overlap.Some?
  {
    if jobs == [] then []
    else
      var job := jobs[|jobs| - 1];
      QueuedPages(jobs[..|jobs| - 1], key)
      + if job.catalogKey == key then OwnedPages(job.pages, job.overlap.value) else []
  }

  /** Declared overlap, catalog key and canonical page IDs on every job: what the audit
      requires of a queue before it uses it. */
  predicate AuditReady(queue: Queue) {
    forall i :: 0 <= i < |queue.jobs| ==> queue.jobs[i].overlap.Some? && CanonicalPages(queue.jobs[i])
  }

  /** Two documents never share a source digest. */
  predicate DistinctSources(queue: Queue) {
    forall i, j :: 0 <= i < |queue.jobs| && 0 <= j < |queue.jobs| ==>
      (queue.jobs[i].catalogKey == queue.jobs[j].catalogKey
       <==> queue.jobs[i].sourceSha == queue.jobs[j].sourceSha)
  }

  lemma {:induction false} OverlapIdMembership(source: string, pages: seq<Page>, last: nat, n: nat)
    requires forall k :: 0 <= k < |pages| ==> pages[k].pageId == CanonicalPageId(source, pages[k].pdfPage)
    requires exists k :: 0 <= k < |pages| && pages[k].pdfPage == n
    ensures CanonicalPageId(source, n) in OverlapIds(pages, last) <==> n <= last
  {
    forall m: nat | CanonicalPageId(source, m) == CanonicalPageId(source, n) ensures m == n {
      CanonicalPageIdInjective(source, m, n);
    }
    OverlapIdsAreLow(source, pages, last);
    OverlapIdsComplete(pages, last);
  }

  lemma {:induction false} OverlapIdsAreLow(source: string, pages: seq<Page>, last: nat)
    requires forall k :: 0 <= k < |pages| ==> pages[k].pageId == CanonicalPageId(source, pages[k].pdfPage)
    ensures forall id ::
      id in OverlapIds(pages, last) ==> exists m: nat :: m <= last && id == CanonicalPageId(source, m)
  {
    if pages != [] {
      OverlapIdsAreLow(source, pages[1..], last);
      if pages[0].pdfPage <= last {
        assert pages[0].pageId == CanonicalPageId(source, pages[0].pdfPage);
      }
    }
  }

  lemma {:induction false} OverlapIdsComplete(pages: seq<Page>, last: nat)
    ensures forall k :: 0 <= k < |pages| && pages[k].pdfPage <= last ==> pages[k].pageId in OverlapIds(pages, last)
  {
    if pages != [] {
      OverlapIdsComplete(pages[1..], last);
      forall k | 0 <= k < |pages| && pages[k].pdfPage <= last
        ensures pages[k].pageId in OverlapIds(pages, last)
      {
        if k > 0 {
          assert pages[1..][k - 1] == pages[k];
        }
      }
    }
  }

  /** A run of consecutive pages keeps exactly the pages above `last`. */
  lemma {:induction false} OwnedPagesOfRun(source: string, pages: seq<Page>, declared: seq<string>, lo: nat, last: nat)
    requires forall k :: 0 <= k < |pages| ==>
      && pages[k].pdfPage == lo + k
      && pages[k].pageId == CanonicalPageId(source, lo + k)
      && (pages[k].pageId in declared <==> lo + k <= last)
    ensures OwnedPages(pages, declared) == Range(if last < lo then lo else last + 1, lo + |pages|)
  {
    hide CanonicalPageId;
    if pages != [] {
      var rest := pages[1..];
      forall k | 0 <= k < |rest|
        ensures rest[k].pdfPage == lo + 1 + k && rest[k].pageId == CanonicalPageId(source, lo + 1 + k)
        ensures rest[k].pageId in declared <==> lo + 1 + k <= last
      {
        assert rest[k] == pages[k + 1];
      }
      OwnedPagesOfRun(source, rest, declared, lo + 1, last);
      RangeConcat(lo, lo + 1, lo + |pages|);
    }
  }

  lemma {:induction false} JobOwnsItsTail(job: Job, last: nat)
    requires JobOk(job) && job.overlap.Some? && CanonicalPages(job) && ContinuesSource(job, last)
    ensures last <= job.end
    ensures OwnedPages(job.pages, job.overlap.value) == Range(last + 1, job.end + 1)
  {
    assert |PageNumbers(job.pages)| == |Range(job.start, job.end + 1)|;
    forall k | 0 <= k < |job.pages|
      ensures job.pages[k].pdfPage == job.start + k
      ensures job.pages[k].pageId in job.overlap.value <==> job.start + k <= last
    {
      assert PageNumbers(job.pages)[k] == Range(job.start, job.end + 1)[k];
      OverlapIdMembership(job.sourceSha, job.pages, last, job.pages[k].pdfPage);
    }
    OwnedPagesOfRun(job.sourceSha, job.pages, job.overlap.value, job.start, last);
  }

  /** Without gap or repeat: after any prefix of an accepted queue, the pages a document's
      chunks own are exactly 1 up to the last page reached. */
  lemma {:induction false} PagesArePartitioned(queue: Queue, n: nat, j: nat)
    requires QueueAccepted(queue) && AuditReady(queue) && DistinctSources(queue)
    requires n <= |queue.jobs| && j < |queue.jobs|
    ensures QueuedPages(queue.jobs[..n], queue.jobs[j].catalogKey)
         == Range(1, LastPage(queue.jobs[..n], queue.jobs[j].sourceSha) + 1)
    decreases n
  {
    hide JobOk, ContinuesSource, CanonicalPages, OwnedPages, AgreesWithQueue;
    var key, source := queue.jobs[j].catalogKey, queue.jobs[j].sourceSha;
    if n > 0 {
      PagesArePartitioned(queue, n - 1, j);
      var job, before := queue.jobs[n - 1], queue.jobs[..n - 1];
      assert queue.jobs[..n] == before + [job];
      LastPageStep(queue.jobs, n - 1, source);
      QueuedPagesStep(before, job, key);
      if job.catalogKey == key {
        assert job.sourceSha == source;
        assert JobAdmitted(queue, n - 1);
        OwnershipStep(job, LastPage(before, source));
      }
    }
  }

  lemma {:induction false} QueuedPagesStep(jobs: seq<Job>, job: Job, key: string)
    requires forall i :: 0 <= i < |jobs| ==> jobs[i].overlap.Some?
    requires job.overlap.Some?
    ensures QueuedPages(jobs + [job], key)
         == QueuedPages(jobs, key) + if job.catalogKey == key then OwnedPages(job.pages, job.overlap.value) else []
  {
    assert (jobs + [job])[..|jobs|] == jobs;
  }

  lemma {:induction false} OwnershipStep(job: Job, last: nat)
    requires JobOk(job) && job.overlap.Some? && CanonicalPages(job) && ContinuesSource(job, last)
    ensures Range(1, last + 1) + OwnedPages(job.pages, job.overlap.value) == Range(1, job.end + 1)
  {
    JobOwnsItsTail(job, last);
    RangeConcat(1, last + 1, job.end + 1);
  }

  /** The last page of the chunk of `key` that comes last in the queue; 0 without one. */
  function LastEnd(jobs: seq<Job>, key: string): nat {
    if jobs == [] then 0
    else if jobs[|jobs| - 1].catalogKey == key then jobs[|jobs| - 1].end
    else LastEnd(jobs[..|jobs| - 1], key)
  }

  lemma {:induction false} LastEndIsLastPage(queue: Queue, n: nat, j: nat)
    requires AuditReady(queue) && DistinctSources(queue)
    requires n <= |queue.jobs| && j < |queue.jobs|
    ensures LastEnd(queue.jobs[..n], queue.jobs[j].catalogKey)
         == LastPage(queue.jobs[..n], queue.jobs[j].sourceSha)
    decreases n
  {
    if n > 0 {
      assert queue.jobs[..n][..n - 1] == queue.jobs[..n - 1];
      LastEndIsLastPage(queue, n - 1, j);
    }
  }

  /** The coverage check of the audit is, for an accepted queue, just a comparison of the
      document's last chunk with its page count. */
  lemma {:induction false} CoverageIsLastEnd(queue: Queue, j: nat, pageCount: nat)
    requires QueueAccepted(queue) && AuditReady(queue) && DistinctSources(queue)
    requires j < |queue.jobs|
    ensures QueuedPages(queue.jobs, queue.jobs[j].catalogKey) == Range(1, pageCount + 1)
       <==> LastEnd(queue.jobs, queue.jobs[j].catalogKey) == pageCount
  {
    assert queue.jobs[..|queue.jobs|] == queue.jobs;
    PagesArePartitioned(queue, |queue.jobs|, j);
    LastEndIsLastPage(queue, |queue.jobs|, j);
    var last := LastPage(queue.jobs, queue.jobs[j].sourceSha);
    assert |Range(1, last + 1)| == last && |Range(1, pageCount + 1)| == pageCount;
  }

  // ----- Every page has one owner -----

  /** The job lists the page and does not declare it as overlap. */
  predicate Owns(job: Job, pageId: string) {
    && job.overlap.Some?
    && pageId !in job.overlap.value
    && exists k :: 0 <= k < |job.pages| && job.pages[k].pageId == pageId
  }

  lemma {:induction false} DeclaredAreLow(job: Job, last: nat, k: nat)
    requires JobOk(job) && job.overlap.Some? && CanonicalPages(job) && ContinuesSource(job, last)
    requires k < |job.pages|
    ensures job.pages[k].pageId in job.overlap.value <==> job.pages[k].pdfPage <= last
    ensures job.pages[k].pdfPage == job.start + k
  {
    assert PageNumbers(job.pages)[k] == Range(job.start, job.end + 1)[k];
    OverlapIdMembership(job.sourceSha, job.pages, last, job.pages[k].pdfPage);
  }

  /** Chunks of a source never move its last page back. */
  lemma {:induction false} LastPageMonotone(queue: Queue, i: nat, j: nat, source: string)
    requires QueueAccepted(queue) && i <= j <= |queue.jobs|
    ensures LastPage(queue.jobs[..i], source) <= LastPage(queue.jobs[..j], source)
    decreases j
  {
    if i < j {
      LastPageMonotone(queue, i, j - 1, source);
      LastPageStep(queue.jobs, j - 1, source);
      assert JobAdmitted(queue, j - 1);
      var job := queue.jobs[j - 1];
      assert |PageNumbers(job.pages)| == |Range(job.start, job.end + 1)|;
    }
  }

  /** Two chunks of one source never own the same page. */
  lemma {:induction false} OwnerUnique(queue: Queue, i: nat, j: nat, pageId: string)
    requires QueueAccepted(queue) && i < |queue.jobs| && j < |queue.jobs|
    requires CanonicalPages(queue.jobs[i]) && CanonicalPages(queue.jobs[j])
    requires queue.jobs[i].sourceSha == queue.jobs[j].sourceSha
    requires Owns(queue.jobs[i], pageId) && Owns(queue.jobs[j], pageId)
    ensures i == j
  {
    if i < j {
      OwnedEarlierIsDeclared(queue, i, j, pageId);
    } else if j < i {
      OwnedEarlierIsDeclared(queue, j, i, pageId);
    }
  }

  lemma {:induction false} OwnedEarlierIsDeclared(queue: Queue, i: nat, j: nat, pageId: string)
    requires QueueAccepted(queue) && i < j < |queue.jobs|
    requires CanonicalPages(queue.jobs[i]) && CanonicalPages(queue.jobs[j])
    requires queue.jobs[i].sourceSha == queue.jobs[j].sourceSha
    requires Owns(queue.jobs[i], pageId)
    ensures !Owns(queue.jobs[j], pageId)
  {
    hide QueueAccepted, JobOk, ContinuesSource;
    if Owns(queue.jobs[j], pageId) {
      var a, b, source := queue.jobs[i], queue.jobs[j], queue.jobs[i].sourceSha;
      var k :| 0 <= k < |a.pages| && a.pages[k].pageId == pageId;
      var m :| 0 <= m < |b.pages| && b.pages[m].pageId == pageId;
      CanonicalPageIdInjective(source, a.pages[k].pdfPage, b.pages[m].pdfPage);
      AdmittedParts(queue, i);
      AdmittedParts(queue, j);
      PageBelowEnd(a, k);
      DeclaredAreLow(b, LastPage(queue.jobs[..j], source), m);
      LastPageStep(queue.jobs, i, source);
      LastPageMonotone(queue, i + 1, j, source);
    }
  }

  lemma {:induction false} AdmittedParts(queue: Queue, i: nat)
    requires QueueAccepted(queue) && i < |queue.jobs|
    ensures JobOk(queue.jobs[i])
    ensures ContinuesSource(queue.jobs[i], LastPage(queue.jobs[..i], queue.jobs[i].sourceSha))
  {
    assert JobAdmitted(queue, i);
  }

  lemma {:induction false} PageBelowEnd(job: Job, k: nat)
    requires JobOk(job) && k < |job.pages|
    ensures job.start <= job.pages[k].pdfPage <= job.end
  {
    assert PageNumbers(job.pages)[k] == Range(job.start, job.end + 1)[k];
  }
}
