/** `transcript_assembly.py`: what each book holds for a queue and a ledger snapshot, and why
    the books are right - every page has one owning chunk, completing chunks only adds pages,
    and a finished ledger makes every book whole. */
module LunaAssembly {
  import opened Wrappers
  import opened Ranges
  import opened Sorting
  import opened LunaQueue
  import opened LunaResponse
  import opened LunaLedger

  datatype BookPage = BookPage(page: PageText, chunkOrder: nat)

  datatype BookChunk = BookChunk(jobId: JobId, chunkOrder: nat, start: nat, end: nat,
                                 pageIds: seq<string>, overlap: seq<string>, response: Response)

  /** A later chunk's reading of a page an earlier chunk owns. */
  datatype OverlapReading = OverlapReading(pageId: string, chunkOrder: nat, text: Option<string>,
                                           agreesWithOwner: Option<bool>)

  /** A document's book while the audit fills it. */
  datatype Draft = Draft(pages: seq<BookPage>, chunks: seq<BookChunk>, overlaps: seq<OverlapReading>)

  const EMPTY_DRAFT := Draft([], [], [])

  // ----- What a book holds -----

  function OwnedText(page: PageText, declared: seq<string>, order: nat): seq<BookPage> {
    if page.pageId in declared then [] else [BookPage(page, order)]
  }

  function OwnedTexts(pages: seq<PageText>, declared: seq<string>, order: nat): seq<BookPage> {
    if pages == [] then []
    else
      var last := |pages| - 1;
      OwnedTexts(pages[..last], declared, order) + OwnedText(pages[last], declared, order)
  }

  /** The page the book already holds under this ID. */
  function FindPage(pages: seq<BookPage>, pageId: string): Option<BookPage> {
    if pages == [] then None
    else if pages[|pages| - 1].page.pageId == pageId then Some(pages[|pages| - 1])
    else FindPage(pages[..|pages| - 1], pageId)
  }

  function Agreement(owner: Option<BookPage>, page: PageText): Option<bool> {
    if owner.None? then None else Some(owner.value.page.text == page.text)
  }

  function OverlapTexts(pages: seq<PageText>, declared: seq<string>, order: nat,
                        held: seq<BookPage>): seq<OverlapReading> {
    if pages == [] then []
    else
      var last := |pages| - 1;
      OverlapTexts(pages[..last], declared, order, held)
      + if pages[last].pageId in declared
        then [OverlapReading(pages[last].pageId, order, pages[last].text,
                             Agreement(FindPage(held, pages[last].pageId), pages[last]))]
        else []
  }

  function Declared(job: Job): seq<string> {
    if job.overlap.Some? then job.overlap.value else []
  }

  function ChunkOf(job: Job, response: Response): BookChunk {
    BookChunk(job.jobId, OrderOf(job), job.start, job.end, response.orderedPageIds, Declared(job), response)
  }

  /** The draft of `key` after the given jobs; `readings[i]` is the attested response of job `i`,
      `None` while its chunk is not completed. */
  function DraftOf(jobs: seq<Job>, readings: seq<Option<Response>>, key: string): Draft
    requires |readings| == |jobs|
  {
    if jobs == [] then EMPTY_DRAFT
    else
      var last := |jobs| - 1;
      var job, before := jobs[last], DraftOf(jobs[..last], readings[..last], key);
      if job.catalogKey != key || readings[last].None? then before
      else
        var response := readings[last].value;
        Draft(before.pages + OwnedTexts(response.pages, Declared(job), OrderOf(job)),
              before.chunks + [ChunkOf(job, response)],
              before.overlaps + OverlapTexts(response.pages, Declared(job), OrderOf(job), before.pages))
  }

  lemma {:induction false} DraftStep(jobs: seq<Job>, readings: seq<Option<Response>>, key: string, n: nat)
    requires |readings| == |jobs| && n < |jobs|
    ensures var before := DraftOf(jobs[..n], readings[..n], key);
      DraftOf(jobs[..n + 1], readings[..n + 1], key) ==
        if jobs[n].catalogKey != key || readings[n].None? then before
        else Draft(before.pages + OwnedTexts(readings[n].value.pages, Declared(jobs[n]), OrderOf(jobs[n])),
                   before.chunks + [ChunkOf(jobs[n], readings[n].value)],
                   before.overlaps
                     + OverlapTexts(readings[n].value.pages, Declared(jobs[n]), OrderOf(jobs[n]), before.pages))
  {
    assert jobs[..n + 1][..n] == jobs[..n] && readings[..n + 1][..n] == readings[..n];
  }

  // ----- Reading completed chunks -----

  /** `read_completed_chunk` accepts: both outputs are on disk under their digests and describe
      the same admissible response. */
  predicate ChunkAttests(job: Job, record: Record, files: map<OutputPath, Payload>) {
    && record.outputs.Some?
    && var outputs := record.outputs.value;
    && outputs.responsePath in files
    && outputs.structuredPath in files
    && PayloadDigest(files[outputs.responsePath]) == outputs.responseSha
    && PayloadDigest(files[outputs.structuredPath]) == outputs.structuredSha
    && files[outputs.responsePath].ResponsePayload?
    && files[outputs.structuredPath].StructuredPayload?
    && var response := files[outputs.responsePath].response;
    && Bound(response, job)
    && StructuredBound(files[outputs.structuredPath].structured, job)
    && response.structured == Some(files[outputs.structuredPath].structured)
    && PagesBound(response, job)
  }

  datatype AuditError =
    | InvalidQueue | InvalidLedgerSnapshot | SourcesUnavailable | DuplicateDocument | CoverageDiffers
    | NotCanonicalOrder | SourceNotAttested | IdentityDiffers | NoOverlapDeclared | PageIdentityDiffers
    | MissingRecord | ChunkNotAttested | DuplicatePage | MissingPages

  method ReadCompletedChunk(job: Job, record: Record, files: map<OutputPath, Payload>)
    returns (r: Result<Response, AuditError>)
    requires record.status == Completed
    ensures r.Success? <==> ChunkAttests(job, record, files)
    ensures r.Success? ==> r.value == files[record.outputs.value.responsePath].response
  {
    hide PagesBound, Bound;
    if record.outputs.None? {
      return Failure(ChunkNotAttested);
    }
    var outputs := record.outputs.value;
    if outputs.responsePath !in files || outputs.structuredPath !in files {
      return Failure(ChunkNotAttested);
    }
    var first, second := files[outputs.responsePath], files[outputs.structuredPath];
    if PayloadDigest(first) != outputs.responseSha || PayloadDigest(second) != outputs.structuredSha {
      return Failure(ChunkNotAttested);
    }
    if !first.ResponsePayload? || !second.StructuredPayload? {
      return Failure(ChunkNotAttested);
    }
    if !Bound(first.response, job) || !StructuredBound(second.structured, job) {
      return Failure(ChunkNotAttested);
    }
    if first.response.structured != Some(second.structured) {
      return Failure(ChunkNotAttested);
    }
    var pages := ValidateResponsePages(first.response, job);
    if pages.Fail? {
      return Failure(ChunkNotAttested);
    }
    return Success(first.response);
  }

  /** The reading of one job in a ledger snapshot. */
  function ReadingOf(job: Job, ledger: Ledger, files: map<OutputPath, Payload>): Option<Response> {
    var i := IndexOf(ledger.records, job.jobId);
    if i.None? || ledger.records[i.value].status != Completed then None
    else if ChunkAttests(job, ledger.records[i.value], files)
    then Some(files[ledger.records[i.value].outputs.value.responsePath].response)
    else None
  }

  function Readings(queue: Queue, ledger: Ledger, files: map<OutputPath, Payload>): (r: seq<Option<Response>>)
    ensures |r| == |queue.jobs|
  {
    seq(|queue.jobs|, i requires 0 <= i < |queue.jobs| => ReadingOf(queue.jobs[i], ledger, files))
  }

  /** Job `i` has a record, and its outputs attest if it is completed. */
  predicate ChunkOk(queue: Queue, ledger: Ledger, files: map<OutputPath, Payload>, i: nat)
    requires i < |queue.jobs|
  {
    var k := IndexOf(ledger.records, queue.jobs[i].jobId);
    && k.Some?
    && (ledger.records[k.value].status == Completed ==> ChunkAttests(queue.jobs[i], ledger.records[k.value], files))
  }

  // ----- Adding one chunk to a book -----

  /** The dictionary of finished pages, for a page list. */
  ghost predicate Indexes(finished: map<string, BookPage>, pages: seq<BookPage>) {
    forall id :: FindPage(pages, id) == if id in finished then Some(finished[id]) else None
  }

  lemma {:induction false} FindPageAppend(pages: seq<BookPage>, more: seq<BookPage>, pageId: string)
    ensures FindPage(pages + more, pageId)
         == if FindPage(more, pageId).Some? then FindPage(more, pageId) else FindPage(pages, pageId)
    decreases |more|
  {
    if more == [] {
      assert pages + more == pages;
    } else {
      assert (pages + more)[..|pages + more| - 1] == pages + more[..|more| - 1];
      FindPageAppend(pages, more[..|more| - 1], pageId);
    }
  }

  lemma {:induction false} Lookup(finished: map<string, BookPage>, pages: seq<BookPage>, id: string)
    requires Indexes(finished, pages)
    ensures FindPage(pages, id) == if id in finished then Some(finished[id]) else None
  {
  }

  lemma {:induction false} IndexesAppend(finished: map<string, BookPage>, pages: seq<BookPage>, page: BookPage)
    requires Indexes(finished, pages)
    ensures Indexes(finished[page.page.pageId := page], pages + [page])
  {
    assert (pages + [page])[..|pages|] == pages;
  }

  predicate Lists(pages: seq<PageText>, pageId: string) {
    exists k :: 0 <= k < |pages| && pages[k].pageId == pageId
  }

  lemma {:induction false} ListsSnoc(pages: seq<PageText>, page: PageText, pageId: string)
    ensures Lists(pages + [page], pageId) <==> Lists(pages, pageId) || page.pageId == pageId
  {
    var longer := pages + [page];
    assert longer[|pages|] == page;
    if Lists(pages, pageId) {
      var k :| 0 <= k < |pages| && pages[k].pageId == pageId;
      assert longer[k].pageId == pageId;
    }
  }

  lemma {:induction false} OwnedTextsSnoc(pages: seq<PageText>, page: PageText, declared: seq<string>, order: nat)
    ensures OwnedTexts(pages + [page], declared, order)
         == OwnedTexts(pages, declared, order) + OwnedText(page, declared, order)
  {
    assert (pages + [page])[..|pages|] == pages;
  }

  lemma {:induction false} OwnedTextIds(pages: seq<PageText>, declared: seq<string>, order: nat, pageId: string)
    ensures FindPage(OwnedTexts(pages, declared, order), pageId).Some? <==> pageId !in declared && Lists(pages, pageId)
  {
    if pages != [] {
      hide Lists, OwnedTexts;
      var before, page := pages[..|pages| - 1], pages[|pages| - 1];
      assert pages == before + [page];
      OwnedTextIds(before, declared, order, pageId);
      ListsSnoc(before, page, pageId);
      OwnedTextsSnoc(before, page, declared, order);
      FindPageAppend(OwnedTexts(before, declared, order), OwnedText(page, declared, order), pageId);
    }
  }

  /** The response brings no owned page the book already has, and none twice. */
  predicate NewPages(pages: seq<PageText>, declared: seq<string>, held: seq<BookPage>) {
    && (forall k :: 0 <= k < |pages| && pages[k].pageId !in declared ==> FindPage(held, pages[k].pageId).None?)
    && (forall k, m :: 0 <= k < m < |pages| ==> pages[k].pageId != pages[m].pageId)
  }

  /** One chunk's pages into its book: owned pages are appended, pages owned by an earlier chunk
      are kept as a compared second reading. */
  method AddChunk(draft: Draft, finished: map<string, BookPage>, job: Job, response: Response)
    returns (r: Outcome<AuditError>, filled: Draft, index: map<string, BookPage>)
    requires Indexes(finished, draft.pages)
    ensures NewPages(response.pages, Declared(job), draft.pages) ==> r.Pass?
    ensures NewPages(response.pages, Declared(job), draft.pages) ==>
      && Indexes(index, filled.pages)
      && filled == Draft(draft.pages + OwnedTexts(response.pages, Declared(job), OrderOf(job)),
                         draft.chunks + [ChunkOf(job, response)],
                         draft.overlaps + OverlapTexts(response.pages, Declared(job), OrderOf(job), draft.pages))
  {
    hide NewPages, Indexes, FindPage, Declared;
    var declared, order := Declared(job), OrderOf(job);
    filled, index := draft.(chunks := draft.chunks + [ChunkOf(job, response)]), finished;
    for k := 0 to |response.pages|
      invariant filled.chunks == draft.chunks + [ChunkOf(job, response)]
      invariant filled.pages == draft.pages + OwnedTexts(response.pages[..k], declared, order)
      invariant Indexes(index, filled.pages)
      invariant NewPages(response.pages, declared, draft.pages) ==>
        filled.overlaps == draft.overlaps + OverlapTexts(response.pages[..k], declared, order, draft.pages)
    {
      var page := response.pages[k];
      assert response.pages[..k + 1][..k] == response.pages[..k];
      LookupWhileAdding(draft.pages, response.pages, declared, order, k);
      Lookup(index, filled.pages, page.pageId);
      if page.pageId in declared {
        var earlier := if page.pageId in index then Some(index[page.pageId]) else None;
        var reading := OverlapReading(page.pageId, order, page.text, Agreement(earlier, page));
        filled := filled.(overlaps := filled.overlaps + [reading]);
        continue;
      }
      if page.pageId in index {
        return Fail(DuplicatePage), filled, index;
      }
      var value := BookPage(page, order);
      IndexesAppend(index, filled.pages, value);
      filled, index := filled.(pages := filled.pages + [value]), index[page.pageId := value];
    }
    assert response.pages[..|response.pages|] == response.pages;
    r := Pass;
  }

  /** While a chunk is being added, its own owned pages never answer for a declared page, and
      its next owned page is not there yet. */
  lemma {:induction false} LookupWhileAdding(held: seq<BookPage>, pages: seq<PageText>, declared: seq<string>,
                                             order: nat, k: nat)
    requires k < |pages|
    ensures var now := held + OwnedTexts(pages[..k], declared, order);
      && (pages[k].pageId in declared ==> FindPage(now, pages[k].pageId) == FindPage(held, pages[k].pageId))
      && (NewPages(pages, declared, held) && pages[k].pageId !in declared ==> FindPage(now, pages[k].pageId).None?)
  {
    FindPageAppend(held, OwnedTexts(pages[..k], declared, order), pages[k].pageId);
    OwnedTextIds(pages[..k], declared, order, pages[k].pageId);
  }

  // ----- Which pages a book holds -----

  /** Each reading is bound, page by page, to its job; every job declares its overlap. */
  predicate BoundReadings(jobs: seq<Job>, readings: seq<Option<Response>>) {
    && |readings| == |jobs|
    && forall i :: 0 <= i < |jobs| ==>
         jobs[i].overlap.Some? && (readings[i].Some? ==> PagesBound(readings[i].value, jobs[i]))
  }

  lemma {:induction false} OwnedTextsAreOwned(job: Job, response: Response, pageId: string)
    requires job.overlap.Some? && PagesBound(response, job)
    ensures FindPage(OwnedTexts(response.pages, Declared(job), OrderOf(job)), pageId).Some? <==> Owns(job, pageId)
  {
    OwnedTextIds(response.pages, Declared(job), OrderOf(job), pageId);
    if Owns(job, pageId) {
      var k :| 0 <= k < |job.pages| && job.pages[k].pageId == pageId;
      assert response.pages[k].pageId == pageId;
    }
    if exists k :: 0 <= k < |response.pages| && response.pages[k].pageId == pageId {
      var k :| 0 <= k < |response.pages| && response.pages[k].pageId == pageId;
      assert job.pages[k].pageId == pageId;
    }
  }

  /** A completed chunk of document `key` among the first `n` jobs owns this page. */
  predicate Delivered(jobs: seq<Job>, readings: seq<Option<Response>>, key: string, n: nat, pageId: string)
    requires |readings| == |jobs| && n <= |jobs|
  {
    exists m :: 0 <= m < n && jobs[m].catalogKey == key && readings[m].Some? && Owns(jobs[m], pageId)
  }

  /** The book holds a page exactly when a completed chunk that owns it has been added. */
  lemma {:induction false} DraftHolds(jobs: seq<Job>, readings: seq<Option<Response>>, key: string, n: nat,
                                      pageId: string)
    requires |readings| == |jobs| && n <= |jobs| && BoundReadings(jobs, readings)
    ensures FindPage(DraftOf(jobs[..n], readings[..n], key).pages, pageId).Some?
       <==> Delivered(jobs, readings, key, n, pageId)
  {
    hide BoundReadings, Owns;
    if n > 0 {
      hide Delivered, FindPage, DraftOf, OwnedTexts;
      DraftHolds(jobs, readings, key, n - 1, pageId);
      DraftHoldsStep(jobs, readings, key, n - 1, pageId);
      DeliveredStep(jobs, readings, key, n - 1, pageId);
    }
  }

  lemma {:induction false} DeliveredStep(jobs: seq<Job>, readings: seq<Option<Response>>, key: string, n: nat,
                                         pageId: string)
    requires |readings| == |jobs| && n < |jobs|
    ensures Delivered(jobs, readings, key, n + 1, pageId)
       <==> Delivered(jobs, readings, key, n, pageId)
            || (jobs[n].catalogKey == key && readings[n].Some? && Owns(jobs[n], pageId))
  {
    hide Owns;
  }

  lemma {:induction false} DraftHoldsStep(jobs: seq<Job>, readings: seq<Option<Response>>, key: string, n: nat,
                                          pageId: string)
    requires BoundReadings(jobs, readings) && n < |jobs|
    ensures var adds := jobs[n].catalogKey == key && readings[n].Some? && Owns(jobs[n], pageId);
      FindPage(DraftOf(jobs[..n + 1], readings[..n + 1], key).pages, pageId)
      == if adds then FindPage(OwnedTexts(readings[n].value.pages, Declared(jobs[n]), OrderOf(jobs[n])), pageId)
         else FindPage(DraftOf(jobs[..n], readings[..n], key).pages, pageId)
    ensures jobs[n].catalogKey == key && readings[n].Some? && Owns(jobs[n], pageId) ==>
      FindPage(OwnedTexts(readings[n].value.pages, Declared(jobs[n]), OrderOf(jobs[n])), pageId).Some?
  {
    hide FindPage, DraftOf, OwnedTexts, PagesBound, Owns, Declared;
    DraftStep(jobs, readings, key, n);
    if jobs[n].catalogKey == key && readings[n].Some? {
      var response := readings[n].value;
      OwnedTextsAreOwned(jobs[n], response, pageId);
      FindPageAppend(DraftOf(jobs[..n], readings[..n], key).pages,
                     OwnedTexts(response.pages, Declared(jobs[n]), OrderOf(jobs[n])), pageId);
    }
  }

  /** Jobs of one document come from one source, with canonical page IDs. */
  predicate OneSourcePerDocument(jobs: seq<Job>) {
    && (forall i :: 0 <= i < |jobs| ==> CanonicalPages(jobs[i]))
    && (forall i, j :: 0 <= i < |jobs| && 0 <= j < |jobs| && jobs[i].catalogKey == jobs[j].catalogKey ==>
          jobs[i].sourceSha == jobs[j].sourceSha)
  }

  lemma {:induction false} DistinctResponsePages(job: Job, response: Response, k: nat, m: nat)
    requires JobOk(job) && CanonicalPages(job) && PagesBound(response, job)
    requires k < m < |response.pages|
    ensures response.pages[k].pageId != response.pages[m].pageId
  {
    assert PageNumbers(job.pages)[k] == Range(job.start, job.end + 1)[k];
    assert PageNumbers(job.pages)[m] == Range(job.start, job.end + 1)[m];
    if response.pages[k].pageId == response.pages[m].pageId {
      CanonicalPageIdInjective(job.sourceSha, job.pages[k].pdfPage, job.pages[m].pdfPage);
    }
  }

  /** The duplicate-page error is unreachable: an owned page of the next chunk is never in the
      book yet. */
  lemma {:induction false} OwnedPagesAreNew(queue: Queue, jobs: seq<Job>, readings: seq<Option<Response>>, n: nat)
    requires QueueAccepted(queue) && n < |queue.jobs| && jobs == queue.jobs[..n + 1]
    requires BoundReadings(jobs, readings) && OneSourcePerDocument(jobs)
    requires readings[n].Some?
    ensures NewPages(readings[n].value.pages, Declared(jobs[n]),
                     DraftOf(jobs[..n], readings[..n], jobs[n].catalogKey).pages)
  {
    hide QueueAccepted, JobOk;
    var job, response := jobs[n], readings[n].value;
    AdmittedParts(queue, n);
    forall k, m | 0 <= k < m < |response.pages|
      ensures response.pages[k].pageId != response.pages[m].pageId
    {
      DistinctResponsePages(job, response, k, m);
    }
    forall k | 0 <= k < |response.pages| && response.pages[k].pageId !in Declared(job)
      ensures FindPage(DraftOf(jobs[..n], readings[..n], job.catalogKey).pages, response.pages[k].pageId).None?
    {
      var pageId := response.pages[k].pageId;
      assert job.pages[k].pageId == pageId;
      DraftHolds(jobs, readings, job.catalogKey, n, pageId);
      if Delivered(jobs, readings, job.catalogKey, n, pageId) {
        var m :| 0 <= m < n && jobs[m].catalogKey == job.catalogKey && readings[m].Some? && Owns(jobs[m], pageId);
        OwnerUnique(queue, m, n, pageId);
      }
    }
  }

  // ----- The audit -----

  datatype Artifact = Artifact(key: string, order: nat, sha256: string, bytes: nat, path: string, pageCount: nat,
                               ready: bool)

  datatype Book = Book(artifact: Artifact, draft: Draft, complete: bool)

  datatype Report = Report(
    complete: bool, chunksExpected: nat, chunksCompleted: nat, documentsExpected: nat,
    documentsComplete: nat, pagesExpected: nat, pagesCompleted: nat, disagreements: nat)

  function SourceOf(artifacts: seq<Artifact>, key: string): Option<Artifact> {
    if artifacts == [] then None
    else if artifacts[|artifacts| - 1].key == key then Some(artifacts[|artifacts| - 1])
    else SourceOf(artifacts[..|artifacts| - 1], key)
  }

  predicate BeforeOrSame(a: Job, b: Job) {
    || a.catalogOrder < b.catalogOrder
    || (a.catalogOrder == b.catalogOrder && a.start < b.start)
    || (a.catalogOrder == b.catalogOrder && a.start == b.start && a.end <= b.end)
  }

  predicate JobMatches(job: Job, artifact: Artifact) {
    && job.sourceSha == artifact.sha256
    && job.sourceBytes == artifact.bytes
    && job.catalogOrder == artifact.order
    && job.originalPdf == PdfRef(artifact.path, artifact.sha256, artifact.bytes)
  }

  /** Job `i` agrees with its acquired source and names its pages canonically. */
  predicate JobAttests(queue: Queue, artifacts: seq<Artifact>, i: nat)
    requires i < |queue.jobs|
  {
    var source := SourceOf(artifacts, queue.jobs[i].catalogKey);
    && source.Some?
    && JobMatches(queue.jobs[i], source.value)
    && queue.jobs[i].overlap.Some?
    && CanonicalPages(queue.jobs[i])
  }

  /** Everything the audit checks before it walks the chunks. */
  predicate SourcesOk(queue: Queue, artifacts: seq<Artifact>, attested: set<string>) {
    && (forall k :: 0 <= k < |artifacts| ==> artifacts[k].ready && artifacts[k].path in attested)
    && (forall k, m :: 0 <= k < m < |artifacts| ==> artifacts[k].key != artifacts[m].key)
    && (forall k :: 0 <= k < |artifacts| ==>
          exists i :: 0 <= i < |queue.jobs| && queue.jobs[i].catalogKey == artifacts[k].key)
    && (forall i :: 0 <= i < |queue.jobs| ==> SourceOf(artifacts, queue.jobs[i].catalogKey).Some?)
    && (forall i, j :: 0 <= i < j < |queue.jobs| ==> BeforeOrSame(queue.jobs[i], queue.jobs[j]))
  }

  predicate JobsOk(queue: Queue, artifacts: seq<Artifact>, n: nat)
    requires n <= |queue.jobs|
  {
    forall i :: 0 <= i < n ==> JobAttests(queue, artifacts, i)
  }

  predicate ChunksOk(queue: Queue, ledger: Ledger, files: map<OutputPath, Payload>, n: nat)
    requires n <= |queue.jobs|
  {
    forall i :: 0 <= i < n ==> ChunkOk(queue, ledger, files, i)
  }

  /** Every document's chunks own exactly its pages. */
  predicate CoverageOk(queue: Queue, artifacts: seq<Artifact>) {
    && (forall i :: 0 <= i < |queue.jobs| ==> queue.jobs[i].overlap.Some?)
    && forall k :: 0 <= k < |artifacts| ==>
         QueuedPages(queue.jobs, artifacts[k].key) == Range(1, artifacts[k].pageCount + 1)
  }

  predicate AuditAccepts(queue: Queue, ledger: Ledger, artifacts: seq<Artifact>, attested: set<string>,
                         files: map<OutputPath, Payload>)
  {
    && QueueAccepted(queue)
    && ValidLedger(ledger, queue)
    && SourcesOk(queue, artifacts, attested)
    && JobsOk(queue, artifacts, |queue.jobs|)
    && ChunksOk(queue, ledger, files, |queue.jobs|)
    && CoverageOk(queue, artifacts)
  }

  function BookNumbers(pages: seq<BookPage>): (r: seq<int>)
    ensures |r| == |pages| && forall k :: 0 <= k < |r| ==> r[k] == pages[k].page.pdfPage
  {
    seq(|pages|, k requires 0 <= k < |pages| => pages[k].page.pdfPage)
  }

  function BookOf(artifact: Artifact, jobs: seq<Job>, readings: seq<Option<Response>>): Book
    requires |readings| == |jobs|
  {
    var draft := DraftOf(jobs, readings, artifact.key);
    Book(artifact, draft, BookNumbers(draft.pages) == Range(1, artifact.pageCount + 1))
  }

  /** The books in acquisition order, before they are sorted by catalog order. */
  function UnsortedBooks(artifacts: seq<Artifact>, jobs: seq<Job>, readings: seq<Option<Response>>): (r: seq<Book>)
    requires |readings| == |jobs|
    ensures |r| == |artifacts|
  {
    seq(|artifacts|, k requires 0 <= k < |artifacts| => BookOf(artifacts[k], jobs, readings))
  }

  predicate EarlierBook(a: Book, b: Book) {
    a.artifact.order <= b.artifact.order
  }

  function BooksOf(artifacts: seq<Artifact>, jobs: seq<Job>, readings: seq<Option<Response>>): seq<Book>
    requires |readings| == |jobs|
  {
    SortBy(UnsortedBooks(artifacts, jobs, readings), EarlierBook)
  }

  function CompletedCount(readings: seq<Option<Response>>): (n: nat)
    ensures n <= |readings|
    ensures n == |readings| <==> forall i :: 0 <= i < |readings| ==> readings[i].Some?
  {
    if readings == [] then 0
    else CompletedCount(readings[..|readings| - 1]) + if readings[|readings| - 1].Some? then 1 else 0
  }

  function CompleteBooks(books: seq<Book>): (n: nat)
    ensures n <= |books|
    ensures n == |books| <==> forall k :: 0 <= k < |books| ==> books[k].complete
  {
    if books == [] then 0
    else CompleteBooks(books[..|books| - 1]) + if books[|books| - 1].complete then 1 else 0
  }

  function TotalPages(artifacts: seq<Artifact>): nat {
    if artifacts == [] then 0 else TotalPages(artifacts[..|artifacts| - 1]) + artifacts[|artifacts| - 1].pageCount
  }

  function HeldPages(books: seq<Book>): nat {
    if books == [] then 0 else HeldPages(books[..|books| - 1]) + |books[|books| - 1].draft.pages|
  }

  function Disagreeing(overlaps: seq<OverlapReading>): nat {
    if overlaps == [] then 0
    else Disagreeing(overlaps[..|overlaps| - 1])
         + if overlaps[|overlaps| - 1].agreesWithOwner == Some(false) then 1 else 0
  }

  function Disagreements(books: seq<Book>): nat {
    if books == [] then 0
    else Disagreements(books[..|books| - 1]) + Disagreeing(books[|books| - 1].draft.overlaps)
  }

  function ReportOf(artifacts: seq<Artifact>, readings: seq<Option<Response>>, books: seq<Book>): Report {
    Report(CompletedCount(readings) == |readings| && CompleteBooks(books) == |books|,
           |readings|, CompletedCount(readings), |books|, CompleteBooks(books),
           TotalPages(artifacts), HeldPages(books), Disagreements(books))
  }

  lemma {:induction false} SourceOfKey(artifacts: seq<Artifact>, key: string)
    ensures SourceOf(artifacts, key).Some? ==>
      SourceOf(artifacts, key).value in artifacts && SourceOf(artifacts, key).value.key == key
  {
    if artifacts != [] {
      SourceOfKey(artifacts[..|artifacts| - 1], key);
    }
  }

  /** The walk's working state: a draft, its page dictionary and the queued pages of every
      document. */
  datatype Walk = Walk(drafts: map<string, Draft>, finished: map<string, map<string, BookPage>>, queued: map<string,
                       seq<int>>)

  ghost predicate Walked(walk: Walk, jobs: seq<Job>, readings: seq<Option<Response>>, keys: set<string>)
  {
    && |readings| == |jobs|
    && (forall i :: 0 <= i < |jobs| ==> jobs[i].overlap.Some?)
    && walk.drafts.Keys == keys && walk.finished.Keys == keys && walk.queued.Keys == keys
    && (forall key :: key in keys ==> KeyWalked(walk, jobs, readings, key))
  }

  ghost predicate KeyWalked(walk: Walk, jobs: seq<Job>, readings: seq<Option<Response>>, key: string)
    requires |readings| == |jobs| && forall i :: 0 <= i < |jobs| ==> jobs[i].overlap.Some?
    requires key in walk.drafts && key in walk.finished && key in walk.queued
  {
    && walk.drafts[key] == DraftOf(jobs, readings, key)
    && Indexes(walk.finished[key], walk.drafts[key].pages)
    && walk.queued[key] == QueuedPages(jobs, key)
  }

  method QueuedOf(job: Job, declared: seq<string>) returns (pages: seq<int>)
    ensures pages == OwnedPages(job.pages, declared)
  {
    pages := [];
    for k := 0 to |job.pages|
      invariant pages == OwnedPages(job.pages[..k], declared)
    {
      hide OwnedPages;
      assert job.pages[..k + 1] == job.pages[..k] + [job.pages[k]];
      OwnedPagesConcat(job.pages[..k], [job.pages[k]], declared);
      OwnedPagesSingle(job.pages[k], declared);
      if job.pages[k].pageId !in declared {
        pages := pages + [job.pages[k].pdfPage];
      }
    }
    assert job.pages[..|job.pages|] == job.pages;
  }

  lemma {:induction false} AttestedPrefix(queue: Queue, ledger: Ledger, artifacts: seq<Artifact>, files: map<OutputPath,
                                          Payload>, n: nat)
    requires n <= |queue.jobs| && JobsOk(queue, artifacts, n)
    ensures BoundReadings(queue.jobs[..n], Readings(queue, ledger, files)[..n])
    ensures OneSourcePerDocument(queue.jobs[..n])
  {
    hide PagesBound, Bound;
    var jobs, readings := queue.jobs[..n], Readings(queue, ledger, files)[..n];
    forall k | 0 <= k < n
      ensures jobs[k].overlap.Some? && CanonicalPages(jobs[k])
      ensures readings[k].Some? ==> PagesBound(readings[k].value, jobs[k])
      ensures SourceOf(artifacts, jobs[k].catalogKey).Some?
      ensures jobs[k].sourceSha == SourceOf(artifacts, jobs[k].catalogKey).value.sha256
    {
      assert JobAttests(queue, artifacts, k);
      assert readings[k] == ReadingOf(queue.jobs[k], ledger, files);
    }
  }

  /** One job of the walk: check it against its source, note the pages it queues, and add its
      chunk to its book if it is completed. */
  method WalkJob(queue: Queue, ledger: Ledger, artifacts: seq<Artifact>, files: map<OutputPath, Payload>,
                 walk: Walk, ghost keys: set<string>, i: nat)
    returns (r: Result<Walk, AuditError>, reading: Option<Response>)
    requires QueueAccepted(queue) && i < |queue.jobs| && queue.jobs[i].catalogKey in keys
    requires JobsOk(queue, artifacts, i)
    requires Walked(walk, queue.jobs[..i], Readings(queue, ledger, files)[..i], keys)
    ensures r.Success? <==> JobAttests(queue, artifacts, i) && ChunkOk(queue, ledger, files, i)
    ensures r.Success? ==>
      && reading == Readings(queue, ledger, files)[i]
      && Walked(r.value, queue.jobs[..i + 1], Readings(queue, ledger, files)[..i + 1], keys)
    ensures r.Failure? ==> r.error != DuplicatePage
  {
    hide QueueAccepted, ChunkAttests, CanonicalPages, Indexes, DraftOf, QueuedPages, PagesBound;
    reading := None;
    ghost var readings := Readings(queue, ledger, files);
    assert readings[i] == ReadingOf(queue.jobs[i], ledger, files);
    var job := queue.jobs[i];
    var key := job.catalogKey;
    var source := SourceOf(artifacts, key);
    if source.None? || !JobMatches(job, source.value) {
      return Failure(IdentityDiffers), reading;
    }
    if job.overlap.None? {
      return Failure(NoOverlapDeclared), reading;
    }
    if !CanonicalPages(job) {
      return Failure(PageIdentityDiffers), reading;
    }
    var owned := QueuedOf(job, job.overlap.value);
    var next := walk.(queued := walk.queued[key := walk.queued[key] + owned]);
    var k := IndexOf(ledger.records, job.jobId);
    if k.None? {
      return Failure(MissingRecord), reading;
    }
    var record := ledger.records[k.value];
    if record.status == Completed {
      var chunk := ReadCompletedChunk(job, record, files);
      if chunk.Failure? {
        return Failure(ChunkNotAttested), reading;
      }
      reading := Some(chunk.value);
      assert reading == readings[i];
      var added, filled, index := AddChunk(walk.drafts[key], walk.finished[key], job, chunk.value);
      NextPagesNew(queue, ledger, artifacts, files, i);
      if added.Fail? {
        return Failure(DuplicatePage), reading;
      }
      next := next.(drafts := walk.drafts[key := filled], finished := walk.finished[key := index]);
    }
    assert JobAttests(queue, artifacts, i);
    WalkAdvances(walk, next, queue.jobs, readings, keys, i);
    r := Success(next);
  }

  lemma {:induction false} NextPagesNew(queue: Queue, ledger: Ledger, artifacts: seq<Artifact>, files: map<OutputPath,
                                        Payload>, i: nat)
    requires QueueAccepted(queue) && i < |queue.jobs|
    requires JobsOk(queue, artifacts, i) && JobAttests(queue, artifacts, i)
    requires Readings(queue, ledger, files)[i].Some?
    ensures var readings := Readings(queue, ledger, files);
      NewPages(readings[i].value.pages, Declared(queue.jobs[i]),
               DraftOf(queue.jobs[..i], readings[..i], queue.jobs[i].catalogKey).pages)
  {
    hide QueueAccepted, NewPages, DraftOf, ReadingOf, JobAttests;
    AttestedPrefix(queue, ledger, artifacts, files, i + 1);
    var jobs, readings := queue.jobs[..i + 1], Readings(queue, ledger, files)[..i + 1];
    OwnedPagesAreNew(queue, jobs, readings, i);
    assert jobs[..i] == queue.jobs[..i] && readings[..i] == Readings(queue, ledger, files)[..i];
  }

  /** Updating one document's entries as `DraftOf` prescribes keeps the walk on course. */
  lemma {:induction false} WalkAdvances(walk: Walk, next: Walk, jobs: seq<Job>, readings: seq<Option<Response>>,
                                        keys: set<string>, i: nat)
    requires |readings| == |jobs| && i < |jobs| && Walked(walk, jobs[..i], readings[..i], keys)
    requires jobs[i].catalogKey in keys && jobs[i].overlap.Some?
    requires next.queued == walk.queued[jobs[i].catalogKey :=
      walk.queued[jobs[i].catalogKey] + OwnedPages(jobs[i].pages, jobs[i].overlap.value)]
    requires readings[i].None? ==> next.drafts == walk.drafts && next.finished == walk.finished
    requires readings[i].Some? ==>
      var key, before := jobs[i].catalogKey, walk.drafts[jobs[i].catalogKey];
      && next.drafts.Keys == keys && next.finished.Keys == keys
      && next.drafts == walk.drafts[key :=
           Draft(before.pages + OwnedTexts(readings[i].value.pages, Declared(jobs[i]), OrderOf(jobs[i])),
                 before.chunks + [ChunkOf(jobs[i], readings[i].value)],
                 before.overlaps
                   + OverlapTexts(readings[i].value.pages, Declared(jobs[i]), OrderOf(jobs[i]), before.pages))]
      && next.finished == walk.finished[key := next.finished[key]]
      && Indexes(next.finished[key], next.drafts[key].pages)
    ensures Walked(next, jobs[..i + 1], readings[..i + 1], keys)
  {
    hide Indexes, OwnedTexts, OverlapTexts, OwnedPages, DraftOf, QueuedPages;
    assert jobs[..i + 1] == jobs[..i] + [jobs[i]];
    forall key | key in keys
      ensures KeyWalked(next, jobs[..i + 1], readings[..i + 1], key)
    {
      assert KeyWalked(walk, jobs[..i], readings[..i], key);
      DraftStep(jobs, readings, key, i);
      QueuedPagesStep(jobs[..i], jobs[i], key);
    }
  }

  /** Walk every chunk in queue order. */
  method WalkJobs(queue: Queue, ledger: Ledger, artifacts: seq<Artifact>, files: map<OutputPath, Payload>,
                  keys: set<string>)
    returns (r: Result<Walk, AuditError>, readings: seq<Option<Response>>)
    requires QueueAccepted(queue)
    requires forall i :: 0 <= i < |queue.jobs| ==> queue.jobs[i].catalogKey in keys
    ensures r.Success? <==>
      JobsOk(queue, artifacts, |queue.jobs|) && ChunksOk(queue, ledger, files, |queue.jobs|)
    ensures r.Success? ==>
      && readings == Readings(queue, ledger, files)
      && Walked(r.value, queue.jobs, readings, keys)
    ensures r.Failure? ==> r.error != DuplicatePage
  {
    hide QueueAccepted, JobAttests, ChunkOk, ReadingOf, Readings, Walked;
    var jobs := queue.jobs;
    var walk := Walk(map key | key in keys :: EMPTY_DRAFT, map key | key in keys :: map[], map key | key in keys :: []);
    readings := [];
    NothingWalked(walk, keys);
    for i := 0 to |jobs|
      invariant readings == Readings(queue, ledger, files)[..i]
      invariant Walked(walk, jobs[..i], readings, keys)
      invariant JobsOk(queue, artifacts, i) && ChunksOk(queue, ledger, files, i)
    {
      var step, reading := WalkJob(queue, ledger, artifacts, files, walk, keys, i);
      if step.Failure? {
        return Failure(step.error), readings;
      }
      walk, readings := step.value, readings + [reading];
    }
    assert jobs[..|jobs|] == jobs && readings == Readings(queue, ledger, files);
    r := Success(walk);
  }

  lemma {:induction false} NothingWalked(walk: Walk, keys: set<string>)
    requires walk.drafts == map key | key in keys :: EMPTY_DRAFT
    requires walk.finished == map key | key in keys :: map[]
    requires walk.queued == map key | key in keys :: []
    ensures Walked(walk, [], [], keys)
  {
  }

  /** Audit a ledger snapshot and return its report with one book per document. */
  method AuditTranscripts(queue: Queue, ledger: Ledger, artifacts: seq<Artifact>, attested: set<string>,
                          files: map<OutputPath, Payload>)
    returns (r: Result<(Report, seq<Book>), AuditError>)
    ensures r.Success? <==> AuditAccepts(queue, ledger, artifacts, attested, files)
    ensures r.Success? ==>
      var readings := Readings(queue, ledger, files);
      && r.value.1 == BooksOf(artifacts, queue.jobs, readings)
      && r.value.0 == ReportOf(artifacts, readings, r.value.1)
    ensures r.Failure? ==> r.error != DuplicatePage
  {
    hide QueueAccepted, ValidLedger, JobsOk, ChunksOk, SourcesOk, ReadingOf, Readings, ReportOf, SortBy, DraftOf,
      QueuedPages, Indexes;
    var admitted := ValidateJobs(queue);
    if admitted.Fail? {
      return Failure(InvalidQueue);
    }
    if !ValidLedger(ledger, queue) {
      return Failure(InvalidLedgerSnapshot);
    }
    if !SourcesOk(queue, artifacts, attested) {
      return Failure(SourcesUnavailable);
    }
    var keys := set k | 0 <= k < |artifacts| :: artifacts[k].key;
    KeysCover(queue, artifacts, attested, keys);
    var walked, readings := WalkJobs(queue, ledger, artifacts, files, keys);
    if walked.Failure? {
      return Failure(walked.error);
    }
    var walk := walked.value;
    forall k | 0 <= k < |artifacts|
      ensures artifacts[k].key in keys && KeyWalked(walk, queue.jobs, readings, artifacts[k].key)
    {
    }
    if exists k :: 0 <= k < |artifacts| && walk.queued[artifacts[k].key] != Range(1, artifacts[k].pageCount + 1) {
      return Failure(MissingPages);
    }
    var books := seq(|artifacts|, k requires 0 <= k < |artifacts| && artifacts[k].key in walk.drafts =>
      Book(artifacts[k], walk.drafts[artifacts[k].key],
           BookNumbers(walk.drafts[artifacts[k].key].pages) == Range(1, artifacts[k].pageCount + 1)));
    assert books == UnsortedBooks(artifacts, queue.jobs, readings);
    var ordered := SortBy(books, EarlierBook);
    r := Success((ReportOf(artifacts, readings, ordered), ordered));
  }

  lemma {:induction false} KeysCover(queue: Queue, artifacts: seq<Artifact>, attested: set<string>, keys: set<string>)
    requires SourcesOk(queue, artifacts, attested)
    requires keys == set k | 0 <= k < |artifacts| :: artifacts[k].key
    ensures forall i :: 0 <= i < |queue.jobs| ==> queue.jobs[i].catalogKey in keys
  {
    forall i | 0 <= i < |queue.jobs|
      ensures queue.jobs[i].catalogKey in keys
    {
      SourceOfKey(artifacts, queue.jobs[i].catalogKey);
    }
  }
}
