/** What the audit's books and report say, in terms of the queue and the responses on disk: where
    every page, every overlap reading and every chunk of a book comes from, and what each number of
    the report counts. */
module LunaReport {
  import opened Wrappers
  import opened Ranges
  import opened Sorting
  import opened LunaQueue
  import opened LunaResponse
  import opened LunaLedger
  import opened LunaAssembly
  import opened LunaBooks

  // ----- What an audit accepts -----

  /** A completed chunk attests: both recorded files are stored under the recorded digests, and hold a
      response to this job and the very transcript inside it. */
  lemma {:induction false} ChunkAttestsIs(job: Job, record: Record, files: map<OutputPath, Payload>)
    ensures ChunkAttests(job, record, files) <==>
      && record.outputs.Some?
      && var outputs := record.outputs.value;
      && outputs.responsePath in files && outputs.structuredPath in files
      && var first, second := files[outputs.responsePath], files[outputs.structuredPath];
      && outputs.responseSha == PayloadDigest(first) && outputs.structuredSha == PayloadDigest(second)
      && first.ResponsePayload? && second.StructuredPayload?
      && first.response.structured == Some(second.structured)
      && Admissible(first.response, job) && PagesBound(first.response, job)
  {
    hide PagesBound;
  }

  /** The acquired document of a job. */
  predicate FromDocument(job: Job, artifact: Artifact) {
    && artifact.key == job.catalogKey && artifact.order == job.catalogOrder
    && artifact.sha256 == job.sourceSha == job.originalPdf.sha256
    && artifact.bytes == job.sourceBytes == job.originalPdf.bytes
    && artifact.path == job.originalPdf.path
  }

  predicate Named(key: string, artifacts: seq<Artifact>) {
    exists k :: 0 <= k < |artifacts| && artifacts[k].key == key
  }

  predicate Queued(key: string, jobs: seq<Job>) {
    exists i :: 0 <= i < |jobs| && jobs[i].catalogKey == key
  }

  /** The documents of an audit are ready and attested, each with a key of its own that some job names. */
  predicate DocumentsAre(jobs: seq<Job>, artifacts: seq<Artifact>, attested: set<string>) {
    && (forall k :: 0 <= k < |artifacts| ==>
          artifacts[k].ready && artifacts[k].path in attested && Queued(artifacts[k].key, jobs))
    && (forall k, m :: 0 <= k < m < |artifacts| ==> artifacts[k].key != artifacts[m].key)
  }

  /** The jobs name documents, and stand in the order of catalog, first page and last page. */
  predicate JobsAre(jobs: seq<Job>, artifacts: seq<Artifact>) {
    && (forall i :: 0 <= i < |jobs| ==> Named(jobs[i].catalogKey, artifacts))
    && (forall i, j :: 0 <= i < j < |jobs| ==> InOrder(jobs[i], jobs[j]))
  }

  lemma {:induction false} SourcesAre(queue: Queue, artifacts: seq<Artifact>, attested: set<string>)
    ensures SourcesOk(queue, artifacts, attested) <==>
      DocumentsAre(queue.jobs, artifacts, attested) && JobsAre(queue.jobs, artifacts)
  {
    hide SourceOf, BeforeOrSame, InOrder, Named;
    forall i | 0 <= i < |queue.jobs|
      ensures SourceOf(artifacts, queue.jobs[i].catalogKey).Some? <==> Named(queue.jobs[i].catalogKey, artifacts)
    {
      SourceFound(artifacts, queue.jobs[i].catalogKey);
    }
    forall i, j | 0 <= i < j < |queue.jobs|
      ensures BeforeOrSame(queue.jobs[i], queue.jobs[j]) <==> InOrder(queue.jobs[i], queue.jobs[j])
    {
      BeforeIs(queue.jobs[i], queue.jobs[j]);
    }
  }

  lemma {:induction false} BeforeIs(a: Job, b: Job)
    ensures BeforeOrSame(a, b) <==> InOrder(a, b)
  {
  }

  /** Lexicographic in catalog order, first page, last page. */
  predicate InOrder(a: Job, b: Job) {
    if a.catalogOrder != b.catalogOrder then a.catalogOrder < b.catalogOrder
    else if a.start != b.start then a.start < b.start
    else a.end <= b.end
  }

  lemma {:induction false} SourceFound(artifacts: seq<Artifact>, key: string)
    ensures SourceOf(artifacts, key).Some? <==> Named(key, artifacts)
    ensures SourceOf(artifacts, key).Some? ==>
      SourceOf(artifacts, key).value in artifacts && SourceOf(artifacts, key).value.key == key
  {
    if artifacts != [] {
      var front := artifacts[..|artifacts| - 1];
      SourceFound(front, key);
      if k :| 0 <= k < |front| && front[k].key == key {
        assert artifacts[k].key == key;
      }
    }
  }

  /** A job of an audit comes from an acquired document, declares its overlap, and names its pages
      after the document. */
  lemma {:induction false} JobAttestsIs(queue: Queue, artifacts: seq<Artifact>, i: nat)
    requires i < |queue.jobs|
    requires forall k, m :: 0 <= k < m < |artifacts| ==> artifacts[k].key != artifacts[m].key
    ensures JobAttests(queue, artifacts, i) <==>
      && (exists k :: 0 <= k < |artifacts| && FromDocument(queue.jobs[i], artifacts[k]))
      && queue.jobs[i].overlap.Some?
      && (forall p :: 0 <= p < |queue.jobs[i].pages| ==>
            var page := queue.jobs[i].pages[p];
            page.pageId == "sha256:" + queue.jobs[i].sourceSha + ":page:" + Pad6(page.pdfPage))
  {
    hide SourceOf, Pad6;
    SourceFound(artifacts, queue.jobs[i].catalogKey);
  }

  /** A chunk of an audit has a record, and attests if the record is completed. */
  lemma {:induction false} ChunkIs(queue: Queue, ledger: Ledger, files: map<OutputPath, Payload>, i: nat)
    requires i < |queue.jobs| && ValidLedger(ledger, queue)
    ensures ChunkOk(queue, ledger, files, i) <==> exists k ::
      && 0 <= k < |ledger.records| && ledger.records[k].jobId == queue.jobs[i].jobId
      && (ledger.records[k].status == Completed ==> ChunkAttests(queue.jobs[i], ledger.records[k], files))
  {
    hide QueueAccepted, ChunkAttests, SummaryOf, RecordOk;
  }

  /** What a chunk adds to its book is the response on disk. */
  lemma {:induction false} ReadingIs(queue: Queue, ledger: Ledger, files: map<OutputPath, Payload>, i: nat, k: nat)
    requires i < |queue.jobs| && ValidLedger(ledger, queue)
    requires k < |ledger.records| && ledger.records[k].jobId == queue.jobs[i].jobId
    ensures Readings(queue, ledger, files)[i] ==
      if ledger.records[k].status == Completed && ChunkAttests(queue.jobs[i], ledger.records[k], files)
      then Some(files[ledger.records[k].outputs.value.responsePath].response)
      else None
  {
    hide QueueAccepted, ChunkAttests, SummaryOf, RecordOk;
    assert IndexOf(ledger.records, queue.jobs[i].jobId) == Some(k);
  }

  /** What an audit accepts, all in all: a valid queue and ledger, its documents and jobs, every job and
      chunk, and chunks that own each document's pages from the first to the last. */
  lemma {:induction false} AuditIff(queue: Queue, ledger: Ledger, artifacts: seq<Artifact>, attested: set<string>,
                                    files: map<OutputPath, Payload>)
    ensures AuditAccepts(queue, ledger, artifacts, attested, files) <==>
      && QueueAccepted(queue) && ValidLedger(ledger, queue)
      && DocumentsAre(queue.jobs, artifacts, attested) && JobsAre(queue.jobs, artifacts)
      && (forall i :: 0 <= i < |queue.jobs| ==> JobAttests(queue, artifacts, i) && ChunkOk(queue, ledger, files, i))
      && (forall k :: 0 <= k < |artifacts| ==> OwnsWholly(queue.jobs, artifacts[k]))
  {
    hide QueueAccepted, ValidLedger, SourcesOk, DocumentsAre, JobsAre, ChunkOk, QueuedPages, CanonicalPages,
      JobMatches, SourceOf;
    SourcesAre(queue, artifacts, attested);
    if forall i :: 0 <= i < |queue.jobs| ==> JobAttests(queue, artifacts, i) {
      forall i | 0 <= i < |queue.jobs|
        ensures queue.jobs[i].overlap.Some?
      {
        assert JobAttests(queue, artifacts, i);
      }
    }
  }

  /** The pages a document's chunks own, in queue order, are 1 to its page count. */
  predicate OwnsWholly(jobs: seq<Job>, artifact: Artifact) {
    && (forall i :: 0 <= i < |jobs| ==> jobs[i].overlap.Some?)
    && |QueuedPages(jobs, artifact.key)| == artifact.pageCount
    && forall p :: 0 <= p < artifact.pageCount ==> QueuedPages(jobs, artifact.key)[p] == p + 1
  }

  // ----- Where a book's entries come from -----

  /** Page `k` of the reading of job `m`, a job of document `key`. */
  predicate Reads(jobs: seq<Job>, readings: seq<Option<Response>>, key: string, m: nat, k: nat)
    requires |readings| == |jobs|
  {
    m < |jobs| && jobs[m].catalogKey == key && readings[m].Some? && k < |readings[m].value.pages|
  }

  predicate DeclaresOverlap(job: Job, pageId: string) {
    job.overlap.Some? && pageId in job.overlap.value
  }

  /** The entry is page `k` of job `m`, which owns it. */
  predicate OwnReading(jobs: seq<Job>, readings: seq<Option<Response>>, key: string, m: nat, k: nat, p: BookPage)
    requires |readings| == |jobs|
  {
    && Reads(jobs, readings, key, m, k)
    && !DeclaresOverlap(jobs[m], readings[m].value.pages[k].pageId)
    && p.page == readings[m].value.pages[k] && p.chunkOrder == OrderOf(jobs[m])
  }

  /** The entry is page `k` of job `m`, which declares it as overlap. */
  predicate SecondReading(jobs: seq<Job>, readings: seq<Option<Response>>, key: string, m: nat, k: nat,
                          o: OverlapReading)
    requires |readings| == |jobs|
  {
    && Reads(jobs, readings, key, m, k)
    && DeclaresOverlap(jobs[m], readings[m].value.pages[k].pageId)
    && o.pageId == readings[m].value.pages[k].pageId && o.text == readings[m].value.pages[k].text
    && o.chunkOrder == OrderOf(jobs[m])
  }

  /** The entry describes job `m` and its response. */
  predicate ChunkReading(jobs: seq<Job>, readings: seq<Option<Response>>, key: string, m: nat, c: BookChunk)
    requires |readings| == |jobs|
  {
    && m < |jobs| && jobs[m].catalogKey == key && readings[m] == Some(c.response)
    && c.jobId == jobs[m].jobId && c.chunkOrder == OrderOf(jobs[m])
    && c.start == jobs[m].start && c.end == jobs[m].end
    && c.pageIds == c.response.orderedPageIds
    && c.overlap == (if jobs[m].overlap.Some? then jobs[m].overlap.value else [])
  }

  lemma {:induction false} OwnedTextsMembers(pages: seq<PageText>, declared: seq<string>, order: nat, p: BookPage)
    ensures p in OwnedTexts(pages, declared, order)
       <==> exists k :: 0 <= k < |pages| && pages[k].pageId !in declared && p == BookPage(pages[k], order)
  {
    if pages != [] {
      var last := |pages| - 1;
      OwnedTextsMembers(pages[..last], declared, order, p);
      if k :| 0 <= k < last && pages[k].pageId !in declared && p == BookPage(pages[k], order) {
        assert pages[..last][k] == pages[k];
      }
    }
  }

  lemma {:induction false} OverlapTextsHold(pages: seq<PageText>, declared: seq<string>, order: nat,
                                            held: seq<BookPage>, k: nat) returns (o: OverlapReading)
    requires k < |pages| && pages[k].pageId in declared
    ensures o in OverlapTexts(pages, declared, order, held)
    ensures o.pageId == pages[k].pageId && o.chunkOrder == order && o.text == pages[k].text
  {
    var last := |pages| - 1;
    if k == last {
      o := OverlapReading(pages[last].pageId, order, pages[last].text,
                          Agreement(FindPage(held, pages[last].pageId), pages[last]));
    } else {
      o := OverlapTextsHold(pages[..last], declared, order, held, k);
    }
  }

  lemma {:induction false} EntriesOf(jobs: seq<Job>, readings: seq<Option<Response>>, key: string)
    requires |readings| == |jobs| && jobs != []
    ensures var last := |jobs| - 1;
      var before, after := DraftOf(jobs[..last], readings[..last], key), DraftOf(jobs, readings, key);
      if jobs[last].catalogKey != key || readings[last].None? then after == before
      else
        var response := readings[last].value;
        && after.pages == before.pages + OwnedTexts(response.pages, Declared(jobs[last]), OrderOf(jobs[last]))
        && after.chunks == before.chunks + [ChunkOf(jobs[last], response)]
        && after.overlaps
           == before.overlaps + OverlapTexts(response.pages, Declared(jobs[last]), OrderOf(jobs[last]), before.pages)
  {
  }

  lemma {:induction false} OwnReadingStep(jobs: seq<Job>, readings: seq<Option<Response>>, key: string, p: BookPage)
    requires |readings| == |jobs| && jobs != []
    ensures var last := |jobs| - 1;
      (exists m: nat, k: nat :: OwnReading(jobs, readings, key, m, k, p)) <==>
        (|| (exists m: nat, k: nat :: OwnReading(jobs[..last], readings[..last], key, m, k, p))
         || (exists k: nat :: OwnReading(jobs, readings, key, last, k, p)))
  {
    var last := |jobs| - 1;
    if m: nat, k: nat :| OwnReading(jobs[..last], readings[..last], key, m, k, p) {
      assert OwnReading(jobs, readings, key, m, k, p);
    }
    if m: nat, k: nat :| OwnReading(jobs, readings, key, m, k, p) {
      assert m < last ==> OwnReading(jobs[..last], readings[..last], key, m, k, p);
    }
  }

  /** A book holds exactly the pages its completed chunks own, each as its own chunk read it. */
  lemma {:induction false} PagesAreOwnReadings(jobs: seq<Job>, readings: seq<Option<Response>>, key: string,
                                               p: BookPage)
    requires |readings| == |jobs|
    ensures p in DraftOf(jobs, readings, key).pages
       <==> exists m: nat, k: nat :: OwnReading(jobs, readings, key, m, k, p)
  {
    if jobs != [] {
      hide DraftOf, OwnedTexts;
      var last := |jobs| - 1;
      PagesAreOwnReadings(jobs[..last], readings[..last], key, p);
      EntriesOf(jobs, readings, key);
      OwnReadingStep(jobs, readings, key, p);
      if readings[last].Some? {
        var job, pages := jobs[last], readings[last].value.pages;
        OwnedTextsMembers(pages, Declared(job), OrderOf(job), p);
        if k :| 0 <= k < |pages| && pages[k].pageId !in Declared(job) && p == BookPage(pages[k], OrderOf(job)) {
          assert job.catalogKey == key ==> OwnReading(jobs, readings, key, last, k, p);
        }
      }
    }
  }

  /** Every overlap entry of a book is a completed chunk's reading of a page it declares. */
  lemma {:induction false} OverlapsAreSecondReadings(jobs: seq<Job>, readings: seq<Option<Response>>, key: string,
                                                     o: OverlapReading) returns (m: nat, k: nat)
    requires |readings| == |jobs| && o in DraftOf(jobs, readings, key).overlaps
    ensures SecondReading(jobs, readings, key, m, k, o)
  {
    hide DraftOf, OverlapTexts;
    assert jobs != [] by { NoJobs(readings, key); }
    EntriesOf(jobs, readings, key);
    var last := |jobs| - 1;
    if o in DraftOf(jobs[..last], readings[..last], key).overlaps {
      m, k := OverlapsAreSecondReadings(jobs[..last], readings[..last], key, o);
    } else {
      var response := readings[last].value;
      m := last;
      k := OverlapTextsMembers(response.pages, Declared(jobs[last]), OrderOf(jobs[last]),
                               DraftOf(jobs[..last], readings[..last], key).pages, o);
    }
  }

  lemma {:induction false} NoJobs(readings: seq<Option<Response>>, key: string)
    ensures readings == [] ==> DraftOf([], readings, key) == EMPTY_DRAFT
  {
  }

  /** And no such reading is left out. */
  lemma {:induction false} SecondReadingsAreKept(jobs: seq<Job>, readings: seq<Option<Response>>, key: string, m: nat,
                                                 k: nat) returns (o: OverlapReading)
    requires |readings| == |jobs| && Reads(jobs, readings, key, m, k)
    requires DeclaresOverlap(jobs[m], readings[m].value.pages[k].pageId)
    ensures o in DraftOf(jobs, readings, key).overlaps && SecondReading(jobs, readings, key, m, k, o)
  {
    hide DraftOf, OverlapTexts;
    EntriesOf(jobs, readings, key);
    var last := |jobs| - 1;
    if m < last {
      o := SecondReadingsAreKept(jobs[..last], readings[..last], key, m, k);
    } else {
      o := OverlapTextsHold(readings[m].value.pages, Declared(jobs[m]), OrderOf(jobs[m]),
                            DraftOf(jobs[..last], readings[..last], key).pages, k);
    }
  }

  /** A book describes exactly its document's completed chunks. */
  lemma {:induction false} ChunksAreCompleted(jobs: seq<Job>, readings: seq<Option<Response>>, key: string,
                                              c: BookChunk)
    requires |readings| == |jobs|
    ensures c in DraftOf(jobs, readings, key).chunks <==> exists m: nat :: ChunkReading(jobs, readings, key, m, c)
  {
    if jobs != [] {
      hide DraftOf;
      var last := |jobs| - 1;
      ChunksAreCompleted(jobs[..last], readings[..last], key, c);
      EntriesOf(jobs, readings, key);
      if m: nat :| ChunkReading(jobs[..last], readings[..last], key, m, c) {
        assert ChunkReading(jobs, readings, key, m, c);
      }
      if m: nat :| ChunkReading(jobs, readings, key, m, c) {
        assert m < last ==> ChunkReading(jobs[..last], readings[..last], key, m, c);
      }
      if jobs[last].catalogKey == key && readings[last].Some? && c == ChunkOf(jobs[last], readings[last].value) {
        assert ChunkReading(jobs, readings, key, last, c);
      }
    }
  }

  // ----- What the report counts -----

  lemma {:induction false} SizeStep(now: set<nat>, before: set<nat>, n: nat, added: bool)
    requires forall k: nat :: k in now <==> k in before || (k == n && added)
    requires n !in before
    ensures |now| == |before| + if added then 1 else 0
  {
    assert now == if added then before + {n} else before;
  }

  /** Entries of a list of lists: those of the first lists, and those of the last one. */
  lemma {:induction false} PairStep(now: set<(nat, nat)>, before: set<(nat, nat)>, n: nat, row: set<nat>)
    requires forall b: nat, x: nat :: (b, x) in now <==> (b, x) in before || (b == n && x in row)
    requires forall x: nat :: (n, x) !in before
    ensures |now| == |before| + |row|
    decreases |row|
  {
    if row == {} {
      forall p | p in now || p in before
        ensures p in now && p in before
      {
        assert p == (p.0, p.1);
      }
      assert now == before;
    } else {
      var x :| x in row;
      PairStep(now - {(n, x)}, before, n, row - {x});
      assert now == (now - {(n, x)}) + {(n, x)};
    }
  }

  lemma {:induction false} CompletedCounts(readings: seq<Option<Response>>)
    ensures CompletedCount(readings) == |set i: nat | i < |readings| && readings[i].Some?|
  {
    var now := set i: nat | i < |readings| && readings[i].Some?;
    if readings == [] {
      assert now == {};
    } else {
      var last := |readings| - 1;
      CompletedCounts(readings[..last]);
      var before := set i: nat | i < last && readings[..last][i].Some?;
      SizeStep(now, before, last, readings[last].Some?);
    }
  }

  lemma {:induction false} CompleteCounts(books: seq<Book>)
    ensures CompleteBooks(books) == |set b: nat | b < |books| && books[b].complete|
  {
    var now := set b: nat | b < |books| && books[b].complete;
    if books == [] {
      assert now == {};
    } else {
      var last := |books| - 1;
      CompleteCounts(books[..last]);
      var before := set b: nat | b < last && books[..last][b].complete;
      SizeStep(now, before, last, books[last].complete);
    }
  }

  lemma {:induction false} DisagreeingCounts(overlaps: seq<OverlapReading>)
    ensures Disagreeing(overlaps) == |set x: nat | x < |overlaps| && overlaps[x].agreesWithOwner == Some(false)|
  {
    var now := set x: nat | x < |overlaps| && overlaps[x].agreesWithOwner == Some(false);
    if overlaps == [] {
      assert now == {};
    } else {
      var last := |overlaps| - 1;
      DisagreeingCounts(overlaps[..last]);
      var before := set x: nat | x < last && overlaps[..last][x].agreesWithOwner == Some(false);
      SizeStep(now, before, last, overlaps[last].agreesWithOwner == Some(false));
    }
  }

  lemma {:induction false} DisagreementsCount(books: seq<Book>)
    ensures Disagreements(books) ==
      |set b: nat, x: nat | b < |books| && x < |books[b].draft.overlaps|
                         && books[b].draft.overlaps[x].agreesWithOwner == Some(false) :: (b, x)|
  {
    var now := set b: nat, x: nat | b < |books| && x < |books[b].draft.overlaps|
                                 && books[b].draft.overlaps[x].agreesWithOwner == Some(false) :: (b, x);
    if books == [] {
      assert now == {};
    } else {
      var last := |books| - 1;
      DisagreementsCount(books[..last]);
      DisagreeingCounts(books[last].draft.overlaps);
      var before := set b: nat, x: nat | b < last && x < |books[..last][b].draft.overlaps|
                                      && books[..last][b].draft.overlaps[x].agreesWithOwner == Some(false) :: (b, x);
      var row := set x: nat | x < |books[last].draft.overlaps|
                           && books[last].draft.overlaps[x].agreesWithOwner == Some(false);
      PairStep(now, before, last, row);
    }
  }

  lemma {:induction false} HeldPagesCount(books: seq<Book>)
    ensures HeldPages(books) ==
      |set b: nat, x: nat | b < |books| && x < |books[b].draft.pages| :: (b, x)|
  {
    var now := set b: nat, x: nat | b < |books| && x < |books[b].draft.pages| :: (b, x);
    if books == [] {
      assert now == {};
    } else {
      var last := |books| - 1;
      HeldPagesCount(books[..last]);
      var before := set b: nat, x: nat | b < last && x < |books[..last][b].draft.pages| :: (b, x);
      PairStep(now, before, last, Below(|books[last].draft.pages|));
    }
  }

  function Below(n: nat): (s: set<nat>)
    ensures |s| == n && forall x: nat :: x in s <==> x < n
  {
    if n == 0 then {} else Below(n - 1) + {n - 1}
  }

  lemma {:induction false} TotalPagesCount(artifacts: seq<Artifact>)
    ensures TotalPages(artifacts) ==
      |set k: nat, x: nat | k < |artifacts| && x < artifacts[k].pageCount :: (k, x)|
  {
    var now := set k: nat, x: nat | k < |artifacts| && x < artifacts[k].pageCount :: (k, x);
    if artifacts == [] {
      assert now == {};
    } else {
      var last := |artifacts| - 1;
      TotalPagesCount(artifacts[..last]);
      var before := set k: nat, x: nat | k < last && x < artifacts[..last][k].pageCount :: (k, x);
      PairStep(now, before, last, Below(artifacts[last].pageCount));
    }
  }

  // ----- The audited books -----

  /** Some completed chunk of the document owns the entry's page and read another text there. */
  ghost predicate Disagrees(jobs: seq<Job>, readings: seq<Option<Response>>, key: string, o: OverlapReading)
    requires |readings| == |jobs|
  {
    exists m: nat, k: nat :: Reads(jobs, readings, key, m, k) && Owns(jobs[m], o.pageId)
      && readings[m].value.pages[k].pageId == o.pageId && readings[m].value.pages[k].text != o.text
  }

  /** `agreesWithOwner` is false exactly when the owner read another text. */
  lemma {:induction false} FalseIffDisagrees(queue: Queue, readings: seq<Option<Response>>, key: string,
                                             o: OverlapReading)
    requires QueueAccepted(queue) && AuditReady(queue) && DistinctSources(queue)
    requires |readings| == |queue.jobs| && BoundReadings(queue.jobs, readings)
    requires o in DraftOf(queue.jobs, readings, key).overlaps
    ensures o.agreesWithOwner == Some(false) <==> Disagrees(queue.jobs, readings, key, o)
  {
    hide QueueAccepted, BoundReadings, DraftOf, Owns, CanonicalPages;
    var jobs, n := queue.jobs, |queue.jobs|;
    assert jobs[..n] == jobs && readings[..n] == readings;
    OverlapsAreComparedWithOwners(queue, readings, key, n, o);
    var m :| 0 <= m < n && ComparedWith(jobs, readings, key, o, m);
    if Disagrees(jobs, readings, key, o) {
      var m': nat, k: nat :| Reads(jobs, readings, key, m', k) && Owns(jobs[m'], o.pageId)
        && readings[m'].value.pages[k].pageId == o.pageId && readings[m'].value.pages[k].text != o.text;
      OwnerUnique(queue, m, m', o.pageId);
    }
    if o.agreesWithOwner == Some(false) {
      var pages := readings[m].value.pages;
      var k :| 0 <= k < |pages| && pages[k].pageId == o.pageId;
      assert Reads(jobs, readings, key, m, k);
    }
  }

  /** In an audited queue no two documents share a source: each has a first page, and a page has
      one owner. */
  lemma {:induction false} AuditedSources(queue: Queue, ledger: Ledger, artifacts: seq<Artifact>,
                                          attested: set<string>, files: map<OutputPath, Payload>)
    requires AuditAccepts(queue, ledger, artifacts, attested, files)
    requires forall k :: 0 <= k < |artifacts| ==> artifacts[k].pageCount >= 1
    ensures AuditReady(queue) && DistinctSources(queue)
  {
    hide QueueAccepted, ValidLedger, ChunksOk, CanonicalPages, QueuedPages, JobMatches, BeforeOrSame, SourceOf;
    forall i | 0 <= i < |queue.jobs|
      ensures queue.jobs[i].overlap.Some? && CanonicalPages(queue.jobs[i])
    {
      assert JobAttests(queue, artifacts, i);
    }
    forall i, j | 0 <= i < |queue.jobs| && 0 <= j < |queue.jobs|
      ensures queue.jobs[i].catalogKey == queue.jobs[j].catalogKey
         <==> queue.jobs[i].sourceSha == queue.jobs[j].sourceSha
    {
      SourceMatches(queue, artifacts, i);
      SourceMatches(queue, artifacts, j);
      if queue.jobs[i].sourceSha == queue.jobs[j].sourceSha {
        var a := FirstPageOwner(queue, artifacts, attested, i);
        var b := FirstPageOwner(queue, artifacts, attested, j);
        OwnerUnique(queue, a, b, CanonicalPageId(queue.jobs[i].sourceSha, 1));
      }
    }
  }

  lemma {:induction false} SourceMatches(queue: Queue, artifacts: seq<Artifact>, i: nat)
    requires i < |queue.jobs| && JobsOk(queue, artifacts, |queue.jobs|)
    ensures SourceOf(artifacts, queue.jobs[i].catalogKey).Some?
    ensures queue.jobs[i].sourceSha == SourceOf(artifacts, queue.jobs[i].catalogKey).value.sha256
    ensures queue.jobs[i].overlap.Some? && CanonicalPages(queue.jobs[i])
    ensures exists k :: 0 <= k < |artifacts| && artifacts[k].key == queue.jobs[i].catalogKey
  {
    hide CanonicalPages;
    assert JobAttests(queue, artifacts, i);
    SourceOfKey(artifacts, queue.jobs[i].catalogKey);
  }

  /** Page 1 of every document is owned by one of its chunks. */
  lemma {:induction false} FirstPageOwner(queue: Queue, artifacts: seq<Artifact>, attested: set<string>, i: nat)
    returns (m: nat)
    requires JobsOk(queue, artifacts, |queue.jobs|) && CoverageOk(queue, artifacts) && i < |queue.jobs|
    requires forall k :: 0 <= k < |artifacts| ==> artifacts[k].pageCount >= 1
    ensures m < |queue.jobs| && queue.jobs[m].catalogKey == queue.jobs[i].catalogKey
    ensures queue.jobs[m].sourceSha == queue.jobs[i].sourceSha && CanonicalPages(queue.jobs[m])
    ensures Owns(queue.jobs[m], CanonicalPageId(queue.jobs[i].sourceSha, 1))
  {
    hide CanonicalPages, QueuedPages, Owns, CanonicalPageId;
    var key := queue.jobs[i].catalogKey;
    SourceMatches(queue, artifacts, i);
    var k :| 0 <= k < |artifacts| && artifacts[k].key == key;
    assert Range(1, artifacts[k].pageCount + 1)[0] == 1;
    assert 1 in QueuedPages(queue.jobs, key);
    m := QueuedBy(queue.jobs, key, 1);
    SourceMatches(queue, artifacts, m);
  }

  lemma {:induction false} QueuedBy(jobs: seq<Job>, key: string, page: nat) returns (m: nat)
    requires forall i :: 0 <= i < |jobs| ==> jobs[i].overlap.Some?
    requires page in QueuedPages(jobs, key)
    ensures m < |jobs| && jobs[m].catalogKey == key
    ensures CanonicalPages(jobs[m]) ==> Owns(jobs[m], CanonicalPageId(jobs[m].sourceSha, page))
  {
    hide CanonicalPageId, OwnedPages;
    var last := |jobs| - 1;
    if page in QueuedPages(jobs[..last], key) {
      m := QueuedBy(jobs[..last], key, page);
    } else {
      m := last;
      OwnedPagesAreListed(jobs[last].pages, jobs[last].overlap.value, page);
    }
  }

  lemma {:induction false} OwnedPagesAreListed(pages: seq<Page>, declared: seq<string>, page: nat)
    requires page in OwnedPages(pages, declared)
    ensures exists k :: 0 <= k < |pages| && pages[k].pdfPage == page && pages[k].pageId !in declared
  {
    if pages[0].pdfPage == page && pages[0].pageId !in declared {
    } else {
      OwnedPagesAreListed(pages[1..], declared, page);
      var k :| 0 <= k < |pages[1..]| && pages[1..][k].pdfPage == page && pages[1..][k].pageId !in declared;
      assert pages[k + 1] == pages[1..][k];
    }
  }

  /** The books of an audit are those of its artifacts. */
  lemma {:induction false} BookHas(artifacts: seq<Artifact>, jobs: seq<Job>, readings: seq<Option<Response>>, b: nat)
    requires |readings| == |jobs| && b < |BooksOf(artifacts, jobs, readings)|
    ensures var book := BooksOf(artifacts, jobs, readings)[b];
      book.draft == DraftOf(jobs, readings, book.artifact.key) && book.artifact in artifacts
  {
    hide DraftOf;
    var unsorted := UnsortedBooks(artifacts, jobs, readings);
    SortByMembers(unsorted, EarlierBook);
    assert BooksOf(artifacts, jobs, readings)[b] in BooksOf(artifacts, jobs, readings);
    var k :| 0 <= k < |unsorted| && unsorted[k] == BooksOf(artifacts, jobs, readings)[b];
    assert unsorted[k] == BookOf(artifacts[k], jobs, readings);
  }

  /** One book per acquired document, in catalog order. */
  lemma {:induction false} BooksInCatalogOrder(artifacts: seq<Artifact>, jobs: seq<Job>,
                                               readings: seq<Option<Response>>)
    requires |readings| == |jobs|
    ensures var books := BooksOf(artifacts, jobs, readings);
      && |books| == |artifacts|
      && (forall b, c :: 0 <= b < c < |books| ==> books[b].artifact.order <= books[c].artifact.order)
      && (forall a :: a in artifacts ==> exists b :: 0 <= b < |books| && books[b].artifact == a)
  {
    hide BookOf, SortBy;
    var unsorted, books := UnsortedBooks(artifacts, jobs, readings), BooksOf(artifacts, jobs, readings);
    assert TotalPreorder(EarlierBook);
    SortBySorted(unsorted, EarlierBook);
    SortByMembers(unsorted, EarlierBook);
    InOrderOf(books);
    forall a | a in artifacts
      ensures exists b :: 0 <= b < |books| && books[b].artifact == a
    {
      var k :| 0 <= k < |artifacts| && artifacts[k] == a;
      BookIsOf(a, jobs, readings);
      assert unsorted[k] in books;
      var b :| 0 <= b < |books| && books[b] == unsorted[k];
    }
  }

  lemma {:induction false} BookIsOf(artifact: Artifact, jobs: seq<Job>, readings: seq<Option<Response>>)
    requires |readings| == |jobs|
    ensures BookOf(artifact, jobs, readings).artifact == artifact
  {
    hide DraftOf;
  }

  lemma {:induction false} InOrderOf(books: seq<Book>)
    requires Sorted(books, EarlierBook)
    ensures forall b, c :: 0 <= b < c < |books| ==> books[b].artifact.order <= books[c].artifact.order
  {
    forall b, c | 0 <= b < c < |books|
      ensures books[b].artifact.order <= books[c].artifact.order
    {
      assert EarlierBook(books[b], books[c]);
    }
  }

  /** Every number of the report, counted from the ledger, the acquired documents and the texts on
      disk. */
  lemma {:induction false} ReportCounts(queue: Queue, ledger: Ledger, artifacts: seq<Artifact>,
                                        attested: set<string>, files: map<OutputPath, Payload>)
    requires AuditAccepts(queue, ledger, artifacts, attested, files)
    requires forall k :: 0 <= k < |artifacts| ==> artifacts[k].pageCount >= 1
    ensures var readings := Readings(queue, ledger, files);
      var books := BooksOf(artifacts, queue.jobs, readings);
      var report := ReportOf(artifacts, readings, books);
      && report.chunksExpected == |queue.jobs|
      && report.chunksCompleted == |set i: nat | i < |queue.jobs| && Finished(queue, ledger, i)|
      && report.documentsExpected == |books| == |artifacts|
      && report.documentsComplete == |set b: nat | b < |books| && books[b].complete|
      && report.pagesExpected == |set k: nat, x: nat | k < |artifacts| && x < artifacts[k].pageCount :: (k, x)|
      && report.pagesCompleted == |set b: nat, x: nat | b < |books| && x < |books[b].draft.pages| :: (b, x)|
      && report.disagreements ==
           |set b: nat, x: nat | b < |books| && x < |books[b].draft.overlaps|
                && Disagrees(queue.jobs, readings, books[b].artifact.key, books[b].draft.overlaps[x]) :: (b, x)|
  {
    hide QueueAccepted, ValidLedger, SourcesOk, JobsOk, ChunkOk, CoverageOk, ReadingOf, DraftOf, Finished, SortBy,
      Disagrees, BoundReadings, AuditReady, DistinctSources;
    var readings := Readings(queue, ledger, files);
    var books := BooksOf(artifacts, queue.jobs, readings);
    AuditedReadings(queue, ledger, artifacts, attested, files);
    AuditedSources(queue, ledger, artifacts, attested, files);
    forall i: nat | i < |queue.jobs|
      ensures readings[i].Some? <==> Finished(queue, ledger, i)
    {
      ReadIffFinished(queue, ledger, files, i);
    }
    assert (set i: nat | i < |queue.jobs| && Finished(queue, ledger, i))
        == (set i: nat | i < |readings| && readings[i].Some?);
    SortByMembers(UnsortedBooks(artifacts, queue.jobs, readings), EarlierBook);
    CompletedCounts(readings);
    CompleteCounts(books);
    TotalPagesCount(artifacts);
    HeldPagesCount(books);
    DisagreementsCount(books);
    DisagreementsAreReal(queue, artifacts, readings);
  }

  lemma {:induction false} DisagreementsAreReal(queue: Queue, artifacts: seq<Artifact>, readings: seq<Option<Response>>)
    requires QueueAccepted(queue) && AuditReady(queue) && DistinctSources(queue)
    requires |readings| == |queue.jobs| && BoundReadings(queue.jobs, readings)
    ensures var books := BooksOf(artifacts, queue.jobs, readings);
      (set b: nat, x: nat | b < |books| && x < |books[b].draft.overlaps|
                         && books[b].draft.overlaps[x].agreesWithOwner == Some(false) :: (b, x))
      == (set b: nat, x: nat | b < |books| && x < |books[b].draft.overlaps|
             && Disagrees(queue.jobs, readings, books[b].artifact.key, books[b].draft.overlaps[x]) :: (b, x))
  {
    hide QueueAccepted, BoundReadings, AuditReady, DistinctSources, Disagrees, DraftOf, BooksOf;
    var books := BooksOf(artifacts, queue.jobs, readings);
    forall b: nat, x: nat | b < |books| && x < |books[b].draft.overlaps|
      ensures books[b].draft.overlaps[x].agreesWithOwner == Some(false)
         <==> Disagrees(queue.jobs, readings, books[b].artifact.key, books[b].draft.overlaps[x])
    {
      BookHas(artifacts, queue.jobs, readings, b);
      assert books[b].draft.overlaps[x] in books[b].draft.overlaps;
      FalseIffDisagrees(queue, readings, books[b].artifact.key, books[b].draft.overlaps[x]);
    }
  }
}
