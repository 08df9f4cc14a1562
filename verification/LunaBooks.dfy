/** What the assembled books mean: when a book is whole, how books grow along runs of the ledger,
    what an overlap reading is compared with, and why no interleaving of workers can make an
    audit fail. */
module LunaBooks {
  import opened Wrappers
  import opened Ranges
  import opened Sorting
  import opened LunaQueue
  import opened LunaResponse
  import opened LunaLedger
  import opened LunaHistory
  import opened LunaProtocol
  import opened LunaAssembly

  // ----- A book is whole exactly when every chunk that owns a page is completed -----

  lemma {:induction false} BookNumbersConcat(a: seq<BookPage>, b: seq<BookPage>)
    ensures BookNumbers(a + b) == BookNumbers(a) + BookNumbers(b)
  {
  }

  /** A bound response brings exactly the pages its job owns. */
  lemma {:induction false} OwnedTextNumbers(pages: seq<Page>, texts: seq<PageText>, declared: seq<string>, order: nat)
    requires |texts| == |pages|
    requires forall k :: 0 <= k < |pages| ==> texts[k].pageId == pages[k].pageId && texts[k].pdfPage == pages[k].pdfPage
    ensures BookNumbers(OwnedTexts(texts, declared, order)) == OwnedPages(pages, declared)
    decreases |pages|
  {
    if pages != [] {
      hide OwnedPages;
      var last := |pages| - 1;
      OwnedTextNumbers(pages[..last], texts[..last], declared, order);
      OwnedPagesConcat(pages[..last], [pages[last]], declared);
      assert pages == pages[..last] + [pages[last]];
      SinglePage(pages[last], texts[last], declared, order);
      BookNumbersConcat(OwnedTexts(texts[..last], declared, order), OwnedText(texts[last], declared, order));
    }
  }

  lemma {:induction false} SinglePage(page: Page, text: PageText, declared: seq<string>, order: nat)
    requires text.pageId == page.pageId && text.pdfPage == page.pdfPage
    ensures BookNumbers(OwnedText(text, declared, order)) == OwnedPages([page], declared)
  {
    OwnedPagesSingle(page, declared);
  }

  /** Every chunk of document `key` that owns a page has been read. */
  predicate AllOwnersRead(jobs: seq<Job>, readings: seq<Option<Response>>, key: string)
    requires |readings| == |jobs|
  {
    forall i :: 0 <= i < |jobs| && jobs[i].catalogKey == key && readings[i].None? ==>
      OwnedPages(jobs[i].pages, Declared(jobs[i])) == []
  }

  lemma {:induction false} AllOwnersReadStep(jobs: seq<Job>, readings: seq<Option<Response>>, key: string)
    requires |readings| == |jobs| && jobs != []
    ensures var last := |jobs| - 1;
      AllOwnersRead(jobs, readings, key)
      <==> AllOwnersRead(jobs[..last], readings[..last], key)
           && (jobs[last].catalogKey == key && readings[last].None? ==>
                 OwnedPages(jobs[last].pages, Declared(jobs[last])) == [])
  {
    hide OwnedPages, Declared;
    var last := |jobs| - 1;
    if AllOwnersRead(jobs, readings, key) {
      forall i | 0 <= i < last && jobs[i].catalogKey == key && readings[i].None?
        ensures OwnedPages(jobs[i].pages, Declared(jobs[i])) == []
      {
      }
    }
  }

  /** A book's pages are the document's queued pages, minus those of unread owners. */
  lemma {:induction false} BookIsQueuedPages(jobs: seq<Job>, readings: seq<Option<Response>>, key: string)
    requires |readings| == |jobs| && BoundReadings(jobs, readings)
    ensures |DraftOf(jobs, readings, key).pages| <= |QueuedPages(jobs, key)|
    ensures |DraftOf(jobs, readings, key).pages| == |QueuedPages(jobs, key)| <==> AllOwnersRead(jobs, readings, key)
    ensures AllOwnersRead(jobs, readings, key) ==>
      BookNumbers(DraftOf(jobs, readings, key).pages) == QueuedPages(jobs, key)
  {
    if jobs != [] {
      hide PagesBound, OwnedPages, OwnedTexts, AllOwnersRead;
      var last := |jobs| - 1;
      BookIsQueuedPages(jobs[..last], readings[..last], key);
      AllOwnersReadStep(jobs, readings, key);
      if readings[last].Some? {
        BoundNumbers(jobs[last], readings[last].value);
        BookNumbersConcat(DraftOf(jobs[..last], readings[..last], key).pages,
                          OwnedTexts(readings[last].value.pages, Declared(jobs[last]), OrderOf(jobs[last])));
      }
    }
  }

  lemma {:induction false} BoundNumbers(job: Job, response: Response)
    requires PagesBound(response, job)
    ensures BookNumbers(OwnedTexts(response.pages, Declared(job), OrderOf(job))) == OwnedPages(job.pages, Declared(job))
  {
    OwnedTextNumbers(job.pages, response.pages, Declared(job), OrderOf(job));
  }

  lemma {:induction false} AuditedReadings(queue: Queue, ledger: Ledger, artifacts: seq<Artifact>,
                                           attested: set<string>, files: map<OutputPath, Payload>)
    requires AuditAccepts(queue, ledger, artifacts, attested, files)
    ensures BoundReadings(queue.jobs, Readings(queue, ledger, files))
  {
    hide QueueAccepted, ValidLedger, SourcesOk, ChunksOk, CoverageOk, Readings, BoundReadings, OneSourcePerDocument;
    AttestedPrefix(queue, ledger, artifacts, files, |queue.jobs|);
    assert queue.jobs[..|queue.jobs|] == queue.jobs;
    assert Readings(queue, ledger, files)[..|queue.jobs|] == Readings(queue, ledger, files);
  }

  /** A book is whole exactly when every chunk of its document that owns a page is completed. */
  lemma {:induction false} BookCompleteIff(queue: Queue, ledger: Ledger, artifacts: seq<Artifact>,
                                           attested: set<string>,
                        files: map<OutputPath, Payload>, k: nat)
    requires AuditAccepts(queue, ledger, artifacts, attested, files) && k < |artifacts|
    ensures BookOf(artifacts[k], queue.jobs, Readings(queue, ledger, files)).complete
       <==> AllOwnersRead(queue.jobs, Readings(queue, ledger, files), artifacts[k].key)
  {
    var readings, key := Readings(queue, ledger, files), artifacts[k].key;
    AuditedReadings(queue, ledger, artifacts, attested, files);
    hide QueueAccepted, ValidLedger, SourcesOk, JobsOk, ChunksOk, Readings, BoundReadings, DraftOf, QueuedPages,
      AllOwnersRead;
    BookIsQueuedPages(queue.jobs, readings, key);
    assert QueuedPages(queue.jobs, key) == Range(1, artifacts[k].pageCount + 1);
    assert |BookNumbers(DraftOf(queue.jobs, readings, key).pages)| == |DraftOf(queue.jobs, readings, key).pages|;
  }

  predicate Finished(queue: Queue, ledger: Ledger, i: nat)
    requires i < |queue.jobs|
  {
    var k := IndexOf(ledger.records, queue.jobs[i].jobId);
    k.Some? && ledger.records[k.value].status == Completed
  }

  lemma {:induction false} ReadIffFinished(queue: Queue, ledger: Ledger, files: map<OutputPath, Payload>, i: nat)
    requires i < |queue.jobs| && ChunkOk(queue, ledger, files, i)
    ensures Readings(queue, ledger, files)[i].Some? <==> Finished(queue, ledger, i)
  {
    hide ChunkAttests;
    assert Readings(queue, ledger, files)[i] == ReadingOf(queue.jobs[i], ledger, files);
  }

  /** The report is complete exactly when every chunk is; all books are then whole. */
  lemma {:induction false} ReportCompleteIff(queue: Queue, ledger: Ledger, artifacts: seq<Artifact>,
                                             attested: set<string>, files: map<OutputPath, Payload>)
    requires AuditAccepts(queue, ledger, artifacts, attested, files)
    ensures var readings := Readings(queue, ledger, files);
      var books := BooksOf(artifacts, queue.jobs, readings);
      && (ReportOf(artifacts, readings, books).complete
          <==> forall i :: 0 <= i < |queue.jobs| ==> Finished(queue, ledger, i))
      && (ReportOf(artifacts, readings, books).complete ==>
            forall b :: 0 <= b < |books| ==> books[b].complete)
  {
    hide QueueAccepted, ValidLedger, SourcesOk, JobsOk, ChunkOk, CoverageOk, ReadingOf, DraftOf, Finished;
    var readings := Readings(queue, ledger, files);
    var unsorted := UnsortedBooks(artifacts, queue.jobs, readings);
    var books := BooksOf(artifacts, queue.jobs, readings);
    forall i | 0 <= i < |queue.jobs|
      ensures readings[i].Some? <==> Finished(queue, ledger, i)
    {
      ReadIffFinished(queue, ledger, files, i);
    }
    if forall i :: 0 <= i < |readings| ==> readings[i].Some? {
      forall k | 0 <= k < |artifacts|
        ensures unsorted[k].complete
      {
        BookCompleteIff(queue, ledger, artifacts, attested, files, k);
      }
      SortByMembers(unsorted, EarlierBook);
      forall b | 0 <= b < |books|
        ensures books[b].complete
      {
        assert books[b] in books;
      }
    }
  }

  // ----- Books only grow -----

  /** Everything read before is read again, unchanged. */
  predicate ReadingsGrow(before: seq<Option<Response>>, after: seq<Option<Response>>) {
    && |before| == |after|
    && forall i :: 0 <= i < |before| && before[i].Some? ==> after[i] == before[i]
  }

  lemma {:induction false} DraftGrows(jobs: seq<Job>, before: seq<Option<Response>>, after: seq<Option<Response>>,
                                      key: string)
    requires |before| == |jobs| && ReadingsGrow(before, after)
    ensures IsSubsequence(DraftOf(jobs, before, key).pages, DraftOf(jobs, after, key).pages)
    ensures IsSubsequence(DraftOf(jobs, before, key).chunks, DraftOf(jobs, after, key).chunks)
  {
    if jobs != [] {
      hide IsSubsequence, OwnedTexts, OverlapTexts;
      var last := |jobs| - 1;
      DraftGrows(jobs[..last], before[..last], after[..last], key);
      var a, b := DraftOf(jobs[..last], before[..last], key), DraftOf(jobs[..last], after[..last], key);
      if jobs[last].catalogKey == key && after[last].Some? {
        var texts := OwnedTexts(after[last].value.pages, Declared(jobs[last]), OrderOf(jobs[last]));
        var chunk := [ChunkOf(jobs[last], after[last].value)];
        if before[last].Some? {
          SubsequenceAppend(a.pages, b.pages, texts);
          SubsequenceAppend(a.chunks, b.chunks, chunk);
        } else {
          SubsequenceExtend(a.pages, b.pages, texts);
          SubsequenceExtend(a.chunks, b.chunks, chunk);
        }
      }
    }
  }

  lemma {:induction false} RecordOfJob(queue: Queue, ops: seq<Op>, i: nat)
    requires QueueAccepted(queue) && i < |queue.jobs|
    ensures IndexOf(RunOf(queue, ops).ledger.records, queue.jobs[i].jobId) == Some(i)
  {
    hide Explains, RecordOk, InQueue, JobAdmitted, ContiguousOrder;
    RunExplained(queue, ops);
    var records := RunOf(queue, ops).ledger.records;
    forall m | 0 <= m < i
      ensures records[m].jobId != queue.jobs[i].jobId
    {
      assert records[m].jobId != records[i].jobId;
    }
    IndexOfFirst(records, queue.jobs[i].jobId, i);
  }

  lemma {:induction false} AttestsMonotone(job: Job, record: Record, before: map<OutputPath, Payload>,
                                           after: map<OutputPath, Payload>)
    requires ChunkAttests(job, record, before) && Preserved(before, after)
    ensures ChunkAttests(job, record, after)
    ensures after[record.outputs.value.responsePath] == before[record.outputs.value.responsePath]
  {
    hide PagesBound, Bound, StructuredBound;
  }

  /** Along a run of the ledger, with files only added, every reading persists. */
  lemma {:induction false} ReadingsPersist(queue: Queue, ops: seq<Op>, n: nat, before: map<OutputPath, Payload>,
                                           after: map<OutputPath, Payload>)
    requires QueueAccepted(queue) && n <= |ops| && Preserved(before, after)
    ensures ReadingsGrow(Readings(queue, RunOf(queue, ops[..n]).ledger, before),
                         Readings(queue, RunOf(queue, ops).ledger, after))
  {
    hide RunOf, QueueAccepted, ChunkAttests, Preserved;
    var early, late := RunOf(queue, ops[..n]).ledger, RunOf(queue, ops).ledger;
    var a, b := Readings(queue, early, before), Readings(queue, late, after);
    forall i | 0 <= i < |a| && a[i].Some?
      ensures b[i] == a[i]
    {
      assert a[i] == ReadingOf(queue.jobs[i], early, before);
      assert b[i] == ReadingOf(queue.jobs[i], late, after);
      RecordOfJob(queue, ops[..n], i);
      RecordOfJob(queue, ops, i);
      CompletedIsFinal(queue, ops, n, i);
      AttestsMonotone(queue.jobs[i], early.records[i], before, after);
    }
  }

  /** Monotone assembly: whatever the workers do after a given moment, the pages a book held then
      - same text, same owner - are a subsequence of what it holds later. */
  lemma {:induction false} BooksOnlyGrow(queue: Queue, schedule: seq<Turn>, n: nat, key: string)
    requires QueueAccepted(queue) && n <= |schedule|
    requires Play(queue, schedule[..n]).pointer.Some?
    ensures var early, late := Play(queue, schedule[..n]), Play(queue, schedule);
      && late.pointer.Some?
      && IsSubsequence(
           DraftOf(queue.jobs, Readings(queue, early.pointer.value, early.files), key).pages,
           DraftOf(queue.jobs, Readings(queue, late.pointer.value, late.files), key).pages)
  {
    hide QueueAccepted, Take, ValidLedger, RunOf, Readings, DraftOf, Stored;
    var early, late := Play(queue, schedule[..n]), Play(queue, schedule);
    EveryInterleavingIsSafe(queue, schedule[..n]);
    EveryInterleavingIsSafe(queue, schedule);
    NothingIsTakenBack(queue, schedule, n);
    PointerStays(queue, schedule, n);
    var c := |early.committed|;
    assert late.committed[..c] == early.committed;
    ReadingsPersist(queue, late.committed, c, early.files, late.files);
    DraftGrows(queue.jobs, Readings(queue, early.pointer.value, early.files),
               Readings(queue, late.pointer.value, late.files), key);
  }

  /** The pointer, once created, is never removed. */
  lemma {:induction false} PointerStays(queue: Queue, schedule: seq<Turn>, n: nat)
    requires n <= |schedule| && Play(queue, schedule[..n]).pointer.Some?
    ensures Play(queue, schedule).pointer.Some?
  {
    hide Take, Play, VisibleOk, ContentAddressed, HolderOk, LockOk;
    InvAlways(queue, schedule[..n]);
    InvAlways(queue, schedule);
    NothingIsTakenBack(queue, schedule, n);
  }

  // ----- No interleaving can make an audit fail -----

  lemma {:induction false} CompletedAttests(record: Record, job: Job, files: map<OutputPath, Payload>)
    requires Attested(record, job) && record.status == Completed && job.overlap.Some?
    requires record.outputs.Some? && HoldsPayloads(files, record.outputs.value)
    ensures ChunkAttests(job, record, files)
  {
    hide PagesBound;
  }

  /** For a ledger that workers produced, in any interleaving and with any crashes, the audit's
      verdict depends only on the queue and the acquired sources: no chunk can fail it. */
  lemma {:induction false} AuditNeverBlamesAChunk(queue: Queue, schedule: seq<Turn>, artifacts: seq<Artifact>,
                                                  attested: set<string>)
    requires QueueAccepted(queue) && Play(queue, schedule).pointer.Some?
    ensures var world := Play(queue, schedule);
      AuditAccepts(queue, world.pointer.value, artifacts, attested, world.files)
      <==> (&& SourcesOk(queue, artifacts, attested)
            && JobsOk(queue, artifacts, |queue.jobs|)
            && CoverageOk(queue, artifacts))
  {
    hide Take, Play, RunOf, QueueAccepted, ValidLedger, SourcesOk, CoverageOk, ChunkAttests, CanonicalPages,
      HoldsPayloads, Attested;
    var world := Play(queue, schedule);
    EveryInterleavingIsSafe(queue, schedule);
    RunAttested(queue, world.committed);
    if JobsOk(queue, artifacts, |queue.jobs|) {
      forall i | 0 <= i < |queue.jobs|
        ensures ChunkOk(queue, world.pointer.value, world.files, i)
      {
        assert JobAttests(queue, artifacts, i);
        RecordOfJob(queue, world.committed, i);
        if world.pointer.value.records[i].status == Completed {
          CompletedAttests(world.pointer.value.records[i], queue.jobs[i], world.files);
        }
      }
    }
  }

  // ----- Overlap readings are compared with the owning chunk -----

  /** A page an accepted queue has reached is owned by an earlier chunk of the same source. */
  lemma {:induction false} OwnerExists(queue: Queue, n: nat, source: string, page: nat) returns (m: nat)
    requires QueueAccepted(queue) && AuditReady(queue) && n <= |queue.jobs|
    requires 1 <= page <= LastPage(queue.jobs[..n], source)
    ensures m < n && queue.jobs[m].sourceSha == source && Owns(queue.jobs[m], CanonicalPageId(source, page))
    decreases n
  {
    hide QueueAccepted, JobOk, ContinuesSource, Owns, CanonicalPageId;
    assert n > 0;
    var job, last := queue.jobs[n - 1], LastPage(queue.jobs[..n - 1], source);
    LastPageStep(queue.jobs, n - 1, source);
    if page <= last {
      m := OwnerExists(queue, n - 1, source, page);
    } else {
      AdmittedParts(queue, n - 1);
      OwnsAbove(job, last, page);
      m := n - 1;
    }
  }

  lemma {:induction false} OwnsAbove(job: Job, last: nat, page: nat)
    requires JobOk(job) && job.overlap.Some? && CanonicalPages(job) && ContinuesSource(job, last)
    requires last < page <= job.end
    ensures Owns(job, CanonicalPageId(job.sourceSha, page))
  {
    hide CanonicalPageId, ContinuesSource;
    assert job.start <= last + 1 by { StartsLow(job, last); }
    var k := page - job.start;
    assert |PageNumbers(job.pages)| == |Range(job.start, job.end + 1)|;
    DeclaredAreLow(job, last, k);
    assert job.pages[k].pageId == CanonicalPageId(job.sourceSha, page);
  }

  lemma {:induction false} StartsLow(job: Job, last: nat)
    requires job.overlap.Some? && ContinuesSource(job, last)
    ensures job.start <= last + 1
  {
  }

  /** Entry `o` was read by a later chunk; chunk `m` owns the page, and `agreesWithOwner` says
      whether its text is the one `m` read, if `m` has been read. */
  predicate ComparedWith(jobs: seq<Job>, readings: seq<Option<Response>>, key: string, o: OverlapReading, m: nat)
    requires |readings| == |jobs| && m < |jobs|
  {
    && jobs[m].catalogKey == key
    && Owns(jobs[m], o.pageId)
    && OrderOf(jobs[m]) < o.chunkOrder
    && match readings[m]
       case None => o.agreesWithOwner == None
       case Some(response) =>
         && (exists k :: 0 <= k < |response.pages| && response.pages[k].pageId == o.pageId)
         && forall k :: 0 <= k < |response.pages| && response.pages[k].pageId == o.pageId ==>
              o.agreesWithOwner == Some(response.pages[k].text == o.text)
  }

  /** The page found among a chunk's owned texts is a page of its response. */
  lemma {:induction false} OwnedTextFound(pages: seq<PageText>, declared: seq<string>, order: nat, pageId: string)
    returns (k: nat)
    requires FindPage(OwnedTexts(pages, declared, order), pageId).Some?
    ensures k < |pages| && pages[k].pageId == pageId && pageId !in declared
    ensures FindPage(OwnedTexts(pages, declared, order), pageId) == Some(BookPage(pages[k], order))
  {
    var last := |pages| - 1;
    if pages[last].pageId == pageId && pageId !in declared {
      k := last;
    } else {
      FindPageAppend(OwnedTexts(pages[..last], declared, order), OwnedText(pages[last], declared, order), pageId);
      k := OwnedTextFound(pages[..last], declared, order, pageId);
    }
  }

  predicate Compared(jobs: seq<Job>, readings: seq<Option<Response>>, key: string, o: OverlapReading)
    requires |readings| == |jobs|
  {
    exists m :: 0 <= m < |jobs| && ComparedWith(jobs, readings, key, o, m)
  }

  lemma {:induction false} OverlapTextsMembers(pages: seq<PageText>, declared: seq<string>, order: nat,
                                               held: seq<BookPage>, o: OverlapReading) returns (k: nat)
    requires o in OverlapTexts(pages, declared, order, held)
    ensures k < |pages| && pages[k].pageId in declared
    ensures o == OverlapReading(pages[k].pageId, order, pages[k].text,
                                Agreement(FindPage(held, pages[k].pageId), pages[k]))
  {
    hide FindPage, Agreement;
    var last := |pages| - 1;
    if o in OverlapTexts(pages[..last], declared, order, held) {
      k := OverlapTextsMembers(pages[..last], declared, order, held, o);
    } else {
      k := last;
    }
  }

  /** The page a draft holds came from the chunk that owns it. */
  lemma {:induction false} HeldByOwner(queue: Queue, readings: seq<Option<Response>>, key: string, n: nat, m: nat,
                                       pageId: string)
    requires QueueAccepted(queue) && |readings| == |queue.jobs| && BoundReadings(queue.jobs, readings)
    requires OneSourcePerDocument(queue.jobs)
    requires m < n <= |queue.jobs| && queue.jobs[m].catalogKey == key && Owns(queue.jobs[m], pageId)
    ensures FindPage(DraftOf(queue.jobs[..n], readings[..n], key).pages, pageId)
         == if readings[m].None? then None
            else FindPage(OwnedTexts(readings[m].value.pages, Declared(queue.jobs[m]), OrderOf(queue.jobs[m])), pageId)
    ensures readings[m].Some? ==> FindPage(DraftOf(queue.jobs[..n], readings[..n], key).pages, pageId).Some?
    decreases n
  {
    hide QueueAccepted, BoundReadings, FindPage, DraftOf, OwnedTexts, Owns, CanonicalPages;
    DraftHoldsStep(queue.jobs, readings, key, n - 1, pageId);
    if m == n - 1 {
      if readings[m].None? {
        NotHeldYet(queue, readings, key, n - 1, m, pageId);
      }
    } else {
      HeldByOwner(queue, readings, key, n - 1, m, pageId);
      if queue.jobs[n - 1].catalogKey == key && Owns(queue.jobs[n - 1], pageId) {
        OwnerUnique(queue, m, n - 1, pageId);
      }
    }
  }

  lemma {:induction false} NotHeldYet(queue: Queue, readings: seq<Option<Response>>, key: string, n: nat, m: nat,
                                      pageId: string)
    requires QueueAccepted(queue) && |readings| == |queue.jobs| && BoundReadings(queue.jobs, readings)
    requires OneSourcePerDocument(queue.jobs)
    requires n <= m < |queue.jobs| && queue.jobs[m].catalogKey == key && Owns(queue.jobs[m], pageId)
    ensures FindPage(DraftOf(queue.jobs[..n], readings[..n], key).pages, pageId).None?
  {
    hide QueueAccepted, BoundReadings, FindPage, DraftOf, Owns, CanonicalPages;
    DraftHolds(queue.jobs, readings, key, n, pageId);
    if Delivered(queue.jobs, readings, key, n, pageId) {
      var i :| 0 <= i < n && queue.jobs[i].catalogKey == key && readings[i].Some? && Owns(queue.jobs[i], pageId);
      OwnerUnique(queue, i, m, pageId);
    }
  }

  /** Every overlap reading in a book is compared with the one earlier chunk that owns the page:
      `agreesWithOwner` is `None` exactly when that chunk is not completed, and otherwise says
      whether the two texts are equal. */
  lemma {:induction false} OverlapsAreComparedWithOwners(queue: Queue, readings: seq<Option<Response>>, key: string,
                                                         n: nat, o: OverlapReading)
    requires QueueAccepted(queue) && AuditReady(queue) && DistinctSources(queue)
    requires |readings| == |queue.jobs| && BoundReadings(queue.jobs, readings) && n <= |queue.jobs|
    requires o in DraftOf(queue.jobs[..n], readings[..n], key).overlaps
    ensures Compared(queue.jobs, readings, key, o)
    decreases n
  {
    hide QueueAccepted, BoundReadings, Compared, OverlapTexts, OwnedTexts, AuditReady, DistinctSources;
    assert n > 0;
    var before := DraftOf(queue.jobs[..n - 1], readings[..n - 1], key);
    DraftStep(queue.jobs, readings, key, n - 1);
    if o in before.overlaps {
      OverlapsAreComparedWithOwners(queue, readings, key, n - 1, o);
    } else {
      NewOverlapCompared(queue, readings, key, n - 1, o);
    }
  }

  /** The page of a new overlap reading, and the earlier chunk that owns it. */
  lemma {:induction false} OverlapOwner(queue: Queue, readings: seq<Option<Response>>, key: string, n: nat,
                                        o: OverlapReading) returns (m: nat)
    requires QueueAccepted(queue) && AuditReady(queue)
    requires |readings| == |queue.jobs| && BoundReadings(queue.jobs, readings) && n < |queue.jobs|
    requires queue.jobs[n].catalogKey == key && readings[n].Some?
    requires o in OverlapTexts(readings[n].value.pages, Declared(queue.jobs[n]), OrderOf(queue.jobs[n]),
                               DraftOf(queue.jobs[..n], readings[..n], key).pages)
    ensures m < n && queue.jobs[m].sourceSha == queue.jobs[n].sourceSha && Owns(queue.jobs[m], o.pageId)
    ensures o.chunkOrder == OrderOf(queue.jobs[n])
    ensures var f := FindPage(DraftOf(queue.jobs[..n], readings[..n], key).pages, o.pageId);
      o.agreesWithOwner == if f.None? then None else Some(f.value.page.text == o.text)
  {
    var job, response := queue.jobs[n], readings[n].value;
    var held := DraftOf(queue.jobs[..n], readings[..n], key).pages;
    hide DraftOf, Owns, CanonicalPageId, JobOk, ContinuesSource, FindPage, QueueAccepted, OverlapTexts;
    var k := OverlapTextsMembers(response.pages, Declared(job), OrderOf(job), held, o);
    AdmittedParts(queue, n);
    DeclaredAreLow(job, LastPage(queue.jobs[..n], job.sourceSha), k);
    var page := job.pages[k].pdfPage;
    assert o.pageId == CanonicalPageId(job.sourceSha, page);
    PagePositive(job, k);
    m := OwnerExists(queue, n, job.sourceSha, page);
  }

  lemma {:induction false} NewOverlapCompared(queue: Queue, readings: seq<Option<Response>>, key: string, n: nat,
                                              o: OverlapReading)
    requires QueueAccepted(queue) && AuditReady(queue) && DistinctSources(queue)
    requires |readings| == |queue.jobs| && BoundReadings(queue.jobs, readings) && n < |queue.jobs|
    requires queue.jobs[n].catalogKey == key && readings[n].Some?
    requires o in OverlapTexts(readings[n].value.pages, Declared(queue.jobs[n]), OrderOf(queue.jobs[n]),
                               DraftOf(queue.jobs[..n], readings[..n], key).pages)
    ensures Compared(queue.jobs, readings, key, o)
  {
    hide DraftOf, Owns, FindPage, OwnedTexts, QueueAccepted, BoundReadings, OverlapTexts, CanonicalPages;
    var m := OverlapOwner(queue, readings, key, n, o);
    HeldByOwner(queue, readings, key, n, m, o.pageId);
    Ordered(queue, m, n);
    if readings[m].Some? {
      ReadByOwner(queue, readings, m, o);
    }
    assert ComparedWith(queue.jobs, readings, key, o, m);
  }

  /** A bound reading holds each page once, so the page found is the only one with its ID. */
  lemma {:induction false} ReadByOwner(queue: Queue, readings: seq<Option<Response>>, m: nat, o: OverlapReading)
    requires QueueAccepted(queue) && AuditReady(queue) && |readings| == |queue.jobs|
    requires BoundReadings(queue.jobs, readings) && m < |queue.jobs| && readings[m].Some?
    requires var owned := OwnedTexts(readings[m].value.pages, Declared(queue.jobs[m]), OrderOf(queue.jobs[m]));
      && FindPage(owned, o.pageId).Some?
      && o.agreesWithOwner == Some(FindPage(owned, o.pageId).value.page.text == o.text)
    ensures var pages := readings[m].value.pages;
      && (exists k :: 0 <= k < |pages| && pages[k].pageId == o.pageId)
      && forall k :: 0 <= k < |pages| && pages[k].pageId == o.pageId ==>
           o.agreesWithOwner == Some(pages[k].text == o.text)
  {
    hide JobOk, PagesBound, CanonicalPages, FindPage, OwnedTexts;
    var job, pages := queue.jobs[m], readings[m].value.pages;
    var f := OwnedTextFound(pages, Declared(job), OrderOf(job), o.pageId);
    AdmittedParts(queue, m);
    forall k | 0 <= k < |pages| && pages[k].pageId == o.pageId
      ensures k == f
    {
      if k < f {
        DistinctResponsePages(job, readings[m].value, k, f);
      } else if f < k {
        DistinctResponsePages(job, readings[m].value, f, k);
      }
    }
  }

  lemma {:induction false} PagePositive(job: Job, k: nat)
    requires JobOk(job) && k < |job.pages|
    ensures job.pages[k].pdfPage >= 1
  {
  }

  lemma {:induction false} Ordered(queue: Queue, m: nat, n: nat)
    requires QueueAccepted(queue) && m < n < |queue.jobs|
    ensures OrderOf(queue.jobs[m]) < OrderOf(queue.jobs[n])
  {
    hide JobAdmitted;
  }
}
