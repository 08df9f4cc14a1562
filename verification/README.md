# CADGPT evidence pipeline and verdict engine: a verified model

This Dafny project models the part of the repository that decides what counts as evidence, and proves
that nothing is lost, invented or promoted on the way. It has two halves: the regulation pipeline in
`packages/regulations` (transcription ledger, book assembly, acquisition, storage, semantic accounting,
layout, re-anchoring, rule compilation, with `tools/inbr_draft_index.py`), and the three-valued verdict
engine in `packages/engine`.

`dafny verify dfyconfig.toml` checks everything. There are no assumptions, axioms or bodiless members.

How the code is rendered:

- Code that changes state step by step is a method with loops, or a class whose methods update its
  fields; its contract ties the result to a specification function or predicate, and the lemmas prove what
  the source promises about that function.
- Concurrent protocols (workers on one ledger, installers on one file name) are state machines. A schedule
  is an arbitrary sequence of turns; a turn advances one worker by one file-system or lock step, or stops
  that worker. Theorems about schedules hold for every interleaving and every crash point between such steps.
- Servers, the clock, URL joining, the catalog's origin policy, PDF probing, JSON parsing, text
  normalisation and the failure-reason patterns are parameters: theorems hold for every choice of them. In rule
  compilation `str` of integers and strings and the reading of `xs:integer` and `xs:string` are modelled; how a
  float is shown and how `xs:double` or `xs:decimal` is read are parameters, and the theorems that need it assume
  that the limits of the rule at hand, and only these, read back.
- SHA-256 and canonical JSON are injective: where digests of structured content are compared, the digest is
  a free constructor over the content; where raw bytes are hashed, the hash is a parameter.

| file | models |
|---|---|
| `LunaQueue`, `LunaResponse`, `LunaLedger`, `LunaAdmission` | queue admission, response admission, the ledger's five transitions |
| `LunaOutcomes` | what each transition accepts and leaves, in record fields |
| `LunaHistory`, `LunaProtocol`, `LunaDelivery`, `LunaStore` | whole runs, interleaved workers, what they delivered, the locked calls as code |
| `LunaAssembly`, `LunaBooks`, `LunaReport` | the transcript audit, what its books mean and what its report counts |
| `Fetcher`, `Transport`, `TransportRules` | retry, redirect and deadline machine; acquisition results against the receipt validator |
| `EvidenceIndex`, `EvidenceFiles` | the content-addressed index over any number of runs; when a run succeeds |
| `InstallProtocol`, `InstallStore`, `TreeSnapshot` | no-clobber hard-link installation, canonical tree encoding |
| `SemanticReconcile`, `SemanticPublish`, `SemanticBundle`, `RuleDeduplication`, `Lines`, `JsonLines` | semantic accounting and record files |
| `OcrLayout`, `OcrMeaning`, `SourceReanchor`, `ReanchorMeaning`, `DraftIndex`, `DraftMeaning`, `RuleCompiler` | layout, anchoring, draft selection, rule compilation |
| `Verdict`, `VerdictMeaning` | the three-valued verdict |
| `Wrappers`, `Ranges`, `Sorting`, `Strings` | shared vocabulary |

## Where the code does not meet a plain reading

Each of these is proved, with the exact condition.

- **JSON Lines** (`JsonLines.RoundTripIff`, `JsonLines.LineSeparatorBreaks`): records come back exactly when no string in them
  holds U+0085, U+2028 or U+2029. The writer leaves these raw, as section 7 of RFC 8259 permits; the reader uses
  `splitlines`, which breaks there.
- **Negative entity limits** (`Verdict.ListingIsExactIff`): listed + omitted = failed + indeterminate if and only if the
  limit is not negative; a negative Python slice drops entries from the end while the omission count grows.
- **Crashes inside an install** (`LunaProtocol.CallGetsThroughIff`, `LunaProtocol.OneCrashBlocksForGood`): a worker that dies
  between the hard link and the removal of the temporary name leaves a file with two links, and every later install
  under that name is refused. An undisturbed ledger call gets through if and only if the transition accepts the
  operation and none of the names it installs is left that way. One such death at the very first snapshot stops the
  output root for good. Safety is not affected, and without crashes no name stays two-linked
  (`LunaProtocol.WithoutCrashesNothingIsLeft`).
- **Drafts outside the chunk range** (`DraftIndex.AllAreConsideredIff`, `DraftIndex.StrayDraftIsLeftOut`): every draft file found is considered if and only if
  no file name carries a chunk number outside 1 to 668; the others appear nowhere in the index.
- **Repeated page citations** (`SourceReanchor.AnchoringAgainIff`, `SourceReanchor.RepeatedPageBreaks`): anchoring twice gives the
  same anchors if and only if no node of the matched window is listed again after it, which distinct cited pages ensure.
  A record that cites a two-line page twice is anchored by one run and called an invalid anchor by the next.
- **Unresolvable decisions** (`SemanticPublish.PublishBundle`, `SemanticPublish.ReconciledButUnpublishable`): a reconciled
  response publishes if and only if every rejected and every deferred decision names source candidates that exist. A
  rejection of a known candidate that lists an unknown source reconciles and does not publish.
- **Admitted bounds** (`RuleCompiler.IntegerRules`, `RuleCompiler.StringRules`, `RuleCompiler.AdmittedButIllFormed`): an
  `integer` rule compiles to a restriction that XML Schema accepts if and only if none of its limits is a float:
  9.0 passes validation as an integer and is written "9.0", which section 3.4.13 of XML Schema Part 2 does not let
  `xs:integer` read. A `string` rule does so if and only if it only enumerates: an order limit passes validation, but
  order facets do not apply to `xs:string`.
- **Scalar limits** (`RuleCompiler.ComparatorsKeepMeaning`): a comparator keeps its meaning if and only if its own rendered
  limit reads back as the same number, so not for an integer that `xs:double` rounds.

## Model

| member | source | states |
|---|---|---|
| LunaQueue.ValidateJob | packages/regulations/src/cadgpt_regulations/luna_transcript.py:325-349 | a job passes exactly when its schema, its identity digest, its pass list and its page numbering agree |
| LunaQueue.CheckJob | packages/regulations/src/cadgpt_regulations/luna_transcript.py:293-309 | one turn of the queue loop passes exactly when the job continues its source's last page, one page of overlap at most, and declares exactly the overlapping page IDs; the dictionary of last pages stays exact |
| LunaQueue.ValidateJobs | packages/regulations/src/cadgpt_regulations/luna_transcript.py:276-322 | a queue is accepted exactly when every job is admitted, IDs are distinct, and chunk order is 1..n |
| LunaQueue.PagesArePartitioned | packages/regulations/src/cadgpt_regulations/luna_transcript.py:276-349 | after any prefix of an accepted queue, the non-overlap pages of a document's chunks, in order, are 1..last page without gap or repeat |
| LunaQueue.OwnerUnique | packages/regulations/src/cadgpt_regulations/luna_transcript.py:293-309 | two chunks of one source never own the same page |
| LunaQueue.CoverageIsLastEnd | packages/regulations/src/cadgpt_regulations/transcript_assembly.py:162-164 | the audit's page-by-page coverage check holds if and only if the document's last chunk ends at its page count |
| LunaAdmission.QueueIs | packages/regulations/src/cadgpt_regulations/luna_transcript.py:276-322 | field by field, the queues that are accepted |
| LunaAdmission.JobIs | packages/regulations/src/cadgpt_regulations/luna_transcript.py:325-349 | field by field, the jobs that are sound alone: pages numbered from start to end, and the digest of nine identity fields as ID |
| LunaAdmission.ContinuesIff | packages/regulations/src/cadgpt_regulations/luna_transcript.py:293-309 | a chunk begins on page 1, or right after its source's last page with no overlap, or on the last page, which it then declares as its only overlap |
| LunaAdmission.LastPageIs | packages/regulations/src/cadgpt_regulations/luna_transcript.py:291-309 | a source's last page is the end of its latest chunk that declares an overlap, 0 without one |
| LunaAdmission.IdentitiesAreDistinct | packages/regulations/src/cadgpt_regulations/luna_transcript.py:310-313 | no two jobs of an accepted queue are of one source, bundle and page span |
| LunaResponse.ValidateResponsePages | packages/regulations/src/cadgpt_regulations/luna_transcript.py:996-1025 | accepted exactly when the response's page records are the job's pages in order and every span stays on them |
| LunaResponse.ValidateResponse | packages/regulations/src/cadgpt_regulations/luna_transcript.py:953-993 | accepted exactly when schema, identity, pass and page binding all hold |
| LunaAdmission.AdmissibleIs | packages/regulations/src/cadgpt_regulations/luna_transcript.py:953-993 | field by field, the responses that may complete a job |
| LunaAdmission.PagesBoundIs | packages/regulations/src/cadgpt_regulations/luna_transcript.py:996-1025 | page by page, the readings that are bound to a job: its pages in order, and every text that of a section on exactly that page |
| LunaLedger.ClaimChunks | packages/regulations/src/cadgpt_regulations/luna_transcript.py:728-779 | leases the first pending chunks up to the limit, each with its own token and one more attempt, returns one claim per lease, and leaves every other record alone; refuses a bad worker or an invalid ledger |
| LunaLedger.FailChunk | packages/regulations/src/cadgpt_regulations/luna_transcript.py:855-892 | fails exactly the record whose current lease is presented; repeating the same failure changes nothing |
| LunaLedger.ReturnToPending | packages/regulations/src/cadgpt_regulations/luna_transcript.py:895-950 | requeue from failed and reclaim from leased: the lease is cleared, attempts are kept, any other state is refused or left alone |
| LunaLedger.StepValid | packages/regulations/src/cadgpt_regulations/luna_transcript.py:688-950 | every accepted transition leaves a ledger that the ledger validator accepts |
| LunaLedger.NextPending | packages/regulations/src/cadgpt_regulations/luna_transcript.py:501-525 | previews the first pending chunks without changing the ledger |
| LunaLedger.ClaimTakesFirstPending | packages/regulations/src/cadgpt_regulations/luna_transcript.py:501-525 | the preview names exactly the chunks a claim with the same limit takes, in the same order |
| LunaOutcomes.CompletionAcceptedIff | packages/regulations/src/cadgpt_regulations/luna_transcript.py:782-852 | in record fields: a completion is accepted if and only if the response is admissible for the job and the record is completed with this very response or leased to this worker under this token; it then is completed with this response and its two digests, and nothing else changed |
| LunaOutcomes.FailureAcceptedIff | packages/regulations/src/cadgpt_regulations/luna_transcript.py:855-892 | a failure is accepted if and only if it has a reason and the record is failed for it already or leased to this worker under this token; only status and reason change |
| LunaOutcomes.ReturnAcceptedIff | packages/regulations/src/cadgpt_regulations/luna_transcript.py:895-950 | requeue is accepted exactly on failed and pending records, reclaim exactly on leased and pending ones; lease and worker are cleared, attempts and last error kept |
| LunaOutcomes.StrangersRefused | packages/regulations/src/cadgpt_regulations/luna_transcript.py:688-950 | operations on unknown jobs or invalid ledgers are refused |
| LunaOutcomes.ClaimAcceptedIff | packages/regulations/src/cadgpt_regulations/luna_transcript.py:728-779 | a claim is accepted exactly for a named worker and a positive number, and leases a record exactly if it is pending with fewer than that many pending records before it, under the token of its next attempt |
| LunaOutcomes.ClaimsAreListed | packages/regulations/src/cadgpt_regulations/luna_transcript.py:747-779 | the k-th pending record is the k-th claim handed out and the k-th ID previewed |
| LunaOutcomes.ClaimsAreCounted | packages/regulations/src/cadgpt_regulations/luna_transcript.py:747-779 | no more are handed out or previewed than are pending or asked for |
| LunaOutcomes.SummaryCounts | packages/regulations/src/cadgpt_regulations/luna_transcript.py:352-362 | the summary of a valid ledger counts its records by status |
| LunaAdmission.LedgerIs | packages/regulations/src/cadgpt_regulations/luna_transcript.py:688-725 | field by field, the ledgers of a queue that are valid |
| LunaAdmission.InitialLedgerIs | packages/regulations/src/cadgpt_regulations/luna_transcript.py:365-398 | the first ledger has one untouched record per job |
| LunaHistory.RunExplained | packages/regulations/src/cadgpt_regulations/luna_transcript.py:728-950 | over every run each record is what its history of claims, failures, reclaims and completion says, and the ledger is valid |
| LunaHistory.TokensNeverRepeat | packages/regulations/src/cadgpt_regulations/luna_transcript.py:747-766 | over every run two claims carry the same token only if they are the same claim |
| LunaHistory.StateChangesNeedTheLatestLease | packages/regulations/src/cadgpt_regulations/luna_transcript.py:806-892 | a complete or fail that changes a record presents the token of the job's latest claim, with no reclaim or other outcome since |
| LunaHistory.CompletedIsFinal | packages/regulations/src/cadgpt_regulations/luna_transcript.py:806-812 | once completed, no later operation changes the record |
| LunaHistory.AttemptsAreAccountedFor | packages/regulations/src/cadgpt_regulations/luna_transcript.py:728-950 | attempts = failures + reclaims, plus one while leased or completed |
| LunaProtocol.EveryInterleavingIsSafe | packages/regulations/src/cadgpt_regulations/luna_transcript.py:432-498 | for every schedule of lock, load, link, unlink, rename and unlock steps with crashes anywhere: the visible ledger is valid and is the sequential result of the committed operations, no acknowledged operation is lost, completed payloads are stored under their digests with one link, and at most one worker is inside the lock |
| LunaProtocol.EveryVisibleLedgerIsKept | packages/regulations/src/cadgpt_regulations/luna_transcript.py:432-460 | every ledger the pointer ever named has its immutable snapshot, is valid, and is the result of a prefix of the committed operations |
| LunaProtocol.NothingIsTakenBack | packages/regulations/src/cadgpt_regulations/luna_transcript.py:432-498 | committed operations, visible ledgers, snapshots and payloads of a schedule survive every longer schedule |
| LunaProtocol.UndisturbedCall | packages/regulations/src/cadgpt_regulations/luna_transcript.py:484-498 | a worker that is not interrupted leaves exactly what the straight-line call leaves - also when an install is refused because a crash left its name with two links -, commits and returns its operation exactly when the call gets through, and unlocks |
| LunaProtocol.CallGetsThroughIff | packages/regulations/src/cadgpt_regulations/luna_transcript.py:414-498 | an undisturbed call gets through if and only if the transition accepts the operation and no name it installs is left two-linked |
| LunaProtocol.WithoutCrashesNothingIsLeft | packages/regulations/src/cadgpt_regulations/storage.py:319-369 | in a schedule without crashes only the lock holder's own install is ever two-linked, so between calls no name is |
| LunaProtocol.OneCrashBlocksForGood | packages/regulations/src/cadgpt_regulations/storage.py:336-357 | after one crash between link and unlink of the first snapshot, whatever any worker does, no ledger ever becomes visible |
| LunaDelivery.EveryCompletionIsDelivered | packages/regulations/src/cadgpt_regulations/luna_transcript.py:782-852 | for every schedule with crashes anywhere: each completion ever committed or acknowledged has its response and structured transcript on disk, in the files the visible ledger's record of the job names |
| LunaStore.OutputRoot.InstallFile | packages/regulations/src/cadgpt_regulations/storage.py:281-369 | installs under an absent name, reuses an identical single-link file, and otherwise refuses and changes nothing |
| LunaStore.OutputRoot.LoadLedger | packages/regulations/src/cadgpt_regulations/luna_transcript.py:414-429 | loads the pointer, first creating and saving the initial ledger when it is absent; fails on an invalid queue or ledger, or when the first snapshot is refused |
| LunaStore.OutputRoot.SaveLedger | packages/regulations/src/cadgpt_regulations/luna_transcript.py:432-460 | the snapshot is retained and the pointer then names the ledger; when the snapshot is refused, nothing changes and the call fails |
| LunaStore.OutputRoot.CompleteChunk | packages/regulations/src/cadgpt_regulations/luna_transcript.py:782-852 | installs both payloads under their digests and marks the lease completed; success means that the record of the job is completed with this response; a transition refused changes nothing, a payload refused fails after what was installed before it |
| LunaStore.OutputRoot.LeaseChunks | packages/regulations/src/cadgpt_regulations/luna_transcript.py:484-498 | the locked call leaves exactly what the undisturbed worker of the protocol leaves, succeeds exactly when that worker gets through, and hands out the claims made on the ledger it loaded |
| LunaStore.OutputRoot.MarkFinished | packages/regulations/src/cadgpt_regulations/luna_transcript.py:574-614 | likewise for a completion; success means the visible record of the job is completed with this response |
| LunaStore.OutputRoot.MarkFailed | packages/regulations/src/cadgpt_regulations/luna_transcript.py:641-658 | likewise for a failure; success means the visible record failed for this reason |
| LunaStore.OutputRoot.Return | packages/regulations/src/cadgpt_regulations/luna_transcript.py:661-685 | likewise for requeue and reclaim; success means the visible record is pending |
| LunaAssembly.ReadCompletedChunk | packages/regulations/src/cadgpt_regulations/transcript_assembly.py:25-43 | succeeds exactly when the recorded response and structured payload are stored with the recorded digests and bind to the job, and returns the stored response |
| LunaReport.ChunkAttestsIs | packages/regulations/src/cadgpt_regulations/transcript_assembly.py:25-43 | field by field, the completed chunks that attest |
| LunaReport.JobAttestsIs | packages/regulations/src/cadgpt_regulations/transcript_assembly.py:96-121 | a job of an audit agrees with its acquired document, declares its overlap and names its pages after the document |
| LunaReport.SourcesAre | packages/regulations/src/cadgpt_regulations/transcript_assembly.py:46-75 | the documents and the order of jobs an audit accepts |
| LunaReport.ChunkIs | packages/regulations/src/cadgpt_regulations/transcript_assembly.py:119-123 | a chunk has a record, and attests if it is completed |
| LunaReport.ReadingIs | packages/regulations/src/cadgpt_regulations/transcript_assembly.py:119-123 | a chunk adds the response on disk exactly when it is completed and attests |
| LunaAssembly.AddChunk | packages/regulations/src/cadgpt_regulations/transcript_assembly.py:123-160 | owned pages are appended in order, pages owned earlier become compared second readings, and the chunk is listed |
| LunaAssembly.OwnedPagesAreNew | packages/regulations/src/cadgpt_regulations/transcript_assembly.py:156-157 | the duplicate-page error is unreachable for an accepted queue |
| LunaAssembly.WalkJobs | packages/regulations/src/cadgpt_regulations/transcript_assembly.py:93-161 | the walk succeeds exactly when every job attests its source and every completed chunk its payloads, and leaves for each document the book and queued pages its chunks determine |
| LunaAssembly.AuditTranscripts | packages/regulations/src/cadgpt_regulations/transcript_assembly.py:46-193 | accepts exactly on valid queue and ledger, attested sources, attested chunks and full page coverage; returns the books and report of the specification; never fails for a duplicate page |
| LunaReport.AuditIff | packages/regulations/src/cadgpt_regulations/transcript_assembly.py:46-164 | what an audit accepts: a valid queue and ledger, its documents and jobs, every chunk, and chunks that own each document's pages from the first to the last |
| LunaBooks.BookCompleteIff | packages/regulations/src/cadgpt_regulations/transcript_assembly.py:167-171 | a book is whole if and only if every chunk of its document that owns a page has been completed |
| LunaBooks.ReportCompleteIff | packages/regulations/src/cadgpt_regulations/transcript_assembly.py:165-192 | the report is complete if and only if every chunk is completed, and then every book is whole |
| LunaBooks.BooksOnlyGrow | packages/regulations/src/cadgpt_regulations/transcript_assembly.py:96-161 | along every schedule of workers, the pages a book held earlier are an order-preserving subsequence, with the same text and owner, of those it holds later |
| LunaBooks.OverlapsAreComparedWithOwners | packages/regulations/src/cadgpt_regulations/transcript_assembly.py:140-155 | every overlap reading is compared with the one earlier chunk that owns the page: no verdict exactly when that chunk is not completed, otherwise whether its text of that page is the one read here |
| LunaBooks.AuditNeverBlamesAChunk | packages/regulations/src/cadgpt_regulations/transcript_assembly.py:55-164 | for any ledger that workers produced, in any interleaving with any crashes, the audit's verdict depends only on the queue and the acquired sources |
| LunaReport.PagesAreOwnReadings | packages/regulations/src/cadgpt_regulations/transcript_assembly.py:140-160 | a book holds a page exactly if a completed chunk of its document owns it, as that chunk read it |
| LunaReport.OverlapsAreSecondReadings | packages/regulations/src/cadgpt_regulations/transcript_assembly.py:140-155 | every overlap entry is a completed chunk's reading of a page it declares |
| LunaReport.SecondReadingsAreKept | packages/regulations/src/cadgpt_regulations/transcript_assembly.py:140-155 | and every such reading is kept |
| LunaReport.ChunksAreCompleted | packages/regulations/src/cadgpt_regulations/transcript_assembly.py:123-139 | a book describes exactly its document's completed chunks |
| LunaReport.FalseIffDisagrees | packages/regulations/src/cadgpt_regulations/transcript_assembly.py:140-155 | an overlap entry is a disagreement if and only if the completed chunk that owns the page read another text |
| LunaReport.ReportCounts | packages/regulations/src/cadgpt_regulations/transcript_assembly.py:172-192 | every number of the report, counted from the ledger, the documents and the texts on disk; disagreements are the overlap readings that differ from a completed owner's text |
| LunaReport.BooksInCatalogOrder | packages/regulations/src/cadgpt_regulations/transcript_assembly.py:165 | one book per document, in catalog order |
| Fetcher.StreamResponse | packages/regulations/src/cadgpt_regulations/acquisition.py:1734-1882 | the body is read up to some event with one look at the clock per event; the result is out of time exactly when the last look was at or past the deadline; without error the body ended unbroken, within the byte limit and at its declared length, and every look was in time; every result keeps exactly the bytes received, with their digest, size and prefix |
| Fetcher.Receive | packages/regulations/src/cadgpt_regulations/acquisition.py:1619-1724 | what an answer that is not redirected comes to: missing redirect target, content encoding, content length and declared size are refused in this order and without a look at the clock; a connect timeout takes one look, and is out of time exactly if that look is late; everything else is streamed |
| Fetcher.RefusalIs | packages/regulations/src/cadgpt_regulations/acquisition.py:1619-1724 | which check refuses an answer before its body is read, and in which order |
| Fetcher.FetchOnce | packages/regulations/src/cadgpt_regulations/acquisition.py:1575-1731 | one attempt requests exactly the URLs of its chain, each approved, each the redirect target of the one before and each right after a look of its own before the deadline, stops with the error of the place where the chain ends, and is out of time exactly when its last look was late |
| Fetcher.Fetch | packages/regulations/src/cadgpt_regulations/acquisition.py:1449-1541 | for any servers and clock: at most max_attempts*(max_redirects+1) requests, all to approved URLs; not attempted exactly when no attempt is allowed or the first look is late; transient errors are retried until attempts or time run out; without error the last exchange is reported, with a look per body event and one after. If the clock never goes back, each request comes right after a look before the deadline and the result is out of time exactly when the last look is late |
| Fetcher.InTimeEndsWell | packages/regulations/src/cadgpt_regulations/acquisition.py:1449-1882 | a fetch of an approved URL that was in time requested something, ends without error exactly when the last answer was whole, and then reports that answer |
| Transport.FetchCoherent | packages/regulations/src/cadgpt_regulations/acquisition.py:2363-2469 | a fetch that attempted something satisfies the validator's chain rules if and only if the requested URL is approved |
| TransportRules.TransportIs | packages/regulations/src/cadgpt_regulations/acquisition.py:2363-2469 | what the validator asks of reused, ready, unattempted and attempted results |
| TransportRules.StoppedChainIs | packages/regulations/src/cadgpt_regulations/acquisition.py:2363-2469 | what it asks of a chain that stopped at a redirect |
| TransportRules.EndedChainIs | packages/regulations/src/cadgpt_regulations/acquisition.py:2363-2469 | what it asks of any other chain |
| TransportRules.ArtifactIs | packages/regulations/src/cadgpt_regulations/acquisition.py:2286-2357 | a ready artifact is the pinned one with evidence of its first transport, anything else has an error |
| TransportRules.AttestationIs | packages/regulations/src/cadgpt_regulations/acquisition.py:2472-2515 | when the evidence of a first transport is sound |
| TransportRules.DecidedLocallyIff | packages/regulations/src/cadgpt_regulations/acquisition.py:1155-1175 | when the local file decides the result |
| TransportRules.UrlsApprovedIff | packages/regulations/src/cadgpt_regulations/catalog.py:79-105 | when a catalog passes its own policy |
| TransportRules.DeliversIff | packages/regulations/src/cadgpt_regulations/acquisition.py:1176-1260 | what it means that an answer delivers the pinned artifact |
| Transport.ReuseOrReject | packages/regulations/src/cadgpt_regulations/acquisition.py:1343-1410 | an existing file is reused exactly when media type, digest, size and page count are the pinned ones, without any request |
| Transport.ReadyIsDelivered | packages/regulations/src/cadgpt_regulations/acquisition.py:1139-1293 | a fetch without error verdict was answered, over approved hops only, with exactly the pinned artifact, and its attestation validates |
| Transport.AcquireArtifact | packages/regulations/src/cadgpt_regulations/acquisition.py:1139-1293 | an approved URL always gives a result whose transport the independent validator accepts; an unapproved one does exactly when the local file decides the result or the deadline has passed at the second look. In time, the artifact is ready if and only if the last answer is whole, successful, of the pinned media type, digest, size and page count, and meets no conflicting file; each refusal code stands for the first test that fails; the local file is reused or refused likewise |
| Transport.AcquireMetadata | packages/regulations/src/cadgpt_regulations/acquisition.py:888-1023 | the same for a metadata record: in time, it is ready if and only if the last answer is whole, successful, JSON, projects to the catalogued ID, meets no conflict and does not drift; each refusal code stands for the first test that fails |
| Transport.CheckUrls | packages/regulations/src/cadgpt_regulations/catalog.py:79-105 | passes exactly when every artifact and metadata URL of the catalog is approved by its own policy |
| Transport.AcquireCorpus | packages/regulations/src/cadgpt_regulations/acquisition.py:138-211 | a catalog with a foreign URL is refused before any request; otherwise, for any servers, clock, local files and unexpected exceptions, the independent validator accepts the transport of every result |
| Transport.ForeignUrlIsRefused | packages/regulations/src/cadgpt_regulations/catalog.py:89 | the catalog's check is needed: without it, an artifact at an unapproved URL gets a result the validator refuses |
| EvidenceIndex.MergeSucceedsIff | packages/regulations/src/cadgpt_regulations/acquisition.py:783-828 | merging succeeds if and only if no two records of one path disagree |
| EvidenceIndex.PriorCasRecords | packages/regulations/src/cadgpt_regulations/acquisition.py:710-761 | collects exactly the previous receipt's results and history, merged by path |
| EvidenceIndex.CarryForward | packages/regulations/src/cadgpt_regulations/acquisition.py:648-669 | adds to the history every earlier file the current results no longer mention, and only those |
| EvidenceIndex.AddRecovered | packages/regulations/src/cadgpt_regulations/acquisition.py:670-678 | adds exactly the recovered files, refusing one whose path or digest is not that of the stored bytes |
| EvidenceIndex.BuildHistory | packages/regulations/src/cadgpt_regulations/acquisition.py:639-707 | the method computes the history the specification defines, or refuses exactly when that is undefined |
| EvidenceFiles.DescribedIff | packages/regulations/src/cadgpt_regulations/acquisition.py:867-885 | a path is content-addressed exactly when its parts are a quarantine digest or a raw or projected metadata digest |
| EvidenceFiles.EveryDigestHasItsFiles | packages/regulations/src/cadgpt_regulations/acquisition.py:867-885 | every 64-digit digest names its quarantine, raw and projection file |
| EvidenceFiles.PartsSkip | packages/regulations/src/cadgpt_regulations/acquisition.py:867-885 | repeated slashes and dots make no path parts |
| EvidenceFiles.RunSucceedsIff | packages/regulations/src/cadgpt_regulations/acquisition.py:639-707 | a run publishes a history if and only if the previous receipt is consistent, every recovered temporary is stored, every file named by a result, a recovery, the history or a retired result is stored under its own digest with its size, and every content-addressed file on disk is one of these |
| EvidenceFiles.OrphanIsRefused | packages/regulations/src/cadgpt_regulations/acquisition.py:680-700 | a content-addressed file on disk that no receipt, result or recovery names stops the run |
| EvidenceIndex.HistoryAccepted | packages/regulations/src/cadgpt_regulations/acquisition.py:2518-2562 | the history of a successful run passes the history validator: distinct paths in order, each entry with the kind and digest its path names, sorted known origins, and no disagreement with the results |
| EvidenceFiles.EntryOkIff | packages/regulations/src/cadgpt_regulations/acquisition.py:2518-2562 | a history entry is accepted exactly under the path of its own kind and digest, with ordered, distinct origins of catalog subjects or recognized temporaries |
| EvidenceFiles.HistoryOkIff | packages/regulations/src/cadgpt_regulations/acquisition.py:2518-2562 | a history is accepted exactly with valid entries in strict order of their paths, consistent with the results |
| EvidenceFiles.RetainedOrigins | packages/regulations/src/cadgpt_regulations/acquisition.py:775-781 | a result's files are remembered as retained evidence of the result's subject, and nothing else is |
| EvidenceIndex.IndexEqualsStorage | packages/regulations/src/cadgpt_regulations/acquisition.py:680-700 | the indexed paths are exactly the content-addressed files on disk, each with the digest and size of its stored bytes |
| EvidenceIndex.PathsOnlyGrow | packages/regulations/src/cadgpt_regulations/acquisition.py:648-678 | a successful run loses no indexed path |
| EvidenceIndex.OriginsAreExact | packages/regulations/src/cadgpt_regulations/acquisition.py:648-707 | a run's history records exactly the previous origins, those of results it retires and those it recovered |
| EvidenceIndex.SuccessionValid | packages/regulations/src/cadgpt_regulations/acquisition.py:2518-2562 | every receipt of any succession of successful runs validates |
| EvidenceIndex.EvidenceIsNeverLost | packages/regulations/src/cadgpt_regulations/acquisition.py:614-828 | over any number of successful runs, indexed paths and recorded origins only accumulate, and every receipt indexes exactly the files then on disk under their own digests |
| InstallProtocol.ReadStaysTrue | packages/regulations/src/cadgpt_regulations/storage.py:167-210 | each look at the bound destination either fails because of its link count or still shows the bound bytes |
| InstallProtocol.ChangesAreNoticed | packages/regulations/src/cadgpt_regulations/storage.py:167-210 | a read goes on past the bytes if and only if the opened file still has one name, the same change count and all its bytes |
| InstallProtocol.RebindingIsNoticed | packages/regulations/src/cadgpt_regulations/storage.py:167-210 | and yields them if and only if the name still leads to that very file, unchanged |
| InstallProtocol.EveryCallMoves | packages/regulations/src/cadgpt_regulations/storage.py:281-369 | writing, linking and unlinking a file all move its change count |
| InstallProtocol.EveryInstallIsSafe | packages/regulations/src/cadgpt_regulations/storage.py:281-369 | for every interleaving and every death: INSTALLED or REUSED means the destination holds exactly the caller's payload, at most one installer reports INSTALLED, a refusal saw several links or different content, and a finished installer leaves no temporary name |
| InstallProtocol.BindingIsForGood | packages/regulations/src/cadgpt_regulations/storage.py:319-369 | once the destination exists, every later schedule finds the same inode with the same bytes there |
| InstallProtocol.ExactlyOneInstalls | packages/regulations/src/cadgpt_regulations/storage.py:319-369 | when every installer that started has finished, exactly one reports INSTALLED on an absent destination, and none on a present one |
| InstallProtocol.TheWindowRefuses | packages/regulations/src/cadgpt_regulations/storage.py:336-357 | an installer that looks while the winner still holds its temporary link is refused for the link count, never shown unfinished content |
| InstallProtocol.NeverWithdraws | packages/regulations/src/cadgpt_regulations/storage.py:365-369 | without I/O errors the branch that takes a link back is never reached |
| InstallStore.Directory.ReadRegular | packages/regulations/src/cadgpt_regulations/storage.py:167-210 | a regular file is read exactly when it has one link, and its bytes are returned |
| InstallStore.Directory.InstallBytes | packages/regulations/src/cadgpt_regulations/storage.py:281-369 | installs under an absent name, reuses an identical single-link file, refuses otherwise; no existing name or inode changes and no temporary remains |
| TreeSnapshot.EntryCut | packages/regulations/src/cadgpt_regulations/storage.py:457-491 | the end of one encoded entry is determined, whatever the names contain and whatever follows |
| TreeSnapshot.EncodeInjective | packages/regulations/src/cadgpt_regulations/storage.py:457-491 | the encoding of an entry list determines the list |
| TreeSnapshot.TreeListed | packages/regulations/src/cadgpt_regulations/storage.py:630-677 | the scan lists exactly the files and directories that are in the tree |
| TreeSnapshot.EncodingIdentifiesTree | packages/regulations/src/cadgpt_regulations/storage.py:457-491 | two trees have equal encodings if and only if they have the same relative paths, kinds, digests and sizes, in whatever order they were listed and whatever characters names hold |
| TreeSnapshot.SnapshotsIdentifyTrees | packages/regulations/src/cadgpt_regulations/storage.py:457-491 | so two successful snapshots have equal encodings if and only if their trees are the same |
| TreeSnapshot.ScanDirectory | packages/regulations/src/cadgpt_regulations/storage.py:630-677 | succeeds exactly on plain files and directories under safe paths, appending the scan to the list given |
| TreeSnapshot.SnapshotDirectory | packages/regulations/src/cadgpt_regulations/storage.py:457-491 | returns the canonical encoding with the file and byte counts of its entries |
| TreeSnapshot.SafePathIs | packages/regulations/src/cadgpt_regulations/storage.py:135-154 | which relative paths a snapshot accepts |
| TreeSnapshot.TotalsAre | packages/regulations/src/cadgpt_regulations/storage.py:457-491 | files and their bytes are counted, directories are not |
| TreeSnapshot.EntryIs | packages/regulations/src/cadgpt_regulations/storage.py:457-491 | how a directory and a file entry are written |
| SemanticReconcile.RejectDuplicates | packages/regulations/src/cadgpt_regulations/semantic_reconcile.py:137-140 | passes exactly when no value repeats |
| SemanticReconcile.RecordIds | packages/regulations/src/cadgpt_regulations/semantic_reconcile.py:120-134 | passes exactly on present, distinct IDs |
| SemanticReconcile.CollectMerges | packages/regulations/src/cadgpt_regulations/semantic_reconcile.py:57-74 | passes exactly on well-formed merges and collects targets, sources and merge IDs in order |
| SemanticReconcile.ReconcileValidator | packages/regulations/src/cadgpt_regulations/semantic_reconcile.py:38-108 | succeeds exactly when merges, rejections and deferrals are disjoint, known and distinct and accepted candidates are the merge targets; its counts and unaccounted list are exact |
| SemanticBundle.ReconcilesIff | packages/regulations/src/cadgpt_regulations/semantic_reconcile.py:38-108 | record by record, the responses that reconcile: usable IDs each once, disjoint passes, every source merged, rejected or deferred at most once, accepted candidates as merge targets, and only source candidates |
| SemanticReconcile.SourcesArePartitioned | packages/regulations/src/cadgpt_regulations/semantic_reconcile.py:86-108 | every blind-pass candidate is merged, rejected, deferred or unaccounted, and only one of these; the counts add up |
| SemanticReconcile.AcceptedMatchMerges | packages/regulations/src/cadgpt_regulations/semantic_reconcile.py:57-84 | accepted candidates and merges are in bijection |
| SemanticPublish.MergesAreFound | packages/regulations/src/cadgpt_regulations/semantic_publish.py:610-616 | after reconciliation, the lookup of an accepted candidate's merge never misses |
| SemanticPublish.UnaccountedAreFound | packages/regulations/src/cadgpt_regulations/semantic_publish.py:672-680 | nor does the lookup of an unaccounted candidate |
| SemanticPublish.PublishBundle | packages/regulations/src/cadgpt_regulations/semantic_publish.py:527-689 | a reconciled response publishes exactly the specified rules, rejections and deferrals, failing if and only if a decision names an unknown candidate; an unreconciled one defers the whole bundle; either way every blind-pass candidate is named in what is published |
| SemanticBundle.ResolvableIff | packages/regulations/src/cadgpt_regulations/semantic_publish.py:957-979 | a decision resolves exactly when it cites usable IDs of blind-pass candidates only |
| SemanticBundle.RejectionsCarryTheirSources | packages/regulations/src/cadgpt_regulations/semantic_publish.py:650-660 | rejection k carries decision k and one blind-pass record per cited ID, in the order cited |
| SemanticBundle.DeferralsCarryTheirSources | packages/regulations/src/cadgpt_regulations/semantic_publish.py:624-680 | the deferred output is the held candidates, then deferred decision k with the record of every ID it cites, then the candidates nobody decided on |
| SemanticBundle.RulesSayWhy | packages/regulations/src/cadgpt_regulations/semantic_publish.py:609-623 | a rule is published exactly for an accepted candidate without uncertainty or objection, with the one merge that targets it |
| SemanticBundle.HeldCandidatesSayWhy | packages/regulations/src/cadgpt_regulations/semantic_publish.py:624-648 | every other accepted candidate is deferred with the reason that applies, its uncertainty codes and its objections |
| SemanticBundle.CountsAreExact | packages/regulations/src/cadgpt_regulations/semantic_publish.py:681-688 | the counts of the bundle's reference |
| SemanticPublish.AcceptedLandOnce | packages/regulations/src/cadgpt_regulations/semantic_publish.py:608-648 | each accepted candidate lands in exactly one of rules and deferred, rules keep their order, and no uncertain or low-quality candidate becomes a rule |
| SemanticPublish.EverySourceIsMentioned | packages/regulations/src/cadgpt_regulations/semantic_publish.py:608-689 | every candidate of either blind pass is named in some output |
| SemanticPublish.FailedBundleMentionsAll | packages/regulations/src/cadgpt_regulations/semantic_publish.py:582-607 | also in what is published when reconciliation fails |
| SemanticPublish.ReconciledButUnpublishable | packages/regulations/src/cadgpt_regulations/semantic_publish.py:957-975 | a response that reconciles and does not publish: its rejection lists a source nobody proposed |
| RuleDeduplication.IdentityIff | packages/regulations/src/cadgpt_regulations/semantic_publish.py:849-875 | two rules are one if and only if they are of one entry, cite the same spans in any order, agree in every statement, and agree up to case and whitespace in subject, printed unit and gloss |
| RuleDeduplication.Deduplicate | packages/regulations/src/cadgpt_regulations/semantic_publish.py:824-846 | keeps the first rule of each identity in input order, records every other one, in place, as corroboration of it, and kept + collapsed = input |
| RuleDeduplication.GatheredSays | packages/regulations/src/cadgpt_regulations/semantic_publish.py:824-846 | a kept rule gathers, for every later rule of its identity in order, that rule's record, provenance, decision, candidate and wording |
| RuleDeduplication.KeptAreDistinct | packages/regulations/src/cadgpt_regulations/semantic_publish.py:824-846 | kept rules come in input order with pairwise distinct identities |
| RuleDeduplication.EveryRuleIsConserved | packages/regulations/src/cadgpt_regulations/semantic_publish.py:824-846 | every rule is kept, or corroborates exactly one kept rule, the first with its identity |
| RuleDeduplication.CheckRules | packages/regulations/src/cadgpt_regulations/semantic_publish.py:269-285 | the publication check accepts exactly clean rules without repeated identity |
| RuleDeduplication.DeduplicatedRulesPass | packages/regulations/src/cadgpt_regulations/semantic_publish.py:269-285 | what deduplication keeps always passes that duplicate check |
| JsonLines.LoadJsonl | packages/regulations/src/cadgpt_regulations/semantic_publish.py:1131-1147 | reads one object per line, failing exactly when some line is not one |
| JsonLines.EscapeIs | packages/regulations/src/cadgpt_regulations/semantic_publish.py:1116-1128 | how `json.dumps` writes each character with `ensure_ascii=False` |
| JsonLines.ItemsAreSeparated | packages/regulations/src/cadgpt_regulations/semantic_publish.py:1116-1128 | items are separated by single commas |
| JsonLines.FieldsAreSeparated | packages/regulations/src/cadgpt_regulations/semantic_publish.py:1116-1128 | and so are fields |
| JsonLines.RecordsAreLines | packages/regulations/src/cadgpt_regulations/semantic_publish.py:1116-1128 | a file is one line per record |
| Lines.LinesEnd | packages/regulations/src/cadgpt_regulations/semantic_publish.py:1131-1147 | `splitlines` ends a line at ten characters, and once at a carriage return with a line feed |
| JsonLines.DumpsWritten | packages/regulations/src/cadgpt_regulations/semantic_publish.py:1116-1128 | a serialized value contains no line boundary but U+0085, U+2028 and U+2029, and those exactly when one of its strings does |
| JsonLines.RoundTripIff | packages/regulations/src/cadgpt_regulations/semantic_publish.py:1116-1147 | reading what was written returns the same records if and only if no string holds one of those three characters |
| JsonLines.LineSeparatorBreaks | packages/regulations/src/cadgpt_regulations/semantic_publish.py:1116-1147 | a concrete record that does not come back |
| OcrLayout.PlacementMeans | packages/regulations/src/cadgpt_regulations/paddle_ocr.py:192-213 | a token joins the latest near line among the last three, and opens a line exactly when near none of them |
| OcrLayout.ParseResult | packages/regulations/src/cadgpt_regulations/paddle_ocr.py:175-260 | the loops compute the layout the lemmas below are about |
| OcrLayout.NothingLostOrInvented | packages/regulations/src/cadgpt_regulations/paddle_ocr.py:175-260 | tokens are a permutation of the non-blank detections, span numbers run 0..n-1, and the lines' token lists concatenate to exactly all tokens |
| OcrLayout.WordIdsAreDistinct | packages/regulations/src/cadgpt_regulations/paddle_ocr.py:222-226 | span identifiers never repeat on a page |
| OcrLayout.LinesFitTheirTokens | packages/regulations/src/cadgpt_regulations/paddle_ocr.py:218-254 | every token is listed by its line and enclosed by the line's box |
| OcrLayout.LineConfidence | packages/regulations/src/cadgpt_regulations/paddle_ocr.py:247-251 | a line's confidence lies between those of two of its tokens |
| OcrLayout.ReadingOrder | packages/regulations/src/cadgpt_regulations/paddle_ocr.py:214-254 | lines come by top edge, tokens line by line and by descending left edge within a line |
| OcrMeaning.ConfidenceIs | packages/regulations/src/cadgpt_regulations/paddle_ocr.py:186 | a score becomes the nearest ten-thousandth, from 0 to 10000 |
| OcrMeaning.PixelIs | packages/regulations/src/cadgpt_regulations/paddle_ocr.py:263-284 | a coordinate becomes the nearest pixel, ties to even, and none is negative |
| OcrMeaning.CornerBoxIs | packages/regulations/src/cadgpt_regulations/paddle_ocr.py:263-268 | four numbers are left, top, right and bottom |
| OcrMeaning.PolygonBoxIs | packages/regulations/src/cadgpt_regulations/paddle_ocr.py:269-284 | a polygon's box holds every corner and each of its sides touches one |
| OcrMeaning.DetectedAre | packages/regulations/src/cadgpt_regulations/paddle_ocr.py:175-190 | every detection with a text, and no other, becomes a token, in the order detected |
| OcrMeaning.TokenIs | packages/regulations/src/cadgpt_regulations/paddle_ocr.py:180-190 | with its stripped text, the box of its shape and its score |
| OcrMeaning.NearIff | packages/regulations/src/cadgpt_regulations/paddle_ocr.py:194-207 | a token is near a line if and only if the distance of its centre from the mean centre is at most 0.6 of the larger height, heights counting as at least 1 |
| OcrMeaning.GroupedFromTheTop | packages/regulations/src/cadgpt_regulations/paddle_ocr.py:191-214 | tokens are grouped from top to bottom and, at one top edge, from left to right |
| OcrMeaning.GroupedStep | packages/regulations/src/cadgpt_regulations/paddle_ocr.py:192-213 | each into the latest of the last three lines it is near, or into a line of its own |
| OcrMeaning.LinesSay | packages/regulations/src/cadgpt_regulations/paddle_ocr.py:215-260 | every line lists a run of the page's tokens, with their texts joined, the smallest box around them and their mean confidence rounded down; the page's text is its lines' |
| SourceReanchor.CitedPages | packages/regulations/src/cadgpt_regulations/source_reanchor.py:207-217 | resolves the cited pages, or fails exactly when one is unknown |
| SourceReanchor.AnchorRecord | packages/regulations/src/cadgpt_regulations/source_reanchor.py:187-317 | the record is updated in place exactly as its decision says |
| SourceReanchor.Reanchor | packages/regulations/src/cadgpt_regulations/source_reanchor.py:49-105 | runs exactly on accepted graphs; decisions, summary and rewritten records are those of the specification |
| ReanchorMeaning.GraphOkIff | packages/regulations/src/cadgpt_regulations/source_reanchor.py:143-184 | which graphs are accepted |
| ReanchorMeaning.CitedIs | packages/regulations/src/cadgpt_regulations/source_reanchor.py:207-217 | the cited pages are known if and only if each is, and these are their numbers |
| ReanchorMeaning.OrderedAre | packages/regulations/src/cadgpt_regulations/source_reanchor.py:218-224 | a record is compared with exactly the nodes of its pages, in source order |
| ReanchorMeaning.LinesRead | packages/regulations/src/cadgpt_regulations/source_reanchor.py:320-326 | a text reads as its lines without the blank ones, normalised, in order |
| ReanchorMeaning.DecisionOrder | packages/regulations/src/cadgpt_regulations/source_reanchor.py:187-317 | the order in which a record is refused, and which question is asked of it |
| ReanchorMeaning.ExistingIff | packages/regulations/src/cadgpt_regulations/source_reanchor.py:233-271 | existing anchors are kept if and only if the nodes carry these spans side by side and read like the record; the reason otherwise says whether a span is missing |
| ReanchorMeaning.KeptIs | packages/regulations/src/cadgpt_regulations/source_reanchor.py:256-271 | a kept record is written its own spans, and the IDs and the text of those nodes |
| ReanchorMeaning.NewIff | packages/regulations/src/cadgpt_regulations/source_reanchor.py:272-317 | without anchors: refused without text or place, ambiguous with the number of places, anchored with exactly one |
| ReanchorMeaning.WrittenIs | packages/regulations/src/cadgpt_regulations/source_reanchor.py:187-317 | only anchored records are written to, and only their anchors and source text |
| ReanchorMeaning.PublishableIff | packages/regulations/src/cadgpt_regulations/source_reanchor.py:79-103 | the summary counts the decisions by status, and the transcript is publishable if and only if it has records and all are anchored |
| SourceReanchor.StatusesPartition | packages/regulations/src/cadgpt_regulations/source_reanchor.py:79-103 | the five statuses partition the records, and publishable means nonempty with every record bound |
| SourceReanchor.AnchoredIff | packages/regulations/src/cadgpt_regulations/source_reanchor.py:272-317 | a record without anchors becomes anchored if and only if its pages are known, its text is not blank, and exactly one window of the pages' nodes reads like it |
| SourceReanchor.AnchorIsTheWindow | packages/regulations/src/cadgpt_regulations/source_reanchor.py:300-317 | what it is bound to is that window: its spans, nodes and source text |
| SourceReanchor.AnchoringAgain | packages/regulations/src/cadgpt_regulations/source_reanchor.py:233-271 | with distinct cited pages, anchoring an anchored record again reports the same binding as already anchored and changes nothing |
| SourceReanchor.AnchoringAgainIff | packages/regulations/src/cadgpt_regulations/source_reanchor.py:242-256 | for any cited pages: the second run agrees with the first if and only if no node of the window is listed again after it, and otherwise reports an invalid existing anchor |
| SourceReanchor.RepeatedPageBreaks | packages/regulations/src/cadgpt_regulations/source_reanchor.py:207-256 | a concrete record citing one page twice that is anchored and then called invalid |
| SourceReanchor.OtherDecisionsStay | packages/regulations/src/cadgpt_regulations/source_reanchor.py:187-317 | every other decision is stable under a second run |
| SourceReanchor.ReanchoringAgain | packages/regulations/src/cadgpt_regulations/source_reanchor.py:49-105 | a second run over a whole transcript changes no record, and its summary moves exactly the anchored ones to already anchored |
| DraftIndex.DiscoverCandidates | tools/inbr_draft_index.py:105-126 | each chunk gets exactly its matching files, sorted path component by path component, skipping preview directories |
| DraftMeaning.ChunkOfIff | tools/inbr_draft_index.py:95 | a file is a draft of a chunk if and only if its name, but for one final newline, ends in chunk-digits-extraction.json with that number |
| DraftMeaning.DiscoveredIff | tools/inbr_draft_index.py:105-126 | exactly the drafts below the root that no directory named previews encloses are found |
| DraftMeaning.CandidatesAre | tools/inbr_draft_index.py:105-126 | the candidates of a chunk are exactly the files found for it |
| DraftIndex.WalkOrderIsIrrelevant | tools/inbr_draft_index.py:105-126 | in whatever order the tree is walked, every chunk gets the same list |
| DraftIndex.CollapseCheck | tools/inbr_draft_index.py:137-172 | says exactly when the reasons look templated |
| DraftIndex.EvaluateChunk | tools/inbr_draft_index.py:238-331 | the loop, both sorts and the rejections compute the entry the lemmas below are about |
| DraftIndex.OrderDoesNotMatter | tools/inbr_draft_index.py:238-331 | permuting a chunk's candidates changes nothing, neither the choice nor the rejection list |
| DraftIndex.ChosenIsBest | tools/inbr_draft_index.py:292-331 | the chosen file is a survivor with greatest modification time, then least path; there is one exactly when some candidate survives |
| DraftMeaning.ObjectionIff | tools/inbr_draft_index.py:137-291 | a draft is unreadable exactly without items, a template exactly when several items all give one reason, and a mismatch exactly when otherwise its record IDs are not the transcript's |
| DraftMeaning.RejectedIff | tools/inbr_draft_index.py:238-331 | rejected are exactly the files with an objection, under it, and the files without one that are not chosen, as superseded; by path |
| DraftIndex.CandidatesAreConserved | tools/inbr_draft_index.py:238-331 | every candidate is chosen or rejected, exactly once |
| DraftIndex.BuildIndex | tools/inbr_draft_index.py:334-412 | from the drafts' directory on: entries and totals are those of the candidates found; files considered are the files found for the chunks in range, and equal chosen + the four rejection totals; every chunk is resolved or not |
| DraftMeaning.EntriesAre | tools/inbr_draft_index.py:334-412 | every chunk in range has its entry, among the resolved ones exactly if a draft is chosen |
| DraftMeaning.MultipleCounts | tools/inbr_draft_index.py:334-412 | the chunks with several candidates are counted |
| DraftMeaning.ReasonCounts | tools/inbr_draft_index.py:334-412 | the rejection totals count the rejections by reason |
| DraftIndex.AllAreConsideredIff | tools/inbr_draft_index.py:349-351 | every file found is considered if and only if no file names a chunk outside the range |
| DraftIndex.StrayDraftIsLeftOut | tools/inbr_draft_index.py:349-351 | a draft named for any chunk beyond the range is found and not considered |
| DraftIndex.FilesAreConserved | tools/inbr_draft_index.py:334-412 | files considered = chosen + the four rejection totals, and every chunk is resolved or not |
| RuleCompiler.CheckBounds | packages/regulations/src/cadgpt_regulations/rule_ir.py:60-86 | behind the rule schema, admits exactly the bounds whose every limit is a number (whole, for `integer`) for numeric data types and a nonempty string for `string` |
| RuleCompiler.LimitOkIff | packages/regulations/src/cadgpt_regulations/rule_ir.py:73-86 | the limits each data type admits |
| RuleCompiler.SchemaOkIff | packages/regulations/src/cadgpt_regulations/schemas/rule-ir.schema.json:49-64 | the rule schema on bounds, key by key |
| RuleCompiler.BoundsFacets | packages/regulations/src/cadgpt_regulations/rule_compiler.py:355-373 | succeeds exactly on known, nonempty bounds with a nonempty enumeration, emitting facets in the fixed order |
| RuleCompiler.CompilableIff | packages/regulations/src/cadgpt_regulations/rule_compiler.py:355-373 | what the facet compiler itself refuses |
| RuleCompiler.SchemaOkCompiles | packages/regulations/src/cadgpt_regulations/rule_compiler.py:355-373 | bounds the rule schema admits are never refused by the facet compiler |
| RuleCompiler.BoundsKeepMeaning | packages/regulations/src/cadgpt_regulations/rule_compiler.py:355-373 | when the limits it renders read back, a value satisfies the bounds object if and only if it satisfies the emitted restriction, order facets conjoined and enumeration members disjoined |
| RuleCompiler.WellFormedIff | packages/regulations/src/cadgpt_regulations/rule_compiler.py:355-373 | XML Schema accepts the emitted restriction if and only if every rendered limit is in the base type's lexical space and strings are only enumerated |
| RuleCompiler.SignsAreRead | packages/regulations/src/cadgpt_regulations/rule_compiler.py:41-46 | how `xs:integer` reads signs and digits |
| RuleCompiler.IntTextIs | packages/regulations/src/cadgpt_regulations/rule_compiler.py:369-377 | only negative integers are written with a sign |
| RuleCompiler.IntegerRules | packages/regulations/src/cadgpt_regulations/rule_ir.py:60-86 | an admitted `integer` rule is well formed once compiled if and only if no limit is a float, and then keeps its meaning |
| RuleCompiler.StringRules | packages/regulations/src/cadgpt_regulations/rule_ir.py:60-86 | an admitted `string` rule is well formed once compiled if and only if it only enumerates, and keeps its meaning |
| RuleCompiler.DecimalRules | packages/regulations/src/cadgpt_regulations/rule_ir.py:60-86 | an admitted `double` or `decimal` rule is well formed exactly when its limits can be read, and keeps its meaning when they read back |
| RuleCompiler.RangeRule | packages/regulations/tests/test_rule_compiler.py:228-250 | the range rule of the test is admitted, compiles to its two facets whatever the key order, and allows exactly the values from 9 to 40 |
| RuleCompiler.AdmittedButIllFormed | packages/regulations/src/cadgpt_regulations/rule_ir.py:73-86 | two admitted rules whose restrictions XML Schema rejects: an integer written 9.0, and an order limit on strings |
| RuleCompiler.ComparatorsKeepMeaning | packages/regulations/src/cadgpt_regulations/rule_compiler.py:376-385 | the one-facet restriction of a comparator allows exactly the values it demands if and only if the rendered limit reads back |
| RuleCompiler.CanonicalBounds | packages/regulations/src/cadgpt_regulations/rule_compiler.py:345-352 | writes the entries in the fixed facet order |
| RuleCompiler.CanonicalKeepsEntries | packages/regulations/src/cadgpt_regulations/rule_compiler.py:345-352 | the canonical form holds exactly the entries of the bounds object |
| RuleCompiler.CanonicalIdentifies | packages/regulations/src/cadgpt_regulations/rule_compiler.py:345-352 | two bounds objects have one canonical form if and only if they have the same entries |
| RuleCompiler.KeyOrderIsIrrelevant | packages/regulations/src/cadgpt_regulations/rule_compiler.py:345-373 | canonical bounds and facets do not depend on key order |
| RuleCompiler.CompileAttributeRule | packages/regulations/src/cadgpt_regulations/rule_compiler.py:90-173 | succeeds exactly on an admitted rule with a supported comparator and a finite number, with the requirement and identity digest of that rule |
| RuleCompiler.CompilePropertyRule | packages/regulations/src/cadgpt_regulations/rule_compiler.py:176-264 | succeeds exactly on an admitted rule with a supported data type and admitted bounds, with the requirement and identity digest of that rule |
| RuleCompiler.CompileRule | packages/regulations/src/cadgpt_regulations/rule_compiler.py:71-87 | dispatches on the requirement kind and compiles exactly the accepted rules |
| RuleCompiler.AcceptedIff | packages/regulations/src/cadgpt_regulations/rule_compiler.py:71-252 | which rules compile |
| RuleCompiler.CompiledIs | packages/regulations/src/cadgpt_regulations/rule_compiler.py:90-264 | entity, target and base type of a compiled rule, and the facet of each comparator |
| RuleCompiler.FacetsInOrder | packages/regulations/src/cadgpt_regulations/rule_compiler.py:47-53 | facets come in the fixed order |
| RuleCompiler.EnumerationKeepsOrder | packages/regulations/src/cadgpt_regulations/rule_compiler.py:362-368 | enumerated values come last, in the order listed |
| RuleCompiler.CompiledKeepsMeaning | packages/regulations/src/cadgpt_regulations/rule_compiler.py:71-264 | an accepted rule whose limits read back compiles to a restriction that allows exactly the values the rule demands, whatever its kind |
| RuleCompiler.SameIdSameMeaning | packages/regulations/src/cadgpt_regulations/rule_compiler.py:130-229 | two compiled rules share an identifier if and only if they agree in everything but key order and the case of the entity; they are then compiled to one restriction and demand the same |
| Verdict.ClassificationIsSound | packages/engine/src/cadgpt_engine/reasons.py:103-130 | FAIL is asserted exactly when a violation pattern matches and no missing-datum pattern does; the status agrees with `status_for`; unrecognised exactly when no pattern matches; never PASS |
| VerdictMeaning.ClassificationOrder | packages/engine/src/cadgpt_engine/reasons.py:29-130 | patterns are tried in this order, those for a missing datum first; the first one found gives code and status |
| Verdict.TallyMeaning | packages/engine/src/cadgpt_engine/check.py:55-71 | PASS exactly on a nonempty list of passes, FAIL exactly when some entry fails |
| Verdict.EveryFailureIsCounted | packages/engine/src/cadgpt_engine/check.py:192-220 | failed + indeterminate is exactly the number of recorded failures |
| Verdict.ListingIsExactIff | packages/engine/src/cadgpt_engine/check.py:215-216 | listed + omitted = failed + indeterminate if and only if the entity limit is not negative |
| Verdict.RequirementCounts | packages/engine/src/cadgpt_engine/check.py:192-220 | a requirement's counts and status are the counts and the tally of the entities put to it |
| VerdictMeaning.ListedAre | packages/engine/src/cadgpt_engine/check.py:192-220 | the first failures are listed in order with entity, text and classification, the rest counted as omitted |
| VerdictMeaning.NegativeLimitLists | packages/engine/src/cadgpt_engine/check.py:215-216 | a negative limit drops entries from the end while the omission count grows |
| Verdict.NothingEstablishedIff | packages/engine/src/cadgpt_engine/status.py:118-142 | `established_nothing` holds exactly for an unknown verdict given for a reason that looked at no entity |
| VerdictMeaning.JudgeSaysWhy | packages/engine/src/cadgpt_engine/check.py:226-299 | the reason and applicability of a specification, case by case, and the status when entities decide it |
| Verdict.SpecificationVerdictIff | packages/engine/src/cadgpt_engine/check.py:223-299 | a specification passes if and only if compliance is established (real subjects and no failed or unknown entity, or a prohibition with none present), and fails if and only if a violation is known |
| Verdict.RequirementsAreExplained | packages/engine/src/cadgpt_engine/check.py:302-374 | a requirement that saw no entity inherits the specification's reason, any other carries none; under undetermined applicability each carries exactly one of reason and caveat, and otherwise none a caveat; counts, status and entities are untouched |
| Verdict.EverySubjectIsCounted | packages/engine/src/cadgpt_engine/check.py:192-220 | after validation, which puts every subject to every facet once, each requirement's counts add up to the subjects matched |
| Verdict.PassingIsUnanimous | packages/engine/src/cadgpt_engine/check.py:302-374 | after validation, every requirement of a passing, not prohibited specification passes, on every subject |
| Verdict.PassingRequirements | packages/engine/src/cadgpt_engine/check.py:302-374 | without validation behind it, a requirement of a passing, not prohibited specification passes exactly when its facet passed some entity |
| Verdict.ReportVerdictIff | packages/engine/src/cadgpt_engine/check.py:377-426 | a report passes if and only if there are specifications and compliance with every one is established; it fails if and only if some specification is violated |
| Verdict.ReportCountsAreExact | packages/engine/src/cadgpt_engine/check.py:377-426 | specification counts add up to the specifications, entity counts to the recorded passes and failures |
| VerdictMeaning.OutcomeCounts | packages/engine/src/cadgpt_engine/check.py:302-374 | an outcome names its specification, counts its subjects and sums its facets |
| VerdictMeaning.ReportCountsStatuses | packages/engine/src/cadgpt_engine/check.py:377-426 | a report counts its specifications by status |
| Verdict.ReportWorsens | packages/engine/src/cadgpt_engine/check.py:55-426 | making any entity outcome in any facet of any specification more severe never makes the report's verdict less severe |
| Verdict.OneFacetWorsens | packages/engine/src/cadgpt_engine/check.py:55-426 | in particular for one facet changed in one specification |

## Left out

- Real I/O: HTTP transport, `fsync`, ownership and mode bits, symbolic-link walking, inode reuse, I/O errors, PDF tools and OCR models.
- JSON schema files, which are not part of this model: what a schema admits is an explicit predicate or an `admitted` flag.
- UTF-8 decoding and Unicode normalisation: text is a sequence of characters, and normalisers are parameters.
- Floating point: coordinates, confidences and bounds are reals; `round` is to nearest with ties to even.
- LunaProtocol.EveryInterleavingIsSafe: the temporary file behind the pointer's rename is not a separate step, because no other worker reads it; a crashed worker's lock is released, as the operating system does for `flock`; an exception inside an install undoes or finishes it, and so is a stop before or after it.
- LunaStore.OutputRoot.LoadLedger: calls without a queue argument are not modelled.
- LunaBooks.BooksOnlyGrow: the on-disk installation of books (`transcript_assembly.py:196-222`) is not modelled; it only writes a complete report through the storage module.
- Fetcher.StreamResponse: the temporary file a body is streamed into is its byte sequence; discarding it is not modelled.
- Fetcher.FetchOnce: the look at the clock that sizes a request's own timeouts (`acquisition.py:1561-1572`) is not modelled; it decides nothing.
- Transport.CheckUrls: the rest of catalog validation, and the check against official origins, are left out.
- Transport.AcquireArtifact: only the transport, payload and attestation fields of a result are modelled, not the whole receipt; the projection-install failure result (`acquisition.py:991-1000`) is outside the claim for the same reason.
- EvidenceIndex.EvidenceIsNeverLost: runs that fail publish nothing and are not part of a succession; the startup check of the storage index (`acquisition.py:614-636`) only refuses runs and is omitted.
- InstallProtocol.EveryInstallIsSafe: no I/O error occurs after a link is made; the cleanup in `storage.py:365-369` could otherwise remove a name another installer already reused.
- `install_terminal_directory` and `renameat2`: directory installation is not modelled.
- TreeSnapshot.EncodingIdentifiesTree: names follow the rules every POSIX file system enforces (not empty, no slash or NUL, distinct within a directory).
- SemanticReconcile.SourcesArePartitioned: that accepted candidates are not also rejected or deferred is not claimed, because the source does not check it (`semantic_reconcile.py:80-94`).
- SemanticPublish.PublishBundle: provenance, audit records and structure records are field copies and are left out.
- SourceReanchor.AnchoringAgain: for nodes of one line each and a normaliser that keeps blank text blank and other text not blank, as the graph builder and `normalize_search_text` provide; neither is part of this model.
- DraftIndex.DiscoverCandidates: `\d` is the ASCII digits.
- RuleCompiler.BoundsKeepMeaning: floats are reals, so negative zero is zero; that the rendered limits read back is a premise about these limits alone, which `IntegerRules` and `StringRules` discharge and `DecimalRules` keeps, because neither Python's rendering of floats nor the reading of `xs:double` and `xs:decimal` is part of this model.
- RuleCompiler.CompileAttributeRule: the rule schema and the citation check are one flag, `admitted`; an integer beyond the range of floats makes Python raise `OverflowError` instead of compiling.
- RuleCompiler.CompilePropertyRule: the citation check and the rule schema on everything but the bounds are one flag, `admitted`; the XML document and citation around the restriction are left out; integers beyond the range of floats as above.
- Verdict.EverySubjectIsCounted: that validation puts every subject to every facet once is a premise about the library that does it, which is not part of this model.
- Verdict.ClassificationIsSound: the regular expressions are abstract; only their order and the codes they carry are modelled.
- Rendering of requirement descriptions, comparisons and applicability facets, the command line, the services and the web interface.
