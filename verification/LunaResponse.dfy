/** Worker responses and the source-bound checks a response passes before its chunk may be
    completed (and again when a book is assembled). */
module LunaResponse {
  import opened Wrappers
  import opened LunaQueue

  datatype Section = Section(sourcePageIds: seq<string>, text: string)

  datatype TranscriptSource = TranscriptSource(
    sourceSha: string, bundleId: string, catalogKey: string, start: nat, end: nat)

  datatype Structured = Structured(source: TranscriptSource, sections: seq<Section>, transcript: string)

  /** `text` is `None` when the response holds something other than a string. */
  datatype PageText = PageText(pageId: string, pdfPage: nat, text: Option<string>)

  datatype Response = Response(
    schemaVersion: string, jobId: JobId, pass: string, sourceSha: string, model: string,
    promptSha: string, schemaSha: string, transcript: Option<string>,
    structured: Option<Structured>, chunkOrder: Option<nat>, catalogOrder: Option<nat>,
    overlap: Option<seq<string>>, orderedPageIds: seq<string>, pages: seq<PageText>)

  datatype ResponseError =
    | NotBoundToJob | LacksTranscript | StructuredSourceDiffers | FieldDiffers
    | PageIdsDiffer | PagesIncomplete | PagesOutOfOrder | TextNotString
    | TextNotInSections | TranscriptTextDiffers

  function PageIds(pages: seq<Page>): (r: seq<string>)
    ensures |r| == |pages|
  {
    seq(|pages|, k requires 0 <= k < |pages| => pages[k].pageId)
  }

  /** `_validate_response`. */
  predicate Bound(response: Response, job: Job) {
    && response.schemaVersion == "1.0.0"
    && response.jobId == job.jobId
    && response.pass == TRANSCRIPT_PASSES[0]
    && response.sourceSha == job.sourceSha
    && response.model == job.model
    && response.promptSha == job.promptSha
    && response.schemaSha == job.schemaSha
    && response.transcript.Some?
    && response.structured.Some?
  }

  /** `validate_structured_transcript` against its job. */
  predicate StructuredBound(structured: Structured, job: Job) {
    structured.source.sourceSha == job.sourceSha && structured.source.bundleId == job.bundleId
  }

  predicate PageBacked(page: PageText, structured: Structured) {
    && page.text.Some?
    && (page.text.value != "" ==>
          exists k :: 0 <= k < |structured.sections|
            && structured.sections[k].sourcePageIds == [page.pageId]
            && structured.sections[k].text == page.text.value)
  }

  /** What `validate_response_pages` accepts. */
  predicate PagesBound(response: Response, job: Job) {
    && response.structured.Some?
    && var structured := response.structured.value;
    && structured.source.catalogKey == job.catalogKey
    && structured.source.start == job.start
    && structured.source.end == job.end
    && response.chunkOrder == job.chunkOrder
    && response.catalogOrder == Some(job.catalogOrder)
    && response.overlap == job.overlap
    && response.orderedPageIds == PageIds(job.pages)
    && |response.pages| == |job.pages|
    && (forall k :: 0 <= k < |job.pages| ==>
          && response.pages[k].pageId == job.pages[k].pageId
          && response.pages[k].pdfPage == job.pages[k].pdfPage
          && PageBacked(response.pages[k], structured))
    && response.transcript == Some(structured.transcript)
  }

  /** Everything a response must satisfy to complete `job`. */
  predicate Admissible(response: Response, job: Job) {
    && Bound(response, job)
    && StructuredBound(response.structured.value, job)
    && (job.overlap.Some? ==> PagesBound(response, job))
  }

  method ValidateResponsePages(response: Response, job: Job) returns (r: Outcome<ResponseError>)
    requires response.structured.Some?
    ensures r.Pass? <==> PagesBound(response, job)
  {
    var structured := response.structured.value;
    if structured.source.catalogKey != job.catalogKey
       || structured.source.start != job.start || structured.source.end != job.end
    {
      return Fail(FieldDiffers);
    }
    if response.chunkOrder != job.chunkOrder
       || response.catalogOrder != Some(job.catalogOrder) || response.overlap != job.overlap
    {
      return Fail(FieldDiffers);
    }
    if response.orderedPageIds != PageIds(job.pages) {
      return Fail(PageIdsDiffer);
    }
    if |response.pages| != |job.pages| {
      return Fail(PagesIncomplete);
    }
    for k := 0 to |job.pages|
      invariant forall m :: 0 <= m < k ==>
        && response.pages[m].pageId == job.pages[m].pageId
        && response.pages[m].pdfPage == job.pages[m].pdfPage
        && PageBacked(response.pages[m], structured)
    {
      var page := response.pages[k];
      if page.pageId != job.pages[k].pageId || page.pdfPage != job.pages[k].pdfPage {
        return Fail(PagesOutOfOrder);
      }
      if page.text.None? {
        return Fail(TextNotString);
      }
      if page.text.value != "" {
        var backed := false;
        for m := 0 to |structured.sections|
          invariant backed <==>
            (exists n :: 0 <= n < m && structured.sections[n].sourcePageIds == [page.pageId]
                         && structured.sections[n].text == page.text.value)
        {
          if structured.sections[m].sourcePageIds == [page.pageId]
             && structured.sections[m].text == page.text.value
          {
            backed := true;
          }
        }
        if !backed {
          return Fail(TextNotInSections);
        }
      }
    }
    if response.transcript != Some(structured.transcript) {
      return Fail(TranscriptTextDiffers);
    }
    return Pass;
  }

  method ValidateResponse(response: Response, job: Job) returns (r: Outcome<ResponseError>)
    ensures r.Pass? <==> Admissible(response, job)
  {
    if response.transcript.None? || response.structured.None? {
      return Fail(LacksTranscript);
    }
    if !Bound(response, job) {
      return Fail(NotBoundToJob);
    }
    if !StructuredBound(response.structured.value, job) {
      return Fail(StructuredSourceDiffers);
    }
    if job.overlap.Some? {
      r := ValidateResponsePages(response, job);
      return;
    }
    return Pass;
  }
}
