/** The acquisition results built on a fetch, and the independent validator that receipts must
    pass: whatever the servers and the clock do, every result of a run over a validated catalog is
    accepted. */
module Transport {
  import opened Wrappers
  import opened Fetcher

  datatype State = Ready | Quarantined
  datatype Action = NoAction | Reused | Acquired

  /** The fields of a result the transport validator reads; metadata results have no action. */
  datatype Transport = Transport(
    state: State, action: Option<Action>, attempts: nat, status: Option<nat>,
    resolved: Option<Url>, chain: seq<Url>, error: Option<Code>)

  // ----- The validator -----

  const UNATTEMPTED_CODES: set<Code> := {
    InternalAcquisitionError, ExistingTargetChanged, ExistingTargetConflict,
    ExistingTargetInspectionFailed, TotalTimeoutExceeded, UnsafeExistingTarget}

  const STATUSLESS_CODES: set<Code> := {HttpRetryExhausted, HttpTransportError, TotalTimeoutExceeded}

  predicate Successful(status: Option<nat>) {
    status.Some? && 200 <= status.value < 300
  }

  predicate Inactive(t: Transport) {
    t.status.None? && t.resolved.None? && t.chain == []
  }

  /** `_validate_result_transport` accepts. */
  predicate TransportOk(t: Transport, requested: Url, policy: Policy, allowReuse: bool) {
    && t.attempts <= policy.maxAttempts
    && if allowReuse && t.state.Ready? && t.action == Some(Reused) then t.attempts == 0 && Inactive(t)
       else
         && (t.state.Ready? ==> t.attempts >= 1 && Successful(t.status) && (allowReuse ==> t.action == Some(Acquired)))
         && if t.attempts == 0 then Inactive(t) && t.error.Some? && t.error.value in UNATTEMPTED_CODES
            else ChainOk(t.chain, t.resolved, t.status, t.error, requested, policy)
  }

  /** The part of the validator that an attempted result must pass. */
  predicate ChainOk(chain: seq<Url>, resolved: Option<Url>, status: Option<nat>, error: Option<Code>,
                    requested: Url, policy: Policy)
  {
    && chain != [] && chain[0] == requested && resolved.Some?
    && (if Trailing(error)
        then |chain| >= 2 && chain[|chain| - 2] == resolved.value && status.Some? && status.value in REDIRECT_STATUSES
        else chain[|chain| - 1] == resolved.value)
    && |chain| <= policy.maxRedirects + (if Trailing(error) then 2 else 1)
    && (forall i :: 0 <= i < (if Trailing(error) then |chain| - 1 else |chain|) ==> policy.approved(chain[i]))
    && (error == Some(UnapprovedRedirect) ==> !policy.approved(chain[|chain| - 1]))
    && (error == Some(TooManyRedirects) ==> policy.approved(chain[|chain| - 1]))
    && (status.None? ==> error.Some? && error.value in STATUSLESS_CODES)
    && (error == Some(HttpStatusError) ==> !Successful(status))
  }

  // ----- Fetch results against the validator -----

  lemma {:induction false} AttemptCoherent(network: Network, policy: Policy, requested: Url, r: FetchResult, first: nat,
                                           sent: nat)
    requires AttemptOk(network, policy, requested, r, first, sent)
    ensures ChainOk(r.chain, r.resolved, r.status, r.error, requested, policy) <==> policy.approved(requested)
  {
    hide Follows, PayloadFields;
    if policy.approved(requested) {
      assert r.chain != [];
      if |r.chain| > sent && !Trailing(r.error) {
        TimedOutCoherent(r, policy, requested, sent);
      }
    } else {
      assert sent == 0;
    }
  }

  lemma {:induction false} TimedOutCoherent(r: FetchResult, policy: Policy, requested: Url, sent: nat)
    requires |r.chain| == sent + 1 <= policy.maxRedirects + 1 && r.chain[0] == requested
    requires forall i :: 0 <= i < sent ==> policy.approved(r.chain[i])
    requires policy.approved(requested) && TimedOutBetween(r, policy, requested)
    ensures ChainOk(r.chain, r.resolved, r.status, r.error, requested, policy)
  {
  }

  /** A fetch that attempted something is coherent exactly when the requested URL is approved. */
  lemma {:induction false} FetchCoherent(network: Network, policy: Policy, requested: Url, r: FetchResult,
                                         start: seq<Url>, log: seq<Url>)
    requires Accounted(network, policy, requested, r, start, log)
    ensures ChainOk(r.chain, r.resolved, r.status, r.error, requested, policy) <==> policy.approved(requested)
  {
    hide AttemptOk;
    var inner: FetchResult, sent: nat :|
      LastAttempt(network, policy, requested, inner, start, log, sent) && ClosesAttempt(r, inner);
    AttemptCoherent(network, policy, requested, inner, |log| - sent, sent);
    if Retryable(inner) {
      RetryableIsNotTrailing(network, policy, requested, inner, |log| - sent, sent);
    }
  }

  lemma {:induction false} RetryableIsNotTrailing(network: Network, policy: Policy, requested: Url, r: FetchResult,
                                                  first: nat, sent: nat)
    requires AttemptOk(network, policy, requested, r, first, sent) && Retryable(r)
    ensures !Trailing(r.error)
  {
    hide Follows, PayloadFields;
  }

  /** Reclassifying a fetch that had no error keeps it coherent. */
  lemma {:induction false} RecodedCoherent(r: FetchResult, code: Code, requested: Url, policy: Policy)
    requires ChainOk(r.chain, r.resolved, r.status, None, requested, policy)
    requires !Trailing(Some(code)) && (code == HttpStatusError ==> !Successful(r.status))
    ensures ChainOk(r.chain, r.resolved, r.status, Some(code), requested, policy)
  {
  }

  // ----- Artifacts -----

  datatype Pinned = Pinned(url: Url, sha256: Digest, bytes: nat, mediaType: string, pages: nat)

  /** `_initial_transport_attestation`. */
  datatype Attestation = Attestation(
    requested: Url, resolved: Url, chain: seq<Url>, attempts: nat, status: nat,
    sha256: Digest, bytes: nat, mediaType: string, pages: nat)

  datatype ArtifactResult = ArtifactResult(
    transport: Transport, sha256: Option<Digest>, bytes: Option<nat>, mediaType: Option<string>,
    pages: Option<nat>, initial: Option<Attestation>)

  datatype PdfProbe = PdfProbe(pages: Option<nat>, error: Option<Code>)

  /** Code outside the model: media-type sniffing, `pdfinfo`, and whether the final install meets
      a conflicting file. */
  datatype Tools = Tools(detect: seq<Byte> -> string, probe: seq<Byte> -> PdfProbe, conflict: bool)

  /** The artifact's local path when acquisition starts. */
  datatype Target = Absent | Uninspectable | Unsafe | Present(content: seq<Byte>, stable: bool)

  /** `_validate_initial_transport` accepts. */
  predicate AttestationOk(a: Attestation, pinned: Pinned, policy: Policy) {
    && a.requested == pinned.url
    && a.chain != [] && a.chain[0] == pinned.url && a.chain[|a.chain| - 1] == a.resolved
    && |a.chain| <= policy.maxRedirects + 1
    && 1 <= a.attempts <= policy.maxAttempts
    && 200 <= a.status < 300
    && (forall i :: 0 <= i < |a.chain| ==> policy.approved(a.chain[i]))
    && a.sha256 == pinned.sha256 && a.bytes == pinned.bytes
    && a.mediaType == pinned.mediaType && a.pages == pinned.pages
  }

  /** A ready artifact is the pinned one and carries initial evidence; anything else has an error. */
  predicate ArtifactOk(r: ArtifactResult, pinned: Pinned, policy: Policy) {
    && (r.transport.state.Ready? <==> r.transport.error.None?)
    && (r.transport.state.Ready? ==>
          && r.sha256 == Some(pinned.sha256) && r.bytes == Some(pinned.bytes)
          && r.mediaType == Some(pinned.mediaType) && r.pages == Some(pinned.pages)
          && r.initial.Some?)
    && (r.initial.Some? ==> AttestationOk(r.initial.value, pinned, policy))
  }

  function Unattempted(code: Code): Transport {
    Transport(Quarantined, Some(NoAction), 0, None, None, [], Some(code))
  }

  function Fetched(fetched: FetchResult, state: State, action: Option<Action>, error: Option<Code>): Transport {
    Transport(state, action, fetched.attempts, fetched.status, fetched.resolved, fetched.chain, error)
  }

  /** `_reuse_or_reject_existing`: keep an existing file only if it is exactly the pinned one. */
  method ReuseOrReject(target: Target, pinned: Pinned, tools: Tools, initial: Option<Attestation>)
    returns (r: ArtifactResult)
    requires target.Unsafe? || target.Present?
    ensures r.transport.attempts == 0 && Inactive(r.transport) && r.initial == initial
    ensures r.transport.state.Ready? <==> Reusable(target, pinned, tools)
    ensures r.transport.state.Ready? ==>
      && r.transport.action == Some(Reused) && r.transport.error.None?
      && r.sha256 == Some(pinned.sha256) && r.bytes == Some(pinned.bytes)
      && r.mediaType == Some(pinned.mediaType) && r.pages == Some(pinned.pages)
    ensures !r.transport.state.Ready? ==> r.transport.error.Some? && r.transport.error.value in UNATTEMPTED_CODES
    ensures LocalOutcome(r, target, pinned, tools)
  {
    if target.Unsafe? {
      return ArtifactResult(Unattempted(UnsafeExistingTarget), None, None, None, None, initial);
    }
    var content := target.content;
    var mediaType := tools.detect(Probe(content));
    r := ArtifactResult(Unattempted(ExistingTargetConflict), Some(Sha256(content)), Some(|content|), Some(mediaType),
                        None, initial);
    if mediaType != pinned.mediaType || Sha256(content) != pinned.sha256 || |content| != pinned.bytes {
      return;
    }
    var probe := tools.probe(content);
    r := r.(pages := probe.pages);
    if probe.error.Some? || probe.pages != Some(pinned.pages) {
      return;
    }
    if !target.stable {
      return r.(transport := Unattempted(ExistingTargetChanged));
    }
    return r.(transport := Transport(Ready, Some(Reused), 0, None, None, [], None));
  }

  /** `_acquire_artifact` after the fetch: why a fetched payload is or is not the pinned artifact. */
  function Verdict(fetched: FetchResult, pinned: Pinned, tools: Tools): Option<Code>
    requires PayloadFields(fetched)
  {
    if fetched.error.Some? then fetched.error
    else if !Successful(fetched.status) then Some(HttpStatusError)
    else if fetched.temporary.None? then Some(ArtifactBodyMissing)
    else if tools.detect(fetched.prefix) != pinned.mediaType then Some(MediaTypeMismatch)
    else if fetched.digest != Some(pinned.sha256) then Some(SourceHashMismatch)
    else if fetched.byteSize != Some(pinned.bytes) then Some(SourceSizeMismatch)
    else
      var probe := tools.probe(fetched.temporary.value);
      if probe.error.Some? then probe.error
      else if probe.pages != Some(pinned.pages) then Some(PdfPageCountMismatch)
      else if tools.conflict then Some(ExistingTargetConflict)
      else None
  }

  /** The codes `pdfinfo` can produce. */
  ghost predicate ProbeCodes(tools: Tools) {
    forall content :: tools.probe(content).error.Some? ==>
      tools.probe(content).error.value in {PdfinfoUnavailable, PdfinfoFailed, PdfEncrypted}
  }

  lemma {:induction false} VerdictCoherent(network: Network, policy: Policy, fetched: FetchResult, pinned: Pinned,
                                           tools: Tools, start: seq<Url>, log: seq<Url>)
    requires PayloadFields(fetched) && ProbeCodes(tools)
    requires Accounted(network, policy, pinned.url, fetched, start, log)
    ensures ChainOk(fetched.chain, fetched.resolved, fetched.status, Verdict(fetched, pinned, tools), pinned.url,
                    policy)
       <==> policy.approved(pinned.url)
  {
    FetchCoherent(network, policy, pinned.url, fetched, start, log);
    var verdict := Verdict(fetched, pinned, tools);
    if fetched.error.None? && verdict.Some? {
      assert !Trailing(verdict);
      if policy.approved(pinned.url) {
        RecodedCoherent(fetched, verdict.value, pinned.url, policy);
      }
    }
  }

  /** The local file is exactly the pinned artifact. */
  predicate Reusable(target: Target, pinned: Pinned, tools: Tools) {
    && target.Present? && target.stable && tools.detect(Probe(target.content)) == pinned.mediaType
    && Sha256(target.content) == pinned.sha256 && |target.content| == pinned.bytes
    && tools.probe(target.content) == PdfProbe(Some(pinned.pages), None)
  }

  /** The local path decides the result: it cannot be used, or it holds the artifact and its first
      transport is on record. */
  predicate DecidedLocally(target: Target, pinned: Pinned, tools: Tools, initial: Option<Attestation>) {
    !target.Absent? && (!Reusable(target, pinned, tools) || initial.Some?)
  }

  /** The second look at the clock finds the deadline passed already. */
  predicate OutOfTimeAtOnce(clock: nat -> real, tick: nat, policy: Policy) {
    clock(tick + 1) >= clock(tick) + policy.timeout
  }

  /** Why an artifact fetched in time is or is not ready, from the last answer and the tools: each
      code stands for the first test that fails. Codes of the fetch itself leave the answer's own
      tests undecided. */
  predicate ArtifactOutcome(r: ArtifactResult, e: Exchange, pinned: Pinned, tools: Tools, policy: Policy) {
    var error := r.transport.error;
    if !Whole(e, policy) || error == Some(HttpRetryExhausted) then
      && r.transport.state.Quarantined? && error.Some?
      && error.value !in {HttpStatusError, ArtifactBodyMissing, MediaTypeMismatch, SourceHashMismatch,
                          SourceSizeMismatch, PdfPageCountMismatch, ExistingTargetConflict}
      && (error == Some(HttpRetryExhausted) && Whole(e, policy) ==> e.status in {408, 425, 429, 500, 502, 503, 504})
    else
      var content := BytesOf(e.body);
      var status := 200 <= e.status < 300;
      var media := status
        && tools.detect(if |content| <= 4096 then content else content[..4096]) == pinned.mediaType;
      var hash := media && Sha256(content) == pinned.sha256;
      var size := hash && |content| == pinned.bytes;
      var probed := size && tools.probe(content).error.None?;
      var pages := probed && tools.probe(content).pages == Some(pinned.pages);
      && (r.transport.state.Ready? <==> pages && !tools.conflict)
      && (error.None? <==> pages && !tools.conflict)
      && (error == Some(HttpStatusError) <==> !status)
      && (error == Some(MediaTypeMismatch) <==> status && !media)
      && (error == Some(SourceHashMismatch) <==> media && !hash)
      && (error == Some(SourceSizeMismatch) <==> hash && !size)
      && (size && !probed ==> error == tools.probe(content).error)
      && (error == Some(PdfPageCountMismatch) <==> probed && !pages)
      && (error == Some(ExistingTargetConflict) <==> pages && tools.conflict)
      && r.sha256 == Some(Sha256(content)) && r.bytes == Some(|content|)
  }

  lemma {:induction false} VerdictDecides(fetched: FetchResult, e: Exchange, pinned: Pinned, tools: Tools,
                                          policy: Policy, r: ArtifactResult)
    requires PayloadFields(fetched) && ProbeCodes(tools)
    requires fetched.error.None? ==>
      Whole(e, policy) && fetched.status == Some(e.status) && fetched.temporary == Some(BytesOf(e.body))
    requires fetched.error.Some? ==>
      && fetched.error.value in {UnapprovedOrigin, InvalidRedirect, UnapprovedRedirect, TooManyRedirects,
                                 UnsupportedContentEncoding, InvalidContentLength, BodyTooLarge, HttpTransportError,
                                 HttpStreamError, HttpLengthMismatch, HttpRetryExhausted}
      && (Whole(e, policy) ==>
            fetched.error == Some(HttpRetryExhausted) && e.status in {408, 425, 429, 500, 502, 503, 504})
    requires var verdict := Verdict(fetched, pinned, tools);
      && r.transport.error == verdict && (r.transport.state.Ready? <==> verdict.None?)
      && r.sha256 == fetched.digest && r.bytes == fetched.byteSize
    ensures ArtifactOutcome(r, e, pinned, tools, policy)
  {
    hide Whole, BytesOf;
  }

  lemma {:induction false} VerdictCodes(fetched: FetchResult, pinned: Pinned, tools: Tools)
    requires PayloadFields(fetched) && ProbeCodes(tools)
    ensures Verdict(fetched, pinned, tools) == Some(TotalTimeoutExceeded) <==>
      fetched.error == Some(TotalTimeoutExceeded)
    ensures Verdict(fetched, pinned, tools) == Some(UnapprovedOrigin) <==> fetched.error == Some(UnapprovedOrigin)
  {
  }

  /** The verdict on a fetch decides the outcome of the acquisition. */
  lemma {:induction false} ArtifactEnds(network: Network, policy: Policy, fetched: FetchResult, pinned: Pinned,
                                        tools: Tools, start: seq<Url>, log: seq<Url>)
    requires PayloadFields(fetched) && ProbeCodes(tools)
    requires fetched.attempts == 0 ==> fetched == NotAttempted(TotalTimeoutExceeded)
    requires fetched.attempts > 0 ==> Accounted(network, policy, pinned.url, fetched, start, log)
    ensures !policy.approved(pinned.url) ==>
      fetched.error == Some(UnapprovedOrigin) || fetched.error == Some(TotalTimeoutExceeded)
    ensures policy.approved(pinned.url) && fetched.error != Some(TotalTimeoutExceeded) ==>
      && |log| > |start|
      && forall r: ArtifactResult ::
           && r.transport.error == Verdict(fetched, pinned, tools)
           && (r.transport.state.Ready? <==> Verdict(fetched, pinned, tools).None?)
           && r.sha256 == fetched.digest && r.bytes == fetched.byteSize ==>
           ArtifactOutcome(r, network.serve(|log| - 1, log[|log| - 1]), pinned, tools, policy)
  {
    hide Accounted, PayloadFields, ProbeCodes, Verdict, ArtifactOutcome, Whole;
    if fetched.attempts > 0 {
      FetchCodes(network, policy, pinned.url, fetched, start, log);
      if policy.approved(pinned.url) && fetched.error != Some(TotalTimeoutExceeded) {
        InTimeEndsWell(network, policy, pinned.url, fetched, start, log);
        var e := network.serve(|log| - 1, log[|log| - 1]);
        forall r: ArtifactResult |
          && r.transport.error == Verdict(fetched, pinned, tools)
          && (r.transport.state.Ready? <==> Verdict(fetched, pinned, tools).None?)
          && r.sha256 == fetched.digest && r.bytes == fetched.byteSize
          ensures ArtifactOutcome(r, e, pinned, tools, policy)
        {
          VerdictDecides(fetched, e, pinned, tools, policy, r);
        }
      }
    }
  }

  /** The local path decides: the result sends no request. */
  predicate LocalOutcome(r: ArtifactResult, target: Target, pinned: Pinned, tools: Tools) {
    && r.transport.attempts == 0
    && match target
       case Absent => false
       case Uninspectable => r.transport.state.Quarantined? && r.transport.error == Some(ExistingTargetInspectionFailed)
       case Unsafe => r.transport.state.Quarantined? && r.transport.error == Some(UnsafeExistingTarget)
       case Present(content, stable) =>
         var same := (
           && Sha256(content) == pinned.sha256 && |content| == pinned.bytes
           && tools.detect(if |content| <= 4096 then content else content[..4096]) == pinned.mediaType
           && tools.probe(content).error.None? && tools.probe(content).pages == Some(pinned.pages));
         && (r.transport.state.Ready? <==> same && stable)
         && (r.transport.error == Some(ExistingTargetConflict) <==> !same)
         && (r.transport.error == Some(ExistingTargetChanged) <==> same && !stable)
         && (r.transport.error.None? <==> same && stable)
  }

  /** `_acquire_artifact`: reuse a proven local file, or fetch, check and install. */
  method AcquireArtifact(network: Network, policy: Policy, pinned: Pinned, tools: Tools, target: Target,
                         initial: Option<Attestation>)
    returns (r: ArtifactResult)
    requires policy.maxAttempts >= 1 && ProbeCodes(tools)
    requires initial.Some? ==> AttestationOk(initial.value, pinned, policy)
    modifies network`log, network`ticks, network`sentAt
    ensures policy.approved(pinned.url) ==> TransportOk(r.transport, pinned.url, policy, true)
    ensures !policy.approved(pinned.url) ==>
      (TransportOk(r.transport, pinned.url, policy, true)
       <==> (|| DecidedLocally(target, pinned, tools, initial)
             || OutOfTimeAtOnce(network.clock, old(network.ticks), policy)))
    ensures ArtifactOk(r, pinned, policy)
    ensures old(network.log) <= network.log
    ensures |network.log| - |old(network.log)| <= policy.maxAttempts * (policy.maxRedirects + 1)
    ensures forall u :: u in network.log[|old(network.log)|..] ==> policy.approved(u)
    ensures r.transport.state.Ready? && r.transport.action == Some(Acquired) ==>
      && |network.log| > |old(network.log)|
      && Delivers(network.serve(|network.log| - 1, network.log[|network.log| - 1]), pinned, policy)
    ensures old(network.sentAt) <= network.sentAt
    ensures DecidedLocally(target, pinned, tools, initial) ==>
      network.log == old(network.log) && LocalOutcome(r, target, pinned, tools)
    ensures !DecidedLocally(target, pinned, tools, initial) ==>
      && (r.transport.state.Ready? ==> r.transport.action == Some(Acquired))
      && (Forward(network.clock) ==>
            Punctual(network.clock, old(network.ticks) + 1, network.ticks, network.sentAt[|old(network.sentAt)|..],
                     network.clock(old(network.ticks)) + policy.timeout,
                     r.transport.error == Some(TotalTimeoutExceeded)))
      && (!policy.approved(pinned.url) ==>
            r.transport.error == Some(UnapprovedOrigin) || r.transport.error == Some(TotalTimeoutExceeded))
      && (policy.approved(pinned.url) && r.transport.error != Some(TotalTimeoutExceeded) ==>
            && |network.log| > |old(network.log)|
            && ArtifactOutcome(r, network.serve(|network.log| - 1, network.log[|network.log| - 1]), pinned, tools,
                               policy))
  {
    hide Accounted, Reports, ChainOk, Successful, AttestationOk, Forward, Punctual, ArtifactOutcome, Whole;
    RequestBudget(policy);
    var pages: Option<nat> := None;
    if target.Uninspectable? {
      return ArtifactResult(Unattempted(ExistingTargetInspectionFailed), None, None, None, None, initial);
    }
    if !target.Absent? {
      r := ReuseOrReject(target, pinned, tools, initial);
      if r.transport.state.Quarantined? || initial.Some? {
        return;
      }
      pages := r.pages;
    }
    var fetched := Fetch(network, policy, pinned.url);
    AcceptedWhenApproved(network, policy, fetched, pinned, tools, old(network.log), network.log);
    ghost var verdict := Verdict(fetched, pinned, tools);
    VerdictCodes(fetched, pinned, tools);
    ArtifactEnds(network, policy, fetched, pinned, tools, old(network.log), network.log);
    var mediaType := if fetched.byteSize.Some? then Some(tools.detect(fetched.prefix)) else None;
    r := ArtifactResult(Fetched(fetched, Quarantined, Some(NoAction), fetched.error),
                        fetched.digest, fetched.byteSize, mediaType, pages, initial);
    if fetched.error.Some? {
      return;
    }
    if !Successful(fetched.status) {
      return Failed(r, HttpStatusError);
    }
    if fetched.temporary.None? {
      return Failed(r, ArtifactBodyMissing);
    }
    if tools.detect(fetched.prefix) != pinned.mediaType {
      return Failed(r, MediaTypeMismatch);
    }
    if fetched.digest != Some(pinned.sha256) {
      return Failed(r, SourceHashMismatch);
    }
    if fetched.byteSize != Some(pinned.bytes) {
      return Failed(r, SourceSizeMismatch);
    }
    var probe := tools.probe(fetched.temporary.value);
    r := r.(pages := probe.pages);
    if probe.error.Some? {
      return Failed(r, probe.error.value);
    }
    if probe.pages != Some(pinned.pages) {
      return Failed(r, PdfPageCountMismatch);
    }
    if tools.conflict {
      return Failed(r, ExistingTargetConflict);
    }
    ReadyIsDelivered(network, policy, fetched, pinned, tools, old(network.log));
    r := r.(transport := Fetched(fetched, Ready, Some(Acquired), None));
    if r.initial.None? {
      r := r.(initial := Some(Attestation(
        fetched.chain[0], fetched.resolved.value, fetched.chain, fetched.attempts, fetched.status.value,
        fetched.digest.value, fetched.byteSize.value, pinned.mediaType, pinned.pages)));
    }
  }

  function Failed(r: ArtifactResult, code: Code): ArtifactResult {
    r.(transport := r.transport.(error := Some(code)))
  }

  /** Whatever verdict a fetch comes to, the validator's answer is the same. */
  lemma {:induction false} AcceptedWhenApproved(network: Network, policy: Policy, fetched: FetchResult, pinned: Pinned,
                                                tools: Tools, start: seq<Url>, log: seq<Url>)
    requires PayloadFields(fetched) && ProbeCodes(tools) && fetched.attempts <= policy.maxAttempts
    requires fetched.attempts == 0 ==> fetched == NotAttempted(TotalTimeoutExceeded)
    requires fetched.attempts > 0 ==> Accounted(network, policy, pinned.url, fetched, start, log)
    ensures var verdict := Verdict(fetched, pinned, tools);
      TransportOk(Fetched(fetched, if verdict.None? then Ready else Quarantined,
                          Some(if verdict.None? then Acquired else NoAction), verdict), pinned.url, policy, true)
      <==> policy.approved(pinned.url) || fetched.attempts == 0
  {
    hide Accounted, ChainOk;
    if fetched.attempts > 0 {
      VerdictCoherent(network, policy, fetched, pinned, tools, start, log);
    }
  }

  /** A verdict without error: every hop was approved, and the last answer was the pinned
      artifact. */
  lemma {:induction false} ReadyIsDelivered(network: Network, policy: Policy, fetched: FetchResult, pinned: Pinned,
                                            tools: Tools, start: seq<Url>)
    requires PayloadFields(fetched) && ProbeCodes(tools) && 0 < fetched.attempts <= policy.maxAttempts
    requires Accounted(network, policy, pinned.url, fetched, start, network.log)
    requires Verdict(fetched, pinned, tools).None? && |network.log| > 0
      && Reports(fetched, network.serve(|network.log| - 1, network.log[|network.log| - 1]), policy)
    ensures Delivers(network.serve(|network.log| - 1, network.log[|network.log| - 1]), pinned, policy)
    ensures fetched.chain != [] && fetched.resolved.Some? && fetched.status.Some?
    ensures policy.approved(pinned.url)
      && ChainOk(fetched.chain, fetched.resolved, fetched.status, None, pinned.url, policy)
    ensures AttestationOk(Attestation(
        fetched.chain[0], fetched.resolved.value, fetched.chain, fetched.attempts, fetched.status.value,
        fetched.digest.value, fetched.byteSize.value, pinned.mediaType, pinned.pages), pinned, policy)
  {
    hide AttemptOk;
    var inner: FetchResult, sent: nat :|
      LastAttempt(network, policy, pinned.url, inner, start, network.log, sent) && ClosesAttempt(fetched, inner);
    assert inner == fetched;
    SuccessIsApproved(network, policy, pinned.url, fetched, |network.log| - sent, sent);
    FetchCoherent(network, policy, pinned.url, fetched, start, network.log);
  }

  lemma {:induction false} SuccessIsApproved(network: Network, policy: Policy, requested: Url, r: FetchResult,
                                             first: nat, sent: nat)
    requires AttemptOk(network, policy, requested, r, first, sent) && r.error.None?
    ensures policy.approved(requested)
  {
    hide Follows, PayloadFields, Reports;
  }

  predicate Delivers(e: Exchange, pinned: Pinned, policy: Policy) {
    && e.Answer? && Successful(Some(e.status)) && Unbroken(e.body)
    && Sha256(BytesOf(e.body)) == pinned.sha256 && |BytesOf(e.body)| == pinned.bytes <= policy.maxBytes
  }

  lemma {:induction false} RequestBudget(policy: Policy)
    ensures policy.maxAttempts * (policy.maxRedirects + 1) >= 0
  {
  }

  // ----- Metadata sources -----

  datatype Source = Source(url: Url, wordpressId: int)

  datatype Projection = Projection(wordpressId: int, drifts: bool)

  /** Reading a metadata record, and whether the two content-addressed installs conflict. */
  datatype MetadataTools = MetadataTools(
    project: seq<Byte> -> Option<Projection>, rawConflict: bool, projectionConflict: bool)

  datatype MetadataResult = MetadataResult(transport: Transport, raw: Option<Digest>, bytes: Option<nat>)

  const JSON_MEDIA_TYPES: set<string> := {"application/json", "application/ld+json"}

  /** `_acquire_metadata_source` after the fetch. */
  function MetadataVerdict(fetched: FetchResult, source: Source, tools: MetadataTools): Option<Code> {
    if fetched.error.Some? then fetched.error
    else if !Successful(fetched.status) then Some(HttpStatusError)
    else if fetched.mediaType.None? || fetched.mediaType.value !in JSON_MEDIA_TYPES then Some(MetadataMediaTypeMismatch)
    else if fetched.temporary.None? then Some(MetadataBodyMissing)
    else
      var projection := tools.project(fetched.temporary.value);
      if projection.None? then Some(MetadataInvalidRecord)
      else if projection.value.wordpressId != source.wordpressId then Some(MetadataIdMismatch)
      else if tools.rawConflict || tools.projectionConflict then Some(ContentStoreConflict)
      else if projection.value.drifts then Some(SourceDiscoveryDrift)
      else None
  }

  lemma {:induction false} MetadataCoherent(network: Network, policy: Policy, fetched: FetchResult, source: Source,
                                            tools: MetadataTools, start: seq<Url>, log: seq<Url>)
    requires fetched.attempts <= policy.maxAttempts
    requires fetched.attempts == 0 ==> fetched == NotAttempted(TotalTimeoutExceeded)
    requires fetched.attempts > 0 ==> Accounted(network, policy, source.url, fetched, start, log)
    ensures var verdict := MetadataVerdict(fetched, source, tools);
      TransportOk(Fetched(fetched, if verdict.None? then Ready else Quarantined, None, verdict), source.url, policy,
                  false)
      <==> policy.approved(source.url) || fetched.attempts == 0
  {
    hide Accounted;
    var verdict := MetadataVerdict(fetched, source, tools);
    if fetched.attempts > 0 {
      FetchCoherent(network, policy, source.url, fetched, start, log);
      if fetched.error.None? && verdict.Some? {
        assert !Trailing(verdict);
        if policy.approved(source.url) {
          RecodedCoherent(fetched, verdict.value, source.url, policy);
        }
      }
    }
  }

  /** Why a record fetched in time is or is not ready, from the last answer and the tools: each code
      stands for the first test that fails. */
  predicate MetadataOutcome(r: MetadataResult, e: Exchange, source: Source, tools: MetadataTools, policy: Policy) {
    var error := r.transport.error;
    if !Whole(e, policy) || error == Some(HttpRetryExhausted) then
      && r.transport.state.Quarantined? && error.Some?
      && error.value !in {HttpStatusError, MetadataMediaTypeMismatch, MetadataBodyMissing, MetadataInvalidRecord,
                          MetadataIdMismatch, ContentStoreConflict, SourceDiscoveryDrift}
      && (error == Some(HttpRetryExhausted) && Whole(e, policy) ==> e.status in {408, 425, 429, 500, 502, 503, 504})
    else
      var content := BytesOf(e.body);
      var projection := tools.project(content);
      var status := 200 <= e.status < 300;
      var media := status && e.mediaType.Some? && e.mediaType.value in {"application/json", "application/ld+json"};
      var valid := media && projection.Some?;
      var named := valid && projection.value.wordpressId == source.wordpressId;
      var kept := named && !tools.rawConflict && !tools.projectionConflict;
      && (r.transport.state.Ready? <==> kept && !projection.value.drifts)
      && (error.None? <==> kept && !projection.value.drifts)
      && (error == Some(HttpStatusError) <==> !status)
      && (error == Some(MetadataMediaTypeMismatch) <==> status && !media)
      && error != Some(MetadataBodyMissing)
      && (error == Some(MetadataInvalidRecord) <==> media && !valid)
      && (error == Some(MetadataIdMismatch) <==> valid && !named)
      && (error == Some(ContentStoreConflict) <==> named && !kept)
      && (error == Some(SourceDiscoveryDrift) <==> kept && projection.value.drifts)
      && r.raw == Some(Sha256(content)) && r.bytes == Some(|content|)
  }

  lemma {:induction false} MetadataDecides(fetched: FetchResult, e: Exchange, source: Source, tools: MetadataTools,
                                           policy: Policy, r: MetadataResult)
    requires PayloadFields(fetched)
    requires fetched.error.None? ==>
      && Whole(e, policy) && fetched.status == Some(e.status) && fetched.mediaType == e.mediaType
      && fetched.temporary == Some(BytesOf(e.body))
    requires fetched.error.Some? ==>
      && fetched.error.value in {UnapprovedOrigin, InvalidRedirect, UnapprovedRedirect, TooManyRedirects,
                                 UnsupportedContentEncoding, InvalidContentLength, BodyTooLarge, HttpTransportError,
                                 HttpStreamError, HttpLengthMismatch, HttpRetryExhausted}
      && (Whole(e, policy) ==>
            fetched.error == Some(HttpRetryExhausted) && e.status in {408, 425, 429, 500, 502, 503, 504})
    requires var verdict := MetadataVerdict(fetched, source, tools);
      && r.transport.error == verdict && (r.transport.state.Ready? <==> verdict.None?)
      && r.raw == fetched.digest && r.bytes == fetched.byteSize
    ensures MetadataOutcome(r, e, source, tools, policy)
  {
    hide Whole, BytesOf;
  }

  lemma {:induction false} MetadataVerdictCodes(fetched: FetchResult, source: Source, tools: MetadataTools)
    ensures MetadataVerdict(fetched, source, tools) == Some(TotalTimeoutExceeded) <==>
      fetched.error == Some(TotalTimeoutExceeded)
    ensures MetadataVerdict(fetched, source, tools) == Some(UnapprovedOrigin) <==>
      fetched.error == Some(UnapprovedOrigin)
  {
  }

  lemma {:induction false} MetadataEnds(network: Network, policy: Policy, fetched: FetchResult, source: Source,
                                        tools: MetadataTools, start: seq<Url>, log: seq<Url>)
    requires PayloadFields(fetched)
    requires fetched.attempts == 0 ==> fetched == NotAttempted(TotalTimeoutExceeded)
    requires fetched.attempts > 0 ==> Accounted(network, policy, source.url, fetched, start, log)
    ensures !policy.approved(source.url) ==>
      fetched.error == Some(UnapprovedOrigin) || fetched.error == Some(TotalTimeoutExceeded)
    ensures policy.approved(source.url) && fetched.error != Some(TotalTimeoutExceeded) ==>
      && |log| > |start|
      && forall r: MetadataResult ::
           && r.transport.error == MetadataVerdict(fetched, source, tools)
           && (r.transport.state.Ready? <==> MetadataVerdict(fetched, source, tools).None?)
           && r.raw == fetched.digest && r.bytes == fetched.byteSize ==>
           MetadataOutcome(r, network.serve(|log| - 1, log[|log| - 1]), source, tools, policy)
  {
    hide Accounted, PayloadFields, MetadataVerdict, MetadataOutcome, Whole;
    if fetched.attempts > 0 {
      FetchCodes(network, policy, source.url, fetched, start, log);
      if policy.approved(source.url) && fetched.error != Some(TotalTimeoutExceeded) {
        InTimeEndsWell(network, policy, source.url, fetched, start, log);
        var e := network.serve(|log| - 1, log[|log| - 1]);
        forall r: MetadataResult |
          && r.transport.error == MetadataVerdict(fetched, source, tools)
          && (r.transport.state.Ready? <==> MetadataVerdict(fetched, source, tools).None?)
          && r.raw == fetched.digest && r.bytes == fetched.byteSize
          ensures MetadataOutcome(r, e, source, tools, policy)
        {
          MetadataDecides(fetched, e, source, tools, policy, r);
        }
      }
    }
  }

  /** `_acquire_metadata_source`: fetch, check and store one record and its projection. */
  method AcquireMetadata(network: Network, policy: Policy, source: Source, tools: MetadataTools)
    returns (r: MetadataResult)
    requires policy.maxAttempts >= 1
    modifies network`log, network`ticks, network`sentAt
    ensures policy.approved(source.url) ==> TransportOk(r.transport, source.url, policy, false)
    ensures !policy.approved(source.url) ==>
      (TransportOk(r.transport, source.url, policy, false)
       <==> OutOfTimeAtOnce(network.clock, old(network.ticks), policy))
    ensures r.transport.state.Ready? <==> r.transport.error.None?
    ensures old(network.log) <= network.log
    ensures |network.log| - |old(network.log)| <= policy.maxAttempts * (policy.maxRedirects + 1)
    ensures forall u :: u in network.log[|old(network.log)|..] ==> policy.approved(u)
    ensures r.transport.state.Ready? ==>
      && |network.log| > |old(network.log)|
      && var e := network.serve(|network.log| - 1, network.log[|network.log| - 1]);
      && e.Answer? && Unbroken(e.body)
      && r.raw == Some(Sha256(BytesOf(e.body))) && r.bytes == Some(|BytesOf(e.body)|)
      && tools.project(BytesOf(e.body)) == Some(Projection(source.wordpressId, false))
    ensures old(network.sentAt) <= network.sentAt
    ensures Forward(network.clock) ==>
      Punctual(network.clock, old(network.ticks) + 1, network.ticks, network.sentAt[|old(network.sentAt)|..],
               network.clock(old(network.ticks)) + policy.timeout, r.transport.error == Some(TotalTimeoutExceeded))
    ensures !policy.approved(source.url) ==>
      r.transport.error == Some(UnapprovedOrigin) || r.transport.error == Some(TotalTimeoutExceeded)
    ensures policy.approved(source.url) && r.transport.error != Some(TotalTimeoutExceeded) ==>
      && |network.log| > |old(network.log)|
      && MetadataOutcome(r, network.serve(|network.log| - 1, network.log[|network.log| - 1]), source, tools, policy)
  {
    hide Accounted, ChainOk, Successful, Forward, Punctual, MetadataOutcome, Whole;
    RequestBudget(policy);
    var fetched := Fetch(network, policy, source.url);
    MetadataCoherent(network, policy, fetched, source, tools, old(network.log), network.log);
    MetadataVerdictCodes(fetched, source, tools);
    MetadataEnds(network, policy, fetched, source, tools, old(network.log), network.log);
    r := MetadataResult(Fetched(fetched, Quarantined, None, fetched.error), fetched.digest, fetched.byteSize);
    if fetched.error.Some? {
      return;
    }
    if !Successful(fetched.status) {
      return Rejected(r, HttpStatusError);
    }
    if fetched.mediaType.None? || fetched.mediaType.value !in JSON_MEDIA_TYPES {
      return Rejected(r, MetadataMediaTypeMismatch);
    }
    if fetched.temporary.None? {
      return Rejected(r, MetadataBodyMissing);
    }
    var projection := tools.project(fetched.temporary.value);
    if projection.None? {
      return Rejected(r, MetadataInvalidRecord);
    }
    if projection.value.wordpressId != source.wordpressId {
      return Rejected(r, MetadataIdMismatch);
    }
    if tools.rawConflict || tools.projectionConflict {
      return Rejected(r, ContentStoreConflict);
    }
    if projection.value.drifts {
      return Rejected(r, SourceDiscoveryDrift);
    }
    return r.(transport := Fetched(fetched, Ready, None, None));
  }

  function Rejected(r: MetadataResult, code: Code): MetadataResult {
    r.(transport := r.transport.(error := Some(code)))
  }

  // ----- A whole run -----

  /** The URLs of a catalog and its acquisition policy; metadata bodies have a limit of their own. */
  datatype Catalog = Catalog(artifacts: seq<Pinned>, sources: seq<Source>, policy: Policy, metadataBytes: nat)

  function MetadataPolicy(catalog: Catalog): Policy {
    catalog.policy.(maxBytes := catalog.metadataBytes)
  }

  predicate UrlsApproved(catalog: Catalog) {
    && (forall k :: 0 <= k < |catalog.artifacts| ==> catalog.policy.approved(catalog.artifacts[k].url))
    && (forall k :: 0 <= k < |catalog.sources| ==> catalog.policy.approved(catalog.sources[k].url))
  }

  /** The origin checks of `_validate_catalog_invariants`. */
  method CheckUrls(catalog: Catalog) returns (ok: bool)
    ensures ok <==> UrlsApproved(catalog)
  {
    for i := 0 to |catalog.artifacts|
      invariant forall k :: 0 <= k < i ==> catalog.policy.approved(catalog.artifacts[k].url)
    {
      if !catalog.policy.approved(catalog.artifacts[i].url) {
        return false;
      }
    }
    for i := 0 to |catalog.sources|
      invariant forall k :: 0 <= k < i ==> catalog.policy.approved(catalog.sources[k].url)
    {
      if !catalog.policy.approved(catalog.sources[i].url) {
        return false;
      }
    }
    return true;
  }

  /** What a run meets besides the network: per artifact the local path, its first transport and
      the tools, per source the tools, and where an unexpected exception is raised. */
  datatype Surroundings = Surroundings(
    target: nat -> Target, initial: nat -> Option<Attestation>, tools: nat -> Tools, raises: nat -> bool,
    metadataTools: nat -> MetadataTools, metadataRaises: nat -> bool)

  /** Attestations come from a validated receipt, and `pdfinfo` keeps to its codes. */
  ghost predicate SurroundingsOk(around: Surroundings, catalog: Catalog) {
    forall k :: 0 <= k < |catalog.artifacts| ==>
      && ProbeCodes(around.tools(k))
      && (around.initial(k).Some? ==> AttestationOk(around.initial(k).value, catalog.artifacts[k], catalog.policy))
  }

  /** `acquire_corpus`, up to its results: a catalog with a foreign URL is refused before any
      request, and otherwise the validator accepts the transport of every result. */
  method AcquireCorpus(network: Network, catalog: Catalog, around: Surroundings)
    returns (r: Option<(seq<MetadataResult>, seq<ArtifactResult>)>)
    requires catalog.policy.maxAttempts >= 1 && SurroundingsOk(around, catalog)
    modifies network`log, network`ticks, network`sentAt
    ensures r.Some? <==> UrlsApproved(catalog)
    ensures r.None? ==> network.log == old(network.log)
    ensures r.Some? ==>
      && |r.value.0| == |catalog.sources| && |r.value.1| == |catalog.artifacts|
      && (forall k :: 0 <= k < |catalog.sources| ==>
            TransportOk(r.value.0[k].transport, catalog.sources[k].url, MetadataPolicy(catalog), false))
      && (forall k :: 0 <= k < |catalog.artifacts| ==>
            && TransportOk(r.value.1[k].transport, catalog.artifacts[k].url, catalog.policy, true)
            && ArtifactOk(r.value.1[k], catalog.artifacts[k], catalog.policy))
    ensures old(network.log) <= network.log
    ensures forall u :: u in network.log[|old(network.log)|..] ==> catalog.policy.approved(u)
  {
    hide TransportOk, ArtifactOk, Forward, ProbeCodes, AttestationOk, Delivers;
    ghost var start := network.log;
    var ok := CheckUrls(catalog);
    if !ok {
      return None;
    }
    var metadata: seq<MetadataResult> := [];
    for i := 0 to |catalog.sources|
      invariant |metadata| == i
      invariant forall k :: 0 <= k < i ==>
        TransportOk(metadata[k].transport, catalog.sources[k].url, MetadataPolicy(catalog), false)
      invariant start <= network.log && forall u :: u in network.log[|start|..] ==> catalog.policy.approved(u)
    {
      ghost var before := network.log;
      var result := AcquireMetadata(network, MetadataPolicy(catalog), catalog.sources[i], around.metadataTools(i));
      LogExtends(start, before, network.log, catalog.policy);
      if around.metadataRaises(i) {
        result := UnexpectedMetadata(catalog, i);
      }
      metadata := metadata + [result];
    }
    var artifacts: seq<ArtifactResult> := [];
    for i := 0 to |catalog.artifacts|
      invariant |artifacts| == i
      invariant forall k :: 0 <= k < i ==>
        && TransportOk(artifacts[k].transport, catalog.artifacts[k].url, catalog.policy, true)
        && ArtifactOk(artifacts[k], catalog.artifacts[k], catalog.policy)
      invariant start <= network.log && forall u :: u in network.log[|start|..] ==> catalog.policy.approved(u)
    {
      ghost var before := network.log;
      var result := AcquireArtifact(network, catalog.policy, catalog.artifacts[i], around.tools(i), around.target(i),
                                    around.initial(i));
      LogExtends(start, before, network.log, catalog.policy);
      if around.raises(i) {
        result := UnexpectedArtifact(catalog, i, around.initial(i));
      }
      artifacts := artifacts + [result];
    }
    return Some((metadata, artifacts));
  }

  lemma {:induction false} LogExtends(start: seq<Url>, before: seq<Url>, after: seq<Url>, policy: Policy)
    requires start <= before <= after
    requires forall u :: u in before[|start|..] ==> policy.approved(u)
    requires forall u :: u in after[|before|..] ==> policy.approved(u)
    ensures forall u :: u in after[|start|..] ==> policy.approved(u)
  {
    assert after[|start|..] == before[|start|..] + after[|before|..];
  }

  /** `_unexpected_metadata_result`. */
  function UnexpectedMetadata(catalog: Catalog, i: nat): (r: MetadataResult)
    requires i < |catalog.sources|
    ensures TransportOk(r.transport, catalog.sources[i].url, MetadataPolicy(catalog), false)
  {
    MetadataResult(Unattempted(InternalAcquisitionError).(action := None), None, None)
  }

  /** `_unexpected_artifact_result`. */
  function UnexpectedArtifact(catalog: Catalog, i: nat, initial: Option<Attestation>): (r: ArtifactResult)
    requires i < |catalog.artifacts|
    requires initial.Some? ==> AttestationOk(initial.value, catalog.artifacts[i], catalog.policy)
    ensures TransportOk(r.transport, catalog.artifacts[i].url, catalog.policy, true)
    ensures ArtifactOk(r, catalog.artifacts[i], catalog.policy)
  {
    ArtifactResult(Unattempted(InternalAcquisitionError), None, None, None, None, initial)
  }

  /** The catalog's check is needed: with no local file and time left, an artifact at a foreign URL
      gets a result the validator refuses. */
  method ForeignUrlIsRefused(pinned: Pinned, policy: Policy, tools: Tools) returns (r: ArtifactResult)
    requires policy.maxAttempts >= 1 && policy.timeout > 0.0 && ProbeCodes(tools) && !policy.approved(pinned.url)
    ensures !TransportOk(r.transport, pinned.url, policy, true)
  {
    var network := new Network((_, _) => ConnectTimeout, _ => 0.0, (base, _) => base);
    r := AcquireArtifact(network, policy, pinned, tools, Absent, None);
  }
}
