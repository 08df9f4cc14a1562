/** The receipt's transport rules, written out. */
module TransportRules {
  import opened Wrappers
  import opened Fetcher
  import opened Transport

  /** What the validator asks of a transport: nothing was sent for a reused file; a ready result was
      answered with success; a result without an attempt says why; and an attempted one passes the
      rules of its chain. */
  lemma {:induction false} TransportIs(t: Transport, requested: Url, policy: Policy, allowReuse: bool)
    ensures TransportOk(t, requested, policy, allowReuse) <==>
      && t.attempts <= policy.maxAttempts
      && if allowReuse && t.state == Ready && t.action == Some(Reused)
         then t.attempts == 0 && t.status == None && t.resolved == None && t.chain == []
         else
           && (t.state == Ready ==>
                 && t.attempts > 0 && t.status.Some? && 200 <= t.status.value < 300
                 && (!allowReuse || t.action == Some(Acquired)))
           && if t.attempts > 0 then ChainOk(t.chain, t.resolved, t.status, t.error, requested, policy)
              else
                && t.status == None && t.resolved == None && t.chain == []
                && t.error.Some? && t.error.value in {
                     InternalAcquisitionError, ExistingTargetChanged, ExistingTargetConflict,
                     ExistingTargetInspectionFailed, TotalTimeoutExceeded, UnsafeExistingTarget}
  {
  }

  /** The chain of an attempted result that stopped at a redirect: the last URL is the target, which was
      not requested; every URL before it is approved. */
  lemma {:induction false} StoppedChainIs(chain: seq<Url>, resolved: Option<Url>, status: Option<nat>, code: Code,
                                          requested: Url, policy: Policy)
    requires code == UnapprovedRedirect || code == TooManyRedirects
    ensures ChainOk(chain, resolved, status, Some(code), requested, policy) <==>
      && 2 <= |chain| <= policy.maxRedirects + 2 && chain[0] == requested
      && resolved == Some(chain[|chain| - 2]) && status.Some? && status.value in {301, 302, 303, 307, 308}
      && (forall i :: 0 <= i < |chain| - 1 ==> policy.approved(chain[i]))
      && (policy.approved(chain[|chain| - 1]) <==> code == TooManyRedirects)
  {
  }

  /** And of any other: it ends where the result was resolved, every URL is approved, and a missing or
      a bad status has its codes. */
  lemma {:induction false} EndedChainIs(chain: seq<Url>, resolved: Option<Url>, status: Option<nat>,
                                        error: Option<Code>, requested: Url, policy: Policy)
    requires error != Some(UnapprovedRedirect) && error != Some(TooManyRedirects)
    ensures ChainOk(chain, resolved, status, error, requested, policy) <==>
      && 1 <= |chain| <= policy.maxRedirects + 1 && chain[0] == requested
      && resolved == Some(chain[|chain| - 1])
      && (forall i :: 0 <= i < |chain| ==> policy.approved(chain[i]))
      && (status.None? ==> error == Some(HttpRetryExhausted) || error == Some(HttpTransportError)
                           || error == Some(TotalTimeoutExceeded))
      && (error == Some(HttpStatusError) ==> status.None? || status.value < 200 || status.value >= 300)
  {
  }

  /** An artifact's first transport. */
  lemma {:induction false} AttestationIs(a: Attestation, pinned: Pinned, policy: Policy)
    ensures AttestationOk(a, pinned, policy) <==>
      && 1 <= |a.chain| <= policy.maxRedirects + 1
      && a.requested == pinned.url == a.chain[0] && a.resolved == a.chain[|a.chain| - 1]
      && (forall i :: 0 <= i < |a.chain| ==> policy.approved(a.chain[i]))
      && 1 <= a.attempts <= policy.maxAttempts && 200 <= a.status < 300
      && a.sha256 == pinned.sha256 && a.bytes == pinned.bytes
      && a.mediaType == pinned.mediaType && a.pages == pinned.pages
  {
  }

  /** A ready artifact is the pinned one with evidence of its first transport; anything else has an error;
      and evidence, where there is any, is sound. */
  lemma {:induction false} ArtifactIs(r: ArtifactResult, pinned: Pinned, policy: Policy)
    ensures ArtifactOk(r, pinned, policy) <==>
      && (r.transport.error == None <==> r.transport.state == Ready)
      && (match r.initial case None => true case Some(a) => AttestationOk(a, pinned, policy))
      && (r.transport.state == Ready ==>
            && r.sha256 == Some(pinned.sha256) && r.bytes == Some(pinned.bytes)
            && r.mediaType == Some(pinned.mediaType) && r.pages == Some(pinned.pages) && r.initial != None)
  {
  }

  /** The local path decides unless there is nothing, or the pinned artifact without evidence of its first
      transport. */
  lemma {:induction false} DecidedLocallyIff(target: Target, pinned: Pinned, tools: Tools,
                                             initial: Option<Attestation>)
    ensures DecidedLocally(target, pinned, tools, initial) <==>
      match target
      case Absent => false
      case Uninspectable => true
      case Unsafe => true
      case Present(content, stable) =>
        || initial.Some? || !stable
        || Sha256(content) != pinned.sha256 || |content| != pinned.bytes
        || tools.detect(if |content| <= 4096 then content else content[..4096]) != pinned.mediaType
        || tools.probe(content).error.Some? || tools.probe(content).pages != Some(pinned.pages)
  {
  }

  /** A catalog passes exactly when its policy approves the URL of every artifact and every source. */
  lemma {:induction false} UrlsApprovedIff(catalog: Catalog)
    ensures UrlsApproved(catalog) <==>
      && (forall a :: a in catalog.artifacts ==> catalog.policy.approved(a.url))
      && (forall s :: s in catalog.sources ==> catalog.policy.approved(s.url))
  {
  }

  /** An artifact is delivered by a successful, unbroken answer with exactly the pinned bytes. */
  lemma {:induction false} DeliversIff(e: Exchange, pinned: Pinned, policy: Policy)
    ensures Delivers(e, pinned, policy) <==>
      && e.Answer? && 200 <= e.status < 300
      && (forall k :: 0 <= k < |e.body| ==> e.body[k].Data?)
      && pinned.sha256 == Sha256(BytesOf(e.body)) && pinned.bytes == |BytesOf(e.body)|
      && pinned.bytes <= policy.maxBytes
  {
  }
}
