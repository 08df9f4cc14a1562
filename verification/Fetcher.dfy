/** The bounded fetcher of `acquisition.py`: retries around redirects around a streamed body,
    under one deadline. Servers, the clock, URL joining and the catalog's origin policy are
    arbitrary functions. */
module Fetcher {
  import opened Wrappers

  type Url = string
  type Byte = b: int | 0 <= b < 256

  datatype Digest = Sha256(content: seq<Byte>)

  const PROBE_SIZE := 4096
  const REDIRECT_STATUSES: set<nat> := {301, 302, 303, 307, 308}
  const RETRY_STATUSES: set<nat> := {408, 425, 429, 500, 502, 503, 504}

  /** The `Content-Length` header as the fetcher reads it. */
  datatype Length = Undeclared | Malformed | DeclaredLength(bytes: nat)

  /** What the body stream yields; after the last event it ends. */
  datatype StreamEvent = Data(bytes: seq<Byte>) | BodyTimeout | BodyFailure

  /** What a request meets with. */
  datatype Exchange =
    | ConnectTimeout
    | TransportFailure
    | Answer(status: nat, mediaType: Option<string>, location: Option<string>, encoding: string,
             length: Length, body: seq<StreamEvent>)

  datatype Code =
    | TotalTimeoutExceeded | UnapprovedOrigin | InvalidRedirect | UnapprovedRedirect | TooManyRedirects
    | UnsupportedContentEncoding | InvalidContentLength | BodyTooLarge | HttpTransportError
    | HttpStreamError | HttpLengthMismatch | HttpRetryExhausted
    | HttpStatusError | MetadataMediaTypeMismatch | MetadataBodyMissing | MetadataInvalidRecord
    | MetadataIdMismatch | ContentStoreConflict | SourceDiscoveryDrift | ArtifactBodyMissing
    | MediaTypeMismatch | SourceHashMismatch | SourceSizeMismatch | PdfPageCountMismatch
    | PdfinfoUnavailable | PdfinfoFailed | PdfEncrypted
    | InternalAcquisitionError | ExistingTargetChanged | ExistingTargetConflict
    | ExistingTargetInspectionFailed | UnsafeExistingTarget

  datatype FetchResult = FetchResult(
    attempts: nat, resolved: Option<Url>, chain: seq<Url>, status: Option<nat>,
    mediaType: Option<string>, digest: Option<Digest>, byteSize: Option<nat>, prefix: seq<Byte>,
    temporary: Option<seq<Byte>>, error: Option<Code>)

  /** The acquisition policy of a catalog. */
  datatype Policy = Policy(
    approved: Url -> bool, maxBytes: nat, maxAttempts: nat, maxRedirects: nat, timeout: real)

  /** The outside world: the `n`th request and the `n`th look at the clock have arbitrary
      answers. `log` records the requests sent, `ticks` counts the looks at the clock, and `sentAt`
      holds that count at the moment each request was sent. */
  class Network {
    const serve: (nat, Url) -> Exchange
    const clock: nat -> real
    const join: (Url, string) -> Url
    var log: seq<Url>
    var ticks: nat
    var sentAt: seq<nat>

    constructor (serve: (nat, Url) -> Exchange, clock: nat -> real, join: (Url, string) -> Url)
      ensures this.serve == serve && this.clock == clock && this.join == join
      ensures log == [] && ticks == 0 && sentAt == []
    {
      this.serve, this.clock, this.join := serve, clock, join;
      log, ticks, sentAt := [], 0, [];
    }

    method Now() returns (t: real)
      modifies this`ticks
      ensures t == clock(old(ticks)) && ticks == old(ticks) + 1
    {
      t, ticks := clock(ticks), ticks + 1;
    }

    method Get(url: Url) returns (e: Exchange)
      modifies this`log, this`sentAt
      ensures log == old(log) + [url] && e == serve(|old(log)|, url)
      ensures sentAt == old(sentAt) + [ticks]
    {
      e, log, sentAt := serve(|log|, url), log + [url], sentAt + [ticks];
    }
  }

  // ----- The deadline -----

  /** `time.monotonic` never goes back. */
  ghost predicate Forward(clock: nat -> real) {
    forall i: nat, j: nat :: i <= j ==> clock(i) <= clock(j)
  }

  /** Looks `from` to `to` at the clock, with the requests sent between them: a look at or past the
      deadline makes the result late, and it is late only if the last look was; each request had a
      look of its own just before it, and that look was in time. */
  predicate Punctual(clock: nat -> real, from: nat, to: nat, sent: seq<nat>, deadline: real, late: bool) {
    && from <= to
    && (forall k :: from <= k < to && clock(k) >= deadline ==> late)
    && (late ==> from < to && clock(to - 1) >= deadline)
    && (forall n :: 0 <= n < |sent| ==> from < sent[n] <= to && clock(sent[n] - 1) < deadline)
    && (forall m, n :: 0 <= m < n < |sent| ==> sent[m] < sent[n])
  }

  lemma {:induction false} PunctualOn(clock: nat -> real, from: nat, mid: nat, to: nat, a: seq<nat>, b: seq<nat>,
                                      deadline: real, late: bool)
    requires Punctual(clock, from, mid, a, deadline, false) && Punctual(clock, mid, to, b, deadline, late)
    ensures Punctual(clock, from, to, a + b, deadline, late)
  {
    forall m, n | 0 <= m < n < |a + b|
      ensures (a + b)[m] < (a + b)[n]
    {
      if m < |a| <= n {
        assert a[m] <= mid < b[n - |a|];
      }
    }
  }

  /** Once the deadline has passed, no request is sent: the clock says so at every later look. */
  lemma {:induction false} NothingSentLate(clock: nat -> real, from: nat, to: nat, sent: seq<nat>, deadline: real,
                                           late: bool, k: nat, n: nat)
    requires Punctual(clock, from, to, sent, deadline, late) && Forward(clock)
    requires n < |sent| && clock(k) >= deadline
    ensures sent[n] <= k
  {
    var own := sent[n] - 1;
    assert clock(own) < deadline;
    assert k <= own ==> clock(k) <= clock(own);
  }

  // ----- What a result may claim -----

  predicate Redirects(e: Exchange): (r: bool)
    ensures r ==> e.Answer?
  {
    e.Answer? && e.status in REDIRECT_STATUSES
  }

  /** The bytes of the first events of a body, up to a failure. */
  function BytesOf(body: seq<StreamEvent>): seq<Byte> {
    if body == [] then []
    else BytesOf(body[..|body| - 1]) + if body[|body| - 1].Data? then body[|body| - 1].bytes else []
  }

  predicate Unbroken(body: seq<StreamEvent>) {
    forall k :: 0 <= k < |body| ==> body[k].Data?
  }

  /** `stored` is what the body delivered up to some point, within the size limit. */
  predicate Received(stored: seq<Byte>, body: seq<StreamEvent>, maxBytes: nat) {
    && |stored| <= maxBytes
    && exists k :: 0 <= k <= |body| && Unbroken(body[..k]) && stored == BytesOf(body[..k])
  }

  function Probe(stored: seq<Byte>): seq<Byte> {
    if |stored| <= PROBE_SIZE then stored else stored[..PROBE_SIZE]
  }

  /** Digest, size and probe prefix describe the stored payload. */
  predicate PayloadFields(r: FetchResult) {
    if r.temporary.None? then r.digest.None? && r.byteSize.None? && r.prefix == []
    else
      && r.digest == Some(Sha256(r.temporary.value))
      && r.byteSize == Some(|r.temporary.value|)
      && r.prefix == Probe(r.temporary.value)
  }

  /** The result reports this exchange: its status and media type, what it delivered, and a
      verdict the exchange warrants. `TotalTimeoutExceeded` is the clock's: see `Punctual`. */
  predicate Reports(r: FetchResult, e: Exchange, policy: Policy) {
    && r.status == (if e.Answer? then Some(e.status) else None)
    && r.mediaType == (if e.Answer? then e.mediaType else None)
    && (r.temporary.Some? ==> e.Answer? && Received(r.temporary.value, e.body, policy.maxBytes))
    && match r.error
       case None =>
         && e.Answer? && !Redirects(e) && (e.encoding == "" || e.encoding == "identity") && !e.length.Malformed?
         && Unbroken(e.body) && r.temporary == Some(BytesOf(e.body))
         && (e.length.DeclaredLength? ==> e.length.bytes == |BytesOf(e.body)|)
       case Some(code) => ErrorWarranted(code, r, e, policy)
  }

  predicate ErrorWarranted(code: Code, r: FetchResult, e: Exchange, policy: Policy) {
    match code
    case TotalTimeoutExceeded => true
    case InvalidRedirect => Redirects(e) && e.location.None?
    case UnapprovedRedirect => Redirects(e) && e.location.Some?
    case TooManyRedirects => Redirects(e) && e.location.Some?
    case UnsupportedContentEncoding => e.Answer? && !Redirects(e) && e.encoding != "" && e.encoding != "identity"
    case InvalidContentLength => e.Answer? && !Redirects(e) && e.length.Malformed?
    case BodyTooLarge =>
      && e.Answer? && !Redirects(e)
      && (|| (e.length.DeclaredLength? && e.length.bytes > policy.maxBytes)
          || (exists k :: 0 <= k <= |e.body| && Unbroken(e.body[..k]) && |BytesOf(e.body[..k])| > policy.maxBytes))
    case HttpTransportError => !e.Answer?
    case HttpStreamError => e.Answer? && !Redirects(e) && !Unbroken(e.body)
    case HttpLengthMismatch =>
      && e.Answer? && !Redirects(e) && e.length.DeclaredLength?
      && Unbroken(e.body) && e.length.bytes != |BytesOf(e.body)|
    case _ => false
  }

  /** Codes whose chain ends in the redirect target that was not followed. */
  predicate Trailing(error: Option<Code>) {
    error == Some(UnapprovedRedirect) || error == Some(TooManyRedirects)
  }

  /** Hop `i + 1` is where the server's answer to hop `i` pointed. */
  ghost predicate Hop(network: Network, chain: seq<Url>, first: nat, i: nat)
    requires i + 1 < |chain|
  {
    var e := network.serve(first + i, chain[i]);
    Redirects(e) && e.location.Some? && chain[i + 1] == network.join(chain[i], e.location.value)
  }

  ghost predicate Follows(network: Network, chain: seq<Url>, first: nat) {
    forall i :: 0 <= i < |chain| - 1 ==> Hop(network, chain, first, i)
  }

  /** One attempt that began with request number `first` and sent `sent` requests. */
  ghost predicate AttemptOk(network: Network, policy: Policy, requested: Url, r: FetchResult, first: nat, sent: nat) {
    && PayloadFields(r)
    && sent <= |r.chain| <= sent + 1
    && sent <= policy.maxRedirects + 1
    && (forall i :: 0 <= i < sent ==> policy.approved(r.chain[i]))
    && Follows(network, r.chain, first)
    && (|r.chain| > 0 ==> r.chain[0] == requested)
    && (r.error == Some(UnapprovedOrigin) <==> r.chain == [])
    && (r.chain == [] ==> !policy.approved(requested) && Idle(r) && r.resolved == Some(requested))
    && (|r.chain| > sent && !Trailing(r.error) ==> sent <= policy.maxRedirects && TimedOutBetween(r, policy, requested))
    && (|r.chain| > sent && Trailing(r.error) ==> StoppedAtTarget(r, policy, sent))
    && (|r.chain| == sent > 0 ==> !Trailing(r.error) && r.resolved == Some(r.chain[sent - 1]))
    && (sent > 0 && (|r.chain| == sent || Trailing(r.error)) ==>
          Reports(r, network.serve(first + sent - 1, r.chain[sent - 1]), policy))
  }

  predicate Idle(r: FetchResult) {
    r.status.None? && r.mediaType.None? && r.temporary.None?
  }

  /** The deadline passed before the last hop was requested. */
  predicate TimedOutBetween(r: FetchResult, policy: Policy, requested: Url)
    requires r.chain != []
  {
    && r.error == Some(TotalTimeoutExceeded) && Idle(r)
    && r.resolved == Some(r.chain[|r.chain| - 1])
    && (|r.chain| > 1 ==> policy.approved(r.chain[|r.chain| - 1]))
  }

  predicate StoppedAtTarget(r: FetchResult, policy: Policy, sent: nat)
    requires |r.chain| == sent + 1
  {
    && sent > 0 && r.resolved == Some(r.chain[sent - 1]) && r.temporary.None?
    && (r.error == Some(UnapprovedRedirect) <==> !policy.approved(r.chain[sent]))
    && (r.error == Some(TooManyRedirects) ==> sent == policy.maxRedirects + 1)
  }

  // ----- The fetcher -----

  function EmptyFailure(attempt: nat, resolved: Option<Url>, chain: seq<Url>, code: Code,
                        status: Option<nat>, mediaType: Option<string>): FetchResult
  {
    FetchResult(attempt, resolved, chain, status, mediaType, None, None, [], None, Some(code))
  }

  function WithPayload(attempt: nat, current: Url, chain: seq<Url>, e: Exchange, stored: seq<Byte>,
                       size: nat, prefix: seq<Byte>, error: Option<Code>): FetchResult
    requires e.Answer?
  {
    FetchResult(attempt, Some(current), chain, Some(e.status), e.mediaType,
                Some(Sha256(stored)), Some(size), prefix, Some(stored), error)
  }

  lemma {:induction false} BytesOfStep(body: seq<StreamEvent>, k: nat)
    requires k < |body| && body[k].Data? && Unbroken(body[..k])
    ensures BytesOf(body[..k + 1]) == BytesOf(body[..k]) + body[k].bytes && Unbroken(body[..k + 1])
  {
    assert body[..k + 1][..k] == body[..k];
  }

  /** The body was read up to event `k`, each event read under a look at the clock, and the result
      says why reading stopped there. */
  predicate StoppedAfter(r: FetchResult, e: Exchange, policy: Policy, k: nat, looks: int)
    requires e.Answer?
  {
    && k <= |e.body| && Unbroken(e.body[..k]) && r.temporary == Some(BytesOf(e.body[..k]))
    && match r.error
       case None => k == |e.body| && looks == k + 1
         && (e.length.DeclaredLength? ==> |BytesOf(e.body)| == e.length.bytes)
       case Some(TotalTimeoutExceeded) => looks == k + 1 && (k < |e.body| ==> !e.body[k].BodyFailure?)
       case Some(BodyTooLarge) =>
         looks == k + 1 && k < |e.body| && Unbroken(e.body[..k + 1]) && |BytesOf(e.body[..k + 1])| > policy.maxBytes
       case Some(HttpStreamError) =>
         && k < |e.body|
         && ((e.body[k].BodyTimeout? && looks == k + 1) || (e.body[k].BodyFailure? && looks == k))
       case Some(HttpLengthMismatch) =>
         k == |e.body| && looks == k + 1 && e.length.DeclaredLength? && |BytesOf(e.body)| != e.length.bytes
       case _ => false
  }

  ghost predicate Explained(r: FetchResult, e: Exchange, policy: Policy, looks: int)
    requires e.Answer?
  {
    exists k: nat :: StoppedAfter(r, e, policy, k, looks)
  }

  lemma {:induction false} NothingRead(body: seq<StreamEvent>)
    ensures Unbroken(body[..0]) && BytesOf(body[..0]) == []
  {
  }

  lemma {:induction false} Stops(e: Exchange, policy: Policy, attempt: nat, current: Url, chain: seq<Url>,
                                 stored: seq<Byte>,
                                 error: Option<Code>, k: nat, looks: nat)
    requires e.Answer? && !Redirects(e) && (e.encoding == "" || e.encoding == "identity") && !e.length.Malformed?
    requires |stored| <= policy.maxBytes && k <= |e.body| && Unbroken(e.body[..k]) && stored == BytesOf(e.body[..k])
    requires error == Some(BodyTooLarge) ==>
      k < |e.body| && Unbroken(e.body[..k + 1]) && |BytesOf(e.body[..k + 1])| > policy.maxBytes
    requires StoppedAfter(WithPayload(attempt, current, chain, e, stored, |stored|, Probe(stored), error), e, policy, k,
                          looks)
    ensures var r := WithPayload(attempt, current, chain, e, stored, |stored|, Probe(stored), error);
      && PayloadFields(r) && Reports(r, e, policy) && Explained(r, e, policy, looks)
      && error != Some(UnapprovedOrigin) && !Trailing(error)
  {
    hide BytesOf;
    assert k == |e.body| ==> e.body[..k] == e.body;
  }

  method StreamResponse(network: Network, e: Exchange, attempt: nat, current: Url, chain: seq<Url>,
                        policy: Policy, deadline: real)
    returns (r: FetchResult)
    requires e.Answer? && !Redirects(e) && (e.encoding == "" || e.encoding == "identity") && !e.length.Malformed?
    modifies network`ticks
    ensures r.attempts == attempt && r.resolved == Some(current) && r.chain == chain && !Trailing(r.error)
    ensures PayloadFields(r) && Reports(r, e, policy) && r.error != Some(UnapprovedOrigin)
    ensures Punctual(network.clock, old(network.ticks), network.ticks, [], deadline,
                     r.error == Some(TotalTimeoutExceeded))
    ensures Explained(r, e, policy, network.ticks - old(network.ticks))
  {
    hide Reports, PayloadFields, Explained, Punctual, BytesOf, Unbroken;
    NoLooks(network.clock, network.ticks, deadline);
    assert Unbroken(e.body[..0]) && BytesOf(e.body[..0]) == [] by { NothingRead(e.body); }
    var stored: seq<Byte>, size, prefix := [], 0, [];
    ghost var from := network.ticks;
    for k := 0 to |e.body|
      invariant Unbroken(e.body[..k]) && stored == BytesOf(e.body[..k])
      invariant size == |stored| <= policy.maxBytes && prefix == Probe(stored)
      invariant network.ticks == from + k
      invariant Punctual(network.clock, from, network.ticks, [], deadline, false)
    {
      match e.body[k]
      case BodyTimeout =>
        var now := network.Now();
        OneLook(network.clock, from, from + k, [], deadline, false);
        var code := if now >= deadline then TotalTimeoutExceeded else HttpStreamError;
        Stops(e, policy, attempt, current, chain, stored, Some(code), k, k + 1);
        return WithPayload(attempt, current, chain, e, stored, size, prefix, Some(code));
      case BodyFailure =>
        Stops(e, policy, attempt, current, chain, stored, Some(HttpStreamError), k, k);
        return WithPayload(attempt, current, chain, e, stored, size, prefix, Some(HttpStreamError));
      case Data(chunk) =>
        BytesOfStep(e.body, k);
        var now := network.Now();
        OneLook(network.clock, from, from + k, [], deadline, false);
        if now >= deadline {
          Stops(e, policy, attempt, current, chain, stored, Some(TotalTimeoutExceeded), k, k + 1);
          return WithPayload(attempt, current, chain, e, stored, size, prefix, Some(TotalTimeoutExceeded));
        }
        if size + |chunk| > policy.maxBytes {
          Stops(e, policy, attempt, current, chain, stored, Some(BodyTooLarge), k, k + 1);
          return WithPayload(attempt, current, chain, e, stored, size, prefix, Some(BodyTooLarge));
        }
        if |prefix| < PROBE_SIZE {
          var room := PROBE_SIZE - |prefix|;
          prefix := prefix + if |chunk| <= room then chunk else chunk[..room];
        }
        stored, size := stored + chunk, size + |chunk|;
    }
    assert e.body[..|e.body|] == e.body;
    var now := network.Now();
    OneLook(network.clock, from, from + |e.body|, [], deadline, false);
    var error := if now >= deadline then Some(TotalTimeoutExceeded)
                 else if e.length.DeclaredLength? && size != e.length.bytes then Some(HttpLengthMismatch)
                 else None;
    Stops(e, policy, attempt, current, chain, stored, error, |e.body|, |e.body| + 1);
    return WithPayload(attempt, current, chain, e, stored, size, prefix, error);
  }

  /** The hops requested so far in this attempt. */
  ghost predicate Visited(network: Network, policy: Policy, requested: Url, chain: seq<Url>, first: nat) {
    && |chain| <= policy.maxRedirects + 1
    && (chain != [] ==> chain[0] == requested)
    && (forall i :: 0 <= i < |chain| ==> policy.approved(chain[i]))
    && Follows(network, chain, first)
  }

  /** `current` is where the visited hops lead. */
  ghost predicate Reached(network: Network, policy: Policy, requested: Url, chain: seq<Url>, current: Url, first: nat) {
    && Visited(network, policy, requested, chain, first)
    && (if chain == [] then current == requested else policy.approved(current))
    && Follows(network, chain + [current], first)
  }

  lemma {:induction false} Refused(network: Network, policy: Policy, requested: Url, attempt: nat, first: nat)
    requires !policy.approved(requested)
    ensures AttemptOk(network, policy, requested,
      EmptyFailure(attempt, Some(requested), [], UnapprovedOrigin, None, None), first, 0)
  {
  }

  lemma {:induction false} OutOfTime(network: Network, policy: Policy, requested: Url, chain: seq<Url>, current: Url,
                                     attempt: nat, first: nat)
    requires Reached(network, policy, requested, chain, current, first) && |chain| <= policy.maxRedirects
    ensures AttemptOk(network, policy, requested,
      EmptyFailure(attempt, Some(current), chain + [current], TotalTimeoutExceeded, None, None), first, |chain|)
  {
  }

  lemma {:induction false} Answered(network: Network, policy: Policy, requested: Url, r: FetchResult, first: nat)
    requires r.chain != [] && Visited(network, policy, requested, r.chain, first)
    requires r.resolved == Some(r.chain[|r.chain| - 1]) && r.error != Some(UnapprovedOrigin) && !Trailing(r.error)
    requires PayloadFields(r) && Reports(r, network.serve(first + |r.chain| - 1, r.chain[|r.chain| - 1]), policy)
    ensures AttemptOk(network, policy, requested, r, first, |r.chain|)
  {
    hide Reports, PayloadFields, Follows;
  }

  lemma {:induction false} Stopped(network: Network, policy: Policy, requested: Url, r: FetchResult, first: nat)
    requires |r.chain| >= 2
    requires var sent := |r.chain| - 1;
      && Visited(network, policy, requested, r.chain[..sent], first)
      && Follows(network, r.chain, first)
      && r.resolved == Some(r.chain[sent - 1]) && Trailing(r.error) && PayloadFields(r)
      && Reports(r, network.serve(first + sent - 1, r.chain[sent - 1]), policy)
      && StoppedAtTarget(r, policy, sent)
    ensures AttemptOk(network, policy, requested, r, first, |r.chain| - 1)
  {
    hide Reports, PayloadFields, Follows;
    var sent := |r.chain| - 1;
    forall i | 0 <= i < sent
      ensures policy.approved(r.chain[i])
    {
      assert r.chain[..sent][i] == r.chain[i];
    }
    assert r.chain[..sent][0] == r.chain[0];
  }

  lemma {:induction false} FollowsOn(network: Network, chain: seq<Url>, target: Url, first: nat)
    requires chain != [] && Follows(network, chain, first)
    requires var e := network.serve(first + |chain| - 1, chain[|chain| - 1]);
      Redirects(e) && e.location.Some? && target == network.join(chain[|chain| - 1], e.location.value)
    ensures Follows(network, chain + [target], first)
  {
    var all := chain + [target];
    forall i | 0 <= i < |all| - 1
      ensures Hop(network, all, first, i)
    {
      assert all[i] == chain[i];
      if i < |chain| - 1 {
        assert Hop(network, chain, first, i);
        assert all[i + 1] == chain[i + 1];
      }
    }
  }

  lemma {:induction false} VisitsNext(network: Network, policy: Policy, requested: Url, chain: seq<Url>, current: Url,
                                      first: nat)
    requires Reached(network, policy, requested, chain, current, first)
    requires policy.approved(current) && |chain| <= policy.maxRedirects
    ensures Visited(network, policy, requested, chain + [current], first)
  {
  }

  /** The body of the last answer was read to its end with one look per event and one after it. */
  predicate ReadInTime(serve: (nat, Url) -> Exchange, log: seq<Url>, sentAt: seq<nat>, ticks: nat) {
    && log != [] && sentAt != []
    && var e := serve(|log| - 1, log[|log| - 1]);
       e.Answer? && ticks >= sentAt[|sentAt| - 1] + |e.body| + 1
  }

  /** A result without error was streamed to the end. */
  lemma {:induction false} ReadToTheEnd(r: FetchResult, e: Exchange, policy: Policy, serve: (nat, Url) -> Exchange,
                                        log: seq<Url>, sentAt: seq<nat>, ticks: nat)
    requires r.error.None? && Reports(r, e, policy)
    requires log != [] && sentAt != [] && e == serve(|log| - 1, log[|log| - 1])
    requires AnsweredBy(r, e, policy, ticks - sentAt[|sentAt| - 1])
    ensures ReadInTime(serve, log, sentAt, ticks)
  {
  }

  lemma {:induction false} ReadBefore(serve: (nat, Url) -> Exchange, log: seq<Url>, sentAt: seq<nat>, ticks: nat)
    requires ReadInTime(serve, log, sentAt, ticks)
    ensures ReadInTime(serve, log, sentAt, ticks + 1)
  {
  }

  lemma {:induction false} Prefix(chain: seq<Url>, target: Url)
    ensures (chain + [target])[..|chain|] == chain
  {
  }

  lemma {:induction false} NoLooks(clock: nat -> real, from: nat, deadline: real)
    ensures Punctual(clock, from, from, [], deadline, false)
  {
  }

  lemma {:induction false} OneLook(clock: nat -> real, from: nat, at: nat, sent: seq<nat>, deadline: real, late: bool)
    requires Punctual(clock, from, at, sent, deadline, late) && (late ==> clock(at) >= deadline)
    ensures Punctual(clock, from, at + 1, sent, deadline, clock(at) >= deadline)
  {
  }

  /** A request right after a look in time. */
  lemma {:induction false} SentNow(clock: nat -> real, from: nat, at: nat, sent: seq<nat>, deadline: real)
    requires Punctual(clock, from, at, sent, deadline, false)
    requires Punctual(clock, from, at + 1, sent, deadline, false)
    ensures Punctual(clock, from, at + 1, sent + [at + 1], deadline, false)
  {
  }

  /** After a late look every look is late. */
  lemma {:induction false} StaysLate(clock: nat -> real, from: nat, at: nat, sent: seq<nat>, deadline: real, late: bool)
    requires Forward(clock) && Punctual(clock, from, at, sent, deadline, late)
    ensures late ==> clock(at) >= deadline
  {
    if late {
      assert clock(at - 1) <= clock(at);
    }
  }

  /** What one attempt leaves behind, from the log, the sending times and the look it began with. */
  ghost predicate Attempted(network: Network, policy: Policy, requested: Url, r: FetchResult, start: seq<Url>,
                            log: seq<Url>,
                            startSent: seq<nat>, sentAt: seq<nat>, from: nat, ticks: nat, deadline: real)
  {
    && r.resolved.Some? && |start| <= |log| && |log| - |start| <= |r.chain|
    && log == start + r.chain[..|log| - |start|]
    && AttemptOk(network, policy, requested, r, |start|, |log| - |start|)
    && startSent <= sentAt && |sentAt| - |startSent| == |log| - |start|
    && Punctual(network.clock, from, ticks, sentAt[|startSent|..], deadline, r.error == Some(TotalTimeoutExceeded))
    && (r.error.None? ==> ReadInTime(network.serve, log, sentAt, ticks))
  }

  /** An attempt that has requested the hops of `chain` and stands before `current`. */
  ghost predicate Hopping(network: Network, policy: Policy, requested: Url, chain: seq<Url>, current: Url,
                          start: seq<Url>, log: seq<Url>,
                          startSent: seq<nat>, sentAt: seq<nat>, from: nat, ticks: nat, deadline: real)
  {
    && log == start + chain && startSent <= sentAt && |sentAt| - |startSent| == |chain|
    && Reached(network, policy, requested, chain, current, |start|)
    && Punctual(network.clock, from, ticks, sentAt[|startSent|..], deadline, false)
  }

  lemma {:induction false} HopsBegin(network: Network, policy: Policy, requested: Url, start: seq<Url>,
                                     startSent: seq<nat>, from: nat, deadline: real)
    ensures Hopping(network, policy, requested, [], requested, start, start, startSent, startSent, from, from, deadline)
  {
    NoLooks(network.clock, from, deadline);
    assert startSent[|startSent|..] == [];
    Departs(network, policy, requested, |start|);
    assert start + [] == start;
  }

  /** The look before a hop: too late, not allowed, or in time for the request. */
  lemma {:induction false} HopChecked(network: Network, policy: Policy, requested: Url, chain: seq<Url>, current: Url,
                                      start: seq<Url>,
                                      log: seq<Url>, startSent: seq<nat>, sentAt: seq<nat>, from: nat, ticks: nat,
                                      deadline: real, attempt: nat)
    requires Hopping(network, policy, requested, chain, current, start, log, startSent, sentAt, from, ticks, deadline)
    requires |chain| <= policy.maxRedirects
    ensures network.clock(ticks) >= deadline ==>
      Attempted(network, policy, requested,
                EmptyFailure(attempt, Some(current), chain + [current], TotalTimeoutExceeded, None, None),
                start, log, startSent, sentAt, from, ticks + 1, deadline)
    ensures network.clock(ticks) < deadline && !policy.approved(current) ==>
      Attempted(network, policy, requested, EmptyFailure(attempt, Some(current), chain, UnapprovedOrigin, None, None),
                start, log, startSent, sentAt, from, ticks + 1, deadline)
    ensures network.clock(ticks) < deadline && policy.approved(current) ==>
      && Visited(network, policy, requested, chain + [current], |start|)
      && Punctual(network.clock, from, ticks + 1, (sentAt + [ticks + 1])[|startSent|..], deadline, false)
  {
    hide AttemptOk, Reached, Punctual, Visited, ReadInTime;
    var sent := sentAt[|startSent|..];
    OneLook(network.clock, from, ticks, sent, deadline, false);
    Prefix(chain, current);
    if network.clock(ticks) >= deadline {
      OutOfTime(network, policy, requested, chain, current, attempt, |start|);
    } else if !policy.approved(current) {
      OnlyTheFirstIsRefused(network, policy, requested, chain, current, |start|);
      Refused(network, policy, requested, attempt, |start|);
    } else {
      VisitsNext(network, policy, requested, chain, current, |start|);
      SentNow(network.clock, from, ticks, sent, deadline);
      assert (sentAt + [ticks + 1])[|startSent|..] == sent + [ticks + 1];
    }
  }

  /** A followed redirect ends the attempt at a target that is not approved or one too many, and
      otherwise leads on. */
  lemma {:induction false} HopFollowed(network: Network, policy: Policy, requested: Url, chain: seq<Url>, target: Url,
                                       start: seq<Url>,
                                       startSent: seq<nat>, sentAt: seq<nat>, from: nat, ticks: nat, deadline: real,
                                       attempt: nat)
    requires chain != [] && Visited(network, policy, requested, chain, |start|)
    requires startSent <= sentAt && |sentAt| - |startSent| == |chain|
    requires Punctual(network.clock, from, ticks, sentAt[|startSent|..], deadline, false)
    requires var e := network.serve(|start| + |chain| - 1, chain[|chain| - 1]);
      Redirects(e) && e.location.Some? && target == network.join(chain[|chain| - 1], e.location.value)
    ensures var e, current := network.serve(|start| + |chain| - 1, chain[|chain| - 1]), chain[|chain| - 1];
      && (!policy.approved(target) ==>
            Attempted(network, policy, requested,
              EmptyFailure(attempt, Some(current), chain + [target], UnapprovedRedirect, Some(e.status), e.mediaType),
              start, start + chain, startSent, sentAt, from, ticks, deadline))
      && (policy.approved(target) && |chain| == policy.maxRedirects + 1 ==>
            Attempted(network, policy, requested,
              EmptyFailure(attempt, Some(current), chain + [target], TooManyRedirects, Some(e.status), e.mediaType),
              start, start + chain, startSent, sentAt, from, ticks, deadline))
      && (policy.approved(target) ==>
            Hopping(network, policy, requested, chain, target, start, start + chain, startSent, sentAt, from, ticks,
                    deadline))
  {
    hide AttemptOk, Reached, Punctual, Visited, ReadInTime;
    StopsAt(network, policy, requested, chain, target, attempt, |start|);
    Prefix(chain, target);
  }

  /** An answer that is not followed ends the attempt. */
  lemma {:induction false} HopAnswered(network: Network, policy: Policy, requested: Url, r: FetchResult,
                                       start: seq<Url>,
                                       startSent: seq<nat>, sentAt: seq<nat>, from: nat, mid: nat, ticks: nat,
                                       deadline: real)
    requires r.chain != [] && Visited(network, policy, requested, r.chain, |start|)
    requires r.resolved == Some(r.chain[|r.chain| - 1]) && r.error != Some(UnapprovedOrigin) && !Trailing(r.error)
    requires var e := network.serve(|start| + |r.chain| - 1, r.chain[|r.chain| - 1]);
      PayloadFields(r) && Reports(r, e, policy) && AnsweredBy(r, e, policy, ticks - mid)
    requires startSent <= sentAt && |sentAt| - |startSent| == |r.chain| && sentAt[|sentAt| - 1] == mid
    requires Punctual(network.clock, from, mid, sentAt[|startSent|..], deadline, false)
    requires Punctual(network.clock, mid, ticks, [], deadline, r.error == Some(TotalTimeoutExceeded))
    ensures Attempted(network, policy, requested, r, start, start + r.chain, startSent, sentAt, from, ticks, deadline)
  {
    hide AttemptOk, Punctual, Visited, Reports, PayloadFields, AnsweredBy, ReadInTime;
    Answered(network, policy, requested, r, |start|);
    PunctualOn(network.clock, from, mid, ticks, sentAt[|startSent|..], [], deadline,
               r.error == Some(TotalTimeoutExceeded));
    assert sentAt[|startSent|..] + [] == sentAt[|startSent|..];
    assert r.chain[..|r.chain|] == r.chain;
    var log := start + r.chain;
    assert log[|log| - 1] == r.chain[|r.chain| - 1];
    if r.error.None? {
      ReadToTheEnd(r, network.serve(|log| - 1, log[|log| - 1]), policy, network.serve, log, sentAt, ticks);
    }
  }

  /** One attempt: follow approved redirects, at most `maxRedirects` of them, then stream. */
  method FetchOnce(network: Network, policy: Policy, requested: Url, deadline: real, attempt: nat)
    returns (r: FetchResult)
    modifies network`log, network`ticks, network`sentAt
    ensures r.attempts == attempt
    ensures Attempted(network, policy, requested, r, old(network.log), network.log, old(network.sentAt), network.sentAt,
                      old(network.ticks), network.ticks, deadline)
  {
    hide Attempted, Visited, Reports, PayloadFields, Punctual, AnsweredBy;
    ghost var start, startSent, from := network.log, network.sentAt, network.ticks;
    var current := requested;
    var chain: seq<Url> := [];
    HopsBegin(network, policy, requested, start, startSent, from, deadline);
    for hops := 0 to policy.maxRedirects + 1
      invariant hops <= policy.maxRedirects && |chain| == hops
      invariant Hopping(network, policy, requested, chain, current, start, network.log, startSent, network.sentAt, from,
                        network.ticks, deadline)
    {
      hide Reached;
      HopChecked(network, policy, requested, chain, current, start, network.log, startSent, network.sentAt, from,
                 network.ticks, deadline, attempt);
      var now := network.Now();
      if now >= deadline {
        return EmptyFailure(attempt, Some(current), chain + [current], TotalTimeoutExceeded, None, None);
      }
      if !policy.approved(current) {
        return EmptyFailure(attempt, Some(current), chain, UnapprovedOrigin, None, None);
      }
      chain := chain + [current];
      var e := network.Get(current);
      assert network.log == start + chain;
      if Redirects(e) && e.location.Some? {
        var target := network.join(current, e.location.value);
        HopFollowed(network, policy, requested, chain, target, start, startSent, network.sentAt, from, network.ticks,
                    deadline, attempt);
        if !policy.approved(target) {
          return EmptyFailure(attempt, Some(current), chain + [target], UnapprovedRedirect, Some(e.status),
                              e.mediaType);
        }
        if hops == policy.maxRedirects {
          return EmptyFailure(attempt, Some(current), chain + [target], TooManyRedirects, Some(e.status), e.mediaType);
        }
        current := target;
        continue;
      }
      ghost var mid := network.ticks;
      r := Receive(network, e, attempt, current, chain, policy, deadline);
      HopAnswered(network, policy, requested, r, start, startSent, network.sentAt, from, mid, network.ticks, deadline);
      return;
    }
    // The last hop always returns: a redirect there is one too many.
    assert false;
  }

  lemma {:induction false} Departs(network: Network, policy: Policy, requested: Url, first: nat)
    ensures Reached(network, policy, requested, [], requested, first)
  {
  }

  lemma {:induction false} OnlyTheFirstIsRefused(network: Network, policy: Policy, requested: Url, chain: seq<Url>,
                                                 current: Url, first: nat)
    requires Reached(network, policy, requested, chain, current, first) && !policy.approved(current)
    ensures chain == [] && current == requested
  {
  }

  /** A redirect either stops here, at an unapproved or surplus target, or leads on. */
  lemma {:induction false} StopsAt(network: Network, policy: Policy, requested: Url, chain: seq<Url>, target: Url,
                                   attempt: nat, first: nat)
    requires chain != [] && Visited(network, policy, requested, chain, first)
    requires var e := network.serve(first + |chain| - 1, chain[|chain| - 1]);
      Redirects(e) && e.location.Some? && target == network.join(chain[|chain| - 1], e.location.value)
    ensures var e, current := network.serve(first + |chain| - 1, chain[|chain| - 1]), chain[|chain| - 1];
      && (!policy.approved(target) ==>
            AttemptOk(network, policy, requested,
              EmptyFailure(attempt, Some(current), chain + [target], UnapprovedRedirect, Some(e.status), e.mediaType),
              first, |chain|))
      && (policy.approved(target) && |chain| == policy.maxRedirects + 1 ==>
            AttemptOk(network, policy, requested,
              EmptyFailure(attempt, Some(current), chain + [target], TooManyRedirects, Some(e.status), e.mediaType),
              first, |chain|))
      && (policy.approved(target) ==> Reached(network, policy, requested, chain, target, first))
  {
    hide AttemptOk, Follows;
    var e, current := network.serve(first + |chain| - 1, chain[|chain| - 1]), chain[|chain| - 1];
    FollowsOn(network, chain, target, first);
    assert (chain + [target])[..|chain|] == chain;
    if !policy.approved(target) {
      Stopped(network, policy, requested,
        EmptyFailure(attempt, Some(current), chain + [target], UnapprovedRedirect, Some(e.status), e.mediaType), first);
    } else if |chain| == policy.maxRedirects + 1 {
      Stopped(network, policy, requested,
        EmptyFailure(attempt, Some(current), chain + [target], TooManyRedirects, Some(e.status), e.mediaType), first);
    }
  }

  /** Why an answer that is not followed is not streamed, in the order the checks are made. */
  function Refusal(e: Exchange, policy: Policy): Option<Code>
    requires e.Answer?
  {
    if e.status in REDIRECT_STATUSES then Some(InvalidRedirect)
    else if e.encoding != "" && e.encoding != "identity" then Some(UnsupportedContentEncoding)
    else if e.length.Malformed? then Some(InvalidContentLength)
    else if e.length.DeclaredLength? && e.length.bytes > policy.maxBytes then Some(BodyTooLarge)
    else None
  }

  /** The looks the answer took, and which check stopped it. */
  ghost predicate AnsweredBy(r: FetchResult, e: Exchange, policy: Policy, looks: int) {
    match e
    case ConnectTimeout => looks == 1
    case TransportFailure => looks == 0
    case _ =>
      if Refusal(e, policy).Some? then looks == 0 && r.error == Refusal(e, policy) && r.temporary.None?
      else Explained(r, e, policy, looks)
  }

  /** What a request that is not redirected any further comes to. */
  method Receive(network: Network, e: Exchange, attempt: nat, current: Url, chain: seq<Url>, policy: Policy,
                 deadline: real)
    returns (r: FetchResult)
    requires !(Redirects(e) && e.location.Some?)
    modifies network`ticks
    ensures r.attempts == attempt && r.resolved == Some(current) && r.chain == chain
    ensures PayloadFields(r) && Reports(r, e, policy) && r.error != Some(UnapprovedOrigin) && !Trailing(r.error)
    ensures Punctual(network.clock, old(network.ticks), network.ticks, [], deadline,
                     r.error == Some(TotalTimeoutExceeded))
    ensures AnsweredBy(r, e, policy, network.ticks - old(network.ticks))
  {
    if e.ConnectTimeout? {
      var now := network.Now();
      return EmptyFailure(attempt, Some(current), chain,
                          if now >= deadline then TotalTimeoutExceeded else HttpTransportError, None, None);
    }
    if e.TransportFailure? {
      return EmptyFailure(attempt, Some(current), chain, HttpTransportError, None, None);
    }
    if e.status in REDIRECT_STATUSES {
      return EmptyFailure(attempt, Some(current), chain, InvalidRedirect, Some(e.status), e.mediaType);
    }
    if e.encoding != "" && e.encoding != "identity" {
      return EmptyFailure(attempt, Some(current), chain, UnsupportedContentEncoding, Some(e.status), e.mediaType);
    }
    if e.length.Malformed? {
      return EmptyFailure(attempt, Some(current), chain, InvalidContentLength, Some(e.status), e.mediaType);
    }
    if e.length.DeclaredLength? && e.length.bytes > policy.maxBytes {
      return EmptyFailure(attempt, Some(current), chain, BodyTooLarge, Some(e.status), e.mediaType);
    }
    r := StreamResponse(network, e, attempt, current, chain, policy, deadline);
  }

  // ----- Retries -----

  predicate Retryable(r: FetchResult) {
    || r.error in {Some(HttpTransportError), Some(HttpStreamError), Some(HttpLengthMismatch)}
    || (r.status.Some? && r.status.value in RETRY_STATUSES)
  }

  function NotAttempted(code: Code): FetchResult {
    FetchResult(0, None, [], None, None, None, None, [], None, Some(code))
  }

  /** `r` is an attempt's own result, or that of an attempt worth retrying with the reason it was
      not retried. */
  predicate ClosesAttempt(r: FetchResult, inner: FetchResult) {
    || r == inner
    || (&& Retryable(inner)
        && (r.error == Some(TotalTimeoutExceeded) || (inner.error.Some? && r.error == Some(HttpRetryExhausted)))
        && r == inner.(error := r.error))
  }

  /** `inner` is the result of an attempt whose requests are the last `sent` of the log, which was
      `start` before. */
  ghost predicate LastAttempt(network: Network, policy: Policy, requested: Url, inner: FetchResult, start: seq<Url>,
                              log: seq<Url>, sent: nat)
  {
    && |start| + sent <= |log| && sent <= |inner.chain| && log[|log| - sent..] == inner.chain[..sent]
    && AttemptOk(network, policy, requested, inner, |log| - sent, sent)
  }

  /** The last attempt on the log accounts for `r`. */
  ghost predicate Accounted(network: Network, policy: Policy, requested: Url, r: FetchResult, start: seq<Url>,
                            log: seq<Url>) {
    exists inner: FetchResult, sent: nat ::
      LastAttempt(network, policy, requested, inner, start, log, sent) && ClosesAttempt(r, inner)
  }

  lemma {:induction false} AccountsFor(network: Network, policy: Policy, requested: Url, r: FetchResult,
                                       inner: FetchResult, start: seq<Url>, log: seq<Url>, sent: nat)
    requires LastAttempt(network, policy, requested, inner, start, log, sent) && ClosesAttempt(r, inner)
    ensures Accounted(network, policy, requested, r, start, log)
  {
  }

  /** What one more attempt adds to the log. */
  lemma {:induction false} AttemptIsBounded(network: Network, policy: Policy, requested: Url, r: FetchResult,
                                            first: nat, sent: nat, log: seq<Url>)
    requires AttemptOk(network, policy, requested, r, first, sent)
    ensures sent <= policy.maxRedirects + 1
    ensures PayloadFields(r)
    ensures sent <= |r.chain| && forall u :: u in r.chain[..sent] ==> policy.approved(u)
    ensures r.error.None? && first == |log| ==>
      var all := log + r.chain[..sent];
      sent > 0 && r.resolved == Some(all[|all| - 1]) && Reports(r, network.serve(|all| - 1, all[|all| - 1]), policy)
  {
    hide Reports, Follows, PayloadFields;
    var all := log + r.chain[..sent];
    if r.error.None? {
      assert |r.chain| == sent;
      assert all[|all| - 1] == r.chain[sent - 1];
    }
  }

  /** The requests that many attempts may make. */
  ghost function Budget(attempts: nat, redirects: nat): nat {
    attempts * (redirects + 1)
  }

  lemma {:induction false} BudgetGrows(attempt: nat, attempts: nat, redirects: nat)
    requires 1 <= attempt <= attempts
    ensures Budget(attempt - 1, redirects) + redirects + 1 == Budget(attempt, redirects) <= Budget(attempts, redirects)
  {
  }

  /** What the requests and looks since the fetch began amount to after that many attempts. */
  ghost predicate Underway(clock: nat -> real, policy: Policy, start: seq<Url>, log: seq<Url>, startSent: seq<nat>,
                           sentAt: seq<nat>, from: nat, ticks: nat, deadline: real, attempts: nat, late: bool)
  {
    && start <= log && startSent <= sentAt
    && |sentAt| - |startSent| == |log| - |start| <= Budget(attempts, policy.maxRedirects)
    && (forall u :: u in log[|start|..] ==> policy.approved(u))
    && (Forward(clock) ==> Punctual(clock, from, ticks, sentAt[|startSent|..], deadline, late))
  }

  lemma {:induction false} Begins(clock: nat -> real, policy: Policy, log: seq<Url>, sentAt: seq<nat>, from: nat,
                                  deadline: real)
    ensures Underway(clock, policy, log, log, sentAt, sentAt, from, from, deadline, 0, false)
  {
    assert sentAt[|sentAt|..] == [];
    assert log[|log|..] == [];
  }

  /** One more look; after a late one, with a clock that never goes back, the next is late too. */
  lemma {:induction false} Looks(clock: nat -> real, policy: Policy, start: seq<Url>, log: seq<Url>,
                                 startSent: seq<nat>, sentAt: seq<nat>,
                                 from: nat, ticks: nat, deadline: real, attempts: nat, late: bool)
    requires Underway(clock, policy, start, log, startSent, sentAt, from, ticks, deadline, attempts, late)
    ensures Underway(clock, policy, start, log, startSent, sentAt, from, ticks + 1, deadline, attempts,
                     clock(ticks) >= deadline)
  {
    hide Forward, Budget, Punctual;
    if Forward(clock) {
      StaysLate(clock, from, ticks, sentAt[|startSent|..], deadline, late);
      OneLook(clock, from, ticks, sentAt[|startSent|..], deadline, late);
    }
  }

  lemma {:induction false} Attempts(network: Network, policy: Policy, requested: Url, r: FetchResult, start: seq<Url>,
                                    before: seq<Url>,
                                    log: seq<Url>, startSent: seq<nat>, sentBefore: seq<nat>, sentAt: seq<nat>,
                                    from: nat, mid: nat,
                                    ticks: nat, deadline: real, attempt: nat)
    requires 1 <= attempt
    requires Attempted(network, policy, requested, r, before, log, sentBefore, sentAt, mid, ticks, deadline)
    requires Underway(network.clock, policy, start, before, startSent, sentBefore, from, mid, deadline, attempt - 1,
                      false)
    ensures Underway(network.clock, policy, start, log, startSent, sentAt, from, ticks, deadline, attempt,
                     r.error == Some(TotalTimeoutExceeded))
    ensures |before| <= |log| && LastAttempt(network, policy, requested, r, start, log, |log| - |before|)
    ensures r.error.None? ==>
      && |log| > |start| && ReadInTime(network.serve, log, sentAt, ticks)
      && r.resolved == Some(log[|log| - 1]) && Reports(r, network.serve(|log| - 1, log[|log| - 1]), policy)
  {
    hide AttemptOk, Punctual, Budget, ReadInTime, Reports, Forward;
    var sent := |log| - |before|;
    AttemptIsBounded(network, policy, requested, r, |before|, sent, before);
    BudgetGrows(attempt, attempt, policy.maxRedirects);
    LogGrows(start, before, r.chain[..sent], policy);
    if Forward(network.clock) {
      PunctualOn(network.clock, from, mid, ticks, sentBefore[|startSent|..], sentAt[|sentBefore|..], deadline,
                 r.error == Some(TotalTimeoutExceeded));
    }
    assert sentAt[|startSent|..] == sentBefore[|startSent|..] + sentAt[|sentBefore|..];
  }

  /** What a result may be returned with. */
  ghost predicate Concludes(network: Network, policy: Policy, requested: Url, r: FetchResult, start: seq<Url>,
                            log: seq<Url>) {
    && Accounted(network, policy, requested, r, start, log) && PayloadFields(r)
    && (r.error.Some? ==> r.error.value !in {HttpTransportError, HttpStreamError, HttpLengthMismatch})
    && (r.status.Some? && r.status.value in {408, 425, 429, 500, 502, 503, 504} ==>
          r.attempts == policy.maxAttempts || r.error == Some(TotalTimeoutExceeded))
    && (r.error == Some(HttpRetryExhausted) ==> r.attempts == policy.maxAttempts)
  }

  lemma {:induction false} AttemptConcludes(network: Network, policy: Policy, requested: Url, inner: FetchResult,
                                            start: seq<Url>, log: seq<Url>, sent: nat)
    requires LastAttempt(network, policy, requested, inner, start, log, sent)
    ensures !Retryable(inner) ==> Concludes(network, policy, requested, inner, start, log)
    ensures Retryable(inner) ==>
      Concludes(network, policy, requested, inner.(error := Some(TotalTimeoutExceeded)), start, log)
    ensures Retryable(inner) && inner.attempts == policy.maxAttempts && inner.error.Some? ==>
      Concludes(network, policy, requested, inner.(error := Some(HttpRetryExhausted)), start, log)
    ensures Retryable(inner) && inner.attempts == policy.maxAttempts && inner.error.None? ==>
      Concludes(network, policy, requested, inner, start, log)
  {
    hide AttemptOk, Accounted, PayloadFields;
    OnlyExchangeErrors(network, policy, requested, inner, |log| - sent, sent);
    PayloadStays(inner);
    AccountsFor(network, policy, requested, inner, inner, start, log, sent);
    if Retryable(inner) {
      AccountsFor(network, policy, requested, inner.(error := Some(TotalTimeoutExceeded)), inner, start, log, sent);
      if inner.error.Some? {
        AccountsFor(network, policy, requested, inner.(error := Some(HttpRetryExhausted)), inner, start, log, sent);
      }
    }
  }

  lemma {:induction false} PayloadStays(r: FetchResult)
    requires PayloadFields(r)
    ensures forall error :: PayloadFields(r.(error := error))
  {
  }

  lemma {:induction false} OnlyExchangeErrors(network: Network, policy: Policy, requested: Url, r: FetchResult,
                                              first: nat, sent: nat)
    requires AttemptOk(network, policy, requested, r, first, sent)
    ensures PayloadFields(r) && r.error != Some(HttpRetryExhausted)
  {
    hide Follows;
  }

  /** The retry loop. */
  method Fetch(network: Network, policy: Policy, requested: Url) returns (r: FetchResult)
    modifies network`log, network`ticks, network`sentAt
    ensures old(network.log) <= network.log && old(network.sentAt) <= network.sentAt
    ensures |network.sentAt| - |old(network.sentAt)| == |network.log| - |old(network.log)|
    ensures |network.log| - |old(network.log)| <= policy.maxAttempts * (policy.maxRedirects + 1)
    ensures forall u :: u in network.log[|old(network.log)|..] ==> policy.approved(u)
    ensures var deadline := network.clock(old(network.ticks)) + policy.timeout;
      && (Forward(network.clock) ==>
            Punctual(network.clock, old(network.ticks) + 1, network.ticks, network.sentAt[|old(network.sentAt)|..],
                     deadline, r.error == Some(TotalTimeoutExceeded)))
      && (r.attempts == 0 <==> policy.maxAttempts == 0 || network.clock(old(network.ticks) + 1) >= deadline)
    ensures r.attempts <= policy.maxAttempts
    ensures r.attempts == 0 ==>
      && network.log == old(network.log)
      && r == NotAttempted(if policy.maxAttempts == 0 then HttpRetryExhausted else TotalTimeoutExceeded)
    ensures r.attempts > 0 ==> Concludes(network, policy, requested, r, old(network.log), network.log)
    ensures r.error.None? ==>
      && |network.log| > |old(network.log)| && ReadInTime(network.serve, network.log, network.sentAt, network.ticks)
      && r.resolved == Some(network.log[|network.log| - 1])
      && Reports(r, network.serve(|network.log| - 1, network.log[|network.log| - 1]), policy)
  {
    hide AttemptOk, Attempted, Reports, Concludes, Budget, Punctual, ReadInTime, Underway, Forward, PayloadFields,
      LastAttempt, Retryable;
    ghost var start, startSent, from := network.log, network.sentAt, network.ticks + 1;
    var last: Option<FetchResult> := None;
    var now := network.Now();
    var deadline := now + policy.timeout;
    Begins(network.clock, policy, start, startSent, from, deadline);
    for attempt := 1 to policy.maxAttempts + 1
      invariant last.None? ==>
        attempt == 1 && network.log == start && network.sentAt == startSent && network.ticks == from
      invariant last.Some? ==>
        && attempt <= policy.maxAttempts && last.value.attempts == attempt - 1 > 0 && network.clock(from) < deadline
        && Concludes(network, policy, requested, last.value.(error := Some(TotalTimeoutExceeded)), start, network.log)
      invariant Underway(network.clock, policy, start, network.log, startSent, network.sentAt, from, network.ticks,
                         deadline, attempt - 1, false)
    {
      Looks(network.clock, policy, start, network.log, startSent, network.sentAt, from, network.ticks, deadline,
            attempt - 1, false);
      now := network.Now();
      if now >= deadline {
        Finishes(network.clock, policy, start, network.log, startSent, network.sentAt, from, network.ticks, deadline,
                 attempt - 1, true);
        if last.Some? {
          return last.value.(error := Some(TotalTimeoutExceeded));
        }
        return NotAttempted(TotalTimeoutExceeded);
      }
      ghost var log, sentBefore, mid := network.log, network.sentAt, network.ticks;
      r := FetchOnce(network, policy, requested, deadline, attempt);
      ghost var late := r.error == Some(TotalTimeoutExceeded);
      Attempts(network, policy, requested, r, start, log, network.log, startSent, sentBefore, network.sentAt, from, mid,
               network.ticks, deadline, attempt);
      Finishes(network.clock, policy, start, network.log, startSent, network.sentAt, from, network.ticks, deadline,
               attempt, late);
      AttemptConcludes(network, policy, requested, r, start, network.log, |network.log| - |log|);
      if !Retryable(r) {
        return;
      }
      Looks(network.clock, policy, start, network.log, startSent, network.sentAt, from, network.ticks, deadline,
            attempt, late);
      Finishes(network.clock, policy, start, network.log, startSent, network.sentAt, from, network.ticks + 1, deadline,
               attempt,
               network.clock(network.ticks) >= deadline);
      if r.error.None? {
        ReadBefore(network.serve, network.log, network.sentAt, network.ticks);
      }
      now := network.Now();
      if now >= deadline {
        return r.(error := Some(TotalTimeoutExceeded));
      }
      if attempt < policy.maxAttempts {
        last := Some(r);
        continue;
      }
      if r.error.Some? {
        return r.(error := Some(HttpRetryExhausted));
      }
      return;
    }
    // Every attempt but the last continues and the last returns, so nothing was attempted.
    assert last.None?;
    NoLooks(network.clock, from, deadline);
    assert network.sentAt[|startSent|..] == [];
    return NotAttempted(HttpRetryExhausted);
  }

  /** What is underway is what the fetch promises. */
  lemma {:induction false} Finishes(clock: nat -> real, policy: Policy, start: seq<Url>, log: seq<Url>,
                                    startSent: seq<nat>, sentAt: seq<nat>,
                                    from: nat, ticks: nat, deadline: real, attempts: nat, late: bool)
    requires Underway(clock, policy, start, log, startSent, sentAt, from, ticks, deadline, attempts, late)
    requires attempts <= policy.maxAttempts
    ensures start <= log && startSent <= sentAt && |sentAt| - |startSent| == |log| - |start|
    ensures |log| - |start| <= policy.maxAttempts * (policy.maxRedirects + 1)
    ensures forall u :: u in log[|start|..] ==> policy.approved(u)
    ensures Forward(clock) ==> Punctual(clock, from, ticks, sentAt[|startSent|..], deadline, late)
  {
    if attempts > 0 {
      BudgetGrows(attempts, policy.maxAttempts, policy.maxRedirects);
    }
  }

  lemma {:induction false} LogGrows(start: seq<Url>, before: seq<Url>, visited: seq<Url>, policy: Policy)
    requires start <= before
    requires forall u :: u in before[|start|..] ==> policy.approved(u)
    requires forall u :: u in visited ==> policy.approved(u)
    ensures start <= before + visited
    ensures forall u :: u in (before + visited)[|start|..] ==> policy.approved(u)
  {
    assert (before + visited)[|start|..] == before[|start|..] + visited;
  }

  // ----- What the last answer makes of a fetch -----

  /** A whole body that may be kept: not a redirect, no unknown encoding, of the declared length and
      within the limit. */
  predicate Whole(e: Exchange, policy: Policy) {
    && e.Answer? && e.status !in {301, 302, 303, 307, 308}
    && (e.encoding == "" || e.encoding == "identity")
    && (forall k :: 0 <= k < |e.body| ==> e.body[k].Data?)
    && |BytesOf(e.body)| <= policy.maxBytes
    && match e.length
       case Undeclared => true
       case Malformed => false
       case DeclaredLength(bytes) => bytes == |BytesOf(e.body)|
  }

  /** A fetch that was in time and requested anything ends without error exactly when the last
      answer was whole, and then reports that answer. (With a clock that goes back, an answer with a
      status worth retrying may be given up as exhausted.) */
  lemma {:induction false} InTimeEndsWell(network: Network, policy: Policy, requested: Url, r: FetchResult,
                                          start: seq<Url>, log: seq<Url>)
    requires Accounted(network, policy, requested, r, start, log) && policy.approved(requested)
    requires r.error != Some(TotalTimeoutExceeded)
    ensures |log| > |start|
    ensures var e := network.serve(|log| - 1, log[|log| - 1]);
      && (r.error.None? ==>
            && Whole(e, policy)
            && r.status == Some(e.status) && r.mediaType == e.mediaType && r.temporary == Some(BytesOf(e.body)))
      && (r.error.Some? && Whole(e, policy) ==>
            r.error == Some(HttpRetryExhausted) && e.status in {408, 425, 429, 500, 502, 503, 504})
  {
    hide AttemptOk, PayloadFields, Reports, Whole, BytesOf;
    var inner: FetchResult, sent: nat :|
      LastAttempt(network, policy, requested, inner, start, log, sent) && ClosesAttempt(r, inner);
    AttemptAnswered(network, policy, requested, inner, start, log, sent);
    var e := network.serve(|log| - 1, log[|log| - 1]);
    if inner.error.None? {
      KeptIsWhole(inner, e, policy);
    } else if inner.error != Some(TotalTimeoutExceeded) {
      ErrorsAreFlaws(inner, e, policy);
    } else {
      ReportsStatus(inner, e, policy);
    }
  }

  lemma {:induction false} AttemptAnswered(network: Network, policy: Policy, requested: Url, inner: FetchResult,
                                           start: seq<Url>, log: seq<Url>, sent: nat)
    requires LastAttempt(network, policy, requested, inner, start, log, sent) && policy.approved(requested)
    requires inner.error != Some(TotalTimeoutExceeded) || inner.status.Some?
    ensures |log| > |start| && Reports(inner, network.serve(|log| - 1, log[|log| - 1]), policy)
  {
    hide Follows, PayloadFields, Reports;
    assert sent > 0;
    assert log[|log| - sent..][sent - 1] == inner.chain[sent - 1];
  }

  lemma {:induction false} ReportsStatus(r: FetchResult, e: Exchange, policy: Policy)
    requires Reports(r, e, policy)
    ensures r.status == if e.Answer? then Some(e.status) else None
  {
  }

  lemma {:induction false} ErrorsAreFlaws(r: FetchResult, e: Exchange, policy: Policy)
    requires Reports(r, e, policy) && r.error.Some? && r.error != Some(TotalTimeoutExceeded)
    ensures !Whole(e, policy)
  {
    hide BytesOf;
    if e.Answer? && r.error == Some(BodyTooLarge) && Whole(e, policy) {
      forall k | 0 <= k <= |e.body|
        ensures |BytesOf(e.body[..k])| <= |BytesOf(e.body)|
      {
        BytesGrow(e.body, k);
      }
    }
  }

  lemma {:induction false} BytesGrow(body: seq<StreamEvent>, k: nat)
    requires k <= |body|
    ensures |BytesOf(body[..k])| <= |BytesOf(body)|
  {
    if k < |body| {
      assert body[..|body| - 1][..k] == body[..k];
      BytesGrow(body[..|body| - 1], k);
    } else {
      assert body[..k] == body;
    }
  }

  lemma {:induction false} KeptIsWhole(r: FetchResult, e: Exchange, policy: Policy)
    requires Reports(r, e, policy) && r.error.None?
    ensures Whole(e, policy) && r.status == Some(e.status) && r.mediaType == e.mediaType
    ensures r.temporary == Some(BytesOf(e.body))
  {
    hide BytesOf;
    var k :| 0 <= k <= |e.body| && Unbroken(e.body[..k]) && r.temporary.value == BytesOf(e.body[..k]);
  }

  /** The codes a fetch can end with. */
  lemma {:induction false} FetchCodes(network: Network, policy: Policy, requested: Url, r: FetchResult,
                                      start: seq<Url>, log: seq<Url>)
    requires Accounted(network, policy, requested, r, start, log)
    ensures r.error.Some? ==>
      r.error.value in {TotalTimeoutExceeded, UnapprovedOrigin, InvalidRedirect, UnapprovedRedirect, TooManyRedirects,
                        UnsupportedContentEncoding, InvalidContentLength, BodyTooLarge, HttpTransportError,
                        HttpStreamError, HttpLengthMismatch, HttpRetryExhausted}
    ensures !policy.approved(requested) ==> r.error == Some(UnapprovedOrigin) || r.error == Some(TotalTimeoutExceeded)
  {
    hide Follows, PayloadFields;
  }

  /** Which check refuses an answer before its body is read: a redirect without a target first, then the
      content encoding, a malformed length, and a declared length over the limit. */
  lemma {:induction false} RefusalIs(e: Exchange, policy: Policy)
    requires e.Answer?
    ensures var redirect := e.status in {301, 302, 303, 307, 308};
      var encoded := e.encoding != "" && e.encoding != "identity";
      && (Refusal(e, policy) == Some(InvalidRedirect) <==> redirect)
      && (Refusal(e, policy) == Some(UnsupportedContentEncoding) <==> !redirect && encoded)
      && (Refusal(e, policy) == Some(InvalidContentLength) <==> !redirect && !encoded && e.length == Malformed)
      && (Refusal(e, policy) == Some(BodyTooLarge) <==>
            !redirect && !encoded && e.length.DeclaredLength? && e.length.bytes > policy.maxBytes)
      && (Refusal(e, policy) == None <==>
            !redirect && !encoded && (e.length == Undeclared
              || (e.length.DeclaredLength? && e.length.bytes <= policy.maxBytes)))
  {
  }
}
