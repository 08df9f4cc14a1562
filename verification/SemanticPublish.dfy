/** Publishing one validated bundle (`_publish_validated_bundle`): every candidate of the blind
    passes is accounted for in some output, and only clean ones become rules. */
module SemanticPublish {
  import opened Wrappers
  import opened Sorting
  import opened SemanticReconcile

  datatype Rule = Rule(candidate: Candidate, decision: Merge)

  datatype Rejection = Rejection(decision: Decision, sources: seq<Candidate>)

  datatype Reason = FailedQualityGate | HasUncertainty

  datatype Deferral =
    | AcceptedDeferral(reason: Reason, candidate: Candidate, decision: Merge, codes: seq<string>, quality: seq<string>)
    | DecisionDeferral(deferred: Decision, sources: seq<Candidate>)
    | UnaccountedDeferral(id: string, source: Candidate)
    | FailedDeferral(sources: seq<Candidate>)

  datatype Bundle = Bundle(rules: seq<Rule>, rejected: seq<Rejection>, deferred: seq<Deferral>,
                           accepted: nat, rejectedCount: nat, deferredCount: nat, unaccounted: nat)

  datatype PublishError = InvalidCandidateId | InvalidSourceIds | MissingSource

  /** No uncertainty and no quality objection. */
  predicate Clean(candidate: Candidate, quality: Candidate -> seq<string>) {
    candidate.uncertainty == Some([]) && quality(candidate) == []
  }

  /** The merge that targets this candidate; the last one, as a dictionary keeps it. */
  function MergeFor(merges: seq<Merge>, id: string): Option<Merge> {
    if merges == [] then None
    else if merges[|merges| - 1].target == id then Some(merges[|merges| - 1])
    else MergeFor(merges[..|merges| - 1], id)
  }

  /** Every accepted candidate has its merge. */
  predicate Covered(accepted: seq<Candidate>, merges: seq<Merge>) {
    forall i :: 0 <= i < |accepted| ==> MergeFor(merges, accepted[i].id).Some?
  }

  function RulePart(candidate: Candidate, merge: Merge, quality: Candidate -> seq<string>): seq<Rule> {
    if Clean(candidate, quality) then [Rule(candidate, merge)] else []
  }

  function Rules(accepted: seq<Candidate>, merges: seq<Merge>, quality: Candidate -> seq<string>): seq<Rule>
    requires Covered(accepted, merges)
  {
    if accepted == [] then []
    else
      var last := accepted[|accepted| - 1];
      Rules(accepted[..|accepted| - 1], merges, quality) + RulePart(last, MergeFor(merges, last.id).value, quality)
  }

  function DeferralOf(candidate: Candidate, merge: Merge, quality: Candidate -> seq<string>): Deferral {
    AcceptedDeferral(if quality(candidate) != [] then FailedQualityGate else HasUncertainty, candidate, merge,
                     if candidate.uncertainty.Some? then candidate.uncertainty.value
                       else ["INVALID_UNCERTAINTY_METADATA"],
                     quality(candidate))
  }

  function HeldPart(candidate: Candidate, merge: Merge, quality: Candidate -> seq<string>): seq<Deferral> {
    if Clean(candidate, quality) then [] else [DeferralOf(candidate, merge, quality)]
  }

  function AcceptedDeferrals(accepted: seq<Candidate>, merges: seq<Merge>,
                             quality: Candidate -> seq<string>): seq<Deferral>
    requires Covered(accepted, merges)
  {
    if accepted == [] then []
    else
      var last := accepted[|accepted| - 1];
      AcceptedDeferrals(accepted[..|accepted| - 1], merges, quality)
        + HeldPart(last, MergeFor(merges, last.id).value, quality)
  }

  /** `source_candidates`: the last candidate under each ID. */
  function SourceMap(candidates: seq<Candidate>): (m: map<string, Candidate>)
    ensures forall id :: id in m <==> exists i :: 0 <= i < |candidates| && candidates[i].id == id
    ensures forall id :: id in m ==> m[id].id == id && m[id] in candidates
  {
    if candidates == [] then map[]
    else
      var front, last := candidates[..|candidates| - 1], candidates[|candidates| - 1];
      assert candidates == front + [last];
      SourceMap(front)[last.id := last]
  }

  /** The IDs a decision's sources are looked up by. */
  function LookupIds(decision: Decision): Option<seq<string>> {
    match decision.sources
    case Unlisted => if decision.candidateId == "" then None else Some([decision.candidateId])
    case Listed(ids) => if Present(ids) then Some(ids) else None
    case MalformedIds => None
  }

  /** `_source_candidates_for_decision` succeeds. */
  predicate Resolvable(decision: Decision, sources: map<string, Candidate>) {
    LookupIds(decision).Some? && forall i ::
      0 <= i < |LookupIds(decision).value| ==> LookupIds(decision).value[i] in sources
  }

  function Resolved(decision: Decision, sources: map<string, Candidate>): seq<Candidate>
    requires Resolvable(decision, sources)
  {
    var ids := LookupIds(decision).value;
    seq(|ids|, i requires 0 <= i < |ids| => sources[ids[i]])
  }

  predicate AllResolvable(decisions: seq<Decision>, sources: map<string, Candidate>) {
    forall i :: 0 <= i < |decisions| ==> Resolvable(decisions[i], sources)
  }

  function Rejections(decisions: seq<Decision>, sources: map<string, Candidate>): seq<Rejection>
    requires AllResolvable(decisions, sources)
  {
    seq(|decisions|, i requires 0 <= i < |decisions| => Rejection(decisions[i], Resolved(decisions[i], sources)))
  }

  function DecisionDeferrals(decisions: seq<Decision>, sources: map<string, Candidate>): seq<Deferral>
    requires AllResolvable(decisions, sources)
  {
    seq(|decisions|, i requires 0 <= i < |decisions| => DecisionDeferral(decisions[i], Resolved(decisions[i], sources)))
  }

  function UnaccountedDeferrals(ids: seq<string>, sources: map<string, Candidate>): seq<Deferral>
    requires forall i :: 0 <= i < |ids| ==> ids[i] in sources
  {
    seq(|ids|, i requires 0 <= i < |ids| => UnaccountedDeferral(ids[i], sources[ids[i]]))
  }

  lemma {:induction false} MergeForFound(merges: seq<Merge>, k: nat)
    requires k < |merges|
    ensures MergeFor(merges, merges[k].target).Some?
  {
    if k < |merges| - 1 {
      MergeForFound(merges[..|merges| - 1], k);
    }
  }

  lemma {:induction false} MergeForValue(merges: seq<Merge>, id: string) returns (k: nat)
    requires MergeFor(merges, id).Some?
    ensures k < |merges| && merges[k] == MergeFor(merges, id).value && merges[k].target == id
  {
    if merges[|merges| - 1].target == id {
      k := |merges| - 1;
    } else {
      k := MergeForValue(merges[..|merges| - 1], id);
    }
  }

  /** The lookup of an accepted candidate's merge never misses. */
  lemma {:induction false} MergesAreFound(response: Response, passA: seq<Candidate>, passB: seq<Candidate>)
    requires Reconciles(response, passA, passB)
    ensures Covered(response.accepted, response.merged)
  {
    hide Reconciles;
    forall i | 0 <= i < |response.accepted|
      ensures MergeFor(response.merged, response.accepted[i].id).Some?
    {
      AcceptedMatchMerges(response, passA, passB, i);
      var k :| 0 <= k < |response.merged| && response.merged[k].target == response.accepted[i].id;
      MergeForFound(response.merged, k);
    }
  }

  /** Nor does the lookup of an unaccounted candidate. */
  lemma {:induction false} UnaccountedAreFound(response: Response, passA: seq<Candidate>, passB: seq<Candidate>)
    ensures forall i :: 0 <= i < |Unaccounted(response, passA, passB)| ==>
      Unaccounted(response, passA, passB)[i] in SourceMap(passA + passB)
  {
    hide Unaccounted;
    forall i | 0 <= i < |Unaccounted(response, passA, passB)|
      ensures Unaccounted(response, passA, passB)[i] in SourceMap(passA + passB)
    {
      var id := Unaccounted(response, passA, passB)[i];
      assert id in Unaccounted(response, passA, passB);
      SourceIsMapped(passA, passB, id);
    }
  }

  lemma {:induction false} SourceIsMapped(passA: seq<Candidate>, passB: seq<Candidate>, id: string)
    ensures id in Sources(passA, passB) <==> id in SourceMap(passA + passB)
  {
    var all := passA + passB;
    if id in CandidateIds(passA) {
      var k :| 0 <= k < |passA| && passA[k].id == id;
      assert all[k].id == id;
    } else if id in CandidateIds(passB) {
      var k :| 0 <= k < |passB| && passB[k].id == id;
      assert all[|passA| + k].id == id;
    }
    if id in SourceMap(all) {
      var k :| 0 <= k < |all| && all[k].id == id;
      if k < |passA| {
        assert CandidateIds(passA)[k] == id;
      } else {
        assert CandidateIds(passB)[k - |passA|] == id;
      }
    }
  }

  predicate DecisionsResolve(response: Response, passA: seq<Candidate>, passB: seq<Candidate>) {
    var sources := SourceMap(passA + passB);
    AllResolvable(response.rejected, sources) && AllResolvable(response.deferred, sources)
  }

  /** What a reconciled bundle publishes. */
  function Published(response: Response, passA: seq<Candidate>, passB: seq<Candidate>,
                     quality: Candidate -> seq<string>): Bundle
    requires Reconciles(response, passA, passB) && DecisionsResolve(response, passA, passB)
  {
    MergesAreFound(response, passA, passB);
    UnaccountedAreFound(response, passA, passB);
    var sources, unaccounted := SourceMap(passA + passB), Unaccounted(response, passA, passB);
    Bundle(Rules(response.accepted, response.merged, quality),
           Rejections(response.rejected, sources),
           AcceptedDeferrals(response.accepted, response.merged, quality)
           + DecisionDeferrals(response.deferred, sources)
           + UnaccountedDeferrals(unaccounted, sources),
           |response.accepted|, |response.rejected|, |response.deferred|, |unaccounted|)
  }

  /** What is published when reconciliation fails: everything deferred together. */
  function FailedBundle(passA: seq<Candidate>, passB: seq<Candidate>): Bundle {
    Bundle([], [], [FailedDeferral(passA + passB)], 0, 0, 1, |passA + passB|)
  }

  predicate AllPresent(candidates: seq<Candidate>) {
    forall i :: 0 <= i < |candidates| ==> candidates[i].id != ""
  }

  /** `_publish_validated_bundle`, from the responses on. */
  method PublishBundle(response: Response, passA: seq<Candidate>, passB: seq<Candidate>,
                       quality: Candidate -> seq<string>)
    returns (r: Result<Bundle, PublishError>)
    ensures Reconciles(response, passA, passB) ==>
      && (r.Success? <==> DecisionsResolve(response, passA, passB))
      && (r.Success? ==> r.value == Published(response, passA, passB, quality))
    ensures !Reconciles(response, passA, passB) ==>
      && (r.Success? <==>
            && (forall i :: 0 <= i < |passA| ==> passA[i].id != "")
            && (forall i :: 0 <= i < |passB| ==> passB[i].id != "")
            && (forall i :: 0 <= i < |response.accepted| ==> response.accepted[i].id != "")
            && (forall i :: 0 <= i < |response.rejected| ==> response.rejected[i].candidateId != ""))
      && (r.Success? ==> r.value == Bundle([], [], [FailedDeferral(passA + passB)], 0, 0, 1, |passA| + |passB|))
    ensures r.Success? ==> forall id :: id in Sources(passA, passB) ==> Mentions(r.value, id)
  {
    PresentMeans(response, passA, passB);
    hide Reconciles, Unaccounted, MergeFor, Mentions, AllPresent, Present, AllResolvable, Covered, Rejections,
      DecisionDeferrals, UnaccountedDeferrals, AcceptedDeferrals, Rules, SourceMap;
    var candidates := passA + passB;
    if !AllPresent(candidates) {
      IdsWerePresent(response, passA, passB);
      return Failure(InvalidCandidateId);
    }
    var sources := SourceMap(candidates);
    var reconciled := ReconcileValidator(response, passA, passB);
    if reconciled.Failure? {
      if !AllPresent(response.accepted) || !Present(DecisionIds(response.rejected)) {
        return Failure(InvalidCandidateId);
      }
      FailedBundleMentionsAll(passA, passB);
      return Success(Bundle([], [], [FailedDeferral(candidates)], 0, 0, 1, |candidates|));
    }
    MergesAreFound(response, passA, passB);
    UnaccountedAreFound(response, passA, passB);
    var rules, held := SortAccepted(response.accepted, response.merged, quality);
    if !AllResolvable(response.rejected, sources) || !AllResolvable(response.deferred, sources) {
      return Failure(InvalidSourceIds);
    }
    var unaccounted := reconciled.value.unaccounted;
    var deferred := AppendDeferred(held, response.deferred, unaccounted, sources);
    forall id | id in Sources(passA, passB)
      ensures Mentions(Published(response, passA, passB, quality), id)
    {
      EverySourceIsMentioned(response, passA, passB, quality, id);
    }
    return Success(Bundle(rules, Rejections(response.rejected, sources), deferred,
                          reconciled.value.accepted, reconciled.value.rejected, reconciled.value.deferred,
                            |unaccounted|));
  }

  /** The deferred decisions and the unaccounted candidates, after the accepted ones held back. */
  method AppendDeferred(held: seq<Deferral>, decisions: seq<Decision>, unaccounted: seq<string>, sources: map<string,
                        Candidate>)
    returns (deferred: seq<Deferral>)
    requires AllResolvable(decisions, sources)
    requires forall i :: 0 <= i < |unaccounted| ==> unaccounted[i] in sources
    ensures deferred == held + DecisionDeferrals(decisions, sources) + UnaccountedDeferrals(unaccounted, sources)
  {
    deferred := held;
    for i := 0 to |decisions|
      invariant deferred == held + DecisionDeferrals(decisions, sources)[..i]
    {
      deferred := deferred + [DecisionDeferral(decisions[i], Resolved(decisions[i], sources))];
    }
    ghost var decided := deferred;
    for i := 0 to |unaccounted|
      invariant deferred == decided + UnaccountedDeferrals(unaccounted, sources)[..i]
    {
      deferred := deferred + [UnaccountedDeferral(unaccounted[i], sources[unaccounted[i]])];
    }
  }

  lemma {:induction false} PresentMeans(response: Response, passA: seq<Candidate>, passB: seq<Candidate>)
    ensures AllPresent(passA + passB) <==>
      && (forall i :: 0 <= i < |passA| ==> passA[i].id != "") && (forall i :: 0 <= i < |passB| ==> passB[i].id != "")
    ensures AllPresent(response.accepted) <==>
      forall i :: 0 <= i < |response.accepted| ==> response.accepted[i].id != ""
    ensures Present(DecisionIds(response.rejected)) <==>
      forall i :: 0 <= i < |response.rejected| ==> response.rejected[i].candidateId != ""
  {
    var all := passA + passB;
    if AllPresent(all) {
      forall i | 0 <= i < |passA|
        ensures passA[i].id != ""
      {
        assert all[i] == passA[i];
      }
      forall i | 0 <= i < |passB|
        ensures passB[i].id != ""
      {
        assert all[|passA| + i] == passB[i];
      }
    }
    assert forall i :: 0 <= i < |response.rejected| ==>
      DecisionIds(response.rejected)[i] == response.rejected[i].candidateId;
  }

  lemma {:induction false} IdsWerePresent(response: Response, passA: seq<Candidate>, passB: seq<Candidate>)
    ensures Reconciles(response, passA, passB) ==> AllPresent(passA + passB)
  {
    if Reconciles(response, passA, passB) {
      forall i | 0 <= i < |passA + passB|
        ensures (passA + passB)[i].id != ""
      {
        if i < |passA| {
          assert CandidateIds(passA)[i] != "";
        } else {
          assert CandidateIds(passB)[i - |passA|] != "";
        }
      }
    }
  }

  /** The loop over accepted candidates: rules and deferrals. */
  method SortAccepted(accepted: seq<Candidate>, merges: seq<Merge>, quality: Candidate -> seq<string>)
    returns (rules: seq<Rule>, deferred: seq<Deferral>)
    requires Covered(accepted, merges)
    ensures rules == Rules(accepted, merges, quality) && deferred == AcceptedDeferrals(accepted, merges, quality)
  {
    rules, deferred := [], [];
    var byTarget: map<string, Merge> := map[];
    for k := 0 to |merges|
      invariant forall id :: MergeFor(merges[..k], id) == if id in byTarget then Some(byTarget[id]) else None
    {
      assert merges[..k + 1][..k] == merges[..k];
      byTarget := byTarget[merges[k].target := merges[k]];
    }
    assert merges[..|merges|] == merges;
    for i := 0 to |accepted|
      invariant rules == Rules(accepted[..i], merges, quality)
        && deferred == AcceptedDeferrals(accepted[..i], merges, quality)
    {
      var candidate := accepted[i];
      assert accepted[..i + 1][..i] == accepted[..i];
      assert MergeFor(merges, candidate.id).Some?;
      var merge := byTarget[candidate.id];
      if candidate.uncertainty == Some([]) && quality(candidate) == [] {
        rules := rules + [Rule(candidate, merge)];
      } else {
        deferred := deferred + [DeferralOf(candidate, merge, quality)];
      }
    }
    assert accepted[..|accepted|] == accepted;
  }

  // ----- What a published bundle guarantees -----

  function RuleCandidates(rules: seq<Rule>): (r: seq<Candidate>)
    ensures |r| == |rules|
  {
    seq(|rules|, i requires 0 <= i < |rules| => rules[i].candidate)
  }

  function DeferredCandidates(deferred: seq<Deferral>): seq<Candidate> {
    if deferred == [] then []
    else
      var last := deferred[|deferred| - 1];
      DeferredCandidates(deferred[..|deferred| - 1]) + if last.AcceptedDeferral? then [last.candidate] else []
  }

  lemma {:induction false} DeferredCandidatesConcat(a: seq<Deferral>, b: seq<Deferral>)
    ensures DeferredCandidates(a + b) == DeferredCandidates(a) + DeferredCandidates(b)
    decreases |b|
  {
    if b == [] {
      assert a + b == a;
    } else {
      assert (a + b)[..|a + b| - 1] == a + b[..|b| - 1];
      DeferredCandidatesConcat(a, b[..|b| - 1]);
    }
  }

  lemma {:induction false} NoAcceptedDeferrals(deferred: seq<Deferral>)
    requires forall i :: 0 <= i < |deferred| ==> !deferred[i].AcceptedDeferral?
    ensures DeferredCandidates(deferred) == []
  {
    if deferred != [] {
      NoAcceptedDeferrals(deferred[..|deferred| - 1]);
    }
  }

  lemma {:induction false} RuleCandidatesConcat(a: seq<Rule>, b: seq<Rule>)
    ensures RuleCandidates(a + b) == RuleCandidates(a) + RuleCandidates(b)
  {
  }

  lemma {:induction false} PartCandidates(candidate: Candidate, merge: Merge, quality: Candidate -> seq<string>)
    ensures RuleCandidates(RulePart(candidate, merge, quality)) == if Clean(candidate, quality) then [candidate] else []
    ensures DeferredCandidates(HeldPart(candidate, merge, quality)) == if Clean(candidate, quality) then []
      else [candidate]
  {
    assert DeferredCandidates([]) == [];
    assert [DeferralOf(candidate, merge, quality)][..0] == [];
  }

  /** The accepted candidates are dealt out to rules and deferrals. */
  lemma {:induction false} AcceptedDealt(accepted: seq<Candidate>, merges: seq<Merge>,
                                         quality: Candidate -> seq<string>)
    requires Covered(accepted, merges)
    ensures multiset(RuleCandidates(Rules(accepted, merges, quality)))
            + multiset(DeferredCandidates(AcceptedDeferrals(accepted, merges, quality))) == multiset(accepted)
  {
    hide Clean, IsSubsequence, MergeFor, RuleCandidates, DeferredCandidates, RulePart, HeldPart;
    if accepted == [] {
      NothingDealt();
    } else {
      var front, last := accepted[..|accepted| - 1], accepted[|accepted| - 1];
      assert accepted == front + [last];
      AcceptedDealt(front, merges, quality);
      var rules, held := Rules(front, merges, quality), AcceptedDeferrals(front, merges, quality);
      var merge := MergeFor(merges, last.id).value;
      RuleCandidatesConcat(rules, RulePart(last, merge, quality));
      DeferredCandidatesConcat(held, HeldPart(last, merge, quality));
      PartCandidates(last, merge, quality);
      DealOne(RuleCandidates(rules), DeferredCandidates(held), front, last, Clean(last, quality));
    }
  }

  lemma {:induction false} RulesKeepOrder(accepted: seq<Candidate>, merges: seq<Merge>,
                                          quality: Candidate -> seq<string>)
    requires Covered(accepted, merges)
    ensures IsSubsequence(RuleCandidates(Rules(accepted, merges, quality)), accepted)
  {
    hide Clean, IsSubsequence, MergeFor, RuleCandidates, RulePart;
    if accepted == [] {
      NothingDealt();
    } else {
      var front, last := accepted[..|accepted| - 1], accepted[|accepted| - 1];
      assert accepted == front + [last];
      RulesKeepOrder(front, merges, quality);
      var rules, merge := Rules(front, merges, quality), MergeFor(merges, last.id).value;
      RuleCandidatesConcat(rules, RulePart(last, merge, quality));
      PartCandidates(last, merge, quality);
      if Clean(last, quality) {
        SubsequenceAppend(RuleCandidates(rules), front, [last]);
      } else {
        SubsequenceExtend(RuleCandidates(rules), front, [last]);
        assert RuleCandidates(rules) + [] == RuleCandidates(rules);
      }
    }
  }

  lemma {:induction false} NothingDealt()
    ensures RuleCandidates([]) == [] && DeferredCandidates([]) == [] && IsSubsequence<Candidate>([], [])
  {
  }

  lemma {:induction false} DealOne(a: seq<Candidate>, b: seq<Candidate>, all: seq<Candidate>, last: Candidate,
                                   left: bool)
    requires multiset(a) + multiset(b) == multiset(all)
    ensures multiset(a + (if left then [last] else [])) + multiset(b + (if left then [] else [last]))
      == multiset(all + [last])
  {
  }

  lemma {:induction false} RulesAreClean(accepted: seq<Candidate>, merges: seq<Merge>,
                                         quality: Candidate -> seq<string>)
    requires Covered(accepted, merges)
    ensures forall r :: r in Rules(accepted, merges, quality) ==>
      Clean(r.candidate, quality) && MergeFor(merges, r.candidate.id) == Some(r.decision)
  {
    hide Clean, MergeFor;
    if accepted != [] {
      RulesAreClean(accepted[..|accepted| - 1], merges, quality);
    }
  }

  lemma {:induction false} HeldAreNot(accepted: seq<Candidate>, merges: seq<Merge>, quality: Candidate -> seq<string>)
    requires Covered(accepted, merges)
    ensures forall d :: d in AcceptedDeferrals(accepted, merges, quality) ==>
      d.AcceptedDeferral? && !Clean(d.candidate, quality) && MergeFor(merges, d.candidate.id) == Some(d.decision)
  {
    hide Clean, MergeFor;
    if accepted != [] {
      HeldAreNot(accepted[..|accepted| - 1], merges, quality);
    }
  }

  /** Each accepted candidate lands in exactly one of rules and deferred, and no uncertain or
      low-quality candidate is in rules. */
  lemma {:induction false} AcceptedLandOnce(response: Response, passA: seq<Candidate>, passB: seq<Candidate>,
                                            quality: Candidate -> seq<string>)
    requires Reconciles(response, passA, passB) && DecisionsResolve(response, passA, passB)
    ensures var bundle := Published(response, passA, passB, quality);
      && multiset(RuleCandidates(bundle.rules)) + multiset(DeferredCandidates(bundle.deferred))
        == multiset(response.accepted)
      && (forall r :: r in bundle.rules ==> Clean(r.candidate, quality) && r.candidate.id in Sources(passA, passB))
      && (forall d :: d in bundle.deferred && d.AcceptedDeferral? ==> !Clean(d.candidate, quality))
      && IsSubsequence(RuleCandidates(bundle.rules), response.accepted)
  {
    MergesAreFound(response, passA, passB);
    UnaccountedAreFound(response, passA, passB);
    var sources, unaccounted := SourceMap(passA + passB), Unaccounted(response, passA, passB);
    var held, decided, rest := AcceptedDeferrals(response.accepted, response.merged, quality),
      DecisionDeferrals(response.deferred, sources), UnaccountedDeferrals(unaccounted, sources);
    NoAcceptedDeferrals(decided);
    NoAcceptedDeferrals(rest);
    AcceptedAreSources(response, passA, passB);
    hide Unaccounted, IsSubsequence, Clean, MergeFor, Reconciles, DecisionDeferrals, UnaccountedDeferrals,
    AcceptedDeferrals,
      Rules, RuleCandidates, DeferredCandidates, SourceMap, Sources, DecisionsResolve, Rejections, AllResolvable,
        Covered;
    AcceptedDealt(response.accepted, response.merged, quality);
    RulesKeepOrder(response.accepted, response.merged, quality);
    RulesAreClean(response.accepted, response.merged, quality);
    HeldAreNot(response.accepted, response.merged, quality);
    DeferredCandidatesConcat(held + decided, rest);
    DeferredCandidatesConcat(held, decided);
    RulesFromAccepted(response.accepted, response.merged, quality);
  }

  lemma {:induction false} RulesFromAccepted(accepted: seq<Candidate>, merges: seq<Merge>,
                                             quality: Candidate -> seq<string>)
    requires Covered(accepted, merges)
    ensures forall r :: r in Rules(accepted, merges, quality) ==> r.candidate in accepted
  {
    hide Covered, Rules, RuleCandidates, DeferredCandidates, AcceptedDeferrals, IsSubsequence;
    AcceptedDealt(accepted, merges, quality);
    var rules := Rules(accepted, merges, quality);
    forall r | r in rules
      ensures r.candidate in accepted
    {
      RuleCandidateIn(rules, r);
      assert r.candidate in multiset(accepted);
    }
  }

  lemma {:induction false} RuleCandidateIn(rules: seq<Rule>, r: Rule)
    requires r in rules
    ensures r.candidate in multiset(RuleCandidates(rules))
  {
    var k :| 0 <= k < |rules| && rules[k] == r;
    assert RuleCandidates(rules)[k] == r.candidate;
  }

  lemma {:induction false} AcceptedAreSources(response: Response, passA: seq<Candidate>, passB: seq<Candidate>)
    requires Reconciles(response, passA, passB)
    ensures forall c :: c in response.accepted ==> c.id in Sources(passA, passB)
  {
    hide NoRepeats, Identifies, MergeOk, MergedIds, Sources;
    forall c | c in response.accepted
      ensures c.id in Sources(passA, passB)
    {
      var i :| 0 <= i < |response.accepted| && response.accepted[i] == c;
      assert CandidateIds(response.accepted)[i] == c.id;
      assert c.id in Members(CandidateIds(response.accepted));
    }
  }

  predicate DeferralMentions(deferral: Deferral, id: string) {
    match deferral
    case AcceptedDeferral(_, _, decision, _, _) => id in SourcesOf(decision)
    case DecisionDeferral(decision, _) => decision.candidateId == id
    case UnaccountedDeferral(unaccounted, _) => unaccounted == id
    case FailedDeferral(sources) => exists i :: 0 <= i < |sources| && sources[i].id == id
  }

  /** Some output names the source candidate. */
  predicate Mentions(bundle: Bundle, id: string) {
    || (exists i :: 0 <= i < |bundle.rules| && id in SourcesOf(bundle.rules[i].decision))
    || (exists i :: 0 <= i < |bundle.rejected| && bundle.rejected[i].decision.candidateId == id)
    || (exists i :: 0 <= i < |bundle.deferred| && DeferralMentions(bundle.deferred[i], id))
  }

  lemma {:induction false} MergedFrom(merges: seq<Merge>, id: string)
    requires id in MergedIds(merges)
    ensures exists k :: 0 <= k < |merges| && id in SourcesOf(merges[k])
  {
    var front, last := merges[..|merges| - 1], |merges| - 1;
    if id in MergedIds(front) {
      MergedFrom(front, id);
      var k :| 0 <= k < |front| && id in SourcesOf(front[k]);
      assert merges[k] == front[k];
    } else {
      assert id in SourcesOf(merges[last]);
    }
  }

  lemma {:induction false} AcceptedShown(accepted: seq<Candidate>, merges: seq<Merge>,
                                         quality: Candidate -> seq<string>, i: nat)
    requires Covered(accepted, merges) && i < |accepted|
    ensures var c, merge := accepted[i], MergeFor(merges, accepted[i].id).value;
      if Clean(c, quality) then Rule(c, merge) in Rules(accepted, merges, quality)
      else DeferralOf(c, merge, quality) in AcceptedDeferrals(accepted, merges, quality)
  {
    hide Clean, MergeFor;
    if i < |accepted| - 1 {
      AcceptedShown(accepted[..|accepted| - 1], merges, quality, i);
    }
  }

  lemma {:induction false} MentionedByDeferral(bundle: Bundle, deferral: Deferral, id: string)
    requires deferral in bundle.deferred && DeferralMentions(deferral, id)
    ensures Mentions(bundle, id)
  {
    hide DeferralMentions;
    var d :| 0 <= d < |bundle.deferred| && bundle.deferred[d] == deferral;
  }

  lemma {:induction false} MentionedByRule(bundle: Bundle, rule: Rule, id: string)
    requires rule in bundle.rules && id in SourcesOf(rule.decision)
    ensures Mentions(bundle, id)
  {
    hide SourcesOf, DeferralMentions;
    var r :| 0 <= r < |bundle.rules| && bundle.rules[r] == rule;
  }

  lemma {:induction false} MentionedByRejection(bundle: Bundle, rejection: Rejection)
    requires rejection in bundle.rejected
    ensures Mentions(bundle, rejection.decision.candidateId)
  {
    hide SourcesOf, DeferralMentions;
    var r :| 0 <= r < |bundle.rejected| && bundle.rejected[r] == rejection;
  }

  lemma {:induction false} MergedIsMentioned(response: Response, passA: seq<Candidate>, passB: seq<Candidate>,
                                             quality: Candidate -> seq<string>, id: string)
    requires Reconciles(response, passA, passB) && DecisionsResolve(response, passA, passB)
    requires id in MergedIds(response.merged)
    ensures Mentions(Published(response, passA, passB, quality), id)
  {
    hide Reconciles, Clean, MergeFor, DecisionsResolve, Mentions, Rules, AcceptedDeferrals, Unaccounted, SourcesOf;
    MergesAreFound(response, passA, passB);
    MergedFrom(response.merged, id);
    var k :| 0 <= k < |response.merged| && id in SourcesOf(response.merged[k]);
    var i := TargetOf(response, passA, passB, k);
    AcceptedShown(response.accepted, response.merged, quality, i);
    var bundle := Published(response, passA, passB, quality);
    var c, merge := response.accepted[i], response.merged[k];
    PublishedParts(response, passA, passB, quality);
    hide Published;
    if Clean(c, quality) {
      MentionedByRule(bundle, Rule(c, merge), id);
    } else {
      MentionedByDeferral(bundle, DeferralOf(c, merge, quality), id);
    }
  }

  /** Everything the parts hold is in the bundle. */
  lemma {:induction false} PublishedParts(response: Response, passA: seq<Candidate>, passB: seq<Candidate>,
                                          quality: Candidate -> seq<string>)
    requires Reconciles(response, passA, passB) && DecisionsResolve(response, passA, passB)
    ensures Covered(response.accepted, response.merged)
    ensures var bundle := Published(response, passA, passB, quality);
      && bundle.rules == Rules(response.accepted, response.merged, quality)
      && (forall d :: d in AcceptedDeferrals(response.accepted, response.merged, quality) ==> d in bundle.deferred)
      && (forall d :: d in DecisionDeferrals(response.deferred, SourceMap(passA + passB)) ==> d in bundle.deferred)
    ensures forall k :: 0 <= k < |Unaccounted(response, passA, passB)| ==>
      var id := Unaccounted(response, passA, passB)[k];
      && id in SourceMap(passA + passB)
      && UnaccountedDeferral(id, SourceMap(passA + passB)[id]) in Published(response, passA, passB, quality).deferred
  {
    hide Reconciles, Rules, AcceptedDeferrals, Unaccounted, SourceMap, Covered, AllResolvable, Rejections;
    MergesAreFound(response, passA, passB);
    UnaccountedAreFound(response, passA, passB);
    var unaccounted, sources := Unaccounted(response, passA, passB), SourceMap(passA + passB);
    forall k | 0 <= k < |unaccounted|
      ensures UnaccountedDeferral(unaccounted[k],
                                  sources[unaccounted[k]]) in Published(response, passA, passB, quality).deferred
    {
      assert UnaccountedDeferrals(unaccounted, sources)[k] in UnaccountedDeferrals(unaccounted, sources);
    }
  }

  /** The accepted candidate a merge targets looks up that very merge. */
  lemma {:induction false} TargetOf(response: Response, passA: seq<Candidate>, passB: seq<Candidate>,
                                    k: nat) returns (i: nat)
    requires Reconciles(response, passA, passB) && k < |response.merged|
    ensures i < |response.accepted| && MergeFor(response.merged, response.accepted[i].id) == Some(response.merged[k])
  {
    var targets, accepted := Targets(response.merged), CandidateIds(response.accepted);
    assert targets[k] in Members(targets);
    i :| 0 <= i < |accepted| && accepted[i] == targets[k];
    MergeForFound(response.merged, k);
    var m := MergeForValue(response.merged, response.accepted[i].id);
    assert targets[m] == targets[k];
  }

  /** Nothing is dropped: every candidate of either blind pass is named in some output. */
  lemma {:induction false} EverySourceIsMentioned(response: Response, passA: seq<Candidate>, passB: seq<Candidate>,
                                                  quality: Candidate -> seq<string>, id: string)
    requires Reconciles(response, passA, passB) && DecisionsResolve(response, passA, passB)
    requires id in Sources(passA, passB)
    ensures Mentions(Published(response, passA, passB, quality), id)
  {
    hide Reconciles, Published, Mentions, MergedIds;
    if id in MergedIds(response.merged) {
      MergedIsMentioned(response, passA, passB, quality, id);
    } else if id in DecisionIds(response.rejected) {
      RejectedIsMentioned(response, passA, passB, quality, id);
    } else {
      DeferredIsMentioned(response, passA, passB, quality, id);
    }
  }

  lemma {:induction false} RejectedIsMentioned(response: Response, passA: seq<Candidate>, passB: seq<Candidate>,
                                               quality: Candidate -> seq<string>, id: string)
    requires Reconciles(response, passA, passB) && DecisionsResolve(response, passA, passB)
    requires id in DecisionIds(response.rejected)
    ensures Mentions(Published(response, passA, passB, quality), id)
  {
    hide Reconciles, SourceMap, Resolved, Unaccounted, Clean, MergeFor, Mentions;
    var k :| 0 <= k < |response.rejected| && response.rejected[k].candidateId == id;
    MentionedByRejection(Published(response, passA, passB, quality),
                         Published(response, passA, passB, quality).rejected[k]);
  }

  lemma {:induction false} DeferredIsMentioned(response: Response, passA: seq<Candidate>, passB: seq<Candidate>,
                                               quality: Candidate -> seq<string>, id: string)
    requires Reconciles(response, passA, passB) && DecisionsResolve(response, passA, passB)
    requires id in DecisionIds(response.deferred) || id in Unaccounted(response, passA, passB)
    ensures Mentions(Published(response, passA, passB, quality), id)
  {
    hide Reconciles, SourceMap, Resolved, Clean, MergeFor, Unaccounted, AcceptedDeferrals, Published, Mentions;
    var bundle, sources := Published(response, passA, passB, quality), SourceMap(passA + passB);
    PublishedParts(response, passA, passB, quality);
    if id in DecisionIds(response.deferred) {
      var decided := DecisionDeferrals(response.deferred, sources);
      var k :| 0 <= k < |response.deferred| && response.deferred[k].candidateId == id;
      assert decided[k] in decided;
      MentionedByDeferral(bundle, decided[k], id);
    } else {
      var k :| 0 <= k < |Unaccounted(response, passA, passB)| && Unaccounted(response, passA, passB)[k] == id;
      MentionedByDeferral(bundle, UnaccountedDeferral(id, sources[id]), id);
    }
  }

  /** Nor when reconciliation fails: the whole bundle is deferred. */
  lemma {:induction false} FailedBundleMentionsAll(passA: seq<Candidate>, passB: seq<Candidate>)
    ensures forall id :: id in Sources(passA, passB) ==> Mentions(FailedBundle(passA, passB), id)
  {
    var bundle := FailedBundle(passA, passB);
    forall id | id in Sources(passA, passB)
      ensures Mentions(bundle, id)
    {
      SourceIsMapped(passA, passB, id);
      assert DeferralMentions(bundle.deferred[0], id);
    }
  }

  /** A response can reconcile and still not publish: its one rejection is of a known candidate,
      but lists a source nobody proposed. */
  lemma {:induction false} ReconciledButUnpublishable(a: string, b: string)
    requires a != "" && b != a
    ensures var passA := [Candidate(a, Some([]), "")];
      var response := Response([], [], [Decision(a, Listed([a, b]))], []);
      Reconciles(response, passA, []) && !DecisionsResolve(response, passA, [])
  {
    var passA: seq<Candidate> := [Candidate(a, Some([]), "")];
    var decision := Decision(a, Listed([a, b]));
    var response := Response([], [], [decision], []);
    assert CandidateIds(passA) == [a] && CandidateIds([]) == [];
    assert DecisionIds(response.rejected) == [a] && DecisionIds([]) == [];
    assert Classified(response) == [a];
    assert a in Members(CandidateIds(passA));
    assert passA + [] == passA;
    var sources := SourceMap(passA + []);
    assert b !in sources;
    assert LookupIds(decision).Some? ==> LookupIds(decision).value[1] == b;
    assert response.rejected[0] == decision;
  }
}
