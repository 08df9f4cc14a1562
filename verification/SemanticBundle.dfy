/** What a published bundle says, entry by entry, in terms of the validator's response and the blind
    passes alone. */
module SemanticBundle {
  import opened Wrappers
  import opened Sorting
  import opened SemanticReconcile
  import opened SemanticPublish

  /** The IDs whose records a decision is published with: those it lists, or its own. */
  predicate Cites(decision: Decision, ids: seq<string>) {
    match decision.sources
    case Unlisted => |ids| == 1 && ids[0] == decision.candidateId
    case Listed(listed) => |ids| == |listed| && forall i :: 0 <= i < |ids| ==> ids[i] == listed[i]
    case MalformedIds => false
  }

  /** The records are those of blind-pass candidates, one per cited ID, in the order cited. */
  ghost predicate CarriesSources(decision: Decision, sources: seq<Candidate>, candidates: seq<Candidate>) {
    exists ids :: Cites(decision, ids) && |sources| == |ids|
      && forall i :: 0 <= i < |ids| ==> sources[i].id == ids[i] && sources[i] in candidates
  }

  lemma {:induction false} ResolvedCarries(decision: Decision, candidates: seq<Candidate>)
    requires Resolvable(decision, SourceMap(candidates))
    ensures CarriesSources(decision, Resolved(decision, SourceMap(candidates)), candidates)
  {
    hide SourceMap;
    assert Cites(decision, LookupIds(decision).value);
  }

  /** The decisions resolve exactly when each cites usable IDs of blind-pass candidates only. */
  lemma {:induction false} ResolvableIff(decision: Decision, passA: seq<Candidate>, passB: seq<Candidate>)
    ensures Resolvable(decision, SourceMap(passA + passB)) <==>
      exists ids :: Cites(decision, ids) && forall i :: 0 <= i < |ids| ==>
        ids[i] != "" && ids[i] in Sources(passA, passB)
  {
    hide SourceMap, Sources;
    var sources := SourceMap(passA + passB);
    forall id {
      SourceIsMapped(passA, passB, id);
    }
    if Resolvable(decision, sources) {
      var ids := LookupIds(decision).value;
      assert Cites(decision, ids);
    }
    if ids :| Cites(decision, ids) && (forall i :: 0 <= i < |ids| ==> ids[i] != "" && ids[i] in Sources(passA, passB)) {
      assert decision.sources.Listed? ==> ids == decision.sources.ids;
      assert decision.sources.Unlisted? ==> ids == [decision.candidateId];
      assert Present(ids);
    }
  }

  // ----- Rejected decisions -----

  /** Rejection by rejection: the decision, and the record of every source it cites. */
  lemma {:induction false} RejectionsCarryTheirSources(response: Response, passA: seq<Candidate>,
                                                       passB: seq<Candidate>, quality: Candidate -> seq<string>)
    requires Reconciles(response, passA, passB) && DecisionsResolve(response, passA, passB)
    ensures var rejected := Published(response, passA, passB, quality).rejected;
      && |rejected| == |response.rejected|
      && forall k :: 0 <= k < |rejected| ==>
           && rejected[k].decision == response.rejected[k]
           && CarriesSources(response.rejected[k], rejected[k].sources, passA + passB)
  {
    hide Reconciles, SourceMap, Resolvable, Resolved, Rules, AcceptedDeferrals, Unaccounted, Covered, CarriesSources;
    forall k | 0 <= k < |response.rejected| {
      ResolvedCarries(response.rejected[k], passA + passB);
    }
  }

  // ----- Deferred decisions, in order -----

  /** The deferred output: the accepted candidates held back, then the deferred decisions with their
      sources, then the candidates nobody decided on. */
  lemma {:induction false} DeferralsCarryTheirSources(response: Response, passA: seq<Candidate>,
                                                      passB: seq<Candidate>, quality: Candidate -> seq<string>)
    returns (held: nat)
    requires Reconciles(response, passA, passB) && DecisionsResolve(response, passA, passB)
    ensures var deferred, n := Published(response, passA, passB, quality).deferred, |response.deferred|;
      && held + n <= |deferred|
      && (forall k :: 0 <= k < held ==> deferred[k].AcceptedDeferral?)
      && (forall k :: 0 <= k < n ==>
            && deferred[held + k].DecisionDeferral?
            && deferred[held + k].deferred == response.deferred[k]
            && CarriesSources(response.deferred[k], deferred[held + k].sources, passA + passB))
      && (forall k :: held + n <= k < |deferred| ==>
            && deferred[k].UnaccountedDeferral? && deferred[k].source.id == deferred[k].id
            && deferred[k].source in passA + passB && deferred[k].id !in Classified(response))
  {
    hide Reconciles, SourceMap, Resolvable, Resolved, Rules, Unaccounted, CarriesSources, AcceptedDeferrals, Rejections,
      Classified, Sources;
    MergesAreFound(response, passA, passB);
    UnaccountedAreFound(response, passA, passB);
    var accepted := AcceptedDeferrals(response.accepted, response.merged, quality);
    held := |accepted|;
    HeldAreAccepted(response.accepted, response.merged, quality);
    forall k | 0 <= k < |response.deferred| {
      ResolvedCarries(response.deferred[k], passA + passB);
    }
    var unaccounted, n := Unaccounted(response, passA, passB), |response.deferred|;
    var deferred := Published(response, passA, passB, quality).deferred;
    forall k | held + n <= k < |deferred|
      ensures deferred[k].UnaccountedDeferral? && deferred[k].source.id == deferred[k].id
      ensures deferred[k].source in passA + passB && deferred[k].id !in Classified(response)
    {
      assert unaccounted[k - held - n] in unaccounted;
    }
  }

  lemma {:induction false} HeldAreAccepted(accepted: seq<Candidate>, merges: seq<Merge>,
                                           quality: Candidate -> seq<string>)
    requires Covered(accepted, merges)
    ensures forall k :: 0 <= k < |AcceptedDeferrals(accepted, merges, quality)| ==>
      AcceptedDeferrals(accepted, merges, quality)[k].AcceptedDeferral?
  {
    hide Covered, AcceptedDeferrals;
    HeldAreNot(accepted, merges, quality);
    forall k | 0 <= k < |AcceptedDeferrals(accepted, merges, quality)|
      ensures AcceptedDeferrals(accepted, merges, quality)[k].AcceptedDeferral?
    {
      assert AcceptedDeferrals(accepted, merges, quality)[k] in AcceptedDeferrals(accepted, merges, quality);
    }
  }

  // ----- Accepted candidates -----

  /** A rule is a candidate without uncertainty or objection, published with the one merge that
      targets it. */
  lemma {:induction false} RulesSayWhy(response: Response, passA: seq<Candidate>, passB: seq<Candidate>,
                                       quality: Candidate -> seq<string>, r: Rule)
    requires Reconciles(response, passA, passB) && DecisionsResolve(response, passA, passB)
    ensures r in Published(response, passA, passB, quality).rules <==>
      && r.candidate in response.accepted && r.candidate.uncertainty == Some([]) && quality(r.candidate) == []
      && r.decision in response.merged && r.decision.target == r.candidate.id
  {
    hide Reconciles, DecisionsResolve, Rules, MergeFor, Published;
    PublishedParts(response, passA, passB, quality);
    var rules := Published(response, passA, passB, quality).rules;
    if r in rules {
      RulesAreClean(response.accepted, response.merged, quality);
      RulesFromAccepted(response.accepted, response.merged, quality);
      var k := MergeForValue(response.merged, r.candidate.id);
    }
    if && r.candidate in response.accepted && Clean(r.candidate, quality)
       && r.decision in response.merged && r.decision.target == r.candidate.id
    {
      var i :| 0 <= i < |response.accepted| && response.accepted[i] == r.candidate;
      AcceptedShown(response.accepted, response.merged, quality, i);
      OneMerge(response, passA, passB, r.candidate, r.decision);
    }
  }

  /** The merge looked up for a candidate is the only one that targets it. */
  lemma {:induction false} OneMerge(response: Response, passA: seq<Candidate>, passB: seq<Candidate>,
                                    candidate: Candidate, merge: Merge)
    requires Reconciles(response, passA, passB) && candidate in response.accepted
    requires merge in response.merged && merge.target == candidate.id
    ensures MergeFor(response.merged, candidate.id) == Some(merge)
  {
    var k :| 0 <= k < |response.merged| && response.merged[k] == merge;
    MergeForFound(response.merged, k);
    var m := MergeForValue(response.merged, candidate.id);
    assert Targets(response.merged)[k] == Targets(response.merged)[m];
  }

  /** Every other accepted candidate is deferred, with the reason that applies, its uncertainty codes
      and its objections. */
  lemma {:induction false} HeldCandidatesSayWhy(response: Response, passA: seq<Candidate>, passB: seq<Candidate>,
                                                quality: Candidate -> seq<string>, d: Deferral)
    requires Reconciles(response, passA, passB) && DecisionsResolve(response, passA, passB) && d.AcceptedDeferral?
    ensures d in Published(response, passA, passB, quality).deferred <==>
      && d.candidate in response.accepted
      && (d.candidate.uncertainty != Some([]) || quality(d.candidate) != [])
      && d.decision in response.merged && d.decision.target == d.candidate.id
      && d.reason == (if quality(d.candidate) == [] then HasUncertainty else FailedQualityGate)
      && d.codes == (match d.candidate.uncertainty case Some(codes) => codes
                                                   case None => ["INVALID_UNCERTAINTY_METADATA"])
      && d.quality == quality(d.candidate)
  {
    hide Reconciles, DecisionsResolve, AcceptedDeferrals, MergeFor, Published;
    PublishedParts(response, passA, passB, quality);
    var deferred := Published(response, passA, passB, quality).deferred;
    if d in deferred {
      HeldFrom(response, passA, passB, quality, d);
    }
    if && d.candidate in response.accepted && !Clean(d.candidate, quality)
       && d.decision in response.merged && d.decision.target == d.candidate.id
       && d == DeferralOf(d.candidate, d.decision, quality)
    {
      var i :| 0 <= i < |response.accepted| && response.accepted[i] == d.candidate;
      AcceptedShown(response.accepted, response.merged, quality, i);
      OneMerge(response, passA, passB, d.candidate, d.decision);
    }
  }

  lemma {:induction false} HeldFrom(response: Response, passA: seq<Candidate>, passB: seq<Candidate>,
                                    quality: Candidate -> seq<string>, d: Deferral)
    requires Reconciles(response, passA, passB) && DecisionsResolve(response, passA, passB) && d.AcceptedDeferral?
    requires d in Published(response, passA, passB, quality).deferred
    ensures d.candidate in response.accepted && !Clean(d.candidate, quality)
    ensures d.decision in response.merged && d.decision.target == d.candidate.id
    ensures d == DeferralOf(d.candidate, d.decision, quality)
  {
    hide Reconciles, AcceptedDeferrals, MergeFor, Resolved, SourceMap, Unaccounted, Rules, Rejections;
    MergesAreFound(response, passA, passB);
    UnaccountedAreFound(response, passA, passB);
    var accepted := AcceptedDeferrals(response.accepted, response.merged, quality);
    assert d in accepted;
    HeldAreDeferralOf(response.accepted, response.merged, quality);
    var k := MergeForValue(response.merged, d.candidate.id);
  }

  lemma {:induction false} HeldAreDeferralOf(accepted: seq<Candidate>, merges: seq<Merge>,
                                             quality: Candidate -> seq<string>)
    requires Covered(accepted, merges)
    ensures forall d :: d in AcceptedDeferrals(accepted, merges, quality) ==>
      && d.AcceptedDeferral? && d.candidate in accepted && !Clean(d.candidate, quality)
      && MergeFor(merges, d.candidate.id) == Some(d.decision)
      && d == DeferralOf(d.candidate, d.decision, quality)
  {
    hide Clean, MergeFor;
    if accepted != [] {
      HeldAreDeferralOf(accepted[..|accepted| - 1], merges, quality);
    }
  }

  /** The counts of the bundle's reference. */
  lemma {:induction false} CountsAreExact(response: Response, passA: seq<Candidate>, passB: seq<Candidate>,
                                          quality: Candidate -> seq<string>)
    requires Reconciles(response, passA, passB) && DecisionsResolve(response, passA, passB)
    ensures var bundle := Published(response, passA, passB, quality);
      && bundle.accepted == |response.accepted| && bundle.rejectedCount == |response.rejected|
      && bundle.deferredCount == |response.deferred|
      && bundle.unaccounted == |Sources(passA, passB) - Members(Classified(response))|
  {
    hide Reconciles, Rules, AcceptedDeferrals, Unaccounted, SourceMap, Rejections, DecisionDeferrals, Members;
    UnaccountedMembers(response, passA, passB);
    UnaccountedNoRepeats(response, passA, passB);
    CountMembers(Unaccounted(response, passA, passB));
  }

  // ----- What reconciles -----

  /** Usable IDs, each once. */
  predicate UniqueIds(candidates: seq<Candidate>) {
    && (forall i :: 0 <= i < |candidates| ==> candidates[i].id != "")
    && (forall i, j :: 0 <= i < j < |candidates| ==> candidates[i].id != candidates[j].id)
  }

  predicate UniqueDecisions(decisions: seq<Decision>) {
    && (forall i :: 0 <= i < |decisions| ==> decisions[i].candidateId != "")
    && (forall i, j :: 0 <= i < j < |decisions| ==> decisions[i].candidateId != decisions[j].candidateId)
  }

  /** Merges with IDs and targets of their own, each of at least one source. */
  predicate UniqueMerges(merges: seq<Merge>) {
    && (forall k :: 0 <= k < |merges| ==>
          && merges[k].mergeId != "" && merges[k].target != "" && merges[k].sources.Some?
          && |merges[k].sources.value| > 0 && "" !in merges[k].sources.value)
    && (forall k, m :: 0 <= k < m < |merges| ==>
          merges[k].mergeId != merges[m].mergeId && merges[k].target != merges[m].target)
  }

  /** No source candidate is merged twice. */
  predicate MergedOnce(merges: seq<Merge>) {
    && (forall k, i, j :: 0 <= k < |merges| && merges[k].sources.Some? && 0 <= i < j < |merges[k].sources.value| ==>
          merges[k].sources.value[i] != merges[k].sources.value[j])
    && (forall k, m, id ::
          (&& 0 <= k < m < |merges| && merges[k].sources.Some? && merges[m].sources.Some?
           && id in merges[k].sources.value) ==> id !in merges[m].sources.value)
  }

  /** Some merge has this source. */
  predicate IsMerged(merges: seq<Merge>, id: string) {
    exists k :: 0 <= k < |merges| && merges[k].sources.Some? && id in merges[k].sources.value
  }

  predicate IsDecided(decisions: seq<Decision>, id: string) {
    exists k :: 0 <= k < |decisions| && decisions[k].candidateId == id
  }

  predicate HasId(candidates: seq<Candidate>, id: string) {
    exists k :: 0 <= k < |candidates| && candidates[k].id == id
  }

  /** Merged, rejected and deferred exclude each other. */
  ghost predicate DecidedOnce(response: Response) {
    && (forall id :: IsMerged(response.merged, id) ==>
          !IsDecided(response.rejected, id) && !IsDecided(response.deferred, id))
    && (forall id :: IsDecided(response.rejected, id) ==> !IsDecided(response.deferred, id))
  }

  /** Whoever is accepted or decided on is a source candidate, and accepted are the merge targets. */
  ghost predicate AboutSources(response: Response, passA: seq<Candidate>, passB: seq<Candidate>) {
    && (forall id :: HasId(response.accepted, id) <==> IsTarget(response.merged, id))
    && (forall id ::
          (|| HasId(response.accepted, id) || IsMerged(response.merged, id)
           || IsDecided(response.rejected, id) || IsDecided(response.deferred, id)) ==>
          HasId(passA, id) || HasId(passB, id))
  }

  lemma {:induction false} IdentifiesUnique(candidates: seq<Candidate>)
    ensures Identifies(CandidateIds(candidates)) <==> UniqueIds(candidates)
  {
    var ids := CandidateIds(candidates);
    assert forall i :: 0 <= i < |candidates| ==> ids[i] == candidates[i].id;
  }

  lemma {:induction false} DecisionsUnique(decisions: seq<Decision>)
    ensures Identifies(DecisionIds(decisions)) <==> UniqueDecisions(decisions)
  {
    var ids := DecisionIds(decisions);
    assert forall i :: 0 <= i < |decisions| ==> ids[i] == decisions[i].candidateId;
  }

  lemma {:induction false} IdsAre(candidates: seq<Candidate>, id: string)
    ensures id in Members(CandidateIds(candidates)) <==> HasId(candidates, id)
  {
    var ids := CandidateIds(candidates);
    assert forall i :: 0 <= i < |candidates| ==> ids[i] == candidates[i].id;
    if HasId(candidates, id) {
      var k :| 0 <= k < |candidates| && candidates[k].id == id;
      assert ids[k] == id;
    }
  }

  lemma {:induction false} DecidedAre(decisions: seq<Decision>, id: string)
    ensures id in Members(DecisionIds(decisions)) <==> IsDecided(decisions, id)
  {
    var ids := DecisionIds(decisions);
    assert forall i :: 0 <= i < |decisions| ==> ids[i] == decisions[i].candidateId;
    if IsDecided(decisions, id) {
      var k :| 0 <= k < |decisions| && decisions[k].candidateId == id;
      assert ids[k] == id;
    }
  }

  /** Some merge targets this candidate. */
  predicate IsTarget(merges: seq<Merge>, id: string) {
    exists k :: 0 <= k < |merges| && merges[k].target == id
  }

  lemma {:induction false} TargetsAre(merges: seq<Merge>, id: string)
    ensures id in Members(Targets(merges)) <==> IsTarget(merges, id)
  {
    var ids := Targets(merges);
    assert forall i :: 0 <= i < |merges| ==> ids[i] == merges[i].target;
    if IsTarget(merges, id) {
      var k :| 0 <= k < |merges| && merges[k].target == id;
      assert ids[k] == id;
    }
  }

  lemma {:induction false} IsMergedStep(merges: seq<Merge>, id: string)
    requires merges != []
    ensures var last := |merges| - 1;
      IsMerged(merges, id) <==> IsMerged(merges[..last], id) || id in SourcesOf(merges[last])
  {
    var last := |merges| - 1;
    if IsMerged(merges[..last], id) {
      var k :| 0 <= k < last && merges[..last][k].sources.Some? && id in merges[..last][k].sources.value;
      assert merges[k] == merges[..last][k];
    }
    if IsMerged(merges, id) {
      var k :| 0 <= k < |merges| && merges[k].sources.Some? && id in merges[k].sources.value;
      assert k < last ==> merges[k] == merges[..last][k];
    }
  }

  lemma {:induction false} MergedAre(merges: seq<Merge>, id: string)
    ensures id in Members(MergedIds(merges)) <==> IsMerged(merges, id)
  {
    if merges != [] {
      hide IsMerged;
      MergedAre(merges[..|merges| - 1], id);
      IsMergedStep(merges, id);
    }
  }

  lemma {:induction false} RepeatsApart(a: seq<string>, b: seq<string>)
    ensures NoRepeats(a + b) <==> NoRepeats(a) && NoRepeats(b) && forall id :: id in a ==> id !in b
  {
    var all := a + b;
    assert forall i :: 0 <= i < |b| ==> all[|a| + i] == b[i];
    if NoRepeats(all) {
      ConcatApart(a, b);
      forall id | id in a
        ensures id !in b
      {
        assert id in Members(a);
      }
    }
    if NoRepeats(a) && NoRepeats(b) && forall id :: id in a ==> id !in b {
      forall i, j | 0 <= i < j < |all|
        ensures all[i] != all[j]
      {
        assert all[i] == if i < |a| then a[i] else b[i - |a|];
        assert all[j] == if j < |a| then a[j] else b[j - |a|];
        if i < |a| <= j {
          assert a[i] in a && b[j - |a|] in b;
        }
      }
    }
  }

  lemma {:induction false} MergedOnceStep(merges: seq<Merge>)
    requires merges != []
    ensures var front, last := merges[..|merges| - 1], merges[|merges| - 1];
      MergedOnce(merges) <==>
        && MergedOnce(front) && NoRepeats(SourcesOf(last))
        && forall id :: IsMerged(front, id) ==> id !in SourcesOf(last)
  {
    var n := |merges| - 1;
    var front, last := merges[..n], merges[n];
    assert forall k :: 0 <= k < n ==> front[k] == merges[k];
    if MergedOnce(front) && NoRepeats(SourcesOf(last)) && forall id :: IsMerged(front, id) ==> id !in SourcesOf(last) {
      forall k, m, id | && 0 <= k < m < |merges| && merges[k].sources.Some? && merges[m].sources.Some?
                        && id in merges[k].sources.value
        ensures id !in merges[m].sources.value
      {
        if m == n {
          assert front[k].sources.Some? && id in front[k].sources.value;
          assert IsMerged(front, id);
        } else {
          assert front[k] == merges[k] && front[m] == merges[m];
        }
      }
    }
    if MergedOnce(merges) {
      forall k, m, id | && 0 <= k < m < n && front[k].sources.Some? && front[m].sources.Some?
                        && id in front[k].sources.value
        ensures id !in front[m].sources.value
      {
        assert merges[k] == front[k] && merges[m] == front[m];
      }
      forall id | IsMerged(front, id)
        ensures id !in SourcesOf(last)
      {
        var k :| 0 <= k < n && front[k].sources.Some? && id in front[k].sources.value;
        assert merges[k] == front[k];
      }
    }
  }

  lemma {:induction false} MergedOnceIff(merges: seq<Merge>)
    ensures NoRepeats(MergedIds(merges)) <==> MergedOnce(merges)
  {
    if merges != [] {
      hide MergedOnce, NoRepeats, IsMerged;
      var front, last := merges[..|merges| - 1], merges[|merges| - 1];
      MergedOnceIff(front);
      MergedOnceStep(merges);
      RepeatsApart(MergedIds(front), SourcesOf(last));
      forall id
        ensures id in MergedIds(front) <==> IsMerged(front, id)
      {
        MergedAre(front, id);
      }
    }
  }

  lemma {:induction false} MergesUnique(merges: seq<Merge>)
    ensures
      && (forall i :: 0 <= i < |merges| ==> MergeOk(merges[i]))
      && NoRepeats(MergeIds(merges)) && NoRepeats(Targets(merges)) && NoRepeats(MergedIds(merges))
      <==> UniqueMerges(merges) && MergedOnce(merges)
  {
    MergedOnceIff(merges);
    var ids, targets := MergeIds(merges), Targets(merges);
    assert forall i :: 0 <= i < |merges| ==> ids[i] == merges[i].mergeId && targets[i] == merges[i].target;
    hide MergedIds;
  }

  /** Exactly which responses reconcile. */
  lemma {:induction false} ReconcilesIff(response: Response, passA: seq<Candidate>, passB: seq<Candidate>)
    ensures Reconciles(response, passA, passB) <==>
      && UniqueIds(passA) && UniqueIds(passB) && (forall id :: HasId(passA, id) ==> !HasId(passB, id))
      && UniqueIds(response.accepted) && UniqueDecisions(response.rejected) && UniqueDecisions(response.deferred)
      && UniqueMerges(response.merged) && MergedOnce(response.merged)
      && DecidedOnce(response) && AboutSources(response, passA, passB)
  {
    hide NoRepeats, Present, CandidateIds, DecisionIds, MergedIds, Targets, MergeIds, HasId, IsMerged, IsDecided,
      IsTarget, UniqueIds, UniqueDecisions, MergeOk, UniqueMerges, MergedOnce;
    var merged, rejected, deferred :=
      MergedIds(response.merged), DecisionIds(response.rejected), DecisionIds(response.deferred);
    IdentifiesUnique(passA);
    IdentifiesUnique(passB);
    IdentifiesUnique(response.accepted);
    DecisionsUnique(response.rejected);
    DecisionsUnique(response.deferred);
    MergesUnique(response.merged);
    forall id
      ensures id in CandidateIds(passA) <==> HasId(passA, id)
      ensures id in CandidateIds(passB) <==> HasId(passB, id)
      ensures id in CandidateIds(response.accepted) <==> HasId(response.accepted, id)
      ensures id in rejected <==> IsDecided(response.rejected, id)
      ensures id in deferred <==> IsDecided(response.deferred, id)
      ensures id in merged <==> IsMerged(response.merged, id)
      ensures id in Targets(response.merged) <==> IsTarget(response.merged, id)
    {
      IdsAre(passA, id);
      IdsAre(passB, id);
      IdsAre(response.accepted, id);
      DecidedAre(response.rejected, id);
      DecidedAre(response.deferred, id);
      MergedAre(response.merged, id);
      TargetsAre(response.merged, id);
    }
    RepeatsApart(merged, rejected);
    RepeatsApart(merged + rejected, deferred);
    assert NoRepeats(Classified(response)) <==>
      NoRepeats(merged) && NoRepeats(rejected) && NoRepeats(deferred) && DecidedOnce(response);
    SetsMeet(CandidateIds(passA), CandidateIds(passB));
    WithinSources(response, passA, passB);
  }

  /** The set conditions of reconciliation. */
  lemma {:induction false} WithinSources(response: Response, passA: seq<Candidate>, passB: seq<Candidate>)
    requires forall id ::
      && (id in CandidateIds(passA) <==> HasId(passA, id)) && (id in CandidateIds(passB) <==> HasId(passB, id))
      && (id in CandidateIds(response.accepted) <==> HasId(response.accepted, id))
      && (id in DecisionIds(response.rejected) <==> IsDecided(response.rejected, id))
      && (id in DecisionIds(response.deferred) <==> IsDecided(response.deferred, id))
      && (id in MergedIds(response.merged) <==> IsMerged(response.merged, id))
      && (id in Targets(response.merged) <==> IsTarget(response.merged, id))
    ensures
      && Members(Targets(response.merged)) == Members(CandidateIds(response.accepted))
      && Members(CandidateIds(response.accepted)) + Members(Classified(response)) <= Sources(passA, passB)
      <==> AboutSources(response, passA, passB)
  {
    hide CandidateIds, DecisionIds, MergedIds, Targets, HasId, IsMerged, IsDecided, IsTarget;
    SetsEqual(Targets(response.merged), CandidateIds(response.accepted));
    var accepted, all := Members(CandidateIds(response.accepted)), Sources(passA, passB);
    if accepted + Members(Classified(response)) <= all {
      forall id | (|| id in CandidateIds(response.accepted) || id in MergedIds(response.merged)
                   || id in DecisionIds(response.rejected) || id in DecisionIds(response.deferred))
        ensures id in CandidateIds(passA) || id in CandidateIds(passB)
      {
        assert id in accepted + Members(Classified(response));
        assert id in all;
      }
    }
  }

  lemma {:induction false} SetsMeet(a: seq<string>, b: seq<string>)
    ensures Members(a) !! Members(b) <==> forall id :: id in a ==> id !in b
  {
    if Members(a) !! Members(b) {
      forall id | id in a
        ensures id !in b
      {
        assert id in Members(a);
      }
    }
  }

  lemma {:induction false} SetsEqual(a: seq<string>, b: seq<string>)
    ensures Members(a) == Members(b) <==> forall id :: id in a <==> id in b
  {
    if Members(a) == Members(b) {
      forall id
        ensures id in a <==> id in b
      {
        assert id in Members(a) <==> id in Members(b);
      }
    }
  }
}
