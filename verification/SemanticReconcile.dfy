/** Reconciling a validator's decisions with the two blind passes (`semantic_reconcile.py`). An ID
    that is missing, not a string or empty is modelled as the empty string. */
module SemanticReconcile {
  import opened Wrappers
  import opened Sorting
  import opened Strings

  /** `uncertainty` is `None` when the field is not a list of non-empty strings. */
  datatype Candidate = Candidate(id: string, uncertainty: Option<seq<string>>, text: string)

  /** `sources` is `None` when the field is not a list of strings. */
  datatype Merge = Merge(mergeId: string, target: string, sources: Option<seq<string>>)

  /** A rejected or deferred decision; it may list source candidates of its own. */
  datatype SourceIds = Unlisted | Listed(ids: seq<string>) | MalformedIds
  datatype Decision = Decision(candidateId: string, sources: SourceIds)

  datatype Response = Response(
    accepted: seq<Candidate>, merged: seq<Merge>, rejected: seq<Decision>, deferred: seq<Decision>)

  datatype Reconciliation = Reconciliation(
    sourceCandidates: nat, accepted: nat, merges: nat, rejected: nat, deferred: nat, unaccounted: seq<string>)

  datatype ReconcileError =
    | InvalidId | DuplicateId | PassesOverlap | InvalidMergeSources | TargetsDiffer
    | SeveralDecisions | UnknownCandidate

  function CandidateIds(candidates: seq<Candidate>): (r: seq<string>)
    ensures |r| == |candidates|
  {
    seq(|candidates|, i requires 0 <= i < |candidates| => candidates[i].id)
  }

  function DecisionIds(decisions: seq<Decision>): (r: seq<string>)
    ensures |r| == |decisions|
  {
    seq(|decisions|, i requires 0 <= i < |decisions| => decisions[i].candidateId)
  }

  function Targets(merges: seq<Merge>): (r: seq<string>)
    ensures |r| == |merges|
  {
    seq(|merges|, i requires 0 <= i < |merges| => merges[i].target)
  }

  function MergeIds(merges: seq<Merge>): (r: seq<string>)
    ensures |r| == |merges|
  {
    seq(|merges|, i requires 0 <= i < |merges| => merges[i].mergeId)
  }

  function SourcesOf(merge: Merge): seq<string> {
    if merge.sources.Some? then merge.sources.value else []
  }

  /** The source candidates of all merges, in order. */
  function MergedIds(merges: seq<Merge>): seq<string> {
    if merges == [] then [] else MergedIds(merges[..|merges| - 1]) + SourcesOf(merges[|merges| - 1])
  }

  function Members(ids: seq<string>): set<string> {
    set id | id in ids
  }

  predicate Present(ids: seq<string>) {
    forall i :: 0 <= i < |ids| ==> ids[i] != ""
  }

  /** Usable, pairwise distinct IDs. */
  predicate Identifies(ids: seq<string>) {
    Present(ids) && NoRepeats(ids)
  }

  predicate MergeOk(merge: Merge) {
    && merge.mergeId != "" && merge.target != ""
    && merge.sources.Some? && merge.sources.value != [] && Identifies(merge.sources.value)
  }

  function Sources(passA: seq<Candidate>, passB: seq<Candidate>): set<string> {
    Members(CandidateIds(passA)) + Members(CandidateIds(passB))
  }

  function Classified(response: Response): seq<string> {
    MergedIds(response.merged) + DecisionIds(response.rejected) + DecisionIds(response.deferred)
  }

  /** What `reconcile_validator` accepts. */
  predicate Reconciles(response: Response, passA: seq<Candidate>, passB: seq<Candidate>) {
    && Identifies(CandidateIds(passA)) && Identifies(CandidateIds(passB))
    && Members(CandidateIds(passA)) !! Members(CandidateIds(passB))
    && Identifies(CandidateIds(response.accepted))
    && Identifies(DecisionIds(response.rejected))
    && Identifies(DecisionIds(response.deferred))
    && (forall i :: 0 <= i < |response.merged| ==> MergeOk(response.merged[i]))
    && NoRepeats(MergeIds(response.merged))
    && NoRepeats(Targets(response.merged))
    && NoRepeats(MergedIds(response.merged))
    && Members(Targets(response.merged)) == Members(CandidateIds(response.accepted))
    && NoRepeats(Classified(response))
    && Members(CandidateIds(response.accepted)) + Members(Classified(response)) <= Sources(passA, passB)
  }

  /** A sorted list of a set of strings. */
  function SortedList(all: seq<string>, keep: set<string>): (r: seq<string>)
    ensures forall x :: x in r <==> x in all && x in keep
  {
    SortedSet(Restrict(all, keep), StringLeq)
  }

  function Restrict(all: seq<string>, keep: set<string>): (r: seq<string>)
    ensures forall x :: x in r <==> x in all && x in keep
  {
    if all == [] then []
    else
      assert all == [all[0]] + all[1..];
      (if all[0] in keep then [all[0]] else []) + Restrict(all[1..], keep)
  }

  function Unaccounted(response: Response, passA: seq<Candidate>, passB: seq<Candidate>): (r: seq<string>)
    ensures forall x :: x in r <==> x in Sources(passA, passB) && x !in Classified(response)
  {
    var all := CandidateIds(passA) + CandidateIds(passB);
    SortedList(all, Sources(passA, passB) - Members(Classified(response)))
  }

  /** `_reject_duplicates`, by counting. */
  method RejectDuplicates(values: seq<string>) returns (r: Outcome<ReconcileError>)
    ensures r.Pass? <==> NoRepeats(values)
  {
    var seen: set<string> := {};
    for i := 0 to |values|
      invariant forall x :: x in seen <==> exists k :: 0 <= k < i && values[k] == x
      invariant NoRepeats(values[..i])
    {
      if values[i] in seen {
        return Fail(DuplicateId);
      }
      seen := seen + {values[i]};
    }
    assert values[..|values|] == values;
    return Pass;
  }

  /** `_record_ids`. */
  method RecordIds(ids: seq<string>) returns (r: Outcome<ReconcileError>)
    ensures r.Pass? <==> Identifies(ids)
  {
    for i := 0 to |ids|
      invariant Present(ids[..i])
    {
      if ids[i] == "" {
        return Fail(InvalidId);
      }
    }
    assert ids[..|ids|] == ids;
    r := RejectDuplicates(ids);
  }

  /** The merge loop. */
  method CollectMerges(merges: seq<Merge>)
    returns (r: Outcome<ReconcileError>, targets: seq<string>, sources: seq<string>, ids: seq<string>)
    ensures r.Pass? <==> forall i :: 0 <= i < |merges| ==> MergeOk(merges[i])
    ensures r.Pass? ==> targets == Targets(merges) && sources == MergedIds(merges) && ids == MergeIds(merges)
  {
    targets, sources, ids := [], [], [];
    for i := 0 to |merges|
      invariant targets == Targets(merges)[..i] && ids == MergeIds(merges)[..i]
      invariant sources == MergedIds(merges[..i])
      invariant forall k :: 0 <= k < i ==> MergeOk(merges[k])
    {
      hide NoRepeats;
      var merge := merges[i];
      assert merges[..i + 1][..i] == merges[..i];
      if merge.mergeId == "" || merge.target == "" {
        return Fail(InvalidId), targets, sources, ids;
      }
      ids, targets := ids + [merge.mergeId], targets + [merge.target];
      if merge.sources.None? || merge.sources.value == [] || !Present(merge.sources.value) {
        return Fail(InvalidMergeSources), targets, sources, ids;
      }
      var distinct := RejectDuplicates(merge.sources.value);
      if distinct.Fail? {
        return Fail(DuplicateId), targets, sources, ids;
      }
      sources := sources + merge.sources.value;
    }
    assert merges[..|merges|] == merges;
    r := Pass;
  }

  /** `reconcile_validator`. */
  method ReconcileValidator(response: Response, passA: seq<Candidate>, passB: seq<Candidate>)
    returns (r: Result<Reconciliation, ReconcileError>)
    ensures r.Success? <==> Reconciles(response, passA, passB)
    ensures r.Success? ==> r.value == Reconciliation(
      |Sources(passA, passB)|, |response.accepted|, |response.merged|, |response.rejected|, |response.deferred|,
      Unaccounted(response, passA, passB))
  {
    hide NoRepeats, Identifies, MergeOk, Unaccounted, Members, Sources, MergedIds, Targets, MergeIds, CandidateIds,
      DecisionIds;
    var idsA, idsB := CandidateIds(passA), CandidateIds(passB);
    var check := RecordIds(idsA);
    if check.Fail? { return Failure(check.error); }
    check := RecordIds(idsB);
    if check.Fail? { return Failure(check.error); }
    if !(Members(idsA) !! Members(idsB)) {
      return Failure(PassesOverlap);
    }
    var accepted, rejected, deferred :=
      CandidateIds(response.accepted), DecisionIds(response.rejected), DecisionIds(response.deferred);
    check := RecordIds(accepted);
    if check.Fail? { return Failure(check.error); }
    check := RecordIds(rejected);
    if check.Fail? { return Failure(check.error); }
    check := RecordIds(deferred);
    if check.Fail? { return Failure(check.error); }
    var targets, sources, ids;
    check, targets, sources, ids := CollectMerges(response.merged);
    if check.Fail? { return Failure(check.error); }
    check := RejectDuplicates(ids);
    if check.Fail? { return Failure(check.error); }
    check := RejectDuplicates(targets);
    if check.Fail? { return Failure(check.error); }
    check := RejectDuplicates(sources);
    if check.Fail? { return Failure(check.error); }
    if Members(targets) != Members(accepted) {
      return Failure(TargetsDiffer);
    }
    var classified := sources + rejected + deferred;
    check := RejectDuplicates(classified);
    if check.Fail? { return Failure(SeveralDecisions); }
    if !(Members(accepted) + Members(classified) <= Sources(passA, passB)) {
      return Failure(UnknownCandidate);
    }
    return Success(Reconciliation(
      |Sources(passA, passB)|, |accepted|, |response.merged|, |rejected|, |deferred|,
        Unaccounted(response, passA, passB)));
  }

  // ----- What a reconciliation proves -----

  /** Every source candidate is merged, rejected, deferred or unaccounted, and only one of these. */
  lemma {:induction false} SourcesArePartitioned(response: Response, passA: seq<Candidate>, passB: seq<Candidate>)
    requires Reconciles(response, passA, passB)
    ensures var merged, rejected, deferred, unaccounted :=
        Members(MergedIds(response.merged)), Members(DecisionIds(response.rejected)),
        Members(DecisionIds(response.deferred)), Members(Unaccounted(response, passA, passB));
      && merged !! rejected !! deferred !! unaccounted
      && merged + rejected + deferred + unaccounted == Sources(passA, passB)
      && |Sources(passA, passB)|
         == |MergedIds(response.merged)| + |response.rejected| + |response.deferred|
           + |Unaccounted(response, passA, passB)|
  {
    var m, j, d := MergedIds(response.merged), DecisionIds(response.rejected), DecisionIds(response.deferred);
    var u := Unaccounted(response, passA, passB);
    ClassifiedWithinSources(response, passA, passB);
    UnaccountedNoRepeats(response, passA, passB);
    UnaccountedMembers(response, passA, passB);
    CountMembers(m);
    CountMembers(j);
    CountMembers(d);
    CountMembers(u);
    hide NoRepeats, Members, MergedIds, DecisionIds, Unaccounted, Reconciles, CandidateIds;
    FourParts(Sources(passA, passB), Members(m), Members(j), Members(d), Members(u));
  }

  lemma {:induction false} ClassifiedWithinSources(response: Response, passA: seq<Candidate>, passB: seq<Candidate>)
    requires Reconciles(response, passA, passB)
    ensures var m, j, d := MergedIds(response.merged), DecisionIds(response.rejected), DecisionIds(response.deferred);
      && NoRepeats(m) && NoRepeats(j) && NoRepeats(d)
      && Members(m) !! Members(j) && (Members(m) + Members(j)) !! Members(d)
      && Members(Classified(response)) == Members(m) + Members(j) + Members(d)
      && Members(Classified(response)) <= Sources(passA, passB)
  {
    hide NoRepeats, Members, MergedIds, DecisionIds, CandidateIds, Identifies;
    var m, j, d := MergedIds(response.merged), DecisionIds(response.rejected), DecisionIds(response.deferred);
    ConcatApart(m + j, d);
    ConcatApart(m, j);
    assert Classified(response) == m + j + d;
  }

  lemma {:induction false} UnaccountedMembers(response: Response, passA: seq<Candidate>, passB: seq<Candidate>)
    ensures Members(Unaccounted(response, passA, passB)) == Sources(passA, passB) - Members(Classified(response))
  {
    hide Unaccounted, Classified;
    var u := Unaccounted(response, passA, passB);
    forall x
      ensures x in Members(u) <==> x in Sources(passA, passB) - Members(Classified(response))
    {
      assert x in Members(u) <==> x in u;
    }
  }

  lemma {:induction false} FourParts(all: set<string>, m: set<string>, j: set<string>, d: set<string>, u: set<string>)
    requires m !! j && (m + j) !! d && m + j + d <= all && u == all - (m + j + d)
    ensures m !! j !! d !! u && m + j + d + u == all
    ensures |all| == |m| + |j| + |d| + |u|
  {
    assert all == (m + j + d) + u;
    assert |m + j + d| == |m + j| + |d| && |m + j| == |m| + |j|;
  }

  lemma {:induction false} ConcatApart(a: seq<string>, b: seq<string>)
    requires NoRepeats(a + b)
    ensures NoRepeats(a) && NoRepeats(b) && Members(a) !! Members(b) && Members(a + b) == Members(a) + Members(b)
  {
    var all := a + b;
    forall i, j | 0 <= i < j < |b|
      ensures b[i] != b[j]
    {
      assert all[|a| + i] != all[|a| + j];
    }
    forall i, j | 0 <= i < j < |a|
      ensures a[i] != a[j]
    {
      assert all[i] != all[j];
    }
    forall i, j | 0 <= i < |a| && 0 <= j < |b|
      ensures a[i] != b[j]
    {
      assert all[i] != all[|a| + j];
    }
  }

  lemma {:induction false} CountMembers(ids: seq<string>)
    requires NoRepeats(ids)
    ensures |Members(ids)| == |ids|
  {
    if ids != [] {
      var front, last := ids[..|ids| - 1], ids[|ids| - 1];
      CountMembers(front);
      assert Members(ids) == Members(front) + {last};
      assert last !in front;
    } else {
      assert Members(ids) == {};
    }
  }

  lemma {:induction false} UnaccountedNoRepeats(response: Response, passA: seq<Candidate>, passB: seq<Candidate>)
    ensures NoRepeats(Unaccounted(response, passA, passB))
  {
    var all := CandidateIds(passA) + CandidateIds(passB);
    StringOrder();
    SortedSetSorted(Restrict(all, Sources(passA, passB) - Members(Classified(response))), StringLeq);
  }

  /** Accepted candidates and merges are in bijection: each accepted candidate is the target of
      exactly one merge and each merge has an accepted target. */
  lemma {:induction false} AcceptedMatchMerges(response: Response, passA: seq<Candidate>, passB: seq<Candidate>, i: nat)
    requires Reconciles(response, passA, passB) && i < |response.accepted|
    ensures |response.accepted| == |response.merged|
    ensures exists k :: 0 <= k < |response.merged| && response.merged[k].target == response.accepted[i].id
    ensures forall k, m | 0 <= k < |response.merged| && 0 <= m < |response.merged| ::
      response.merged[k].target == response.merged[m].target ==> k == m
    ensures forall k :: 0 <= k < |response.merged| ==>
      exists a :: 0 <= a < |response.accepted| && response.accepted[a].id == response.merged[k].target
  {
    var accepted, targets := CandidateIds(response.accepted), Targets(response.merged);
    CountMembers(accepted);
    CountMembers(targets);
    assert accepted[i] in Members(accepted);
    var k :| 0 <= k < |targets| && targets[k] == accepted[i];
    assert response.merged[k].target == response.accepted[i].id;
    forall k, m | 0 <= k < |response.merged| && 0 <= m < |response.merged|
      && response.merged[k].target == response.merged[m].target
      ensures k == m
    {
      assert targets[k] == targets[m];
    }
    forall k | 0 <= k < |response.merged|
      ensures exists a :: 0 <= a < |response.accepted| && response.accepted[a].id == response.merged[k].target
    {
      assert targets[k] in Members(targets);
      var a :| 0 <= a < |accepted| && accepted[a] == targets[k];
      assert response.accepted[a].id == response.merged[k].target;
    }
  }
}
