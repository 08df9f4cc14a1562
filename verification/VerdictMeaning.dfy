/** What a verdict says besides its status: its reasons, the entities it lists and its counts. */
module VerdictMeaning {
  import opened Wrappers
  import opened Verdict

  // ----- Reasons -----

  /** `i` is the first pattern of the table found in the text. */
  predicate FirstFound(patterns: Patterns, table: seq<Reason>, text: string, i: nat) {
    && i < |table| && patterns(table[i], text)
    && forall k :: 0 <= k < i ==> !patterns(table[k], text)
  }

  lemma {:induction false} FirstMatchIs(patterns: Patterns, table: seq<Reason>, text: string, i: nat)
    requires FirstFound(patterns, table, text, i)
    ensures FirstMatch(patterns, table, text) == Some(table[i])
  {
    var r := FirstMatch(patterns, table, text);
    assert AnyMatches(patterns, table, text);
    var k :| 0 <= k < |table| && r.value == table[k] && patterns(table[k], text)
          && forall j :: 0 <= j < k ==> !patterns(table[j], text);
    assert k == i;
  }

  /** The patterns that say a datum is missing are tried first, then those that say it is wrong, each in
      this order; the first one found gives the code, and the kind of pattern gives the status. */
  lemma {:induction false} ClassificationOrder(patterns: Patterns, text: string, i: nat)
    ensures var unknown := [
        AttributeMissing, AttributeEmpty, AttributeNameInvalid, ClassificationMissing, RelationshipMissing,
        PropertySetMissing, PropertyMissing, DataTypeMismatch, MaterialMissing];
      FirstFound(patterns, unknown, text, i) ==> Classify(patterns, text) == (Indeterminate, unknown[i])
    ensures var wrong := [
        EntityClassMismatch, PredefinedTypeMismatch, AttributeValueMismatch, AttributeValueProhibited,
        ClassificationReferenceMismatch, ClassificationSystemMismatch, ClassificationProhibited,
        RelationshipEntityMismatch, RelationshipPredefinedTypeMismatch, RelationshipProhibited,
        PropertyValueMismatch, PropertyProhibited, MaterialMismatch, MaterialProhibited];
      FirstFound(patterns, wrong, text, i) && !AnyMatches(patterns, NOT_EVALUABLE, text) ==>
        Classify(patterns, text) == (Failed, wrong[i])
    ensures !AnyMatches(patterns, NOT_EVALUABLE, text) && !AnyMatches(patterns, VIOLATION, text) ==>
      Classify(patterns, text) == (Indeterminate, ReasonUnrecognised)
  {
    hide FirstMatch;
    if FirstFound(patterns, NOT_EVALUABLE, text, i) {
      FirstMatchIs(patterns, NOT_EVALUABLE, text, i);
    }
    if FirstFound(patterns, VIOLATION, text, i) {
      FirstMatchIs(patterns, VIOLATION, text, i);
    }
  }

  /** The reason of a specification's verdict, case by case, and whether it applies. */
  lemma {:induction false} JudgeSaysWhy(cardinality: Cardinality, matched: nat, schemaMatches: bool, failed: nat,
                                        indeterminate: nat, hasRequirements: bool)
    ensures var v := Judge(cardinality, matched, schemaMatches, failed, indeterminate, hasRequirements);
      && (v.reasonCode == Some(SchemaMismatch) <==> !schemaMatches)
      && (v.reasonCode == Some(NoSubjectsButRequired) <==> schemaMatches && matched == 0 && cardinality == Required)
      && (v.reasonCode == Some(NoSubjectsAndProhibited) <==> schemaMatches && matched == 0 && cardinality == Prohibited)
      && (v.reasonCode == Some(NoSubjectsNothingChecked) <==> schemaMatches && matched == 0 && cardinality == Optional)
      && (v.reasonCode == Some(ProhibitedSubjectsPresent)
          <==> schemaMatches && matched > 0 && cardinality == Prohibited)
      && (v.reasonCode == Some(NoRequirementsNothingAsserted)
          <==> schemaMatches && matched > 0 && cardinality == Optional && !hasRequirements)
      && (v.reasonCode == None <==>
            schemaMatches && matched > 0 && (cardinality == Required || (cardinality == Optional && hasRequirements)))
      && (v.applicability == DoesNotApply <==> v.reasonCode == Some(NoSubjectsNothingChecked))
      && (v.applicability == Undetermined <==> v.reasonCode == Some(SchemaMismatch))
      && (v.reasonCode == None ==>
            && (v.status == Failed <==> failed > 0)
            && (v.status == Passed <==> failed == 0 && indeterminate == 0))
  {
  }

  // ----- The entities a requirement lists -----

  /** The first failures are listed in order, each with its entity, its text and its classification, and
      the rest are counted as omitted. */
  lemma {:induction false} ListedAre(patterns: Patterns, facet: Facet, limit: nat, k: nat)
    requires k < |facet.failures|
    ensures var r, n := RequirementOf(patterns, facet, limit), |facet.failures|;
      && r.passed == |facet.passedEntities|
      && |r.entities| == (if n <= limit then n else limit) && r.omitted == (if n <= limit then 0 else n - limit)
      && (k < limit ==>
            && r.entities[k].element == facet.failures[k].element
            && r.entities[k].detail == facet.failures[k].reason
            && (r.entities[k].status, r.entities[k].code) == Classify(patterns, facet.failures[k].reason))
  {
    hide Classify;
    assert Outcomes(patterns, facet.failures)[k] == OutcomeOf(patterns, facet.failures[k]);
  }

  /** A negative limit drops entries from the end. */
  lemma {:induction false} NegativeLimitLists(patterns: Patterns, facet: Facet, limit: int)
    requires limit < 0
    ensures var r, n := RequirementOf(patterns, facet, limit), |facet.failures|;
      && |r.entities| == (if n + limit > 0 then n + limit else 0) && r.omitted == n - limit
      && r.entities <= Outcomes(patterns, facet.failures)
  {
    hide Classify;
  }

  // ----- Specifications and reports -----

  /** The sum over requirements. */
  function SumOf(amounts: seq<nat>): nat {
    if amounts == [] then 0 else amounts[0] + SumOf(amounts[1..])
  }

  /** A specification's outcome names the specification, counts its subjects, and sums its
      requirements' counts, which are those of its facets. */
  lemma {:induction false} OutcomeCounts(patterns: Patterns, spec: Specification, limit: int)
    ensures var out := SpecificationOf(patterns, spec, limit);
      var facets := spec.requirements;
      && out.name == spec.name && out.cardinality == spec.cardinality && out.matched == |spec.applicable|
      && |out.requirements| == |facets|
      && out.passed == SumOf(seq(|facets|, i requires 0 <= i < |facets| => |facets[i].passedEntities|))
      && out.failed == SumOf(seq(|facets|, i requires 0 <= i < |facets| =>
           RequirementOf(patterns, facets[i], limit).failed))
      && out.indeterminate == SumOf(seq(|facets|, i requires 0 <= i < |facets| =>
           RequirementOf(patterns, facets[i], limit).indeterminate))
  {
    hide RequirementOf, Judge, Backfilled;
    var facets := spec.requirements;
    var rs := Requirements(patterns, facets, limit);
    PassedIs(patterns, facets, limit);
    TotalIsSum(rs, Passes, seq(|facets|, i requires 0 <= i < |facets| => |facets[i].passedEntities|));
    TotalIsSum(rs, Fails, seq(|facets|, i requires 0 <= i < |facets| =>
      RequirementOf(patterns, facets[i], limit).failed));
    TotalIsSum(rs, Unknowns, seq(|facets|, i requires 0 <= i < |facets| =>
      RequirementOf(patterns, facets[i], limit).indeterminate));
  }

  lemma {:induction false} PassedIs(patterns: Patterns, facets: seq<Facet>, limit: int)
    ensures forall i :: 0 <= i < |facets| ==>
      Requirements(patterns, facets, limit)[i].passed == |facets[i].passedEntities|
  {
  }

  lemma {:induction false} TotalIsSum<T>(items: seq<T>, amount: T -> nat, amounts: seq<nat>)
    requires |items| == |amounts| && forall i :: 0 <= i < |items| ==> amount(items[i]) == amounts[i]
    ensures Total(items, amount) == SumOf(amounts)
  {
    if items != [] {
      TotalIsSum(items[1..], amount, amounts[1..]);
    }
  }

  lemma {:induction false} CountIsSize(statuses: seq<Status>, status: Status)
    ensures Count(statuses, status) == |set k: nat | k < |statuses| && statuses[k] == status|
  {
    var now := set k: nat | k < |statuses| && statuses[k] == status;
    if statuses == [] {
      assert now == {};
    } else {
      var rest := statuses[1..];
      CountIsSize(rest, status);
      var before := set k: nat | k < |rest| && rest[k] == status;
      ShiftedSize(now, before, statuses[0] == status);
    }
  }

  /** Moving every element up by one, and adding 0 or not. */
  lemma {:induction false} ShiftedSize(now: set<nat>, before: set<nat>, first: bool)
    requires forall k: nat :: k in now <==> if k == 0 then first else k - 1 in before
    ensures |now| == |before| + if first then 1 else 0
    decreases |before|
  {
    if before == {} {
      assert now == if first then {0} else {};
    } else {
      var k :| k in before;
      ShiftedSize(now - {k + 1}, before - {k}, first);
    }
  }

  /** A report counts its specifications by status. */
  lemma {:induction false} ReportCountsStatuses(patterns: Patterns, specs: seq<Specification>, limit: int)
    ensures var report := RunCheck(patterns, specs, limit);
      && |report.specifications| == |specs|
      && (forall k :: 0 <= k < |specs| ==> report.specifications[k] == SpecificationOf(patterns, specs[k], limit))
      && report.specificationsPassed == |set k: nat | k < |specs| && report.specifications[k].status == Passed|
      && report.specificationsFailed == |set k: nat | k < |specs| && report.specifications[k].status == Failed|
      && report.specificationsIndeterminate
         == |set k: nat | k < |specs| && report.specifications[k].status == Indeterminate|
  {
    hide SpecificationOf, Count, Total;
    var outcomes := SpecificationsOf(patterns, specs, limit);
    var statuses := SpecStatuses(outcomes);
    CountIsSize(statuses, Passed);
    CountIsSize(statuses, Failed);
    CountIsSize(statuses, Indeterminate);
    assert forall k: nat :: k < |specs| ==> statuses[k] == outcomes[k].status;
    assert (set k: nat | k < |statuses| && statuses[k] == Passed)
        == (set k: nat | k < |specs| && outcomes[k].status == Passed);
    assert (set k: nat | k < |statuses| && statuses[k] == Failed)
        == (set k: nat | k < |specs| && outcomes[k].status == Failed);
    assert (set k: nat | k < |statuses| && statuses[k] == Indeterminate)
        == (set k: nat | k < |specs| && outcomes[k].status == Indeterminate);
  }
}
