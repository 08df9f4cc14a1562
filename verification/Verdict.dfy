/** The three-valued verdict engine (`check.py`, `reasons.py` and `status.py` of the engine package). */
module Verdict {
  import opened Wrappers

  datatype Status = Passed | Failed | Indeterminate

  datatype Applicability = Applies | DoesNotApply | Undetermined

  datatype Cardinality = Required | Optional | Prohibited

  datatype Reason =
    | AttributeMissing | AttributeEmpty | AttributeNameInvalid | ClassificationMissing | RelationshipMissing
    | PropertySetMissing | PropertyMissing | DataTypeMismatch | MaterialMissing
    | EntityClassMismatch | PredefinedTypeMismatch | AttributeValueMismatch | AttributeValueProhibited
    | ClassificationReferenceMismatch | ClassificationSystemMismatch | ClassificationProhibited
    | RelationshipEntityMismatch | RelationshipPredefinedTypeMismatch | RelationshipProhibited
    | PropertyValueMismatch | PropertyProhibited | MaterialMismatch | MaterialProhibited
    | ReasonUnrecognised
    | SchemaMismatch | NoSubjectsButRequired | NoSubjectsAndProhibited | NoSubjectsNothingChecked
    | ProhibitedSubjectsPresent | NoRequirementsNothingAsserted

  /** The codes of the not-evaluable patterns, in the order they are tried. */
  const NOT_EVALUABLE: seq<Reason> := [
    AttributeMissing, AttributeEmpty, AttributeNameInvalid, ClassificationMissing, RelationshipMissing,
    PropertySetMissing, PropertyMissing, DataTypeMismatch, MaterialMissing]

  /** The codes of the violation patterns, in the order they are tried. */
  const VIOLATION: seq<Reason> := [
    EntityClassMismatch, PredefinedTypeMismatch, AttributeValueMismatch, AttributeValueProhibited,
    ClassificationReferenceMismatch, ClassificationSystemMismatch, ClassificationProhibited,
    RelationshipEntityMismatch, RelationshipPredefinedTypeMismatch, RelationshipProhibited,
    PropertyValueMismatch, PropertyProhibited, MaterialMismatch, MaterialProhibited]

  predicate NotEvaluableCode(code: Reason) {
    code in {AttributeMissing, AttributeEmpty, AttributeNameInvalid, ClassificationMissing, RelationshipMissing,
             PropertySetMissing, PropertyMissing, DataTypeMismatch, MaterialMissing, ReasonUnrecognised}
  }

  predicate EstablishedNothing(code: Option<Reason>) {
    code.Some? && code.value in {SchemaMismatch, NoSubjectsNothingChecked, NoRequirementsNothingAsserted}
  }

  // ----- Classifying one failure reason -----

  /** Whether the pattern that carries a code is found in a reason text; the patterns stay abstract. */
  type Patterns = (Reason, string) -> bool

  predicate AnyMatches(patterns: Patterns, table: seq<Reason>, text: string) {
    exists k :: 0 <= k < |table| && patterns(table[k], text)
  }

  function FirstMatch(patterns: Patterns, table: seq<Reason>, text: string): (r: Option<Reason>)
    ensures r.Some? <==> AnyMatches(patterns, table, text)
    ensures r.Some? ==>
      exists k :: 0 <= k < |table| && r.value == table[k] && patterns(table[k], text)
                  && forall j :: 0 <= j < k ==> !patterns(table[j], text)
  {
    if table == [] then None
    else if patterns(table[0], text) then Some(table[0])
    else
      var rest := FirstMatch(patterns, table[1..], text);
      assert AnyMatches(patterns, table[1..], text) <==> AnyMatches(patterns, table, text) by {
        FirstFails(patterns, table, text);
      }
      assert rest.Some? ==>
          exists k :: 0 <= k < |table| && rest.value == table[k] && patterns(table[k], text)
                      && forall j :: 0 <= j < k ==> !patterns(table[j], text) by {
        if rest.Some? {
          var i :| 0 <= i < |table[1..]| && rest.value == table[1..][i] && patterns(table[1..][i], text)
                   && forall j :: 0 <= j < i ==> !patterns(table[1..][j], text);
          assert forall j :: 1 <= j < i + 1 ==> table[j] == table[1..][j - 1];
          assert table[i + 1] == rest.value;
        }
      }
      rest
  }

  lemma {:induction false} FirstFails(patterns: Patterns, table: seq<Reason>, text: string)
    requires table != [] && !patterns(table[0], text)
    ensures AnyMatches(patterns, table[1..], text) <==> AnyMatches(patterns, table, text)
  {
    if AnyMatches(patterns, table, text) {
      var k :| 0 <= k < |table| && patterns(table[k], text);
      assert table[1..][k - 1] == table[k];
    }
  }

  function Classify(patterns: Patterns, text: string): (Status, Reason) {
    var unknown := FirstMatch(patterns, NOT_EVALUABLE, text);
    if unknown.Some? then (Indeterminate, unknown.value)
    else
      var violation := FirstMatch(patterns, VIOLATION, text);
      if violation.Some? then (Failed, violation.value) else (Indeterminate, ReasonUnrecognised)
  }

  function StatusFor(code: Reason): Status {
    if NotEvaluableCode(code) then Indeterminate else Failed
  }

  predicate IsRecognised(patterns: Patterns, text: string) {
    AnyMatches(patterns, NOT_EVALUABLE + VIOLATION, text)
  }

  lemma {:induction false} EitherTable(patterns: Patterns, text: string)
    ensures IsRecognised(patterns, text)
       <==> AnyMatches(patterns, NOT_EVALUABLE, text) || AnyMatches(patterns, VIOLATION, text)
  {
    var both := NOT_EVALUABLE + VIOLATION;
    if AnyMatches(patterns, NOT_EVALUABLE, text) {
      var k :| 0 <= k < |NOT_EVALUABLE| && patterns(NOT_EVALUABLE[k], text);
      assert both[k] == NOT_EVALUABLE[k];
    }
    if AnyMatches(patterns, VIOLATION, text) {
      var k :| 0 <= k < |VIOLATION| && patterns(VIOLATION[k], text);
      assert both[|NOT_EVALUABLE| + k] == VIOLATION[k];
    }
  }

  /** A violation is asserted exactly when one is recognised and nothing says the datum was missing. */
  lemma {:induction false} ClassificationIsSound(patterns: Patterns, text: string)
    ensures var (status, code) := Classify(patterns, text);
            && status == StatusFor(code)
            && status != Passed
            && (status == Failed <==>
                  AnyMatches(patterns, VIOLATION, text) && !AnyMatches(patterns, NOT_EVALUABLE, text))
            && (code == ReasonUnrecognised <==> !IsRecognised(patterns, text))
            && (code != ReasonUnrecognised ==> patterns(code, text))
  {
    EitherTable(patterns, text);
    assert forall k ::
      0 <= k < |NOT_EVALUABLE| ==> NotEvaluableCode(NOT_EVALUABLE[k]) && NOT_EVALUABLE[k] != ReasonUnrecognised;
    assert forall k :: 0 <= k < |VIOLATION| ==> !NotEvaluableCode(VIOLATION[k]);
  }

  // ----- The aggregate of three counts -----

  function Aggregate(passed: nat, failed: nat, indeterminate: nat): Status {
    if failed > 0 then Failed
    else if indeterminate > 0 then Indeterminate
    else if passed > 0 then Passed
    else Indeterminate
  }

  /** The engine's severity order: a violation, then an unknown, then a pass. */
  function SeverityRank(status: Status): nat {
    match status
    case Failed => 0
    case Indeterminate => 1
    case Passed => 2
  }

  predicate AtLeastAsSevere(status: Status, other: Status) {
    SeverityRank(status) <= SeverityRank(other)
  }

  function Count(statuses: seq<Status>, status: Status): (n: nat)
    ensures n <= |statuses|
    ensures n > 0 <==> status in statuses
  {
    if statuses == [] then 0
    else
      var rest := Count(statuses[1..], status);
      assert statuses == [statuses[0]] + statuses[1..];
      rest + if statuses[0] == status then 1 else 0
  }

  function Tally(statuses: seq<Status>): Status {
    Aggregate(Count(statuses, Passed), Count(statuses, Failed), Count(statuses, Indeterminate))
  }

  /** Every status is counted exactly once. */
  lemma {:induction false} CountsAddUp(statuses: seq<Status>)
    ensures Count(statuses, Passed) + Count(statuses, Failed) + Count(statuses, Indeterminate) == |statuses|
  {
    if statuses != [] { CountsAddUp(statuses[1..]); }
  }

  predicate AllPass(statuses: seq<Status>) {
    forall k :: 0 <= k < |statuses| ==> statuses[k] == Passed
  }

  /** The tally passes exactly on a nonempty list of passes, and fails exactly on a known violation. */
  lemma {:induction false} TallyMeaning(statuses: seq<Status>)
    ensures Tally(statuses) == Passed <==> statuses != [] && AllPass(statuses)
    ensures Tally(statuses) == Failed <==> Failed in statuses
  {
    CountsAddUp(statuses);
    if Tally(statuses) == Passed {
      forall k | 0 <= k < |statuses| ensures statuses[k] == Passed {
        assert statuses[k] in statuses;
      }
    }
    if statuses != [] && AllPass(statuses) {
      assert statuses[0] in statuses;
    }
  }

  ghost predicate PointwiseSevere(worse: seq<Status>, better: seq<Status>) {
    && |worse| == |better|
    && forall k :: 0 <= k < |worse| ==> AtLeastAsSevere(worse[k], better[k])
  }

  lemma {:induction false} CountsWorsen(worse: seq<Status>, better: seq<Status>)
    requires PointwiseSevere(worse, better)
    ensures Count(worse, Failed) >= Count(better, Failed)
    ensures Count(worse, Failed) + Count(worse, Indeterminate) >= Count(better, Failed) + Count(better, Indeterminate)
  {
    if worse != [] {
      assert AtLeastAsSevere(worse[0], better[0]);
      assert forall k :: 0 <= k < |worse[1..]| ==> worse[1..][k] == worse[k + 1] && better[1..][k] == better[k + 1];
      CountsWorsen(worse[1..], better[1..]);
    }
  }

  // ----- What one requirement was evaluated on -----

  datatype Element = Element(globalId: Option<string>, ifcClass: string)

  datatype FailedCheck = FailedCheck(element: Element, reason: string)

  datatype Facet = Facet(passedEntities: seq<Element>, failures: seq<FailedCheck>)

  datatype EntityOutcome = EntityOutcome(element: Element, status: Status, code: Reason, detail: string)

  datatype Requirement = Requirement(
    status: Status, passed: nat, failed: nat, indeterminate: nat,
    entities: seq<EntityOutcome>, omitted: nat, reasonCode: Option<Reason>, caveat: Option<Reason>)

  function OutcomeOf(patterns: Patterns, failure: FailedCheck): EntityOutcome {
    var (status, code) := Classify(patterns, failure.reason);
    EntityOutcome(failure.element, status, code, failure.reason)
  }

  function Outcomes(patterns: Patterns, failures: seq<FailedCheck>): seq<EntityOutcome> {
    seq(|failures|, i requires 0 <= i < |failures| => OutcomeOf(patterns, failures[i]))
  }

  function Statuses(outcomes: seq<EntityOutcome>): (statuses: seq<Status>) {
    seq(|outcomes|, i requires 0 <= i < |outcomes| => outcomes[i].status)
  }

  /** The slice `s[:limit]`, for a limit of either sign. */
  function FirstUpTo<T>(s: seq<T>, limit: int): seq<T> {
    if limit >= |s| then s
    else if limit >= 0 then s[..limit]
    else if |s| + limit > 0 then s[..|s| + limit]
    else []
  }

  function RequirementOf(patterns: Patterns, facet: Facet, limit: int): Requirement {
    var outcomes := Outcomes(patterns, facet.failures);
    var passed := |facet.passedEntities|;
    var failed := Count(Statuses(outcomes), Failed);
    var indeterminate := Count(Statuses(outcomes), Indeterminate);
    Requirement(Aggregate(passed, failed, indeterminate), passed, failed, indeterminate,
                FirstUpTo(outcomes, limit), if |outcomes| > limit then |outcomes| - limit else 0, None, None)
  }

  /** No failure is dropped: each is counted once, as a violation or as an unknown. */
  lemma {:induction false} EveryFailureIsCounted(patterns: Patterns, facet: Facet, limit: int)
    ensures var r := RequirementOf(patterns, facet, limit);
            r.failed + r.indeterminate == |facet.failures|
  {
    var statuses := Statuses(Outcomes(patterns, facet.failures));
    forall k | 0 <= k < |statuses| ensures statuses[k] != Passed {
      ClassificationIsSound(patterns, facet.failures[k].reason);
    }
    CountsAddUp(statuses);
  }

  /** Listed and omitted entities add up to the counted ones exactly when the limit is not negative. */
  lemma {:induction false} ListingIsExactIff(patterns: Patterns, facet: Facet, limit: int)
    ensures var r := RequirementOf(patterns, facet, limit);
            |r.entities| + r.omitted == r.failed + r.indeterminate <==> limit >= 0
  {
    EveryFailureIsCounted(patterns, facet, limit);
  }

  // ----- A requirement cannot improve when an entity gets worse -----

  /** One entity put to a facet: it passed, or it failed for a stated reason. */
  datatype Check = Check(element: Element, reason: Option<string>)

  function CheckStatus(patterns: Patterns, check: Check): Status {
    if check.reason.None? then Passed else Classify(patterns, check.reason.value).0
  }

  function CheckStatuses(patterns: Patterns, checks: seq<Check>): seq<Status> {
    seq(|checks|, i requires 0 <= i < |checks| => CheckStatus(patterns, checks[i]))
  }

  /** The facet after every check was recorded on its side. */
  function FacetOf(checks: seq<Check>): Facet {
    if checks == [] then Facet([], [])
    else
      var rest := FacetOf(checks[1..]);
      match checks[0].reason
      case None => Facet([checks[0].element] + rest.passedEntities, rest.failures)
      case Some(reason) => Facet(rest.passedEntities, [FailedCheck(checks[0].element, reason)] + rest.failures)
  }

  /** Whatever a facet holds, some list of checks left it there. */
  lemma {:induction false} EveryFacetArises(facet: Facet) returns (checks: seq<Check>)
    ensures FacetOf(checks) == facet
    decreases |facet.passedEntities| + |facet.failures|
  {
    if facet.passedEntities != [] {
      var rest := EveryFacetArises(facet.(passedEntities := facet.passedEntities[1..]));
      checks := [Check(facet.passedEntities[0], None)] + rest;
      assert checks[1..] == rest;
    } else if facet.failures != [] {
      var rest := EveryFacetArises(facet.(failures := facet.failures[1..]));
      checks := [Check(facet.failures[0].element, Some(facet.failures[0].reason))] + rest;
      assert checks[1..] == rest;
    } else {
      checks := [];
    }
  }

  lemma {:induction false} OutcomesOfCons(patterns: Patterns, failure: FailedCheck, failures: seq<FailedCheck>)
    ensures Statuses(Outcomes(patterns, [failure] + failures))
         == [Classify(patterns, failure.reason).0] + Statuses(Outcomes(patterns, failures))
  {
    hide Classify;
    var longer := Outcomes(patterns, [failure] + failures);
    var shorter := Outcomes(patterns, failures);
    assert longer[0] == OutcomeOf(patterns, failure);
    assert forall k :: 0 <= k < |shorter| ==> longer[k + 1] == shorter[k];
    assert Statuses(longer)[1..] == Statuses(shorter);
    assert Statuses(longer) == [Statuses(longer)[0]] + Statuses(longer)[1..];
  }

  lemma {:induction false} FacetCounts(patterns: Patterns, checks: seq<Check>)
    ensures var facet, statuses := FacetOf(checks), CheckStatuses(patterns, checks);
            var recorded := Statuses(Outcomes(patterns, facet.failures));
            && |facet.passedEntities| == Count(statuses, Passed)
            && Count(recorded, Failed) == Count(statuses, Failed)
            && Count(recorded, Indeterminate) == Count(statuses, Indeterminate)
  {
    hide Classify, Outcomes, Statuses;
    if checks != [] {
      var rest := checks[1..];
      FacetCounts(patterns, rest);
      assert CheckStatuses(patterns, checks)[1..] == CheckStatuses(patterns, rest);
      if checks[0].reason.Some? {
        var failure := FailedCheck(checks[0].element, checks[0].reason.value);
        ClassificationIsSound(patterns, failure.reason);
        OutcomesOfCons(patterns, failure, FacetOf(rest).failures);
        var statuses := Statuses(Outcomes(patterns, FacetOf(checks).failures));
        assert statuses[1..] == Statuses(Outcomes(patterns, FacetOf(rest).failures));
      }
    } else {
      NothingRecorded(patterns);
    }
  }

  lemma {:induction false} NothingRecorded(patterns: Patterns)
    ensures Statuses(Outcomes(patterns, [])) == []
  {
  }

  /** The counts of a requirement are the counts of the entities put to it. */
  lemma {:induction false} RequirementCounts(patterns: Patterns, checks: seq<Check>, limit: int)
    ensures var r := RequirementOf(patterns, FacetOf(checks), limit);
            var statuses := CheckStatuses(patterns, checks);
            && r.passed == Count(statuses, Passed)
            && r.failed == Count(statuses, Failed)
            && r.indeterminate == Count(statuses, Indeterminate)
            && r.status == Tally(statuses)
  {
    hide Classify, Outcomes, Statuses, Count, CheckStatuses, FacetOf;
    FacetCounts(patterns, checks);
  }

  ghost predicate ChecksWorsen(patterns: Patterns, worse: seq<Check>, better: seq<Check>) {
    PointwiseSevere(CheckStatuses(patterns, worse), CheckStatuses(patterns, better))
  }

  /** `worse` comes from `better` by making any of its entities' outcomes more severe. */
  ghost predicate FacetWorsens(patterns: Patterns, worse: Facet, better: Facet) {
    exists w, b :: worse == FacetOf(w) && better == FacetOf(b) && ChecksWorsen(patterns, w, b)
  }

  lemma {:induction false} TallyWorsens(worse: seq<Status>, better: seq<Status>)
    requires PointwiseSevere(worse, better)
    ensures AtLeastAsSevere(Tally(worse), Tally(better))
  {
    CountsWorsen(worse, better);
    CountsAddUp(worse);
    CountsAddUp(better);
  }

  lemma {:induction false} RequirementWorsens(patterns: Patterns, worse: Facet, better: Facet, limit: int)
    requires FacetWorsens(patterns, worse, better)
    ensures var w := RequirementOf(patterns, worse, limit);
            var b := RequirementOf(patterns, better, limit);
            && w.failed >= b.failed
            && w.failed + w.indeterminate >= b.failed + b.indeterminate
            && AtLeastAsSevere(w.status, b.status)
  {
    var w, b :| worse == FacetOf(w) && better == FacetOf(b) && ChecksWorsen(patterns, w, b);
    RequirementCounts(patterns, w, limit);
    RequirementCounts(patterns, b, limit);
    CountsWorsen(CheckStatuses(patterns, w), CheckStatuses(patterns, b));
    TallyWorsens(CheckStatuses(patterns, w), CheckStatuses(patterns, b));
  }

  // ----- A specification -----

  datatype Verdict = Verdict(applicability: Applicability, status: Status, reasonCode: Option<Reason>)

  function Judge(cardinality: Cardinality, matched: nat, schemaMatches: bool,
                 failed: nat, indeterminate: nat, hasRequirements: bool): Verdict
  {
    if !schemaMatches then Verdict(Undetermined, Indeterminate, Some(SchemaMismatch))
    else if matched == 0 then
      match cardinality
      case Required => Verdict(Applies, Failed, Some(NoSubjectsButRequired))
      case Prohibited => Verdict(Applies, Passed, Some(NoSubjectsAndProhibited))
      case Optional => Verdict(DoesNotApply, Indeterminate, Some(NoSubjectsNothingChecked))
    else if cardinality == Prohibited then Verdict(Applies, Failed, Some(ProhibitedSubjectsPresent))
    else if cardinality == Optional && !hasRequirements then
      Verdict(Applies, Indeterminate, Some(NoRequirementsNothingAsserted))
    else Verdict(Applies, Aggregate(matched, failed, indeterminate), None)
  }

  /** The three renderers' question has one answer: nothing was established exactly when a verdict
      is unknown for a reason decided without looking at an entity. */
  lemma {:induction false} NothingEstablishedIff(cardinality: Cardinality, matched: nat, schemaMatches: bool,
                                                 failed: nat, indeterminate: nat, hasRequirements: bool)
    ensures var v := Judge(cardinality, matched, schemaMatches, failed, indeterminate, hasRequirements);
            && (EstablishedNothing(v.reasonCode) <==> v.status == Indeterminate && v.reasonCode.Some?)
            && (v.applicability == Undetermined <==> !schemaMatches)
            && (v.status == Indeterminate && v.reasonCode.None? ==> matched > 0 && indeterminate > 0 && failed == 0)
            && (v.applicability != Applies ==> v.status == Indeterminate)
  {
  }

  datatype Specification = Specification(
    name: string, cardinality: Cardinality, applicable: seq<Element>, isIfcVersion: Option<bool>,
    requirements: seq<Facet>)

  datatype SpecificationOutcome = SpecificationOutcome(
    name: string, applicability: Applicability, status: Status, cardinality: Cardinality, matched: nat,
    reasonCode: Option<Reason>, passed: nat, failed: nat, indeterminate: nat, requirements: seq<Requirement>)

  function Requirements(patterns: Patterns, facets: seq<Facet>, limit: int): seq<Requirement> {
    seq(|facets|, i requires 0 <= i < |facets| => RequirementOf(patterns, facets[i], limit))
  }

  lemma {:induction false} RequirementAt(patterns: Patterns, facets: seq<Facet>, limit: int, k: nat)
    requires k < |facets|
    ensures |Requirements(patterns, facets, limit)| == |facets|
    ensures Requirements(patterns, facets, limit)[k] == RequirementOf(patterns, facets[k], limit)
  {
  }

  lemma {:induction false} RequirementStartsBare(patterns: Patterns, facet: Facet, limit: int)
    ensures RequirementOf(patterns, facet, limit).reasonCode == None
    ensures RequirementOf(patterns, facet, limit).caveat == None
  {
  }

  function Total<T>(items: seq<T>, amount: T -> nat): nat {
    if items == [] then 0 else amount(items[0]) + Total(items[1..], amount)
  }

  function Passes(r: Requirement): nat { r.passed }

  function Fails(r: Requirement): nat { r.failed }

  function Unknowns(r: Requirement): nat { r.indeterminate }

  predicate EvaluatedNothing(r: Requirement) {
    r.passed == 0 && r.failed == 0 && r.indeterminate == 0
  }

  function Backfilled(r: Requirement, verdict: Verdict): Requirement {
    var explained := if EvaluatedNothing(r) then r.(reasonCode := verdict.reasonCode) else r;
    if verdict.applicability == Undetermined && explained.reasonCode.None?
    then explained.(caveat := verdict.reasonCode)
    else explained
  }

  predicate SchemaMatches(spec: Specification) {
    spec.isIfcVersion != Some(false)
  }

  function VerdictOn(patterns: Patterns, spec: Specification, limit: int): Verdict {
    var requirements := Requirements(patterns, spec.requirements, limit);
    Judge(spec.cardinality, |spec.applicable|, SchemaMatches(spec),
          Total(requirements, Fails),
          Total(requirements, Unknowns), spec.requirements != [])
  }

  function SpecificationOf(patterns: Patterns, spec: Specification, limit: int): SpecificationOutcome {
    var requirements := Requirements(patterns, spec.requirements, limit);
    var verdict := VerdictOn(patterns, spec, limit);
    SpecificationOutcome(
      spec.name, verdict.applicability, verdict.status, spec.cardinality, |spec.applicable|, verdict.reasonCode,
      Total(requirements, Passes),
      Total(requirements, Fails),
      Total(requirements, Unknowns),
      seq(|requirements|, i requires 0 <= i < |requirements| => Backfilled(requirements[i], verdict)))
  }

  /** A requirement that saw no entity inherits the specification's reason; under undetermined
      applicability every requirement carries exactly one of reason and caveat, and otherwise none
      carries a caveat. No count, status or listed entity is touched. */
  lemma {:induction false} RequirementsAreExplained(patterns: Patterns, spec: Specification, limit: int, k: nat)
    requires k < |spec.requirements|
    ensures var before := RequirementOf(patterns, spec.requirements[k], limit);
            var out := SpecificationOf(patterns, spec, limit);
            && |out.requirements| == |spec.requirements|
            && var r := out.requirements[k];
            && r == before.(reasonCode := r.reasonCode, caveat := r.caveat)
            && (r.passed + r.failed + r.indeterminate == 0 ==> r.reasonCode == out.reasonCode)
            && (r.passed + r.failed + r.indeterminate > 0 ==> r.reasonCode == None)
            && (out.applicability == Undetermined ==>
                  && out.reasonCode == Some(SchemaMismatch)
                  && (r.reasonCode == out.reasonCode) != (r.caveat == out.reasonCode)
                  && (r.reasonCode.None? || r.caveat.None?))
            && (out.applicability != Undetermined ==> r.caveat == None)
  {
    hide RequirementOf, Total, Requirements;
    assert Requirements(patterns, spec.requirements, limit)[k] == RequirementOf(patterns, spec.requirements[k], limit)
      && |Requirements(patterns, spec.requirements, limit)| == |spec.requirements| by {
      RequirementAt(patterns, spec.requirements, limit, k);
    }
    assert RequirementOf(patterns, spec.requirements[k], limit).reasonCode == None
      && RequirementOf(patterns, spec.requirements[k], limit).caveat == None by {
      RequirementStartsBare(patterns, spec.requirements[k], limit);
    }
  }

  // ----- What a specification's verdict means -----

  lemma {:induction false} TotalIsZeroIff<T>(items: seq<T>, amount: T -> nat)
    ensures Total(items, amount) == 0 <==> forall k :: 0 <= k < |items| ==> amount(items[k]) == 0
  {
    if items != [] {
      TotalIsZeroIff(items[1..], amount);
      assert forall k :: 0 <= k < |items[1..]| ==> items[1..][k] == items[k + 1];
      if forall k :: 0 <= k < |items[1..]| ==> amount(items[1..][k]) == 0 {
        assert forall k :: 1 <= k < |items| ==> items[k] == items[1..][k - 1];
      }
    }
  }

  lemma {:induction false} TotalGrows<T>(small: seq<T>, large: seq<T>, amount: T -> nat)
    requires |small| == |large|
    requires forall k :: 0 <= k < |small| ==> amount(small[k]) <= amount(large[k])
    ensures Total(small, amount) <= Total(large, amount)
  {
    if small != [] {
      assert forall k :: 0 <= k < |small[1..]| ==> small[1..][k] == small[k + 1] && large[1..][k] == large[k + 1];
      TotalGrows(small[1..], large[1..], amount);
    }
  }

  function FailsOrUnknowns(r: Requirement): nat { r.failed + r.indeterminate }

  lemma {:induction false} TotalOfBoth(items: seq<Requirement>)
    ensures Total(items, Fails) + Total(items, Unknowns) == Total(items, FailsOrUnknowns)
  {
    if items != [] { TotalOfBoth(items[1..]); }
  }

  /** A violation some entity of the facet is known to commit. */
  ghost predicate HasViolation(patterns: Patterns, facet: Facet) {
    exists k :: 0 <= k < |facet.failures| && Classify(patterns, facet.failures[k].reason).0 == Failed
  }

  lemma {:induction false} FailedIffViolation(patterns: Patterns, facet: Facet, limit: int)
    ensures RequirementOf(patterns, facet, limit).failed > 0 <==> HasViolation(patterns, facet)
  {
    var statuses := Statuses(Outcomes(patterns, facet.failures));
    if HasViolation(patterns, facet) {
      var k :| 0 <= k < |facet.failures| && Classify(patterns, facet.failures[k].reason).0 == Failed;
      assert statuses[k] in statuses;
    }
  }

  /** Real subjects and a claim about them: subjects are there, and either they are required to exist
      or something is asked of them. */
  predicate Asserts(spec: Specification) {
    && spec.applicable != []
    && spec.cardinality != Prohibited
    && (spec.cardinality == Required || spec.requirements != [])
  }

  /** Compliance on evidence: no facet left an entity failed or unknown, or none was there to prohibit. */
  predicate Established(spec: Specification) {
    && SchemaMatches(spec)
    && if spec.cardinality == Prohibited then spec.applicable == []
       else Asserts(spec) && forall k :: 0 <= k < |spec.requirements| ==> spec.requirements[k].failures == []
  }

  ghost predicate Violated(patterns: Patterns, spec: Specification) {
    && SchemaMatches(spec)
    && (|| (spec.cardinality == Required && spec.applicable == [])
        || (spec.cardinality == Prohibited && spec.applicable != [])
        || (Asserts(spec) && exists k :: 0 <= k < |spec.requirements| && HasViolation(patterns, spec.requirements[k])))
  }

  lemma {:induction false} TotalsMeaning(patterns: Patterns, facets: seq<Facet>, limit: int)
    ensures var rs := Requirements(patterns, facets, limit);
            var failed := Total(rs, Fails);
            var unknown := Total(rs, Unknowns);
            && (failed > 0 <==> exists k :: 0 <= k < |facets| && HasViolation(patterns, facets[k]))
            && (failed == 0 && unknown == 0 <==> forall k :: 0 <= k < |facets| ==> facets[k].failures == [])
  {
    var rs := Requirements(patterns, facets, limit);
    TotalIsZeroIff(rs, Fails);
    TotalIsZeroIff(rs, Unknowns);
    forall k | 0 <= k < |facets|
      ensures rs[k].failed > 0 <==> HasViolation(patterns, facets[k])
      ensures rs[k].failed + rs[k].indeterminate == |facets[k].failures|
    {
      FailedIffViolation(patterns, facets[k], limit);
      EveryFailureIsCounted(patterns, facets[k], limit);
    }
  }

  /** A specification passes exactly on established compliance and fails exactly on a known violation. */
  lemma {:induction false} SpecificationVerdictIff(patterns: Patterns, spec: Specification, limit: int)
    ensures var out := SpecificationOf(patterns, spec, limit);
            && (out.status == Passed <==> Established(spec))
            && (out.status == Failed <==> Violated(patterns, spec))
  {
    TotalsMeaning(patterns, spec.requirements, limit);
  }

  // ----- The report -----

  datatype Report = Report(
    status: Status, specificationsPassed: nat, specificationsFailed: nat, specificationsIndeterminate: nat,
    passed: nat, failed: nat, indeterminate: nat, specifications: seq<SpecificationOutcome>)

  function SpecificationsOf(patterns: Patterns, specs: seq<Specification>, limit: int): seq<SpecificationOutcome> {
    seq(|specs|, i requires 0 <= i < |specs| => SpecificationOf(patterns, specs[i], limit))
  }

  function SpecStatuses(outcomes: seq<SpecificationOutcome>): seq<Status> {
    seq(|outcomes|, i requires 0 <= i < |outcomes| => outcomes[i].status)
  }

  function SpecPasses(s: SpecificationOutcome): nat { s.passed }

  function SpecFails(s: SpecificationOutcome): nat { s.failed }

  function SpecUnknowns(s: SpecificationOutcome): nat { s.indeterminate }

  function RunCheck(patterns: Patterns, specs: seq<Specification>, limit: int): Report {
    var outcomes := SpecificationsOf(patterns, specs, limit);
    var statuses := SpecStatuses(outcomes);
    Report(Tally(statuses), Count(statuses, Passed), Count(statuses, Failed), Count(statuses, Indeterminate),
           Total(outcomes, SpecPasses),
           Total(outcomes, SpecFails),
           Total(outcomes, SpecUnknowns),
           outcomes)
  }

  /** No PASS without evidence, and no FAIL without a violation, over any rule set. */
  lemma {:induction false} ReportVerdictIff(patterns: Patterns, specs: seq<Specification>, limit: int)
    ensures var report := RunCheck(patterns, specs, limit);
            && (report.status == Passed <==> specs != [] && forall k :: 0 <= k < |specs| ==> Established(specs[k]))
            && (report.status == Failed <==> exists k :: 0 <= k < |specs| && Violated(patterns, specs[k]))
  {
    var statuses := SpecStatuses(SpecificationsOf(patterns, specs, limit));
    TallyMeaning(statuses);
    forall k | 0 <= k < |specs|
      ensures statuses[k] == Passed <==> Established(specs[k])
      ensures statuses[k] == Failed <==> Violated(patterns, specs[k])
    {
      SpecificationVerdictIff(patterns, specs[k], limit);
    }
    if exists k :: 0 <= k < |specs| && Violated(patterns, specs[k]) {
      var k :| 0 <= k < |specs| && Violated(patterns, specs[k]);
      assert statuses[k] in statuses;
    }
  }

  function FailureTotal(facet: Facet): nat { |facet.failures| }

  function PassedTotal(facet: Facet): nat { |facet.passedEntities| }

  function FailureCount(spec: Specification): nat {
    Total(spec.requirements, FailureTotal)
  }

  function PassedCount(spec: Specification): nat {
    Total(spec.requirements, PassedTotal)
  }

  lemma {:induction false} SpecificationCounts(patterns: Patterns, facets: seq<Facet>, limit: int)
    ensures var rs := Requirements(patterns, facets, limit);
            && Total(rs, Passes) == Total(facets, PassedTotal)
            && Total(rs, Fails) + Total(rs, Unknowns)
               == Total(facets, FailureTotal)
  {
    hide Aggregate, Classify, Count, Outcomes, Statuses;
    if facets != [] {
      SpecificationCounts(patterns, facets[1..], limit);
      EveryFailureIsCounted(patterns, facets[0], limit);
      var rs := Requirements(patterns, facets, limit);
      assert rs[1..] == Requirements(patterns, facets[1..], limit);
      assert rs[0].passed == |facets[0].passedEntities|;
    }
  }

  /** Every specification is counted once, and every evaluated entity is counted once per facet. */
  lemma {:induction false} ReportCountsAreExact(patterns: Patterns, specs: seq<Specification>, limit: int)
    ensures var report := RunCheck(patterns, specs, limit);
            && report.specificationsPassed + report.specificationsFailed + report.specificationsIndeterminate == |specs|
            && report.passed == Total(specs, PassedCount)
            && report.failed + report.indeterminate == Total(specs, FailureCount)
  {
    CountsAddUp(SpecStatuses(SpecificationsOf(patterns, specs, limit)));
    ReportTotals(patterns, specs, limit);
  }

  lemma {:induction false} ReportTotals(patterns: Patterns, specs: seq<Specification>, limit: int)
    ensures var outcomes := SpecificationsOf(patterns, specs, limit);
            && Total(outcomes, SpecPasses) == Total(specs, PassedCount)
            && Total(outcomes, SpecFails)
               + Total(outcomes, SpecUnknowns) == Total(specs, FailureCount)
  {
    if specs != [] {
      ReportTotals(patterns, specs[1..], limit);
      SpecificationCounts(patterns, specs[0].requirements, limit);
      assert SpecificationsOf(patterns, specs, limit)[1..] == SpecificationsOf(patterns, specs[1..], limit);
    }
  }

  // ----- Severity is monotone all the way up -----

  ghost predicate SpecWorsens(patterns: Patterns, worse: Specification, better: Specification) {
    && worse == better.(requirements := worse.requirements)
    && |worse.requirements| == |better.requirements|
    && forall k :: 0 <= k < |worse.requirements| ==>
         FacetWorsens(patterns, worse.requirements[k], better.requirements[k])
  }

  lemma {:induction false} JudgeWorsens(
    cardinality: Cardinality, matched: nat, schemaMatches: bool, worseFailed: nat, worseUnknown: nat,
    failed: nat, unknown: nat, hasRequirements: bool)
    requires failed <= worseFailed && failed + unknown <= worseFailed + worseUnknown
    ensures var worse := Judge(cardinality, matched, schemaMatches, worseFailed, worseUnknown, hasRequirements);
            var better := Judge(cardinality, matched, schemaMatches, failed, unknown, hasRequirements);
            AtLeastAsSevere(worse.status, better.status)
  {
  }

  lemma {:induction false} SpecificationWorsens(patterns: Patterns, worse: Specification, better: Specification,
                                                limit: int)
    requires SpecWorsens(patterns, worse, better)
    ensures AtLeastAsSevere(SpecificationOf(patterns, worse, limit).status,
                            SpecificationOf(patterns, better, limit).status)
  {
    var w := Requirements(patterns, worse.requirements, limit);
    var b := Requirements(patterns, better.requirements, limit);
    forall k | 0 <= k < |w|
      ensures b[k].failed <= w[k].failed
      ensures b[k].failed + b[k].indeterminate <= w[k].failed + w[k].indeterminate
    {
      RequirementWorsens(patterns, worse.requirements[k], better.requirements[k], limit);
    }
    TotalGrows(b, w, Fails);
    TotalGrows(b, w, FailsOrUnknowns);
    TotalOfBoth(w);
    TotalOfBoth(b);
    JudgeWorsens(worse.cardinality, |worse.applicable|, SchemaMatches(worse), Total(w, Fails), Total(w, Unknowns),
                 Total(b, Fails), Total(b, Unknowns), worse.requirements != []);
  }

  /** Making any entity outcome anywhere more severe never makes the report's verdict less severe. */
  lemma {:induction false} ReportWorsens(patterns: Patterns, worse: seq<Specification>, better: seq<Specification>,
                                         limit: int)
    requires |worse| == |better|
    requires forall k :: 0 <= k < |worse| ==> SpecWorsens(patterns, worse[k], better[k])
    ensures AtLeastAsSevere(RunCheck(patterns, worse, limit).status, RunCheck(patterns, better, limit).status)
  {
    var w := SpecStatuses(SpecificationsOf(patterns, worse, limit));
    var b := SpecStatuses(SpecificationsOf(patterns, better, limit));
    forall k | 0 <= k < |w| ensures AtLeastAsSevere(w[k], b[k]) {
      SpecificationWorsens(patterns, worse[k], better[k], limit);
    }
    TallyWorsens(w, b);
  }

  lemma {:induction false} FacetWorsensItself(patterns: Patterns, facet: Facet)
    ensures FacetWorsens(patterns, facet, facet)
  {
    var checks := EveryFacetArises(facet);
    assert ChecksWorsen(patterns, checks, checks);
  }

  /** In particular, one facet recording more severe outcomes never improves the report. */
  lemma {:induction false} OneFacetWorsens(patterns: Patterns, specs: seq<Specification>, s: nat, k: nat, facet: Facet,
                                           limit: int)
    requires s < |specs| && k < |specs[s].requirements| && FacetWorsens(patterns, facet, specs[s].requirements[k])
    ensures var worse := specs[s := specs[s].(requirements := specs[s].requirements[k := facet])];
      AtLeastAsSevere(RunCheck(patterns, worse, limit).status, RunCheck(patterns, specs, limit).status)
  {
    hide RunCheck, FacetWorsens;
    var worse := specs[s := specs[s].(requirements := specs[s].requirements[k := facet])];
    forall i | 0 <= i < |specs|
      ensures SpecWorsens(patterns, worse[i], specs[i])
    {
      forall j | 0 <= j < |specs[i].requirements|
        ensures FacetWorsens(patterns, worse[i].requirements[j], specs[i].requirements[j])
      {
        FacetWorsensItself(patterns, specs[i].requirements[j]);
      }
    }
    ReportWorsens(patterns, worse, specs, limit);
  }

  // ----- Validation puts every subject to every facet -----

  function Elements(checks: seq<Check>): (r: seq<Element>)
    ensures |r| == |checks|
  {
    seq(|checks|, i requires 0 <= i < |checks| => checks[i].element)
  }

  /** The facet recorded each subject once, as passed or as failed. */
  ghost predicate Covers(facet: Facet, subjects: seq<Element>) {
    exists checks :: FacetOf(checks) == facet && multiset(Elements(checks)) == multiset(subjects)
  }

  /** What `specs.validate(model)` leaves behind: `run_check` reads facets only after it. */
  ghost predicate Validated(spec: Specification) {
    forall k :: 0 <= k < |spec.requirements| ==> Covers(spec.requirements[k], spec.applicable)
  }

  lemma {:induction false} FacetSize(checks: seq<Check>)
    ensures |FacetOf(checks).passedEntities| + |FacetOf(checks).failures| == |checks|
  {
    if checks != [] {
      FacetSize(checks[1..]);
    }
  }

  /** After validation every requirement's counts add up to the subjects matched. */
  lemma {:induction false} EverySubjectIsCounted(patterns: Patterns, spec: Specification, limit: int, k: nat)
    requires Validated(spec) && k < |spec.requirements|
    ensures var out := SpecificationOf(patterns, spec, limit);
      var r := out.requirements[k];
      r.passed + r.failed + r.indeterminate == out.matched
  {
    hide RequirementOf;
    var facet := spec.requirements[k];
    assert Covers(facet, spec.applicable);
    var checks :| FacetOf(checks) == facet && multiset(Elements(checks)) == multiset(spec.applicable);
    assert |Elements(checks)| == |multiset(Elements(checks))| == |multiset(spec.applicable)| == |spec.applicable|;
    FacetSize(checks);
    RequirementsAreExplained(patterns, spec, limit, k);
    EveryFailureIsCounted(patterns, facet, limit);
    PassesAreCounted(patterns, facet, limit);
  }

  lemma {:induction false} PassesAreCounted(patterns: Patterns, facet: Facet, limit: int)
    ensures RequirementOf(patterns, facet, limit).passed == |facet.passedEntities|
  {
  }

  /** So no requirement contradicts a passing verdict: under a passing, not prohibited
      specification every requirement passes, on every subject. */
  lemma {:induction false} PassingIsUnanimous(patterns: Patterns, spec: Specification, limit: int, k: nat)
    requires Validated(spec) && SpecificationOf(patterns, spec, limit).status == Passed
    requires spec.cardinality != Prohibited && k < |spec.requirements|
    ensures var out := SpecificationOf(patterns, spec, limit);
      var r := out.requirements[k];
      r.status == Passed && r.passed == out.matched > 0 && r.reasonCode == None && r.caveat == None
  {
    SpecificationVerdictIff(patterns, spec, limit);
    EverySubjectIsCounted(patterns, spec, limit, k);
    RequirementsAreExplained(patterns, spec, limit, k);
    EveryFailureIsCounted(patterns, spec.requirements[k], limit);
  }

  // ----- Facets that validation did not fill -----

  /** Without validation behind it, a requirement of a passing specification passes exactly when its
      facet passed some entity; otherwise it is reported unknown, beside the passing verdict. */
  lemma {:induction false} PassingRequirements(patterns: Patterns, spec: Specification, limit: int, k: nat)
    requires SpecificationOf(patterns, spec, limit).status == Passed
    requires spec.cardinality != Prohibited && k < |spec.requirements|
    ensures var r := SpecificationOf(patterns, spec, limit).requirements[k];
            && (r.status == Passed <==> spec.requirements[k].passedEntities != [])
            && (r.status != Passed ==> r.status == Indeterminate && r.reasonCode == None)
  {
    SpecificationVerdictIff(patterns, spec, limit);
    RequirementsAreExplained(patterns, spec, limit, k);
    EveryFailureIsCounted(patterns, spec.requirements[k], limit);
  }

  /** So `PassingIsUnanimous` needs validation: one subject, and a facet that recorded nothing. */
  lemma {:induction false} PassOverSilentFacet(patterns: Patterns)
    ensures var spec := Specification("", Optional, [Element(None, "IFCDOOR")], None, [Facet([], [])]);
            var out := SpecificationOf(patterns, spec, 500);
            && out.status == Passed && out.requirements[0].status == Indeterminate
            && out.requirements[0].reasonCode == None
            && !Validated(spec)
  {
    var spec := Specification("", Optional, [Element(None, "IFCDOOR")], None, [Facet([], [])]);
    SpecificationVerdictIff(patterns, spec, 500);
    PassingRequirements(patterns, spec, 500, 0);
    if Validated(spec) {
      EverySubjectIsCounted(patterns, spec, 500, 0);
    }
  }
}
