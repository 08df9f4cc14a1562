/** First-wins deduplication of rules (`_deduplicate_rules`): a repeated rule is not dropped but
    recorded, in place, as corroboration of the rule that was seen first. */
module RuleDeduplication {
  import opened Sorting
  import opened Strings

  /** A JSON field: text, or any other value (by its canonical text). */
  datatype Field = Text(text: string) | Other(json: string)

  /** What a rule record says. `provenance` and `decision` are kept whole. */
  datatype RuleContent = RuleContent(
    recordId: string, catalogKey: string, provenance: string, decision: string,
    candidateId: string, wording: Field, sourceSpans: seq<string>, qualifierSpans: seq<string>,
    kind: Field, subject: Field, modality: Field, comparator: Field, value: Field, printedUnit: Field,
    conditions: Field, exceptions: Field, references: Field, notes: Field, gloss: Field)

  datatype SemanticIdentity = SemanticIdentity(
    catalogKey: string, sourceSpans: seq<string>, qualifierSpans: seq<string>,
    kind: Field, subject: Field, modality: Field, comparator: Field, value: Field, printedUnit: Field,
    conditions: Field, exceptions: Field, references: Field, notes: Field, gloss: Field)

  datatype Corroboration = Corroboration(recordId: string, provenance: string, decision: string, candidateId: string,
                                         wording: Field)

  /** Case folding and whitespace collapsing, as one function on text. */
  type Normaliser = string -> string

  function Normalised(field: Field, normalise: Normaliser): Field {
    if field.Text? then Text(normalise(field.text)) else field
  }

  /** `_rule_semantic_identity`. */
  function Identity(c: RuleContent, normalise: Normaliser): SemanticIdentity {
    SemanticIdentity(
      c.catalogKey, SortBy(c.sourceSpans, StringLeq), SortBy(c.qualifierSpans, StringLeq),
      c.kind, Normalised(c.subject, normalise), c.modality, c.comparator, c.value,
      Normalised(c.printedUnit, normalise), c.conditions, c.exceptions, c.references, c.notes,
      Normalised(c.gloss, normalise))
  }

  function CorroborationOf(c: RuleContent): Corroboration {
    Corroboration(c.recordId, c.provenance, c.decision, c.candidateId, c.wording)
  }

  /** Two texts agree up to case and whitespace; other values agree when they are equal. */
  predicate SameUpToCase(a: Field, b: Field, normalise: Normaliser) {
    match (a, b)
    case (Text(x), Text(y)) => normalise(x) == normalise(y)
    case (Other(x), Other(y)) => x == y
    case _ => false
  }

  /** Two rules are one exactly when they are of one catalogue entry, cite the same spans in any
      order, agree in every statement, and agree up to case and whitespace in subject, printed unit
      and gloss. Wording, candidate, decision and provenance do not matter. */
  lemma {:induction false} IdentityIff(a: RuleContent, b: RuleContent, normalise: Normaliser)
    ensures Identity(a, normalise) == Identity(b, normalise) <==>
      && a.catalogKey == b.catalogKey
      && multiset(a.sourceSpans) == multiset(b.sourceSpans) && multiset(a.qualifierSpans) == multiset(b.qualifierSpans)
      && a.kind == b.kind && a.modality == b.modality && a.comparator == b.comparator && a.value == b.value
      && a.conditions == b.conditions && a.exceptions == b.exceptions && a.references == b.references
      && a.notes == b.notes
      && SameUpToCase(a.subject, b.subject, normalise) && SameUpToCase(a.printedUnit, b.printedUnit, normalise)
      && SameUpToCase(a.gloss, b.gloss, normalise)
  {
    hide SortBy;
    SortedAlike(a.sourceSpans, b.sourceSpans);
    SortedAlike(a.qualifierSpans, b.qualifierSpans);
  }

  lemma {:induction false} SortedAlike(a: seq<string>, b: seq<string>)
    ensures SortBy(a, StringLeq) == SortBy(b, StringLeq) <==> multiset(a) == multiset(b)
  {
    if multiset(a) == multiset(b) {
      StringOrder();
      SortBySorted(a, StringLeq);
      SortBySorted(b, StringLeq);
      SortedUnique(SortBy(a, StringLeq), SortBy(b, StringLeq), StringLeq);
    }
  }

  // ----- What deduplication means -----

  function Identities(contents: seq<RuleContent>, normalise: Normaliser): (keys: seq<SemanticIdentity>)
    ensures |keys| == |contents|
    ensures forall i :: 0 <= i < |keys| ==> keys[i] == Identity(contents[i], normalise)
  {
    seq(|contents|, i requires 0 <= i < |contents| => Identity(contents[i], normalise))
  }

  /** No earlier rule has this rule's identity. */
  predicate IsFirst(keys: seq<SemanticIdentity>, i: nat)
    requires i < |keys|
  {
    forall k :: 0 <= k < i ==> keys[k] != keys[i]
  }

  /** Positions in increasing order, all below `n`. */
  predicate Positions(r: seq<nat>, n: nat) {
    && (forall a :: 0 <= a < |r| ==> r[a] < n)
    && (forall a, b :: 0 <= a < b < |r| ==> r[a] < r[b])
  }

  /** Positions of the first `n` rules that are kept. */
  function Kept(keys: seq<SemanticIdentity>, n: nat): (r: seq<nat>)
    requires n <= |keys|
    ensures Positions(r, n)
  {
    if n == 0 then []
    else if IsFirst(keys, n - 1) then Kept(keys, n - 1) + [n - 1]
    else Kept(keys, n - 1)
  }

  /** Positions below `n` of later rules with the identity of rule `i`. */
  function Repeats(keys: seq<SemanticIdentity>, i: nat, n: nat): (r: seq<nat>)
    requires i < |keys| && n <= |keys|
    ensures Positions(r, n)
  {
    if n <= i + 1 then []
    else if keys[i] == keys[n - 1] then Repeats(keys, i, n - 1) + [n - 1]
    else Repeats(keys, i, n - 1)
  }

  lemma {:induction false} KeptMembers(keys: seq<SemanticIdentity>, n: nat, i: nat)
    requires n <= |keys|
    ensures i in Kept(keys, n) <==> i < n && IsFirst(keys, i)
  {
    hide IsFirst, Positions;
    if n > 0 {
      KeptMembers(keys, n - 1, i);
    }
  }

  lemma {:induction false} RepeatsMembers(keys: seq<SemanticIdentity>, i: nat, n: nat, j: nat)
    requires i < |keys| && n <= |keys|
    ensures j in Repeats(keys, i, n) <==> i < j < n && keys[i] == keys[j]
  {
    hide Positions;
    if n > i + 1 {
      RepeatsMembers(keys, i, n - 1, j);
    }
  }

  function Corroborations(contents: seq<RuleContent>, positions: seq<nat>): (r: seq<Corroboration>)
    requires Positions(positions, |contents|)
    ensures |r| == |positions|
  {
    seq(|positions|, k requires 0 <= k < |positions| => CorroborationOf(contents[positions[k]]))
  }

  lemma {:induction false} PositionsGrow(positions: seq<nat>, n: nat, m: nat)
    requires Positions(positions, n) && n <= m
    ensures Positions(positions, m)
  {
  }

  /** What rule `i` has gathered once the first `n` rules are processed. */
  function Gathered(contents: seq<RuleContent>, keys: seq<SemanticIdentity>, i: nat, n: nat): seq<Corroboration>
    requires i < |contents| == |keys| && n <= |contents|
  {
    PositionsGrow(Repeats(keys, i, n), n, |contents|);
    if i < n && IsFirst(keys, i) then Corroborations(contents, Repeats(keys, i, n)) else []
  }

  /** What a kept rule gathers: for every later rule of its identity, in order, that rule's record,
      provenance, decision, candidate and wording. */
  lemma {:induction false} GatheredSays(contents: seq<RuleContent>, keys: seq<SemanticIdentity>, i: nat, k: nat)
    requires i < |contents| == |keys| && IsFirst(keys, i) && k < |Repeats(keys, i, |contents|)|
    ensures var gathered, j := Gathered(contents, keys, i, |contents|), Repeats(keys, i, |contents|)[k];
      && |gathered| == |Repeats(keys, i, |contents|)| && i < j < |contents| && keys[i] == keys[j]
      && gathered[k].recordId == contents[j].recordId && gathered[k].provenance == contents[j].provenance
      && gathered[k].decision == contents[j].decision && gathered[k].candidateId == contents[j].candidateId
      && gathered[k].wording == contents[j].wording
  {
    hide Repeats;
    RepeatsMembers(keys, i, |contents|, Repeats(keys, i, |contents|)[k]);
  }

  lemma {:induction false} FirstExists(keys: seq<SemanticIdentity>, j: nat) returns (i: nat)
    requires j < |keys|
    ensures i <= j && IsFirst(keys, i) && keys[i] == keys[j]
    decreases j
  {
    if IsFirst(keys, j) {
      i := j;
    } else {
      var k :| 0 <= k < j && keys[k] == keys[j];
      i := FirstExists(keys, k);
    }
  }

  /** Kept rules come in input order and have pairwise distinct identities. */
  lemma {:induction false} KeptAreDistinct(keys: seq<SemanticIdentity>, a: nat, b: nat)
    requires a < b < |Kept(keys, |keys|)|
    ensures Kept(keys, |keys|)[a] < Kept(keys, |keys|)[b] < |keys|
    ensures keys[Kept(keys, |keys|)[a]] != keys[Kept(keys, |keys|)[b]]
  {
    var kept := Kept(keys, |keys|);
    assert kept[b] in kept;
    KeptMembers(keys, |keys|, kept[b]);
  }

  /** Rule `j` is listed as corroboration of the kept rule `k`. */
  predicate Corroborates(keys: seq<SemanticIdentity>, j: nat, k: nat) {
    k < |keys| && k in Kept(keys, |keys|) && j in Repeats(keys, k, |keys|)
  }

  /** Conservation: every rule is kept and corroborates nothing, or is not kept and is listed as
      corroboration of exactly one kept rule, the first with its identity. */
  lemma {:induction false} EveryRuleIsConserved(keys: seq<SemanticIdentity>, j: nat) returns (i: nat)
    requires j < |keys|
    ensures i < |keys| && i in Kept(keys, |keys|) && keys[i] == keys[j]
    ensures j in Kept(keys, |keys|) ==> i == j && forall k :: !Corroborates(keys, j, k)
    ensures j !in Kept(keys, |keys|) ==> forall k :: Corroborates(keys, j, k) <==> k == i
  {
    i := FirstExists(keys, j);
    KeptMembers(keys, |keys|, i);
    KeptMembers(keys, |keys|, j);
    RepeatsMembers(keys, i, |keys|, j);
    forall k: nat | Corroborates(keys, j, k)
      ensures k == i && i < j
    {
      KeptMembers(keys, |keys|, k);
      RepeatsMembers(keys, k, |keys|, j);
    }
  }

  // ----- The loop, on records updated in place -----

  class RuleRecord {
    const content: RuleContent
    var corroborating: seq<Corroboration>

    constructor (content: RuleContent)
      ensures this.content == content && corroborating == []
    {
      this.content := content;
      corroborating := [];
    }
  }

  function Contents(rules: seq<RuleRecord>): (r: seq<RuleContent>)
    ensures |r| == |rules|
    ensures forall i :: 0 <= i < |r| ==> r[i] == rules[i].content
  {
    seq(|rules|, i requires 0 <= i < |rules| => rules[i].content)
  }

  predicate DistinctRecords(rules: seq<RuleRecord>) {
    forall i, j :: 0 <= i < j < |rules| ==> rules[i] != rules[j]
  }

  /** The kept records. */
  function Picked(rules: seq<RuleRecord>, positions: seq<nat>): (r: seq<RuleRecord>)
    requires Positions(positions, |rules|)
    ensures |r| == |positions|
    ensures forall k :: 0 <= k < |r| ==> r[k] == rules[positions[k]]
  {
    seq(|positions|, k requires 0 <= k < |positions| => rules[positions[k]])
  }

  /** The dictionary of first rules, after the first `n`. */
  ghost predicate Indexes(byIdentity: map<SemanticIdentity, nat>, keys: seq<SemanticIdentity>, n: nat)
    requires n <= |keys|
  {
    && (forall i :: 0 <= i < n ==> keys[i] in byIdentity)
    && (forall id :: id in byIdentity ==>
          byIdentity[id] < n && keys[byIdentity[id]] == id && IsFirst(keys, byIdentity[id]))
  }

  /** Every record has gathered, on top of what it started with, the repeats among the first `n`. */
  ghost predicate Gathers(rules: seq<RuleRecord>, start: seq<seq<Corroboration>>, keys: seq<SemanticIdentity>, n: nat)
    requires |rules| == |keys| == |start| && n <= |rules|
    reads rules
  {
    forall i :: 0 <= i < |rules| ==> rules[i].corroborating == start[i] + Gathered(Contents(rules), keys, i, n)
  }

  /** `_deduplicate_rules`. */
  method Deduplicate(rules: seq<RuleRecord>, normalise: Normaliser) returns (unique: seq<RuleRecord>, collapsed: nat)
    requires DistinctRecords(rules)
    modifies set r | r in rules
    ensures Positions(Kept(Identities(Contents(rules), normalise), |rules|), |rules|)
    ensures unique == Picked(rules, Kept(Identities(Contents(rules), normalise), |rules|))
    ensures |unique| + collapsed == |rules|
    ensures forall i :: 0 <= i < |rules| ==>
      rules[i].corroborating
      == old(rules[i].corroborating) + Gathered(Contents(rules), Identities(Contents(rules), normalise), i, |rules|)
  {
    hide Identity, Gathered, IsFirst, Kept, Positions, Indexes;
    ghost var keys := Identities(Contents(rules), normalise);
    ghost var start := seq(|rules|, i requires 0 <= i < |rules| reads set r | r in rules => rules[i].corroborating);
    unique, collapsed := [], 0;
    var byIdentity: map<SemanticIdentity, nat> := map[];
    Nothing(rules, Contents(rules), keys);
    assert Gathers(rules, start, keys, 0);
    for n := 0 to |rules|
      invariant Positions(Kept(keys, n), |rules|)
      invariant unique == Picked(rules, Kept(keys, n))
      invariant |unique| + collapsed == n
      invariant Indexes(byIdentity, keys, n)
      invariant Gathers(rules, start, keys, n)
    {
      hide Gathers;
      var identity := Identity(rules[n].content, normalise);
      assert identity == keys[n];
      IndexStep(byIdentity, keys, n);
      KeptStep(keys, n, |rules|);
      if identity !in byIdentity {
        NothingGathered(rules, start, keys, n);
        byIdentity := byIdentity[identity := n];
        unique := unique + [rules[n]];
        continue;
      }
      Corroborate(rules, byIdentity[identity], n, start, keys);
      collapsed := collapsed + 1;
    }
  }

  lemma {:induction false} NothingGathered(rules: seq<RuleRecord>, start: seq<seq<Corroboration>>,
                                           keys: seq<SemanticIdentity>, n: nat)
    requires |rules| == |keys| == |start| && n < |rules| && Gathers(rules, start, keys, n)
    requires forall i :: 0 <= i < n ==> keys[i] != keys[n]
    ensures Gathers(rules, start, keys, n + 1)
  {
    hide Gathered, IsFirst;
    GatheredStep(Contents(rules), keys, n);
  }

  /** Record rule `n` as corroboration of the kept rule `first`. */
  method Corroborate(rules: seq<RuleRecord>, first: nat, n: nat, ghost start: seq<seq<Corroboration>>,
                     ghost keys: seq<SemanticIdentity>)
    requires DistinctRecords(rules) && first < |rules| && n < |rules|
    requires |rules| == |keys| == |start| && Gathers(rules, start, keys, n)
    requires forall i :: 0 <= i < n && IsFirst(keys, i) && keys[i] == keys[n] <==> i == first
    modifies rules[first]
    ensures Gathers(rules, start, keys, n + 1)
  {
    hide Gathered, IsFirst;
    GatheredStep(Contents(rules), keys, n);
    var existing := rules[first];
    assert forall i :: 0 <= i < |rules| && i != first ==> rules[i] != existing;
    existing.corroborating := existing.corroborating + [CorroborationOf(rules[n].content)];
  }

  lemma {:induction false} Nothing(rules: seq<RuleRecord>, contents: seq<RuleContent>, keys: seq<SemanticIdentity>)
    requires |contents| == |keys| == |rules|
    ensures Kept(keys, 0) == [] && Positions(Kept(keys, 0), |rules|) && Indexes(map[], keys, 0)
    ensures forall i :: 0 <= i < |contents| ==> Gathered(contents, keys, i, 0) == []
  {
  }

  lemma {:induction false} KeptStep(keys: seq<SemanticIdentity>, n: nat, m: nat)
    requires n < |keys| <= m
    ensures Kept(keys, n + 1) == if IsFirst(keys, n) then Kept(keys, n) + [n] else Kept(keys, n)
    ensures Positions(Kept(keys, n + 1), m)
  {
    hide IsFirst;
  }

  lemma {:induction false} IndexStep(byIdentity: map<SemanticIdentity, nat>, keys: seq<SemanticIdentity>, n: nat)
    requires n < |keys| && Indexes(byIdentity, keys, n)
    ensures keys[n] !in byIdentity <==> IsFirst(keys, n)
    ensures keys[n] !in byIdentity ==>
      Indexes(byIdentity[keys[n] := n], keys, n + 1) && forall i :: 0 <= i < n ==> keys[i] != keys[n]
    ensures keys[n] in byIdentity ==>
      && Indexes(byIdentity, keys, n + 1)
      && byIdentity[keys[n]] < n
      && (forall i :: 0 <= i < n && IsFirst(keys, i) && keys[i] == keys[n] <==> i == byIdentity[keys[n]])
  {
  }

  /** Processing rule `n` adds one corroboration to the kept rule it repeats, if any. */
  lemma {:induction false} GatheredStep(contents: seq<RuleContent>, keys: seq<SemanticIdentity>, n: nat)
    requires n < |contents| == |keys|
    ensures forall i :: 0 <= i < |contents| ==>
      Gathered(contents, keys, i, n + 1)
      == if i < n && IsFirst(keys, i) && keys[i] == keys[n]
         then Gathered(contents, keys, i, n) + [CorroborationOf(contents[n])] else Gathered(contents, keys, i, n)
  {
    hide IsFirst, Positions;
    forall i | 0 <= i < |contents|
      ensures Gathered(contents, keys, i, n + 1)
      == if i < n && IsFirst(keys, i) && keys[i] == keys[n]
         then Gathered(contents, keys, i, n) + [CorroborationOf(contents[n])] else Gathered(contents, keys, i, n)
    {
      if i < n && IsFirst(keys, i) {
        PositionsGrow(Repeats(keys, i, n), n, |contents|);
        PositionsGrow(Repeats(keys, i, n + 1), n + 1, |contents|);
        CorroborationsSnoc(contents, Repeats(keys, i, n), n);
      }
    }
  }

  lemma {:induction false} CorroborationsSnoc(contents: seq<RuleContent>, positions: seq<nat>, n: nat)
    requires Positions(positions, n) && n < |contents|
    ensures Positions(positions, |contents|) && Positions(positions + [n], |contents|)
    ensures Corroborations(contents, positions + [n])
      == Corroborations(contents, positions) + [CorroborationOf(contents[n])]
  {
  }

  // ----- The publication's own check -----

  /** The duplicate-rule and quality check of `validate_semantic_publication`. */
  method CheckRules(contents: seq<RuleContent>, normalise: Normaliser, clean: RuleContent -> bool) returns (ok: bool)
    ensures ok <==>
      (forall i :: 0 <= i < |contents| ==> clean(contents[i])) && NoRepeats(Identities(contents, normalise))
  {
    hide Identity;
    ghost var keys := Identities(contents, normalise);
    var seen: set<SemanticIdentity> := {};
    for n := 0 to |contents|
      invariant forall i :: 0 <= i < n ==> clean(contents[i])
      invariant forall i, j :: 0 <= i < j < n ==> keys[i] != keys[j]
      invariant forall id :: id in seen <==> exists i :: 0 <= i < n && keys[i] == id
    {
      if !clean(contents[n]) {
        return false;
      }
      var identity := Identity(contents[n], normalise);
      if identity in seen {
        return false;
      }
      seen := seen + {identity};
    }
    return true;
  }

  function Published(contents: seq<RuleContent>, normalise: Normaliser): (r: seq<RuleContent>)
    ensures |r| == |Kept(Identities(contents, normalise), |contents|)|
  {
    var kept := Kept(Identities(contents, normalise), |contents|);
    seq(|kept|, k requires 0 <= k < |kept| => contents[kept[k]])
  }

  /** What deduplication keeps, the publication's duplicate check accepts. */
  lemma {:induction false} DeduplicatedRulesPass(contents: seq<RuleContent>, normalise: Normaliser)
    ensures NoRepeats(Identities(Published(contents, normalise), normalise))
  {
    hide Identity;
    var keys := Identities(contents, normalise);
    var published := Published(contents, normalise);
    forall i, j | 0 <= i < j < |published|
      ensures Identities(published, normalise)[i] != Identities(published, normalise)[j]
    {
      KeptAreDistinct(keys, i, j);
    }
  }
}
