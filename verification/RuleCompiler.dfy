/** Compiling a rule's comparator or bounds object into an IDS restriction (`rule_ir.py`, `rule_compiler.py`):
    when the rendered limits read back, a value satisfies the rule if and only if it satisfies the restriction; the
    result does not depend on the order in which the bounds object lists its keys. */
module RuleCompiler {
  import opened Wrappers
  import opened Ranges

  /** A value of the building model. */
  datatype Value = Num(number: real) | Str(text: string)

  /** A JSON scalar as Python holds it: an `int`, a finite `float`, a `str`, or anything else with its `str`. */
  datatype Literal = Int(n: int) | Float(x: real) | Text(s: string) | Other(shown: string)

  /** A JSON value under a bounds key. */
  datatype Bound = Scalar(limit: Literal) | Values(limits: seq<Literal>)

  /** A JSON object: its keys in the order they were written, each once. */
  type Bounds = seq<(string, Bound)>

  /** One facet of an `xs:restriction`, as text. */
  datatype Facet = Facet(name: string, text: string)

  datatype CompileError =
    | UnsupportedFacet | EmptyEnumeration | NoFacets | UnsupportedComparator | InvalidRule | NoVersions
    | EmptyName | NotFinite | UnsupportedDatatype | BadBounds | UnsupportedKind

  const FACET_ORDER := ["minInclusive", "minExclusive", "maxInclusive", "maxExclusive", "enumeration"]

  const BASES: map<string, string> :=
    map["double" := "xs:double", "decimal" := "xs:decimal", "integer" := "xs:integer", "string" := "xs:string"]

  const NUMERIC_DATATYPES: set<string> := {"double", "decimal", "integer"}

  // ----- Bounds objects -----

  predicate DistinctKeys(bounds: Bounds) {
    forall i, j :: 0 <= i < j < |bounds| ==> bounds[i].0 != bounds[j].0
  }

  function Lookup(bounds: Bounds, key: string): Option<Bound> {
    if bounds == [] then None
    else if bounds[0].0 == key then Some(bounds[0].1)
    else Lookup(bounds[1..], key)
  }

  predicate OnlyKnown(bounds: Bounds) {
    forall i :: 0 <= i < |bounds| ==> bounds[i].0 in FACET_ORDER
  }

  function LimitsOf(bound: Bound): seq<Literal> {
    if bound.Scalar? then [bound.limit] else bound.limits
  }

  /** Every scalar of the object. */
  predicate HasLimit(bounds: Bounds, limit: Literal) {
    exists i :: 0 <= i < |bounds| && limit in LimitsOf(bounds[i].1)
  }

  // ----- What a bounds object means -----

  /** The value a JSON scalar denotes. */
  function ValueOf(limit: Literal): Option<Value> {
    match limit
    case Int(n) => Some(Num(n as real))
    case Float(x) => Some(Num(x))
    case Text(s) => Some(Str(s))
    case Other(_) => None
  }

  predicate Meets(name: string, limit: Option<Value>, v: Value) {
    if name == "enumeration" then limit == Some(v)
    else
      && limit.Some? && limit.value.Num? && v.Num?
      && match name
         case "minInclusive" => v.number >= limit.value.number
         case "minExclusive" => v.number > limit.value.number
         case "maxInclusive" => v.number <= limit.value.number
         case "maxExclusive" => v.number < limit.value.number
         case _ => false
  }

  /** One entry of a bounds object: an order limit, or a choice of values. */
  predicate MeetsBound(name: string, bound: Bound, v: Value) {
    exists limit :: limit in LimitsOf(bound) && Meets(name, ValueOf(limit), v)
  }

  /** A value satisfies a bounds object when it meets every entry. */
  predicate Satisfies(bounds: Bounds, v: Value) {
    forall i :: 0 <= i < |bounds| ==> MeetsBound(bounds[i].0, bounds[i].1, v)
  }

  // ----- Texts -----

  /** `str` of a scalar; `repr` is that of a float. */
  function StrOf(limit: Literal, repr: real -> string): string {
    match limit
    case Int(n) => IntText(n)
    case Float(x) => repr(x)
    case Text(s) => s
    case Other(shown) => shown
  }

  function IntText(n: int): string {
    if n < 0 then "-" + Decimal(-n) else Decimal(n)
  }

  predicate AllDigits(s: string) {
    forall k :: 0 <= k < |s| ==> '0' <= s[k] <= '9'
  }

  /** The lexical space of `xs:integer`: digits after an optional sign. */
  function ReadInteger(text: string): Option<int> {
    var signed := text != "" && (text[0] == '-' || text[0] == '+');
    var digits := if signed then text[1..] else text;
    if digits == "" || !AllDigits(digits) then None
    else
      var magnitude: int := DecimalValue(digits);
      Some(if signed && text[0] == '-' then -magnitude else magnitude)
  }

  /** What a text denotes under a base type, if it is in its lexical space; `number` reads `xs:double` or
      `xs:decimal`. */
  function Read(base: string, number: string -> Option<real>, text: string): Option<Value> {
    if base == "xs:string" then Some(Str(text))
    else if base == "xs:integer" then
      var n := ReadInteger(text);
      if n.Some? then Some(Num(n.value as real)) else None
    else
      var x := number(text);
      if x.Some? then Some(Num(x.value)) else None
  }

  /** The rendered limit denotes the limit again. */
  predicate ReadsBack(base: string, number: string -> Option<real>, repr: real -> string, limit: Literal) {
    Read(base, number, StrOf(limit, repr)) == ValueOf(limit)
  }

  /** Python shows every finite float with a point or an exponent. */
  ghost predicate ShowsFloats(repr: real -> string) {
    forall x: real :: '.' in repr(x) || 'e' in repr(x)
  }

  lemma {:induction false} IntegersReadBack(n: int)
    ensures ReadInteger(IntText(n)) == Some(n)
  {
    hide Decimal, DecimalValue;
    var magnitude: nat := if n < 0 then -n else n;
    var digits := Decimal(magnitude);
    DecimalRoundTrip(magnitude);
    assert '0' <= digits[0] <= '9';
    if n < 0 {
      assert IntText(n)[0] == '-' && IntText(n)[1..] == digits;
    }
  }

  lemma {:induction false} PointsAreNotIntegers(text: string)
    requires '.' in text || 'e' in text
    ensures ReadInteger(text) == None
  {
    var k :| 0 <= k < |text| && (text[k] == '.' || text[k] == 'e');
    if text[0] == '-' || text[0] == '+' {
      assert text[1..][k - 1] == text[k];
    }
  }

  // ----- What a restriction means -----

  /** XML Schema: every facet's text is in the lexical space of the base, and strings have no order facets. */
  predicate WellFormed(facets: seq<Facet>, base: string, number: string -> Option<real>) {
    forall i :: 0 <= i < |facets| ==>
      && Read(base, number, facets[i].text).Some?
      && (base == "xs:string" ==> facets[i].name == "enumeration")
  }

  /** XML Schema: order facets are conjoined, enumeration facets are alternatives. */
  predicate Allows(facets: seq<Facet>, base: string, number: string -> Option<real>, v: Value) {
    && (forall i :: 0 <= i < |facets| && facets[i].name != "enumeration" ==>
          Meets(facets[i].name, Read(base, number, facets[i].text), v))
    && ((exists i :: 0 <= i < |facets| && facets[i].name == "enumeration") ==>
          exists i :: 0 <= i < |facets| && facets[i].name == "enumeration"
            && Read(base, number, facets[i].text) == Some(v))
  }

  // ----- Admitting bounds -----

  /** The types the rule schema requires: order limits are scalars, the enumeration is a list. */
  predicate Typed(bounds: Bounds) {
    forall i :: 0 <= i < |bounds| ==> (bounds[i].1.Values? <==> bounds[i].0 == "enumeration")
  }

  /** The rule schema on a bounds object: known facets, at least one, scalar limits, a non-empty list as enumeration. */
  predicate SchemaOk(bounds: Bounds) {
    && OnlyKnown(bounds) && bounds != [] && Typed(bounds)
    && forall i :: 0 <= i < |bounds| ==> LimitsOf(bounds[i].1) != []
  }

  /** `_validate_bound_value`. */
  predicate LimitOk(datatype_: string, limit: Literal) {
    if datatype_ in NUMERIC_DATATYPES then
      limit.Int? || (limit.Float? && (datatype_ == "integer" ==> limit.x.Floor as real == limit.x))
    else limit.Text? && limit.s != ""
  }

  ghost predicate Admitted(datatype_: string, bounds: Bounds) {
    SchemaOk(bounds) && forall limit :: HasLimit(bounds, limit) ==> LimitOk(datatype_, limit)
  }

  /** `_validate_property_bounds`, behind the rule schema. */
  method CheckBounds(datatype_: string, bounds: Bounds) returns (r: Outcome<CompileError>)
    requires DistinctKeys(bounds)
    ensures r.Pass? <==> Admitted(datatype_, bounds)
  {
    if !SchemaOk(bounds) {
      return Fail(BadBounds);
    }
    for n := 0 to |FACET_ORDER|
      invariant forall m :: 0 <= m < n ==> EntryOk(datatype_, Lookup(bounds, FACET_ORDER[m]))
    {
      hide LimitOk, Lookup, SchemaOk;
      var bound := Lookup(bounds, FACET_ORDER[n]);
      if bound.None? {
        continue;
      }
      var limits := LimitsOf(bound.value);
      for k := 0 to |limits|
        invariant forall j :: 0 <= j < k ==> LimitOk(datatype_, limits[j])
      {
        if !LimitOk(datatype_, limits[k]) {
          EntriesAreLimits(bounds, FACET_ORDER[n], limits[k]);
          return Fail(BadBounds);
        }
      }
    }
    hide LimitOk, Lookup, SchemaOk;
    forall limit | HasLimit(bounds, limit)
      ensures LimitOk(datatype_, limit)
    {
      var i :| 0 <= i < |bounds| && limit in LimitsOf(bounds[i].1);
      LookupAt(bounds, i);
      SchemaKnows(bounds, i);
      var m :| 0 <= m < |FACET_ORDER| && FACET_ORDER[m] == bounds[i].0;
      assert EntryOk(datatype_, Lookup(bounds, FACET_ORDER[m]));
    }
    return Pass;
  }

  predicate EntryOk(datatype_: string, bound: Option<Bound>) {
    bound.Some? ==> forall limit :: limit in LimitsOf(bound.value) ==> LimitOk(datatype_, limit)
  }

  lemma {:induction false} SchemaKnows(bounds: Bounds, i: nat)
    requires SchemaOk(bounds) && i < |bounds|
    ensures bounds[i].0 in FACET_ORDER
  {
  }

  lemma {:induction false} EntriesAreLimits(bounds: Bounds, key: string, limit: Literal)
    requires Lookup(bounds, key).Some? && limit in LimitsOf(Lookup(bounds, key).value)
    ensures HasLimit(bounds, limit)
  {
    LookupFinds(bounds, key);
  }

  // ----- Compiling bounds -----

  /** A JSON value as `str` renders it for an order facet; order facets are scalars by schema. */
  function ScalarOf(bound: Bound): Literal {
    if bound.Scalar? then bound.limit else Other("")
  }

  function Rendered(limits: seq<Literal>, repr: real -> string): (r: seq<Facet>)
    ensures |r| == |limits|
  {
    seq(|limits|, i requires 0 <= i < |limits| => Facet("enumeration", StrOf(limits[i], repr)))
  }

  function FacetsFor(name: string, bound: Option<Bound>, repr: real -> string): seq<Facet> {
    if bound.None? then []
    else if name == "enumeration" then if bound.value.Values? then Rendered(bound.value.limits, repr) else []
    else [Facet(name, StrOf(ScalarOf(bound.value), repr))]
  }

  /** The facets of the first `n` names of the fixed order. */
  function FacetsUpTo(bounds: Bounds, n: nat, repr: real -> string): seq<Facet>
    requires n <= |FACET_ORDER|
  {
    if n == 0 then []
    else FacetsUpTo(bounds, n - 1, repr) + FacetsFor(FACET_ORDER[n - 1], Lookup(bounds, FACET_ORDER[n - 1]), repr)
  }

  function Facets(bounds: Bounds, repr: real -> string): seq<Facet> {
    FacetsUpTo(bounds, |FACET_ORDER|, repr)
  }

  /** What the compiler requires: known facets, at least one, and a non-empty list as enumeration. */
  predicate Compilable(bounds: Bounds) {
    && OnlyKnown(bounds)
    && bounds != []
    && var choice := Lookup(bounds, "enumeration");
    choice.Some? ==> choice.value.Values? && choice.value.limits != []
  }

  lemma {:induction false} LookupFinds(bounds: Bounds, key: string)
    ensures Lookup(bounds, key).Some? <==> exists i :: 0 <= i < |bounds| && bounds[i].0 == key
    ensures Lookup(bounds, key).Some? ==> exists i :: 0 <= i < |bounds| && bounds[i] == (key, Lookup(bounds, key).value)
  {
    if bounds != [] && bounds[0].0 != key {
      LookupFinds(bounds[1..], key);
      if Lookup(bounds[1..], key).Some? {
        var i :| 0 <= i < |bounds[1..]| && bounds[1..][i] == (key, Lookup(bounds[1..], key).value);
        assert bounds[i + 1] == bounds[1..][i];
      }
      if exists i :: 0 <= i < |bounds| && bounds[i].0 == key {
        var i :| 0 <= i < |bounds| && bounds[i].0 == key;
        assert bounds[1..][i - 1] == bounds[i];
      }
    } else if bounds != [] {
      assert bounds[0] == (key, Lookup(bounds, key).value);
    }
  }

  lemma {:induction false} LookupAt(bounds: Bounds, i: nat)
    requires DistinctKeys(bounds) && i < |bounds|
    ensures Lookup(bounds, bounds[i].0) == Some(bounds[i].1)
  {
    if i > 0 {
      assert bounds[0].0 != bounds[i].0;
      LookupAt(bounds[1..], i - 1);
    }
  }

  lemma {:induction false} FacetsMembers(bounds: Bounds, n: nat, repr: real -> string, f: Facet)
    requires n <= |FACET_ORDER|
    ensures f in FacetsUpTo(bounds, n, repr)
       <==> exists k :: 0 <= k < n && f in FacetsFor(FACET_ORDER[k], Lookup(bounds, FACET_ORDER[k]), repr)
  {
    hide FacetsFor, Lookup;
    if n > 0 {
      FacetsMembers(bounds, n - 1, repr, f);
    }
  }

  /** Known facets, if any, give facets. */
  lemma {:induction false} NoFacetsIffEmpty(bounds: Bounds, repr: real -> string)
    requires OnlyKnown(bounds)
    requires var choice := Lookup(bounds, "enumeration"); choice.Some? ==>
      choice.value.Values? && choice.value.limits != []
    ensures FacetsUpTo(bounds, |FACET_ORDER|, repr) == [] <==> bounds == []
  {
    var facets := FacetsUpTo(bounds, |FACET_ORDER|, repr);
    if bounds != [] {
      LookupFinds(bounds, bounds[0].0);
      var k :| 0 <= k < |FACET_ORDER| && FACET_ORDER[k] == bounds[0].0;
      var own := FacetsFor(FACET_ORDER[k], Lookup(bounds, FACET_ORDER[k]), repr);
      assert own != [];
      FacetsMembers(bounds, |FACET_ORDER|, repr, own[0]);
    } else if facets != [] {
      FacetsMembers(bounds, |FACET_ORDER|, repr, facets[0]);
    }
  }

  /** `_bounds_facets`. */
  method BoundsFacets(bounds: Bounds, repr: real -> string) returns (r: Result<seq<Facet>, CompileError>)
    ensures r.Success? <==> Compilable(bounds)
    ensures r.Success? ==> r.value == Facets(bounds, repr)
  {
    hide StrOf;
    if !OnlyKnown(bounds) {
      return Failure(UnsupportedFacet);
    }
    var facets: seq<Facet> := [];
    for n := 0 to |FACET_ORDER|
      invariant facets == FacetsUpTo(bounds, n, repr)
      invariant n == |FACET_ORDER| ==>
        var choice := Lookup(bounds, "enumeration");
        choice.Some? ==> choice.value.Values? && choice.value.limits != []
    {
      hide Lookup, OnlyKnown;
      var name := FACET_ORDER[n];
      var bound := Lookup(bounds, name);
      if bound.None? {
        continue;
      }
      if name == "enumeration" {
        if !bound.value.Values? || bound.value.limits == [] {
          return Failure(EmptyEnumeration);
        }
        var before := facets;
        for k := 0 to |bound.value.limits|
          invariant facets == before + Rendered(bound.value.limits, repr)[..k]
        {
          facets := facets + [Facet("enumeration", StrOf(bound.value.limits[k], repr))];
        }
      } else {
        facets := facets + [Facet(name, StrOf(ScalarOf(bound.value), repr))];
      }
    }
    NoFacetsIffEmpty(bounds, repr);
    if facets == [] {
      return Failure(NoFacets);
    }
    return Success(facets);
  }

  // ----- Meaning preserved -----

  /** The restriction compiled from a bounds object allows exactly the values that satisfy it, when its own limits
      read back. */
  lemma {:induction false} BoundsKeepMeaning(bounds: Bounds, base: string, repr: real -> string,
                                             number: string -> Option<real>, v: Value)
    requires DistinctKeys(bounds) && SchemaOk(bounds)
    requires forall limit :: HasLimit(bounds, limit) ==> ReadsBack(base, number, repr, limit)
    ensures Allows(Facets(bounds, repr), base, number, v) <==> Satisfies(bounds, v)
  {
    hide Facets, Meets, ReadsBack;
    if Satisfies(bounds, v) {
      SatisfiedAllows(bounds, base, repr, number, v);
    }
    if Allows(Facets(bounds, repr), base, number, v) {
      forall i | 0 <= i < |bounds|
        ensures MeetsBound(bounds[i].0, bounds[i].1, v)
      {
        AllowedMeets(bounds, base, repr, number, v, i);
      }
    }
  }

  /** Where a facet of the restriction comes from. */
  lemma {:induction false} FacetFrom(bounds: Bounds, repr: real -> string, f: Facet) returns (i: nat, limit: Literal)
    requires DistinctKeys(bounds) && Typed(bounds) && f in Facets(bounds, repr)
    ensures i < |bounds| && bounds[i].0 == f.name && limit in LimitsOf(bounds[i].1)
    ensures f.text == StrOf(limit, repr) && HasLimit(bounds, limit)
  {
    FacetsMembers(bounds, |FACET_ORDER|, repr, f);
    var k :| 0 <= k < |FACET_ORDER| && f in FacetsFor(FACET_ORDER[k], Lookup(bounds, FACET_ORDER[k]), repr);
    LookupFinds(bounds, FACET_ORDER[k]);
    i :| 0 <= i < |bounds| && bounds[i] == (FACET_ORDER[k], Lookup(bounds, FACET_ORDER[k]).value);
    limit :| limit in LimitsOf(bounds[i].1) && f.text == StrOf(limit, repr);
  }

  /** Every limit's facet is in the restriction. */
  lemma {:induction false} FacetOf(bounds: Bounds, repr: real -> string, i: nat, limit: Literal)
    requires DistinctKeys(bounds) && Typed(bounds) && OnlyKnown(bounds) && i < |bounds|
    requires limit in LimitsOf(bounds[i].1)
    ensures Facet(bounds[i].0, StrOf(limit, repr)) in Facets(bounds, repr)
  {
    hide FacetsUpTo;
    LookupAt(bounds, i);
    var n :| 0 <= n < |FACET_ORDER| && FACET_ORDER[n] == bounds[i].0;
    var own := FacetsFor(FACET_ORDER[n], Lookup(bounds, FACET_ORDER[n]), repr);
    var k :| 0 <= k < |LimitsOf(bounds[i].1)| && LimitsOf(bounds[i].1)[k] == limit;
    assert own[k] == Facet(bounds[i].0, StrOf(limit, repr));
    FacetsMembers(bounds, |FACET_ORDER|, repr, own[k]);
  }

  lemma {:induction false} SatisfiedAllows(bounds: Bounds, base: string, repr: real -> string,
                                           number: string -> Option<real>, v: Value)
    requires DistinctKeys(bounds) && SchemaOk(bounds)
    requires forall limit :: HasLimit(bounds, limit) ==> ReadsBack(base, number, repr, limit)
    requires Satisfies(bounds, v)
    ensures Allows(Facets(bounds, repr), base, number, v)
  {
    hide Facets, Meets, Read, StrOf;
    var facets := Facets(bounds, repr);
    forall i | 0 <= i < |facets| && facets[i].name != "enumeration"
      ensures Meets(facets[i].name, Read(base, number, facets[i].text), v)
    {
      assert facets[i] in facets;
      var b, limit := FacetFrom(bounds, repr, facets[i]);
      assert MeetsBound(bounds[b].0, bounds[b].1, v);
    }
    if c :| 0 <= c < |facets| && facets[c].name == "enumeration" {
      assert facets[c] in facets;
      var b, _ := FacetFrom(bounds, repr, facets[c]);
      assert MeetsBound(bounds[b].0, bounds[b].1, v);
      var limit :| limit in LimitsOf(bounds[b].1) && Meets("enumeration", ValueOf(limit), v);
      EnumerationMeans(ValueOf(limit), v);
      FacetOf(bounds, repr, b, limit);
      assert HasLimit(bounds, limit);
      var j :| 0 <= j < |facets| && facets[j] == Facet("enumeration", StrOf(limit, repr));
      assert Read(base, number, facets[j].text) == Some(v);
    }
  }

  lemma {:induction false} EnumerationMeans(limit: Option<Value>, v: Value)
    ensures Meets("enumeration", limit, v) <==> limit == Some(v)
  {
  }

  lemma {:induction false} AllowedMeets(bounds: Bounds, base: string, repr: real -> string,
                                        number: string -> Option<real>, v: Value, i: nat)
    requires DistinctKeys(bounds) && SchemaOk(bounds) && i < |bounds|
    requires forall limit :: HasLimit(bounds, limit) ==> ReadsBack(base, number, repr, limit)
    requires Allows(Facets(bounds, repr), base, number, v)
    ensures MeetsBound(bounds[i].0, bounds[i].1, v)
  {
    hide Facets, Meets, Read, StrOf;
    var facets := Facets(bounds, repr);
    var some := LimitsOf(bounds[i].1)[0];
    assert some in LimitsOf(bounds[i].1);
    FacetOf(bounds, repr, i, some);
    var f := Facet(bounds[i].0, StrOf(some, repr));
    var j :| 0 <= j < |facets| && facets[j] == f;
    if bounds[i].0 != "enumeration" {
      assert HasLimit(bounds, some);
    } else {
      var c :| 0 <= c < |facets| && facets[c].name == "enumeration" && Read(base, number, facets[c].text) == Some(v);
      assert facets[c] in facets;
      var b, limit := FacetFrom(bounds, repr, facets[c]);
      assert b == i;
      EnumerationMeans(ValueOf(limit), v);
      assert Meets(bounds[i].0, ValueOf(limit), v);
    }
  }

  // ----- When the restriction is well formed -----

  /** Exactly when every limit's text is in the lexical space of the base and strings are only enumerated. */
  lemma {:induction false} WellFormedIff(bounds: Bounds, base: string, repr: real -> string,
                                         number: string -> Option<real>)
    requires DistinctKeys(bounds) && SchemaOk(bounds)
    ensures WellFormed(Facets(bounds, repr), base, number) <==>
      && (forall limit :: HasLimit(bounds, limit) ==> Read(base, number, StrOf(limit, repr)).Some?)
      && (base == "xs:string" ==> forall i :: 0 <= i < |bounds| ==> bounds[i].0 == "enumeration")
  {
    hide Facets, Read, StrOf;
    var facets := Facets(bounds, repr);
    if WellFormed(facets, base, number) {
      forall i, limit | 0 <= i < |bounds| && limit in LimitsOf(bounds[i].1)
        ensures Read(base, number, StrOf(limit, repr)).Some?
      {
        FacetOf(bounds, repr, i, limit);
      }
      forall i | 0 <= i < |bounds| && base == "xs:string"
        ensures bounds[i].0 == "enumeration"
      {
        FacetOf(bounds, repr, i, LimitsOf(bounds[i].1)[0]);
      }
    }
    if !WellFormed(facets, base, number) {
      var j :| 0 <= j < |facets| && !(
        && Read(base, number, facets[j].text).Some?
        && (base == "xs:string" ==> facets[j].name == "enumeration"));
      assert facets[j] in facets;
      var i, limit := FacetFrom(bounds, repr, facets[j]);
    }
  }

  /** An admitted `integer` rule compiles to a well-formed restriction if and only if every limit is written as an
      integer, and then keeps its meaning. */
  lemma {:induction false} IntegerRules(bounds: Bounds, repr: real -> string, number: string -> Option<real>)
    requires DistinctKeys(bounds) && Admitted("integer", bounds) && ShowsFloats(repr)
    ensures WellFormed(Facets(bounds, repr), BASES["integer"], number)
       <==> forall limit :: HasLimit(bounds, limit) ==> limit.Int?
    ensures WellFormed(Facets(bounds, repr), BASES["integer"], number) ==>
      forall v :: Allows(Facets(bounds, repr), BASES["integer"], number, v) <==> Satisfies(bounds, v)
  {
    hide Facets, WellFormed, Allows, Satisfies, SchemaOk, ReadInteger, IntText;
    WellFormedIff(bounds, "xs:integer", repr, number);
    forall limit | HasLimit(bounds, limit)
      ensures limit.Int? <==> Read("xs:integer", number, StrOf(limit, repr)).Some?
      ensures limit.Int? ==> ReadsBack("xs:integer", number, repr, limit)
    {
      if limit.Int? {
        IntegersReadBack(limit.n);
      } else {
        assert LimitOk("integer", limit);
        PointsAreNotIntegers(repr(limit.x));
      }
    }
    if forall limit :: HasLimit(bounds, limit) ==> limit.Int? {
      forall v
        ensures Allows(Facets(bounds, repr), "xs:integer", number, v) <==> Satisfies(bounds, v)
      {
        BoundsKeepMeaning(bounds, "xs:integer", repr, number, v);
      }
    }
  }

  /** An admitted `string` rule compiles to a well-formed restriction if and only if it only enumerates, and then
      keeps its meaning. */
  lemma {:induction false} StringRules(bounds: Bounds, repr: real -> string, number: string -> Option<real>)
    requires DistinctKeys(bounds) && Admitted("string", bounds)
    ensures WellFormed(Facets(bounds, repr), BASES["string"], number)
       <==> forall i :: 0 <= i < |bounds| ==> bounds[i].0 == "enumeration"
    ensures forall v :: Allows(Facets(bounds, repr), BASES["string"], number, v) <==> Satisfies(bounds, v)
  {
    hide Facets, WellFormed, Allows, Satisfies, SchemaOk;
    WellFormedIff(bounds, "xs:string", repr, number);
    assert forall limit :: HasLimit(bounds, limit) ==> LimitOk("string", limit);
    forall v
      ensures Allows(Facets(bounds, repr), "xs:string", number, v) <==> Satisfies(bounds, v)
    {
      BoundsKeepMeaning(bounds, "xs:string", repr, number, v);
    }
  }

  /** An admitted `double` or `decimal` rule whose limits read back is well formed and keeps its meaning. */
  lemma {:induction false} DecimalRules(datatype_: string, bounds: Bounds, repr: real -> string,
                                        number: string -> Option<real>)
    requires datatype_ == "double" || datatype_ == "decimal"
    requires DistinctKeys(bounds) && Admitted(datatype_, bounds)
    ensures WellFormed(Facets(bounds, repr), BASES[datatype_], number)
       <==> forall limit :: HasLimit(bounds, limit) ==> number(StrOf(limit, repr)).Some?
    ensures (forall limit :: HasLimit(bounds, limit) ==> ReadsBack(BASES[datatype_], number, repr, limit)) ==>
      && WellFormed(Facets(bounds, repr), BASES[datatype_], number)
      && forall v :: Allows(Facets(bounds, repr), BASES[datatype_], number, v) <==> Satisfies(bounds, v)
  {
    hide Facets, WellFormed, Allows, Satisfies, SchemaOk, StrOf;
    var base := BASES[datatype_];
    WellFormedIff(bounds, base, repr, number);
    assert forall limit :: HasLimit(bounds, limit) ==> LimitOk(datatype_, limit);
    if forall limit :: HasLimit(bounds, limit) ==> ReadsBack(base, number, repr, limit) {
      forall v
        ensures Allows(Facets(bounds, repr), base, number, v) <==> Satisfies(bounds, v)
      {
        BoundsKeepMeaning(bounds, base, repr, number, v);
      }
    }
  }

  /** A range from 9.0 to 40.0, as shown and read by any Python and any XML Schema processor that agree on these two
      numbers: the restriction allows exactly that range. */
  lemma {:induction false} RangeRule(repr: real -> string, number: string -> Option<real>, v: Value)
    requires repr(9.0) == "9.0" && number("9.0") == Some(9.0)
    requires repr(40.0) == "40.0" && number("40.0") == Some(40.0)
    ensures var range: Bounds := [("maxInclusive", Scalar(Float(40.0))), ("minInclusive", Scalar(Float(9.0)))];
      && Admitted("double", range)
      && Facets(range, repr) == [Facet("minInclusive", "9.0"), Facet("maxInclusive", "40.0")]
      && (Allows(Facets(range, repr), "xs:double", number, v) <==> v.Num? && 9.0 <= v.number <= 40.0)
  {
    hide Allows;
    var range: Bounds := [("maxInclusive", Scalar(Float(40.0))), ("minInclusive", Scalar(Float(9.0)))];
    assert FACET_ORDER[0] == "minInclusive" && FACET_ORDER[2] == "maxInclusive";
    var first := Facet("minInclusive", "9.0");
    assert FacetsUpTo(range, 1, repr) == [first];
    assert FacetsUpTo(range, 2, repr) == [first];
    assert FacetsUpTo(range, 3, repr) == [first, Facet("maxInclusive", "40.0")];
    assert FacetsUpTo(range, 4, repr) == FacetsUpTo(range, 3, repr);
    BoundsKeepMeaning(range, "xs:double", repr, number, v);
    var low, high := range[1], range[0];
    assert Satisfies(range, v) <==> MeetsBound(low.0, low.1, v) && MeetsBound(high.0, high.1, v);
    assert Float(9.0) in LimitsOf(low.1) && Float(40.0) in LimitsOf(high.1);
  }

  /** Two admitted rules whose restrictions XML Schema rejects: an integer written `9.0`, and an order limit on
      strings. */
  lemma {:induction false} AdmittedButIllFormed(repr: real -> string, number: string -> Option<real>)
    requires ShowsFloats(repr)
    ensures var nine: Bounds := [("minInclusive", Scalar(Float(9.0)))];
      Admitted("integer", nine) && !WellFormed(Facets(nine, repr), BASES["integer"], number)
    ensures var fromA: Bounds := [("minInclusive", Scalar(Text("A")))];
      Admitted("string", fromA) && !WellFormed(Facets(fromA, repr), BASES["string"], number)
  {
    hide Facets, WellFormed, ReadInteger;
    var nine: Bounds := [("minInclusive", Scalar(Float(9.0)))];
    var fromA: Bounds := [("minInclusive", Scalar(Text("A")))];
    assert FACET_ORDER[0] == "minInclusive";
    assert Float(9.0) in LimitsOf(nine[0].1);
    assert HasLimit(nine, Float(9.0));
    IntegerRules(nine, repr, number);
    StringRules(fromA, repr, number);
    assert fromA[0].0 != "enumeration";
  }

  // ----- Comparators -----

  const COMPARATORS: set<string> := {"eq", "equals", "gt", "gte", "lt", "lte"}

  /** What a rule's comparator demands of a value. */
  predicate Compares(comparator: string, limit: Option<Value>, v: Value) {
    if comparator == "eq" || comparator == "equals" then limit == Some(v)
    else
      && limit.Some? && limit.value.Num? && v.Num?
      && match comparator
         case "gt" => v.number > limit.value.number
         case "gte" => v.number >= limit.value.number
         case "lt" => v.number < limit.value.number
         case "lte" => v.number <= limit.value.number
         case _ => false
  }

  /** `_scalar_facet`. */
  function ScalarFacet(comparator: string, limit: Literal, repr: real -> string): Facet
    requires comparator in COMPARATORS
  {
    var name := match comparator
      case "gt" => "minExclusive"
      case "gte" => "minInclusive"
      case "lt" => "maxExclusive"
      case "lte" => "maxInclusive"
      case _ => "enumeration";
    Facet(name, StrOf(limit, repr))
  }

  lemma {:induction false} OneFacet(comparator: string, limit: Literal, base: string, repr: real -> string,
                                    number: string -> Option<real>, v: Value)
    requires comparator in COMPARATORS
    ensures Allows([ScalarFacet(comparator, limit, repr)], base, number, v)
       <==> Compares(comparator, Read(base, number, StrOf(limit, repr)), v)
  {
    hide Read, StrOf;
    var facets := [ScalarFacet(comparator, limit, repr)];
    assert facets[0].text == StrOf(limit, repr);
    assert facets[0].name == "enumeration" <==> comparator == "eq" || comparator == "equals";
  }

  /** The one-facet restriction of a comparator allows exactly the values it demands, if and only if the rendered
      limit reads back. */
  lemma {:induction false} ComparatorsKeepMeaning(comparator: string, limit: Literal, base: string,
                                                  repr: real -> string, number: string -> Option<real>)
    requires comparator in COMPARATORS && (limit.Int? || limit.Float?)
    ensures (forall v :: Allows([ScalarFacet(comparator, limit, repr)], base, number, v)
                    <==> Compares(comparator, ValueOf(limit), v))
       <==> ReadsBack(base, number, repr, limit)
  {
    hide Allows, ScalarFacet, Read, StrOf;
    var read := Read(base, number, StrOf(limit, repr));
    forall v
      ensures Allows([ScalarFacet(comparator, limit, repr)], base, number, v) <==> Compares(comparator, read, v)
    {
      OneFacet(comparator, limit, base, repr, number, v);
    }
    if read != ValueOf(limit) {
      var v := Apart(comparator, ValueOf(limit).value.number, read);
      assert !(Allows([ScalarFacet(comparator, limit, repr)], base, number, v)
          <==> Compares(comparator, ValueOf(limit), v));
    }
  }

  /** A value that tells two limits apart. */
  lemma {:induction false} Apart(comparator: string, x: real, read: Option<Value>) returns (v: Value)
    requires comparator in COMPARATORS && read != Some(Num(x))
    ensures Compares(comparator, Some(Num(x)), v) != Compares(comparator, read, v)
  {
    if read.None? || read.value.Str? || comparator == "eq" || comparator == "equals" {
      v := Num(if comparator == "gt" then x + 1.0 else if comparator == "lt" then x - 1.0 else x);
    } else if (comparator == "gt" || comparator == "lte") == (read.value.number > x) {
      v := read.value;
    } else {
      v := Num(x);
    }
  }

  // ----- Key order -----

  /** The same keys with the same values, in any order. */
  ghost predicate SameEntries(a: Bounds, b: Bounds) {
    forall key :: Lookup(a, key) == Lookup(b, key)
  }

  /** The entries in the fixed facet order. */
  function CanonicalUpTo(bounds: Bounds, n: nat): Bounds
    requires n <= |FACET_ORDER|
  {
    if n == 0 then []
    else
      var bound := Lookup(bounds, FACET_ORDER[n - 1]);
      CanonicalUpTo(bounds, n - 1) + if bound.Some? then [(FACET_ORDER[n - 1], bound.value)] else []
  }

  /** `_canonical_bounds`. */
  method CanonicalBounds(bounds: Bounds) returns (r: Bounds)
    ensures r == CanonicalUpTo(bounds, |FACET_ORDER|)
  {
    r := [];
    for n := 0 to |FACET_ORDER|
      invariant r == CanonicalUpTo(bounds, n)
    {
      var bound := Lookup(bounds, FACET_ORDER[n]);
      if bound.Some? {
        r := r + [(FACET_ORDER[n], bound.value)];
      }
    }
  }

  /** Canonical bounds and facets do not depend on key order. */
  lemma {:induction false} KeyOrderIsIrrelevant(a: Bounds, b: Bounds, n: nat, repr: real -> string)
    requires SameEntries(a, b) && n <= |FACET_ORDER|
    ensures CanonicalUpTo(a, n) == CanonicalUpTo(b, n)
    ensures FacetsUpTo(a, n, repr) == FacetsUpTo(b, n, repr)
  {
    hide FacetsFor, Lookup;
    if n > 0 {
      KeyOrderIsIrrelevant(a, b, n - 1, repr);
    }
  }

  lemma {:induction false} CanonicalMembers(bounds: Bounds, n: nat, entry: (string, Bound))
    requires n <= |FACET_ORDER|
    ensures entry in CanonicalUpTo(bounds, n)
       <==> exists k :: 0 <= k < n && FACET_ORDER[k] == entry.0 && Lookup(bounds, entry.0) == Some(entry.1)
  {
    hide Lookup;
    if n > 0 {
      CanonicalMembers(bounds, n - 1, entry);
      var bound := Lookup(bounds, FACET_ORDER[n - 1]);
      if entry.0 == FACET_ORDER[n - 1] && bound == Some(entry.1) {
        assert entry == (FACET_ORDER[n - 1], bound.value);
      }
    }
  }

  /** The canonical form loses nothing: it holds exactly the entries of the bounds object. */
  lemma {:induction false} CanonicalKeepsEntries(bounds: Bounds, entry: (string, Bound))
    requires DistinctKeys(bounds) && OnlyKnown(bounds)
    ensures entry in CanonicalUpTo(bounds, |FACET_ORDER|) <==> entry in bounds
  {
    hide CanonicalUpTo;
    CanonicalMembers(bounds, |FACET_ORDER|, entry);
    if entry in bounds {
      var i :| 0 <= i < |bounds| && bounds[i] == entry;
      LookupAt(bounds, i);
      var k :| 0 <= k < |FACET_ORDER| && FACET_ORDER[k] == entry.0;
    }
    if Lookup(bounds, entry.0) == Some(entry.1) {
      LookupFinds(bounds, entry.0);
      var i :| 0 <= i < |bounds| && bounds[i] == (entry.0, Lookup(bounds, entry.0).value);
      assert bounds[i] == entry;
    }
  }

  /** The canonical form identifies the bounds object, up to the order of its keys. */
  lemma {:induction false} CanonicalIdentifies(a: Bounds, b: Bounds)
    requires DistinctKeys(a) && OnlyKnown(a) && DistinctKeys(b) && OnlyKnown(b)
    ensures CanonicalUpTo(a, |FACET_ORDER|) == CanonicalUpTo(b, |FACET_ORDER|) <==> SameEntries(a, b)
  {
    hide CanonicalUpTo, Lookup, DistinctKeys, OnlyKnown;
    if SameEntries(a, b) {
      KeyOrderIsIrrelevant(a, b, |FACET_ORDER|, _ => "");
    }
    if CanonicalUpTo(a, |FACET_ORDER|) == CanonicalUpTo(b, |FACET_ORDER|) {
      forall key
        ensures Lookup(a, key) == Lookup(b, key)
      {
        FoundInBoth(a, b, key);
        FoundInBoth(b, a, key);
      }
    }
  }

  lemma {:induction false} FoundInBoth(a: Bounds, b: Bounds, key: string)
    requires DistinctKeys(a) && OnlyKnown(a) && DistinctKeys(b) && OnlyKnown(b)
    requires CanonicalUpTo(a, |FACET_ORDER|) == CanonicalUpTo(b, |FACET_ORDER|)
    ensures Lookup(a, key).Some? ==> Lookup(b, key) == Lookup(a, key)
  {
    hide CanonicalUpTo, Lookup, DistinctKeys, OnlyKnown;
    if Lookup(a, key).Some? {
      LookupFinds(a, key);
      var entry := (key, Lookup(a, key).value);
      CanonicalKeepsEntries(a, entry);
      CanonicalKeepsEntries(b, entry);
      var i :| 0 <= i < |b| && b[i] == entry;
      LookupAt(b, i);
    }
  }

  /** Objects with the same entries mean the same. */
  lemma {:induction false} SameEntriesMeanTheSame(a: Bounds, b: Bounds, v: Value)
    requires DistinctKeys(a) && DistinctKeys(b) && SameEntries(a, b) && Satisfies(a, v)
    ensures Satisfies(b, v)
  {
    hide MeetsBound, Lookup;
    forall i | 0 <= i < |b|
      ensures MeetsBound(b[i].0, b[i].1, v)
    {
      LookupAt(b, i);
      LookupFinds(a, b[i].0);
      var k :| 0 <= k < |a| && a[k] == b[i];
      assert MeetsBound(a[k].0, a[k].1, v);
    }
  }

  // ----- Whole rules -----

  /** What a rule requires of an entity, by `requirement_kind`. */
  datatype Requirement =
    | Attribute(name: string, comparator: string, value: Literal)
    | Property(propertySet: string, name: string, datatype_: string, bounds: Bounds)
    | OtherKind

  /** A rule; `admitted` says that the required fields are present, the citation validates and the rule schema
      accepts everything but the bounds; `header` is everything the canonical rule copies as it is. */
  datatype Rule = Rule(admitted: bool, header: string, versions: seq<string>, entity: string, requirement: Requirement)

  /** The canonical rule a rule's identifier is hashed from. */
  datatype CanonicalRule = CanonicalRule(header: string, versions: seq<string>, entity: string,
                                         requirement: Requirement)

  datatype RuleId = Sha256Of(rule: CanonicalRule)

  datatype Target = AttributeOf(name: string) | PropertyOf(propertySet: string, name: string)

  /** The requirement of the emitted IDS document. */
  datatype Compiled = Compiled(id: RuleId, entity: string, target: Target, base: string, facets: seq<Facet>)

  /** JSON objects hold each key once; the loader rejects duplicates. */
  predicate IsObject(requirement: Requirement) {
    requirement.Property? ==> DistinctKeys(requirement.bounds)
  }

  predicate RuleOk(rule: Rule) {
    && rule.admitted && rule.versions != [] && (forall i :: 0 <= i < |rule.versions| ==> rule.versions[i] != "")
    && rule.entity != ""
  }

  /** The rules that compile. */
  ghost predicate Accepted(rule: Rule) {
    && RuleOk(rule)
    && match rule.requirement
       case Attribute(name, comparator, value) =>
         name != "" && comparator in COMPARATORS && (value.Int? || value.Float?)
       case Property(set_, name, datatype_, bounds) =>
         set_ != "" && name != "" && datatype_ in BASES && Admitted(datatype_, bounds)
       case OtherKind => false
  }

  function CanonicalRequirement(requirement: Requirement): Requirement {
    match requirement
    case Property(set_, name, datatype_, bounds) =>
      Property(set_, name, datatype_, CanonicalUpTo(bounds, |FACET_ORDER|))
    case _ => requirement
  }

  function RuleIdOf(rule: Rule, upper: string -> string): RuleId {
    Sha256Of(CanonicalRule(rule.header, rule.versions, upper(rule.entity), CanonicalRequirement(rule.requirement)))
  }

  function CompiledOf(rule: Rule, upper: string -> string, repr: real -> string): Compiled
    requires Accepted(rule)
  {
    var id, entity := RuleIdOf(rule, upper), upper(rule.entity);
    match rule.requirement
    case Attribute(name, comparator, value) =>
      Compiled(id, entity, AttributeOf(name), "xs:double", [ScalarFacet(comparator, value, repr)])
    case Property(set_, name, datatype_, bounds) =>
      Compiled(id, entity, PropertyOf(set_, name), BASES[datatype_], Facets(bounds, repr))
  }

  method CheckRule(rule: Rule) returns (r: Outcome<CompileError>)
    ensures r.Pass? <==> RuleOk(rule)
  {
    if !rule.admitted {
      return Fail(InvalidRule);
    }
    if rule.versions == [] {
      return Fail(NoVersions);
    }
    for i := 0 to |rule.versions|
      invariant forall k :: 0 <= k < i ==> rule.versions[k] != ""
    {
      if rule.versions[i] == "" {
        return Fail(NoVersions);
      }
    }
    if rule.entity == "" {
      return Fail(EmptyName);
    }
    return Pass;
  }

  /** `_compile_attribute_rule`. */
  method CompileAttributeRule(rule: Rule, upper: string -> string, repr: real -> string)
    returns (r: Result<Compiled, CompileError>)
    requires rule.requirement.Attribute?
    ensures r.Success? <==> Accepted(rule)
    ensures r.Success? ==> r.value == CompiledOf(rule, upper, repr)
  {
    var Attribute(name, comparator, value) := rule.requirement;
    if comparator !in COMPARATORS {
      return Failure(UnsupportedComparator);
    }
    var checked := CheckRule(rule);
    if checked.Fail? {
      return Failure(checked.error);
    }
    if name == "" {
      return Failure(EmptyName);
    }
    if !value.Int? && !value.Float? {
      return Failure(NotFinite);
    }
    var entity := upper(rule.entity);
    var id := Sha256Of(CanonicalRule(rule.header, rule.versions, entity, Attribute(name, comparator, value)));
    return Success(Compiled(id, entity, AttributeOf(name), "xs:double", [ScalarFacet(comparator, value, repr)]));
  }

  /** What the rule schema admits, the facet compiler never refuses. */
  lemma {:induction false} SchemaOkCompiles(bounds: Bounds)
    requires SchemaOk(bounds)
    ensures Compilable(bounds)
  {
    LookupFinds(bounds, "enumeration");
    if Lookup(bounds, "enumeration").Some? {
      var i :| 0 <= i < |bounds| && bounds[i] == ("enumeration", Lookup(bounds, "enumeration").value);
      assert LimitsOf(bounds[i].1) != [];
    }
  }

  /** `_compile_property_rule`. */
  method CompilePropertyRule(rule: Rule, upper: string -> string, repr: real -> string)
    returns (r: Result<Compiled, CompileError>)
    requires rule.requirement.Property? && IsObject(rule.requirement)
    ensures r.Success? <==> Accepted(rule)
    ensures r.Success? ==> r.value == CompiledOf(rule, upper, repr)
  {
    hide Facets, CanonicalUpTo, Admitted, Compilable;
    var Property(set_, name, datatype_, bounds) := rule.requirement;
    if datatype_ !in BASES {
      return Failure(UnsupportedDatatype);
    }
    var admitted := CheckBounds(datatype_, bounds);
    if admitted.Fail? {
      return Failure(admitted.error);
    }
    var checked := CheckRule(rule);
    if checked.Fail? {
      return Failure(checked.error);
    }
    if set_ == "" || name == "" {
      return Failure(EmptyName);
    }
    var canonical := CanonicalBounds(bounds);
    var entity := upper(rule.entity);
    var id := Sha256Of(CanonicalRule(rule.header, rule.versions, entity, Property(set_, name, datatype_, canonical)));
    AdmittedIsSchemaOk(datatype_, bounds);
    SchemaOkCompiles(bounds);
    var facets := BoundsFacets(bounds, repr);
    return match facets
      case Success(texts) => Success(Compiled(id, entity, PropertyOf(set_, name), BASES[datatype_], texts))
      case Failure(error) => Failure(error);
  }

  lemma {:induction false} AdmittedIsSchemaOk(datatype_: string, bounds: Bounds)
    requires Admitted(datatype_, bounds)
    ensures SchemaOk(bounds) && OnlyKnown(bounds)
  {
  }

  /** `compile_native_attribute_rule`. */
  method CompileRule(rule: Rule, upper: string -> string, repr: real -> string)
    returns (r: Result<Compiled, CompileError>)
    requires IsObject(rule.requirement)
    ensures r.Success? <==> Accepted(rule)
    ensures r.Success? ==> r.value == CompiledOf(rule, upper, repr)
  {
    match rule.requirement
    case Attribute(_, _, _) =>
      r := CompileAttributeRule(rule, upper, repr);
    case Property(_, _, _, _) =>
      r := CompilePropertyRule(rule, upper, repr);
    case OtherKind =>
      r := Failure(UnsupportedKind);
  }

  // ----- What a compiled rule means -----

  predicate Demands(requirement: Requirement, v: Value) {
    match requirement
    case Attribute(_, comparator, value) => Compares(comparator, ValueOf(value), v)
    case Property(_, _, _, bounds) => Satisfies(bounds, v)
    case OtherKind => false
  }

  /** The limits a rule mentions. */
  predicate Mentions(requirement: Requirement, limit: Literal) {
    match requirement
    case Attribute(_, _, value) => limit == value
    case Property(_, _, _, bounds) => HasLimit(bounds, limit)
    case OtherKind => false
  }

  /** A compiled rule whose limits read back allows exactly the values the rule demands. */
  lemma {:induction false} CompiledKeepsMeaning(rule: Rule, upper: string -> string, repr: real -> string,
                                                number: string -> Option<real>, v: Value)
    requires Accepted(rule) && IsObject(rule.requirement)
    requires var base := CompiledOf(rule, upper, repr).base;
      forall limit :: Mentions(rule.requirement, limit) ==> ReadsBack(base, number, repr, limit)
    ensures var c := CompiledOf(rule, upper, repr);
      Allows(c.facets, c.base, number, v) <==> Demands(rule.requirement, v)
  {
    hide Facets, Allows, Satisfies, Compares, SchemaOk, ScalarFacet, ReadsBack, ValueOf;
    match rule.requirement
    case Attribute(_, comparator, value) =>
      assert Mentions(rule.requirement, value);
      ComparatorsKeepMeaning(comparator, value, "xs:double", repr, number);
    case Property(_, _, datatype_, bounds) =>
      forall limit | HasLimit(bounds, limit)
        ensures ReadsBack(BASES[datatype_], number, repr, limit)
      {
        assert Mentions(rule.requirement, limit);
      }
      BoundsKeepMeaning(bounds, BASES[datatype_], repr, number, v);
    case OtherKind =>
  }

  /** The same requirement, with bounds written in any order. */
  ghost predicate SameRequirement(a: Requirement, b: Requirement) {
    if a.Property? && b.Property? then
      && a.propertySet == b.propertySet && a.name == b.name && a.datatype_ == b.datatype_
      && SameEntries(a.bounds, b.bounds)
    else a == b
  }

  /** Two accepted rules get one identifier if and only if they agree in everything but key order and the case of
      the entity; they then compile to one restriction and demand the same. */
  lemma {:induction false} SameIdSameMeaning(a: Rule, b: Rule, upper: string -> string, repr: real -> string)
    requires Accepted(a) && Accepted(b) && IsObject(a.requirement) && IsObject(b.requirement)
    ensures CompiledOf(a, upper, repr).id == CompiledOf(b, upper, repr).id <==>
      && a.header == b.header && a.versions == b.versions && upper(a.entity) == upper(b.entity)
      && SameRequirement(a.requirement, b.requirement)
    ensures CompiledOf(a, upper, repr).id == CompiledOf(b, upper, repr).id ==>
      && CompiledOf(a, upper, repr) == CompiledOf(b, upper, repr)
      && forall v :: Demands(a.requirement, v) <==> Demands(b.requirement, v)
  {
    hide CanonicalUpTo, FacetsUpTo, Satisfies, Compares, SchemaOk, ScalarFacet, SameEntries, DistinctKeys;
    var x, y := a.requirement, b.requirement;
    if x.Property? && y.Property? {
      AdmittedIsSchemaOk(x.datatype_, x.bounds);
      AdmittedIsSchemaOk(y.datatype_, y.bounds);
      CanonicalIdentifies(x.bounds, y.bounds);
      if SameEntries(x.bounds, y.bounds) {
        KeyOrderIsIrrelevant(x.bounds, y.bounds, |FACET_ORDER|, repr);
        SameBothWays(x.bounds, y.bounds);
      }
    }
  }

  lemma {:induction false} SameBothWays(a: Bounds, b: Bounds)
    requires DistinctKeys(a) && DistinctKeys(b) && SameEntries(a, b)
    ensures forall v :: Satisfies(a, v) <==> Satisfies(b, v)
  {
    hide Satisfies, Lookup;
    forall v
      ensures Satisfies(a, v) <==> Satisfies(b, v)
    {
      if Satisfies(a, v) {
        SameEntriesMeanTheSame(a, b, v);
      }
      if Satisfies(b, v) {
        SameEntriesMeanTheSame(b, a, v);
      }
    }
  }

  // ----- What a compiled rule says -----

  /** The entity, target and base type of a compiled rule, and the facet of a comparator. */
  lemma {:induction false} CompiledIs(rule: Rule, upper: string -> string, repr: real -> string)
    requires Accepted(rule)
    ensures var c := CompiledOf(rule, upper, repr);
      && c.entity == upper(rule.entity)
      && match rule.requirement
         case Attribute(name, comparator, value) =>
           && c.target == AttributeOf(name) && c.base == "xs:double"
           && |c.facets| == 1 && c.facets[0].text == StrOf(value, repr)
           && c.facets[0].name == (
                if comparator == "gt" then "minExclusive" else if comparator == "gte" then "minInclusive"
                else if comparator == "lt" then "maxExclusive" else if comparator == "lte" then "maxInclusive"
                else "enumeration")
         case Property(set_, name, datatype_, bounds) =>
           c.target == PropertyOf(set_, name) && c.base == "xs:" + datatype_ && c.facets == Facets(bounds, repr)
         case OtherKind => false
  {
    hide Facets, Admitted, RuleOk;
  }

  lemma {:induction false} NamesUpTo(bounds: Bounds, n: nat, repr: real -> string, k: nat) returns (a: nat)
    requires n <= |FACET_ORDER| && k < |FacetsUpTo(bounds, n, repr)|
    ensures a < n && FacetsUpTo(bounds, n, repr)[k].name == FACET_ORDER[a]
  {
    hide Lookup, StrOf;
    if k < |FacetsUpTo(bounds, n - 1, repr)| {
      a := NamesUpTo(bounds, n - 1, repr, k);
    } else {
      a := n - 1;
    }
  }

  lemma {:induction false} OrderUpTo(bounds: Bounds, n: nat, repr: real -> string, i: nat, j: nat)
    returns (a: nat, b: nat)
    requires n <= |FACET_ORDER| && i <= j < |FacetsUpTo(bounds, n, repr)|
    ensures a <= b < n
    ensures FacetsUpTo(bounds, n, repr)[i].name == FACET_ORDER[a]
    ensures FacetsUpTo(bounds, n, repr)[j].name == FACET_ORDER[b]
  {
    hide Lookup, StrOf;
    if j < |FacetsUpTo(bounds, n - 1, repr)| {
      a, b := OrderUpTo(bounds, n - 1, repr, i, j);
    } else {
      a := NamesUpTo(bounds, n, repr, i);
      b := n - 1;
    }
  }

  /** Facets come in the fixed order, lower limits first, and the enumeration last. */
  lemma {:induction false} FacetsInOrder(bounds: Bounds, repr: real -> string, i: nat, j: nat)
    returns (a: nat, b: nat)
    requires i <= j < |Facets(bounds, repr)|
    ensures var order := ["minInclusive", "minExclusive", "maxInclusive", "maxExclusive", "enumeration"];
      a <= b < 5 && Facets(bounds, repr)[i].name == order[a] && Facets(bounds, repr)[j].name == order[b]
  {
    hide FacetsUpTo;
    a, b := OrderUpTo(bounds, |FACET_ORDER|, repr, i, j);
  }

  /** The enumerated values come in the order listed. */
  lemma {:induction false} EnumerationKeepsOrder(bounds: Bounds, repr: real -> string, limits: seq<Literal>, k: nat)
    requires Lookup(bounds, "enumeration") == Some(Values(limits)) && k < |limits|
    ensures var all := Facets(bounds, repr);
      |all| >= |limits| && all[|all| - |limits| + k] == Facet("enumeration", StrOf(limits[k], repr))
  {
    hide Lookup, StrOf;
    assert FACET_ORDER[4] == "enumeration";
    assert FacetsUpTo(bounds, 5, repr) == FacetsUpTo(bounds, 4, repr) + Rendered(limits, repr);
  }

  // ----- Which rules are accepted -----

  /** Only negative integers are written with a sign. */
  lemma {:induction false} IntTextIs(n: nat)
    ensures IntText(n) == Decimal(n)
    ensures n > 0 ==> IntText(0 - n) == "-" + Decimal(n)
  {
  }

  /** In reading, digits may follow a sign, and a minus makes the number negative. */
  lemma {:induction false} SignsAreRead(digits: string)
    requires digits != "" && AllDigits(digits)
    ensures var n: int := DecimalValue(digits);
      ReadInteger(digits) == Some(n) && ReadInteger("+" + digits) == Some(n) && ReadInteger("-" + digits) == Some(-n)
  {
    hide DecimalValue;
    assert ("+" + digits)[1..] == digits && ("-" + digits)[1..] == digits;
  }

  /** The limits a data type admits: numbers, for `integer` whole ones, and for `string` a text. */
  lemma {:induction false} LimitOkIff(limit: Literal, n: int)
    ensures forall d :: d == "double" || d == "decimal" ==> (LimitOk(d, limit) <==> limit.Int? || limit.Float?)
    ensures limit.Int? ==> LimitOk("integer", limit)
    ensures limit.Float? && limit.x == n as real ==> LimitOk("integer", limit)
    ensures LimitOk("integer", limit) ==> limit.Int? || (limit.Float? && limit.x == limit.x.Floor as real)
    ensures LimitOk("string", limit) <==> limit.Text? && |limit.s| > 0
  {
  }

  /** A rule compiles exactly if it is admitted, names its versions and its entity, and asks something the
      compiler knows: a comparator with a number, or admitted bounds of a known data type. */
  lemma {:induction false} AcceptedIff(rule: Rule)
    ensures Accepted(rule) <==>
      && rule.admitted && |rule.versions| > 0 && "" !in rule.versions && |rule.entity| > 0
      && match rule.requirement
         case Attribute(name, comparator, value) =>
           && |name| > 0 && comparator in {"eq", "equals", "gt", "gte", "lt", "lte"} && (value.Int? || value.Float?)
         case Property(set_, name, datatype_, bounds) =>
           && |set_| > 0 && |name| > 0 && datatype_ in {"double", "decimal", "integer", "string"}
           && SchemaOk(bounds)
           && forall limit :: HasLimit(bounds, limit) ==> LimitOk(datatype_, limit)
         case OtherKind => false
  {
    hide SchemaOk, LimitOk, HasLimit;
  }

  /** The rule schema on bounds, key by key. */
  lemma {:induction false} SchemaOkIff(bounds: Bounds)
    ensures SchemaOk(bounds) <==>
      && |bounds| > 0
      && forall i :: 0 <= i < |bounds| ==>
           if bounds[i].0 == "enumeration" then bounds[i].1.Values? && |bounds[i].1.limits| > 0
           else
             && bounds[i].0 in {"minInclusive", "minExclusive", "maxInclusive", "maxExclusive"}
             && bounds[i].1.Scalar?
  {
    assert FACET_ORDER[0] == "minInclusive" && FACET_ORDER[1] == "minExclusive" && FACET_ORDER[2] == "maxInclusive";
    assert FACET_ORDER[3] == "maxExclusive" && FACET_ORDER[4] == "enumeration";
  }

  /** And what the facet compiler itself refuses. */
  lemma {:induction false} CompilableIff(bounds: Bounds)
    requires DistinctKeys(bounds)
    ensures Compilable(bounds) <==>
      && |bounds| > 0
      && forall i :: 0 <= i < |bounds| ==>
           && bounds[i].0 in {"minInclusive", "minExclusive", "maxInclusive", "maxExclusive", "enumeration"}
           && (bounds[i].0 == "enumeration" ==> bounds[i].1.Values? && |bounds[i].1.limits| > 0)
  {
    assert FACET_ORDER[0] == "minInclusive" && FACET_ORDER[1] == "minExclusive" && FACET_ORDER[2] == "maxInclusive";
    assert FACET_ORDER[3] == "maxExclusive" && FACET_ORDER[4] == "enumeration";
    LookupFinds(bounds, "enumeration");
    if i :| 0 <= i < |bounds| && bounds[i].0 == "enumeration" {
      LookupAt(bounds, i);
    }
  }
}
