/** Python's order on strings (by code point), line splitting pieces, and joining. */
module Strings {

  /** `a <= b`. */
  predicate StringLeq(a: string, b: string) {
    a == [] || (b != [] && (a[0] < b[0] || (a[0] == b[0] && StringLeq(a[1..], b[1..]))))
  }

  lemma {:induction false} StringLeqTotal(a: string, b: string)
    ensures StringLeq(a, b) || StringLeq(b, a)
    ensures StringLeq(a, b) && StringLeq(b, a) ==> a == b
  {
    if a != [] && b != [] && a[0] == b[0] {
      StringLeqTotal(a[1..], b[1..]);
      assert a == [a[0]] + a[1..] && b == [b[0]] + b[1..];
    }
  }

  lemma {:induction false} StringLeqTransitive(a: string, b: string, c: string)
    requires StringLeq(a, b) && StringLeq(b, c)
    ensures StringLeq(a, c)
  {
    if a != [] && a[0] == b[0] && b[0] == c[0] {
      StringLeqTransitive(a[1..], b[1..], c[1..]);
    }
  }

  lemma {:induction false} StringOrder()
    ensures forall a, b :: StringLeq(a, b) || StringLeq(b, a)
    ensures forall a, b :: StringLeq(a, b) && StringLeq(b, a) ==> a == b
    ensures forall a, b, c :: StringLeq(a, b) && StringLeq(b, c) ==> StringLeq(a, c)
  {
    forall a, b
      ensures StringLeq(a, b) || StringLeq(b, a)
      ensures StringLeq(a, b) && StringLeq(b, a) ==> a == b
    {
      StringLeqTotal(a, b);
    }
    forall a, b, c | StringLeq(a, b) && StringLeq(b, c)
      ensures StringLeq(a, c)
    {
      StringLeqTransitive(a, b, c);
    }
  }

  /** `sep.join(parts)` for a one-character separator. */
  function Join(parts: seq<string>, sep: char): string {
    if parts == [] then ""
    else if |parts| == 1 then parts[0]
    else parts[0] + [sep] + Join(parts[1..], sep)
  }

  predicate Free(s: string, c: char) {
    forall k :: 0 <= k < |s| ==> s[k] != c
  }

  lemma {:induction false} SeparatorAt(a: string, sep: char, rest: string)
    ensures var all := a + [sep] + rest;
      && all[|a|] == sep
      && (forall k :: 0 <= k < |a| ==> all[k] == a[k])
      && all[..|a|] == a && all[|a| + 1..] == rest
  {
  }

  /** Text up to the first separator is recovered from what follows it. */
  lemma {:induction false} CutAtFirst(a: string, b: string, sep: char, restA: string, restB: string)
    requires Free(a, sep) && Free(b, sep)
    requires a + [sep] + restA == b + [sep] + restB
    ensures a == b && restA == restB
  {
    SeparatorAt(a, sep, restA);
    SeparatorAt(b, sep, restB);
    assert |a| == |b|;
  }

  lemma {:induction false} JoinedFree(parts: seq<string>, sep: char)
    requires parts != [] && Free(parts[0], sep)
    ensures Free(Join(parts, sep), sep) <==> |parts| == 1
  {
    if |parts| > 1 {
      SeparatorAt(parts[0], sep, Join(parts[1..], sep));
    }
  }

  /** Joining loses nothing when no part contains the separator. */
  lemma {:induction false} JoinInjective(a: seq<string>, b: seq<string>, sep: char)
    requires a != [] && b != []
    requires (forall k :: 0 <= k < |a| ==> Free(a[k], sep)) && (forall k :: 0 <= k < |b| ==> Free(b[k], sep))
    requires Join(a, sep) == Join(b, sep)
    ensures a == b
  {
    JoinedFree(a, sep);
    JoinedFree(b, sep);
    if |a| > 1 {
      CutAtFirst(a[0], b[0], sep, Join(a[1..], sep), Join(b[1..], sep));
      JoinInjective(a[1..], b[1..], sep);
      assert a == [a[0]] + a[1..] && b == [b[0]] + b[1..];
    }
  }

  lemma {:induction false} JoinFree(parts: seq<string>, sep: char, c: char)
    requires c != sep && forall k :: 0 <= k < |parts| ==> Free(parts[k], c)
    ensures Free(Join(parts, sep), c)
  {
    if |parts| > 1 {
      JoinFree(parts[1..], sep, c);
    }
  }

  /** Lists of strings compare part by part; a list comes before its extensions. */
  predicate PartsLeq(a: seq<string>, b: seq<string>) {
    a == [] || (b != [] && (if a[0] == b[0] then PartsLeq(a[1..], b[1..]) else StringLeq(a[0], b[0])))
  }

  lemma {:induction false} PartsAntisymmetric(a: seq<string>, b: seq<string>)
    requires PartsLeq(a, b) && PartsLeq(b, a)
    ensures a == b
  {
    if a != [] {
      if a[0] == b[0] {
        PartsAntisymmetric(a[1..], b[1..]);
        assert a == [a[0]] + a[1..] && b == [b[0]] + b[1..];
      } else {
        StringLeqTotal(a[0], b[0]);
      }
    }
  }

  lemma {:induction false} PartsTotal(a: seq<string>, b: seq<string>)
    ensures PartsLeq(a, b) || PartsLeq(b, a)
  {
    if a != [] && b != [] {
      if a[0] == b[0] {
        PartsTotal(a[1..], b[1..]);
      } else {
        StringLeqTotal(a[0], b[0]);
      }
    }
  }

  lemma {:induction false} PartsTransitive(a: seq<string>, b: seq<string>, c: seq<string>)
    requires PartsLeq(a, b) && PartsLeq(b, c)
    ensures PartsLeq(a, c)
  {
    if a != [] {
      if a[0] == b[0] && b[0] == c[0] {
        PartsTransitive(a[1..], b[1..], c[1..]);
      } else if a[0] != b[0] && b[0] != c[0] {
        StringLeqTransitive(a[0], b[0], c[0]);
        if a[0] == c[0] {
          StringLeqTotal(a[0], b[0]);
        }
      }
    }
  }

  /** `s.split(sep)`. */
  function Split(s: string, sep: char): (parts: seq<string>)
    ensures parts != []
  {
    if s == "" then [""]
    else
      var rest := Split(s[1..], sep);
      if s[0] == sep then [""] + rest else [[s[0]] + rest[0]] + rest[1..]
  }

  /** Splitting loses nothing. */
  lemma {:induction false} JoinSplit(s: string, sep: char)
    ensures Join(Split(s, sep), sep) == s
  {
    if s != "" {
      JoinSplit(s[1..], sep);
      var rest := Split(s[1..], sep);
      assert s == [s[0]] + s[1..];
      if s[0] == sep {
        assert ([""] + rest)[1..] == rest;
      } else {
        var parts := [[s[0]] + rest[0]] + rest[1..];
        assert parts[1..] == rest[1..];
        if |rest| > 1 {
          assert [s[0]] + rest[0] + [sep] + Join(rest[1..], sep) == [s[0]] + (rest[0] + [sep] + Join(rest[1..], sep));
        }
      }
    }
  }
}
