/** Stable sorting and subsequences: what Python's `sorted`, `list.sort` and order-preserving
    selection mean on sequences. */
module Sorting {

  ghost predicate TotalPreorder<T(!new)>(leq: (T, T) -> bool) {
    && (forall x, y :: leq(x, y) || leq(y, x))
    && (forall x, y, z :: leq(x, y) && leq(y, z) ==> leq(x, z))
  }

  predicate Sorted<T>(s: seq<T>, leq: (T, T) -> bool) {
    forall i, j :: 0 <= i < j < |s| ==> leq(s[i], s[j])
  }

  /** Put `x` before the first element it may precede. */
  function Insert<T>(x: T, s: seq<T>, leq: (T, T) -> bool): (r: seq<T>)
    ensures |r| == |s| + 1
    ensures multiset(r) == multiset(s) + multiset{x}
  {
    if s == [] then [x]
    else if leq(x, s[0]) then
      assert multiset([x] + s) == multiset{x} + multiset(s);
      [x] + s
    else
      assert s == [s[0]] + s[1..];
      [s[0]] + Insert(x, s[1..], leq)
  }

  /** The stable sort of `s`. */
  function SortBy<T>(s: seq<T>, leq: (T, T) -> bool): (r: seq<T>)
    ensures |r| == |s|
    ensures multiset(r) == multiset(s)
  {
    if s == [] then []
    else
      assert s == [s[0]] + s[1..];
      Insert(s[0], SortBy(s[1..], leq), leq)
  }

  lemma {:induction false} InsertSorted<T(!new)>(x: T, s: seq<T>, leq: (T, T) -> bool)
    requires TotalPreorder(leq) && Sorted(s, leq)
    ensures Sorted(Insert(x, s, leq), leq)
  {
    if s != [] && !leq(x, s[0]) {
      InsertSorted(x, s[1..], leq);
      var rest := Insert(x, s[1..], leq);
      forall j | 0 <= j < |rest|
        ensures leq(s[0], rest[j])
      {
        assert rest[j] in multiset(rest);
        if rest[j] != x {
          assert rest[j] in multiset(s[1..]);
          var k :| 0 <= k < |s[1..]| && s[1..][k] == rest[j];
          assert leq(s[0], s[k + 1]);
        }
      }
    }
  }

  lemma {:induction false} SortBySorted<T(!new)>(s: seq<T>, leq: (T, T) -> bool)
    requires TotalPreorder(leq)
    ensures Sorted(SortBy(s, leq), leq)
  {
    if s != [] {
      SortBySorted(s[1..], leq);
      InsertSorted(s[0], SortBy(s[1..], leq), leq);
    }
  }

  lemma {:induction false} SortByMembers<T>(s: seq<T>, leq: (T, T) -> bool)
    ensures forall x :: x in SortBy(s, leq) <==> x in s
  {
    forall x
      ensures x in SortBy(s, leq) <==> x in s
    {
      assert x in s <==> x in multiset(s);
      assert x in SortBy(s, leq) <==> x in multiset(SortBy(s, leq));
    }
  }

  /** No two different elements of `s` tie under `leq`. */
  ghost predicate NoTies<T(!new)>(s: seq<T>, leq: (T, T) -> bool) {
    forall x, y :: x in s && y in s && leq(x, y) && leq(y, x) ==> x == y
  }

  lemma {:induction false} LeastFirst<T(!new)>(a: seq<T>, x: T, leq: (T, T) -> bool)
    requires Sorted(a, leq) && x in a
    ensures x == a[0] || leq(a[0], x)
  {
    var k :| 0 <= k < |a| && a[k] == x;
    assert k > 0 ==> leq(a[0], a[k]);
  }

  lemma {:induction false} SameFirst<T(!new)>(a: seq<T>, b: seq<T>, leq: (T, T) -> bool)
    requires a != [] && b != [] && Sorted(a, leq) && Sorted(b, leq)
    requires multiset(a) == multiset(b) && NoTies(a, leq)
    ensures a[0] == b[0]
  {
    assert b[0] in multiset(a) && a[0] in multiset(b);
    LeastFirst(a, b[0], leq);
    LeastFirst(b, a[0], leq);
  }

  /** Without ties, sorting forgets the original order. */
  lemma {:induction false} SortedUnique<T(!new)>(a: seq<T>, b: seq<T>, leq: (T, T) -> bool)
    requires Sorted(a, leq) && Sorted(b, leq)
    requires multiset(a) == multiset(b) && NoTies(a, leq)
    ensures a == b
  {
    assert |a| == |multiset(a)| == |multiset(b)| == |b|;
    if a != [] {
      hide Sorted, NoTies;
      SameFirst(a, b, leq);
      assert a == [a[0]] + a[1..] && b == [b[0]] + b[1..];
      assert multiset(a[1..]) == multiset(a) - multiset{a[0]} == multiset(b[1..]);
      SortedTail(a, leq);
      SortedTail(b, leq);
      SortedUnique(a[1..], b[1..], leq);
    }
  }

  lemma {:induction false} SortedTail<T(!new)>(a: seq<T>, leq: (T, T) -> bool)
    requires a != [] && Sorted(a, leq)
    ensures Sorted(a[1..], leq)
    ensures NoTies(a, leq) ==> NoTies(a[1..], leq)
  {
    assert forall x :: x in a[1..] ==> x in a;
  }

  /** `a` is `b` with some elements left out. */
  predicate IsSubsequence<T(==)>(a: seq<T>, b: seq<T>)
    decreases |b|
  {
    a == [] ||
    (b != [] &&
     (|| (a[|a| - 1] == b[|b| - 1] && IsSubsequence(a[..|a| - 1], b[..|b| - 1]))
      || IsSubsequence(a, b[..|b| - 1])))
  }

  lemma {:induction false} SubsequenceAppend<T>(a: seq<T>, b: seq<T>, s: seq<T>)
    requires IsSubsequence(a, b)
    ensures IsSubsequence(a + s, b + s)
    decreases |s|
  {
    if s == [] {
      assert a + s == a && b + s == b;
    } else {
      var last := |s| - 1;
      SubsequenceAppend(a, b, s[..last]);
      assert (a + s)[..|a + s| - 1] == a + s[..last];
      assert (b + s)[..|b + s| - 1] == b + s[..last];
    }
  }

  lemma {:induction false} SubsequenceExtend<T>(a: seq<T>, b: seq<T>, s: seq<T>)
    requires IsSubsequence(a, b)
    ensures IsSubsequence(a, b + s)
    decreases |s|
  {
    if s == [] {
      assert b + s == b;
    } else {
      var last := |s| - 1;
      SubsequenceExtend(a, b, s[..last]);
      assert (b + s)[..|b + s| - 1] == b + s[..last];
    }
  }

  /** A total order: no two different values tie. */
  ghost predicate TotalOrder<T(!new)>(leq: (T, T) -> bool) {
    TotalPreorder(leq) && forall x, y :: leq(x, y) && leq(y, x) ==> x == y
  }

  predicate StrictlySorted<T(==)>(s: seq<T>, leq: (T, T) -> bool) {
    forall i, j :: 0 <= i < j < |s| ==> leq(s[i], s[j]) && s[i] != s[j]
  }

  /** Put `x` in its place unless it is there already. */
  function InsertNew<T(==,!new)>(x: T, s: seq<T>, leq: (T, T) -> bool): (r: seq<T>)
    ensures forall y :: y in r <==> y == x || y in s
  {
    if s == [] then [x]
    else if s[0] == x then s
    else if leq(x, s[0]) then [x] + s
    else
      assert s == [s[0]] + s[1..];
      [s[0]] + InsertNew(x, s[1..], leq)
  }

  /** `sorted(set(s))`. */
  function SortedSet<T(==,!new)>(s: seq<T>, leq: (T, T) -> bool): (r: seq<T>)
    ensures forall y :: y in r <==> y in s
  {
    if s == [] then []
    else
      assert s == [s[0]] + s[1..];
      InsertNew(s[0], SortedSet(s[1..], leq), leq)
  }

  lemma {:induction false} InsertNewSorted<T(!new)>(x: T, s: seq<T>, leq: (T, T) -> bool)
    requires TotalOrder(leq) && StrictlySorted(s, leq)
    ensures StrictlySorted(InsertNew(x, s, leq), leq)
  {
    if s != [] && s[0] != x && !leq(x, s[0]) {
      InsertNewSorted(x, s[1..], leq);
      var rest := InsertNew(x, s[1..], leq);
      forall j | 0 <= j < |rest|
        ensures leq(s[0], rest[j]) && s[0] != rest[j]
      {
        assert rest[j] in rest;
        if rest[j] != x {
          var k :| 0 <= k < |s[1..]| && s[1..][k] == rest[j];
          assert leq(s[0], s[k + 1]) && s[0] != s[k + 1];
        }
      }
    }
  }

  lemma {:induction false} SortedSetSorted<T(!new)>(s: seq<T>, leq: (T, T) -> bool)
    requires TotalOrder(leq)
    ensures StrictlySorted(SortedSet(s, leq), leq)
  {
    if s != [] {
      SortedSetSorted(s[1..], leq);
      InsertNewSorted(s[0], SortedSet(s[1..], leq), leq);
    }
  }

  /** No element occurs twice. */
  predicate NoRepeats<T(==)>(s: seq<T>) {
    forall i, j :: 0 <= i < j < |s| ==> s[i] != s[j]
  }

  lemma {:induction false} NoRepeatsCount<T>(s: seq<T>)
    ensures NoRepeats(s) <==> forall x :: x in s ==> multiset(s)[x] == 1
  {
    if s != [] {
      var front, last := s[..|s| - 1], s[|s| - 1];
      assert s == front + [last];
      NoRepeatsCount(front);
      assert NoRepeats(s) <==> NoRepeats(front) && last !in front;
      assert multiset(s) == multiset(front) + multiset{last};
      assert last in front <==> last in multiset(front);
      assert forall x :: x in front ==> x in s;
    }
  }

  lemma {:induction false} SortByNoRepeats<T>(s: seq<T>, leq: (T, T) -> bool)
    requires NoRepeats(s)
    ensures NoRepeats(SortBy(s, leq))
  {
    NoRepeatsCount(s);
    NoRepeatsCount(SortBy(s, leq));
    SortByMembers(s, leq);
  }

  lemma {:induction false} SameMembersSameCount<T(!new)>(a: seq<T>, b: seq<T>)
    requires NoRepeats(a) && NoRepeats(b) && forall x :: x in a <==> x in b
    ensures multiset(a) == multiset(b)
  {
    NoRepeatsCount(a);
    NoRepeatsCount(b);
    forall x
      ensures multiset(a)[x] == multiset(b)[x]
    {
      assert x in a <==> x in multiset(a);
      assert x in b <==> x in multiset(b);
    }
  }
}
