/** `str.splitlines`. */
module Lines {

  /** Every character Python ends a line at. */
  predicate Boundary(c: char) {
    c as int in {0x0a, 0x0b, 0x0c, 0x0d, 0x1c, 0x1d, 0x1e, 0x85, 0x2028, 0x2029}
  }

  /** No line ends inside. */
  predicate OneLine(s: string) {
    forall k :: 0 <= k < |s| ==> !Boundary(s[k])
  }

  function FirstBoundary(s: string): (i: nat)
    ensures i <= |s| && OneLine(s[..i])
    ensures i < |s| ==> Boundary(s[i])
  {
    if s == "" || Boundary(s[0]) then 0
    else
      var i := FirstBoundary(s[1..]);
      assert s[..i + 1] == [s[0]] + s[1..][..i];
      i + 1
  }

  /** Where the line after the boundary at `i` starts; a carriage return and line feed end one
      line together. */
  function NextLine(s: string, i: nat): (j: nat)
    requires i < |s|
    ensures i < j <= |s|
  {
    if s[i] == '\r' && i + 1 < |s| && s[i + 1] == '\n' then i + 2 else i + 1
  }

  function SplitLines(s: string): (lines: seq<string>)
    ensures |lines| >= 1 <==> s != ""
    decreases |s|
  {
    if s == "" then []
    else
      var i := FirstBoundary(s);
      if i == |s| then [s] else [s[..i]] + SplitLines(s[NextLine(s, i)..])
  }

  lemma {:induction false} FirstBoundaryIs(s: string, n: nat)
    requires n <= |s| && OneLine(s[..n]) && (n == |s| || Boundary(s[n]))
    ensures FirstBoundary(s) == n
  {
    hide Boundary;
    if n > 0 {
      assert s[..n][0] == s[0];
      assert s[1..][..n - 1] == s[..n][1..];
      FirstBoundaryIs(s[1..], n - 1);
    }
  }

  predicate Ended(s: string) {
    s != "" && s[|s| - 1] == '\n'
  }

  lemma {:induction false} SameHead(s: string, rest: string)
    requires Ended(s)
    ensures var i := FirstBoundary(s);
      && i < |s| && FirstBoundary(s + rest) == i && (s + rest)[..i] == s[..i]
      && NextLine(s, i) <= |s| && NextLine(s + rest, i) == NextLine(s, i)
  {
    var i := FirstBoundary(s);
    assert i < |s| by { EndedHasBoundary(s); }
    assert (s + rest)[..i] == s[..i];
    FirstBoundaryIs(s + rest, i);
  }

  lemma {:induction false} EndedHasBoundary(s: string)
    requires Ended(s)
    ensures FirstBoundary(s) < |s|
  {
    BoundaryBounds(s, |s| - 1);
  }

  lemma {:induction false} BoundaryBounds(s: string, k: nat)
    requires k < |s| && Boundary(s[k])
    ensures FirstBoundary(s) <= k
  {
    hide Boundary;
    if k > 0 && !Boundary(s[0]) {
      BoundaryBounds(s[1..], k - 1);
    }
  }

  /** After an ended text, what follows is split on its own. */
  lemma {:induction false} LinesConcat(s: string, rest: string)
    requires Ended(s)
    ensures SplitLines(s + rest) == SplitLines(s) + SplitLines(rest)
    decreases |s|
  {
    SameHead(s, rest);
    var i := FirstBoundary(s);
    var j := NextLine(s, i);
    assert (s + rest)[j..] == s[j..] + rest;
    if j < |s| {
      LinesConcat(s[j..], rest);
    } else {
      assert s[j..] == "" && s[j..] + rest == rest;
    }
  }

  /** A text without boundaries is one line. */
  lemma {:induction false} SingleLine(line: string)
    requires OneLine(line)
    ensures SplitLines(line + "\n") == [line]
  {
    var s := line + "\n";
    assert s[..|line|] == line && s[|line|] == '\n';
    FirstBoundaryIs(s, |line|);
    assert s[|line| + 1..] == "";
  }

  /** A boundary other than a carriage return inside the text makes at least two lines. */
  lemma {:induction false} BrokenLine(line: string, k: nat)
    requires k < |line| && Boundary(line[k]) && forall m :: 0 <= m < |line| ==> line[m] != '\r'
    ensures |SplitLines(line + "\n")| >= 2
  {
    var s := line + "\n";
    SameHead(s, "");
    var i := FirstBoundary(s);
    BoundaryBounds(s, k);
    assert NextLine(s, i) == i + 1;
    assert s[i + 1..] != "";
  }

  /** A line ends at one of ten characters, and at a carriage return together with the line feed after
      it. */
  lemma {:induction false} LinesEnd(line: string, c: char, rest: string)
    requires forall k :: 0 <= k < |line| ==>
      line[k] as int !in {0x0a, 0x0b, 0x0c, 0x0d, 0x1c, 0x1d, 0x1e, 0x85, 0x2028, 0x2029}
    requires c as int in {0x0a, 0x0b, 0x0c, 0x0d, 0x1c, 0x1d, 0x1e, 0x85, 0x2028, 0x2029}
    ensures SplitLines(line) == if line == "" then [] else [line]
    ensures !(c == '\r' && rest != "" && rest[0] == '\n') ==>
      SplitLines(line + [c] + rest) == [line] + SplitLines(rest)
    ensures SplitLines(line + "\r\n" + rest) == [line] + SplitLines(rest)
  {
    assert line[..|line|] == line;
    FirstBoundaryIs(line, |line|);
    var one, two := line + [c] + rest, line + "\r\n" + rest;
    assert one[..|line|] == line && two[..|line|] == line;
    assert one[|line|] == c && two[|line|] == '\r' && two[|line| + 1] == '\n';
    FirstBoundaryIs(one, |line|);
    FirstBoundaryIs(two, |line|);
    assert one[|line| + 1..] == rest && two[|line| + 2..] == rest;
    assert rest != "" ==> one[|line| + 1] == rest[0];
  }
}
