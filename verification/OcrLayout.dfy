/** OCR layout (`_parse_result`): detections become tokens grouped into lines, losing and
    inventing nothing. Floating point is modelled by reals. */
module OcrLayout {
  import opened Wrappers
  import opened Ranges
  import opened Sorting
  import opened Strings

  /** A detection's geometry: four numbers, or corner points. */
  datatype Shape = Corners(left: real, top: real, right: real, bottom: real) | Polygon(points: seq<(real, real)>)

  datatype Box = Box(left: int, top: int, right: int, bottom: int)

  /** A non-blank detection. */
  datatype Token = Token(text: string, box: Box, confidence: int)

  /** The recognizer's parallel lists; scores and shapes may be shorter than texts. */
  datatype Recognition = Recognition(texts: seq<string>, scores: seq<real>, shapes: seq<Shape>)

  datatype TokenSpan = TokenSpan(id: string, text: string, box: Box, confidence: int, line: nat)
  datatype LineSpan = LineSpan(id: string, text: string, box: Box, confidence: int, tokenIds: seq<string>)
  datatype Output = Output(tokens: seq<TokenSpan>, lines: seq<LineSpan>, text: string)

  // ----- Reading detections -----

  /** Python's `round`: to nearest, ties to even. */
  function Round(x: real): int {
    var below := x.Floor;
    var part := x - below as real;
    if part < 0.5 || (part == 0.5 && below % 2 == 0) then below else below + 1
  }

  function Clamp(x: int, lo: int, hi: int): int {
    var y := if x < hi then x else hi;
    if y > lo then y else lo
  }

  function NonNegative(x: real): (n: int)
    ensures n >= 0
  {
    var n := Round(x);
    if n > 0 then n else 0
  }

  function Least(s: seq<real>): (r: real)
    requires s != []
    ensures r in s && forall x :: x in s ==> r <= x
  {
    if |s| == 1 then s[0]
    else
      assert s == [s[0]] + s[1..];
      var rest := Least(s[1..]);
      if s[0] <= rest then s[0] else rest
  }

  function Greatest(s: seq<real>): (r: real)
    requires s != []
    ensures r in s && forall x :: x in s ==> x <= r
  {
    if |s| == 1 then s[0]
    else
      assert s == [s[0]] + s[1..];
      var rest := Greatest(s[1..]);
      if s[0] >= rest then s[0] else rest
  }

  function Xs(points: seq<(real, real)>): (r: seq<real>)
    ensures |r| == |points|
  {
    seq(|points|, i requires 0 <= i < |points| => points[i].0)
  }

  function Ys(points: seq<(real, real)>): (r: seq<real>)
    ensures |r| == |points|
  {
    seq(|points|, i requires 0 <= i < |points| => points[i].1)
  }

  /** `_bbox`. */
  function BoxOf(shape: Shape): Box {
    match shape
    case Corners(l, t, r, b) => Box(NonNegative(l), NonNegative(t), NonNegative(r), NonNegative(b))
    case Polygon(points) =>
      if points == [] then Box(0, 0, 0, 0)
      else Box(NonNegative(Least(Xs(points))), NonNegative(Least(Ys(points))),
               NonNegative(Greatest(Xs(points))), NonNegative(Greatest(Ys(points))))
  }

  function TokenAt(rec: Recognition, strip: string -> string, i: nat): Token
    requires i < |rec.texts|
  {
    Token(strip(rec.texts[i]),
          if i < |rec.shapes| then BoxOf(rec.shapes[i]) else Box(0, 0, 0, 0),
          Clamp(Round((if i < |rec.scores| then rec.scores[i] else 0.0) * 10000.0), 0, 10000))
  }

  /** The non-blank detections among the first `n`. */
  function Detected(rec: Recognition, strip: string -> string, n: nat): seq<Token>
    requires n <= |rec.texts|
  {
    if n == 0 then []
    else Detected(rec, strip, n - 1) + if strip(rec.texts[n - 1]) == "" then [] else [TokenAt(rec, strip, n - 1)]
  }

  // ----- Grouping into lines -----

  type Group = seq<Token>

  predicate ReadsBefore(a: Token, b: Token) {
    a.box.top < b.box.top || (a.box.top == b.box.top && a.box.left <= b.box.left)
  }

  function Center(token: Token): real {
    (token.box.top + token.box.bottom) as real / 2.0
  }

  function CenterSum(group: Group): real {
    if group == [] then 0.0 else CenterSum(group[..|group| - 1]) + Center(group[|group| - 1])
  }

  function Tops(group: Group): (r: seq<int>)
    ensures |r| == |group|
  {
    seq(|group|, i requires 0 <= i < |group| => group[i].box.top)
  }

  function Lefts(group: Group): (r: seq<int>)
    ensures |r| == |group|
  {
    seq(|group|, i requires 0 <= i < |group| => group[i].box.left)
  }

  function Rights(group: Group): (r: seq<int>)
    ensures |r| == |group|
  {
    seq(|group|, i requires 0 <= i < |group| => group[i].box.right)
  }

  function Bottoms(group: Group): (r: seq<int>)
    ensures |r| == |group|
  {
    seq(|group|, i requires 0 <= i < |group| => group[i].box.bottom)
  }

  function Confidences(group: Group): (r: seq<int>)
    ensures |r| == |group|
  {
    seq(|group|, i requires 0 <= i < |group| => group[i].confidence)
  }

  function Min(s: seq<int>): (r: int)
    requires s != []
    ensures r in s && forall i :: 0 <= i < |s| ==> r <= s[i]
  {
    if |s| == 1 then s[0]
    else
      var front, last := Min(s[..|s| - 1]), s[|s| - 1];
      if front <= last then front else last
  }

  function Max(s: seq<int>): (r: int)
    requires s != []
    ensures r in s && forall i :: 0 <= i < |s| ==> s[i] <= r
  {
    if |s| == 1 then s[0]
    else
      var front, last := Max(s[..|s| - 1]), s[|s| - 1];
      if front >= last then front else last
  }

  function AtLeastOne(x: int): int {
    if x > 1 then x else 1
  }

  /** The token's centre is within 0.6 of the larger height from the group's mean centre. */
  predicate Near(token: Token, group: Group)
    requires group != []
  {
    var mean := CenterSum(group) / |group| as real;
    var height := AtLeastOne(token.box.bottom - token.box.top);
    var groupHeight := AtLeastOne(Max(Bottoms(group)) - Min(Tops(group)));
    var gap := Center(token) - mean;
    (if gap < 0.0 then -gap else gap) <= (if height > groupHeight then height else groupHeight) as real * 0.6
  }

  predicate NoneEmpty(groups: seq<Group>) {
    forall i :: 0 <= i < |groups| ==> groups[i] != []
  }

  /** The latest group below `i`, but not below `floor`, that the token is near. */
  function RowBelow(groups: seq<Group>, token: Token, floor: nat, i: nat): (r: Option<nat>)
    requires NoneEmpty(groups) && i <= |groups|
    ensures r.Some? ==> floor <= r.value < i
  {
    if i <= floor then None
    else if Near(token, groups[i - 1]) then Some(i - 1)
    else RowBelow(groups, token, floor, i - 1)
  }

  function LastThree(groups: seq<Group>): nat {
    if |groups| >= 3 then |groups| - 3 else 0
  }

  /** The latest of the last three groups the token is near, if any. */
  function Row(groups: seq<Group>, token: Token): (i: Option<nat>)
    requires NoneEmpty(groups)
    ensures i.Some? ==> i.value < |groups|
  {
    RowBelow(groups, token, LastThree(groups), |groups|)
  }

  lemma {:induction false} RowBelowMeans(groups: seq<Group>, token: Token, floor: nat, i: nat)
    requires NoneEmpty(groups) && i <= |groups|
    ensures var r := RowBelow(groups, token, floor, i);
      && (r.Some? ==> Near(token, groups[r.value]))
      && (forall k :: floor <= k < i && (r.Some? ==> r.value < k) ==> !Near(token, groups[k]))
  {
    hide Near;
    if i > floor && !Near(token, groups[i - 1]) {
      RowBelowMeans(groups, token, floor, i - 1);
    }
  }

  /** A token joins the latest line it is near among the last three, and opens a new line exactly
      when it is near none of them. */
  lemma {:induction false} PlacementMeans(groups: seq<Group>, token: Token)
    requires NoneEmpty(groups)
    ensures Place(groups, token) == groups + [[token]]
       <==> forall k :: LastThree(groups) <= k < |groups| ==> !Near(token, groups[k])
    ensures Place(groups, token) != groups + [[token]] ==>
      exists i :: LastThree(groups) <= i < |groups| && Near(token, groups[i])
        && (forall k :: i < k < |groups| ==> !Near(token, groups[k]))
        && Place(groups, token) == groups[i := groups[i] + [token]]
  {
    hide Near;
    RowBelowMeans(groups, token, LastThree(groups), |groups|);
    assert |Place(groups, token)| == |groups| + 1 <==> Row(groups, token).None?;
  }

  function Place(groups: seq<Group>, token: Token): (r: seq<Group>)
    requires NoneEmpty(groups)
    ensures NoneEmpty(r)
  {
    var i := Row(groups, token);
    if i.None? then groups + [[token]] else groups[i.value := groups[i.value] + [token]]
  }

  function Grouped(tokens: seq<Token>): (r: seq<Group>)
    ensures NoneEmpty(r)
  {
    if tokens == [] then [] else Place(Grouped(tokens[..|tokens| - 1]), tokens[|tokens| - 1])
  }

  function TopOf(group: Group): int {
    if group == [] then 0 else Min(Tops(group))
  }

  predicate HigherGroup(a: Group, b: Group) {
    TopOf(a) <= TopOf(b)
  }

  predicate RightToLeft(a: Token, b: Token) {
    a.box.left >= b.box.left
  }

  function EachSorted(groups: seq<Group>): (r: seq<Group>)
    ensures |r| == |groups|
  {
    seq(|groups|, i requires 0 <= i < |groups| => SortBy(groups[i], RightToLeft))
  }

  /** The lines of a page: top to bottom, each right to left. */
  function Rows(tokens: seq<Token>): seq<Group> {
    EachSorted(SortBy(Grouped(SortBy(tokens, ReadsBefore)), HigherGroup))
  }

  // ----- The output -----

  function WordId(page: string, n: nat): string {
    page + ":ocr:word:" + Pad6(n)
  }

  function LineId(page: string, n: nat): string {
    page + ":ocr:line:" + Pad6(n)
  }

  function Spans(page: string, group: Group, start: nat, line: nat): (r: seq<TokenSpan>)
    ensures |r| == |group|
  {
    seq(|group|, k requires 0 <= k < |group| =>
      TokenSpan(WordId(page, start + k), group[k].text, group[k].box, group[k].confidence, line))
  }

  function Ids(page: string, start: nat, n: nat): (r: seq<string>)
    ensures |r| == n
  {
    seq(n, k requires 0 <= k < n => WordId(page, start + k))
  }

  function Texts(group: Group): (r: seq<string>)
    ensures |r| == |group|
  {
    seq(|group|, i requires 0 <= i < |group| => group[i].text)
  }

  function Sum(s: seq<int>): int {
    if s == [] then 0 else Sum(s[..|s| - 1]) + s[|s| - 1]
  }

  function LineOf(page: string, group: Group, start: nat, index: nat): LineSpan
    requires group != []
  {
    LineSpan(LineId(page, index), Join(Texts(group), ' '),
             Box(Min(Lefts(group)), Min(Tops(group)), Max(Rights(group)), Max(Bottoms(group))),
             Sum(Confidences(group)) / |group|, Ids(page, start, |group|))
  }

  function AllSpans(page: string, rows: seq<Group>): seq<TokenSpan> {
    if rows == [] then []
    else
      var last := |rows| - 1;
      AllSpans(page, rows[..last]) + Spans(page, rows[last], |AllSpans(page, rows[..last])|, last)
  }

  function AllLines(page: string, rows: seq<Group>): (r: seq<LineSpan>)
    requires NoneEmpty(rows)
    ensures |r| == |rows|
  {
    if rows == [] then []
    else
      var last := |rows| - 1;
      AllLines(page, rows[..last]) + [LineOf(page, rows[last], |AllSpans(page, rows[..last])|, last)]
  }

  function LineTexts(lines: seq<LineSpan>): (r: seq<string>)
    ensures |r| == |lines|
  {
    seq(|lines|, i requires 0 <= i < |lines| => lines[i].text)
  }

  lemma {:induction false} RowsNotEmpty(tokens: seq<Token>)
    ensures NoneEmpty(Rows(tokens))
  {
    var groups := Grouped(SortBy(tokens, ReadsBefore));
    var ordered := SortBy(groups, HigherGroup);
    SortByMembers(groups, HigherGroup);
    forall i | 0 <= i < |ordered|
      ensures SortBy(ordered[i], RightToLeft) != []
    {
      assert ordered[i] in groups;
    }
  }

  function Parsed(rec: Recognition, strip: string -> string, page: string): Output {
    var rows := Rows(Detected(rec, strip, |rec.texts|));
    RowsNotEmpty(Detected(rec, strip, |rec.texts|));
    Output(AllSpans(page, rows), AllLines(page, rows), Join(LineTexts(AllLines(page, rows)), '\n'))
  }

  // ----- The source's loops -----

  lemma {:induction false} ReadsToken(rec: Recognition, strip: string -> string, i: nat)
    requires i < |rec.texts|
    ensures var box := if i < |rec.shapes| then BoxOf(rec.shapes[i]) else Box(0, 0, 0, 0);
            var score := if i < |rec.scores| then rec.scores[i] else 0.0;
            TokenAt(rec, strip, i) == Token(strip(rec.texts[i]), box, Clamp(Round(score * 10000.0), 0, 10000))
  {
    hide Round, Clamp, BoxOf;
  }

  method ReadDetections(rec: Recognition, strip: string -> string) returns (tokens: seq<Token>)
    ensures tokens == Detected(rec, strip, |rec.texts|)
  {
    hide Round, Clamp, BoxOf, TokenAt;
    tokens := [];
    for i := 0 to |rec.texts|
      invariant tokens == Detected(rec, strip, i)
    {
      var value := strip(rec.texts[i]);
      if value == "" {
        continue;
      }
      var box := if i < |rec.shapes| then BoxOf(rec.shapes[i]) else Box(0, 0, 0, 0);
      var score := if i < |rec.scores| then rec.scores[i] else 0.0;
      tokens := tokens + [Token(value, box, Clamp(Round(score * 10000.0), 0, 10000))];
      ReadsToken(rec, strip, i);
    }
  }

  method SelectRow(groups: seq<Group>, token: Token) returns (selected: Option<nat>)
    requires NoneEmpty(groups)
    ensures selected == Row(groups, token)
  {
    hide Near;
    selected := None;
    var i, floor := |groups|, LastThree(groups);
    while i > floor
      invariant floor <= i <= |groups|
      invariant Row(groups, token) == RowBelow(groups, token, floor, i)
    {
      i := i - 1;
      if Near(token, groups[i]) {
        return Some(i);
      }
    }
  }

  method GroupTokens(tokens: seq<Token>) returns (groups: seq<Group>)
    ensures groups == Grouped(tokens)
  {
    groups := [];
    for t := 0 to |tokens|
      invariant groups == Grouped(tokens[..t])
    {
      hide Near;
      var token := tokens[t];
      assert tokens[..t + 1][..t] == tokens[..t];
      var selected := SelectRow(groups, token);
      if selected.None? {
        groups := groups + [[token]];
      } else {
        groups := groups[selected.value := groups[selected.value] + [token]];
      }
    }
    assert tokens[..|tokens|] == tokens;
  }

  /** One line: its tokens in order, then the line itself. */
  method EmitRow(page: string, before: seq<TokenSpan>, group: Group,
                 index: nat) returns (tokens: seq<TokenSpan>, line: LineSpan)
    requires group != []
    ensures tokens == before + Spans(page, group, |before|, index) && line == LineOf(page, group, |before|, index)
  {
    hide WordId, LineId;
    tokens := before;
    var ids: seq<string> := [];
    for k := 0 to |group|
      invariant tokens == before + Spans(page, group, |before|, index)[..k]
      invariant ids == Ids(page, |before|, |group|)[..k]
    {
      var id := WordId(page, |tokens|);
      tokens := tokens + [TokenSpan(id, group[k].text, group[k].box, group[k].confidence, index)];
      ids := ids + [id];
    }
    line := LineSpan(LineId(page, index), Join(Texts(group), ' '),
                     Box(Min(Lefts(group)), Min(Tops(group)), Max(Rights(group)), Max(Bottoms(group))),
                     Sum(Confidences(group)) / |group|, ids);
  }

  /** The tokens and lines of all rows, in reading order. */
  method EmitRows(page: string, rows: seq<Group>) returns (tokens: seq<TokenSpan>, lines: seq<LineSpan>)
    requires NoneEmpty(rows)
    ensures tokens == AllSpans(page, rows) && lines == AllLines(page, rows)
  {
    hide Spans, LineOf;
    tokens, lines := [], [];
    for i := 0 to |rows|
      invariant tokens == AllSpans(page, rows[..i]) && lines == AllLines(page, rows[..i])
    {
      assert rows[..i + 1][..i] == rows[..i];
      var line;
      tokens, line := EmitRow(page, tokens, rows[i], i);
      lines := lines + [line];
    }
    assert rows[..|rows|] == rows;
  }

  /** `_parse_result`. */
  method ParseResult(rec: Recognition, strip: string -> string, page: string) returns (r: Output)
    ensures r == Parsed(rec, strip, page)
  {
    hide Grouped, Detected, AllLines, AllSpans, SortBy;
    var raw := ReadDetections(rec, strip);
    RowsNotEmpty(raw);
    var grouped := GroupTokens(SortBy(raw, ReadsBefore));
    var ordered := SortBy(grouped, HigherGroup);
    var rows: seq<Group> := [];
    for i := 0 to |ordered|
      invariant rows == EachSorted(ordered)[..i]
    {
      rows := rows + [SortBy(ordered[i], RightToLeft)];
    }
    assert rows == EachSorted(ordered) == Rows(raw);
    var tokens, lines := EmitRows(page, rows);
    return Output(tokens, lines, Join(LineTexts(lines), '\n'));
  }

  // ----- Nothing is lost or invented -----

  function Flatten(groups: seq<Group>): seq<Token> {
    if groups == [] then [] else groups[0] + Flatten(groups[1..])
  }

  lemma {:induction false} Regroup(a: Group, b: Group, c: Group)
    ensures a + (b + c) == (a + b) + c
  {
  }

  lemma {:induction false} FlattenConcat(a: seq<Group>, b: seq<Group>)
    ensures Flatten(a + b) == Flatten(a) + Flatten(b)
  {
    if a == [] {
      assert a + b == b;
    } else {
      FlattenConcat(a[1..], b);
      assert (a + b)[1..] == a[1..] + b;
      Regroup(a[0], Flatten(a[1..]), Flatten(b));
    }
  }

  lemma {:induction false} FlattenOne(group: Group)
    ensures Flatten([group]) == group
  {
    assert Flatten([group]) == group + Flatten([]);
  }

  lemma {:induction false} PlaceCounts(groups: seq<Group>, token: Token)
    requires NoneEmpty(groups)
    ensures multiset(Flatten(Place(groups, token))) == multiset(Flatten(groups)) + multiset{token}
  {
    hide Near, Row;
    var i := Row(groups, token);
    if i.None? {
      FlattenConcat(groups, [[token]]);
      FlattenOne([token]);
    } else {
      var k := i.value;
      var group := groups[k];
      assert groups == groups[..k] + [group] + groups[k + 1..];
      assert Place(groups, token) == groups[..k] + [group + [token]] + groups[k + 1..];
      FlattenThree(groups[..k], group, groups[k + 1..]);
      FlattenThree(groups[..k], group + [token], groups[k + 1..]);
    }
  }

  lemma {:induction false} FlattenThree(a: seq<Group>, group: Group, b: seq<Group>)
    ensures multiset(Flatten(a + [group] + b)) == multiset(Flatten(a)) + multiset(group) + multiset(Flatten(b))
  {
    hide Flatten;
    FlattenConcat(a + [group], b);
    FlattenConcat(a, [group]);
    FlattenOne(group);
  }

  lemma {:induction false} GroupedCounts(tokens: seq<Token>)
    ensures multiset(Flatten(Grouped(tokens))) == multiset(tokens)
  {
    hide Place, Flatten;
    if tokens == [] {
      NothingGrouped();
    } else {
      var front, last := tokens[..|tokens| - 1], tokens[|tokens| - 1];
      assert tokens == front + [last];
      GroupedCounts(front);
      PlaceCounts(Grouped(front), last);
    }
  }

  lemma {:induction false} NothingGrouped()
    ensures Flatten(Grouped([])) == []
  {
  }

  lemma {:induction false} InsertCounts(group: Group, groups: seq<Group>)
    ensures multiset(Flatten(Insert(group, groups, HigherGroup))) == multiset(group) + multiset(Flatten(groups))
  {
    hide HigherGroup;
    if groups == [] {
      FlattenOne(group);
    } else if !HigherGroup(group, groups[0]) {
      InsertCounts(group, groups[1..]);
      assert Insert(group, groups, HigherGroup)[1..] == Insert(group, groups[1..], HigherGroup);
    } else {
      assert Insert(group, groups, HigherGroup)[1..] == groups;
    }
  }

  lemma {:induction false} SortedCounts(groups: seq<Group>)
    ensures multiset(Flatten(SortBy(groups, HigherGroup))) == multiset(Flatten(groups))
  {
    hide HigherGroup, Insert;
    if groups != [] {
      SortedCounts(groups[1..]);
      InsertCounts(groups[0], SortBy(groups[1..], HigherGroup));
    }
  }

  lemma {:induction false} EachSortedCounts(groups: seq<Group>)
    ensures multiset(Flatten(EachSorted(groups))) == multiset(Flatten(groups))
  {
    if groups != [] {
      EachSortedCounts(groups[1..]);
      assert EachSorted(groups)[1..] == EachSorted(groups[1..]);
    }
  }

  lemma {:induction false} RowsCount(tokens: seq<Token>)
    ensures multiset(Flatten(Rows(tokens))) == multiset(tokens)
  {
    hide Grouped, Flatten, EachSorted;
    var sorted := SortBy(tokens, ReadsBefore);
    GroupedCounts(sorted);
    SortedCounts(Grouped(sorted));
    EachSortedCounts(SortBy(Grouped(sorted), HigherGroup));
  }

  // ----- Where tokens and lines come from -----

  /** Tokens emitted before row `i`. */
  function Start(page: string, rows: seq<Group>, i: nat): nat
    requires i <= |rows|
  {
    |AllSpans(page, rows[..i])|
  }

  lemma {:induction false} SpanAt(page: string, rows: seq<Group>, k: nat) returns (i: nat, o: nat)
    requires k < |AllSpans(page, rows)|
    ensures i < |rows| && o < |rows[i]| && k == Start(page, rows, i) + o
    ensures AllSpans(page, rows)[k]
      == TokenSpan(WordId(page, k), rows[i][o].text, rows[i][o].box, rows[i][o].confidence, i)
  {
    var last := |rows| - 1;
    var before := AllSpans(page, rows[..last]);
    if k < |before| {
      i, o := SpanAt(page, rows[..last], k);
      assert rows[..last][..i] == rows[..i];
    } else {
      i, o := last, k - |before|;
    }
  }

  lemma {:induction false} LineAt(page: string, rows: seq<Group>, i: nat)
    requires NoneEmpty(rows) && i < |rows|
    ensures AllLines(page, rows)[i] == LineOf(page, rows[i], Start(page, rows, i), i)
  {
    hide LineOf, AllSpans;
    var last := |rows| - 1;
    if i < last {
      LineAt(page, rows[..last], i);
      assert rows[..last][..i] == rows[..i];
    }
  }

  lemma {:induction false} SpansAreFlat(page: string, rows: seq<Group>)
    ensures |AllSpans(page, rows)| == |Flatten(rows)|
    ensures forall k :: 0 <= k < |Flatten(rows)| ==>
      && AllSpans(page, rows)[k].id == WordId(page, k)
      && AllSpans(page, rows)[k].text == Flatten(rows)[k].text
      && AllSpans(page, rows)[k].box == Flatten(rows)[k].box
      && AllSpans(page, rows)[k].confidence == Flatten(rows)[k].confidence
  {
    hide WordId;
    if rows != [] {
      var last := |rows| - 1;
      SpansAreFlat(page, rows[..last]);
      FlattenConcat(rows[..last], [rows[last]]);
      FlattenOne(rows[last]);
      assert rows == rows[..last] + [rows[last]];
    }
  }

  function LineTokens(lines: seq<LineSpan>): seq<string> {
    if lines == [] then [] else LineTokens(lines[..|lines| - 1]) + lines[|lines| - 1].tokenIds
  }

  lemma {:induction false} IdsConcat(page: string, n: nat, m: nat)
    ensures Ids(page, 0, n) + Ids(page, n, m) == Ids(page, 0, n + m)
  {
    hide WordId;
  }

  lemma {:induction false} LineTokensSnoc(lines: seq<LineSpan>, line: LineSpan)
    ensures LineTokens(lines + [line]) == LineTokens(lines) + line.tokenIds
  {
    assert (lines + [line])[..|lines|] == lines;
  }

  lemma {:induction false} LineIds(page: string, group: Group, start: nat, index: nat)
    requires group != []
    ensures LineOf(page, group, start, index).tokenIds == Ids(page, start, |group|)
  {
  }

  lemma {:induction false} LineTokensAreAll(page: string, rows: seq<Group>)
    requires NoneEmpty(rows)
    ensures LineTokens(AllLines(page, rows)) == Ids(page, 0, |AllSpans(page, rows)|)
  {
    hide WordId, Spans, LineOf, LineTokens, Ids;
    if rows == [] {
      NoLines();
      assert Ids(page, 0, 0) == [];
    } else {
      var last := |rows| - 1;
      var n := |AllSpans(page, rows[..last])|;
      LineTokensAreAll(page, rows[..last]);
      LineTokensSnoc(AllLines(page, rows[..last]), LineOf(page, rows[last], n, last));
      LineIds(page, rows[last], n, last);
      IdsConcat(page, n, |rows[last]|);
    }
  }

  lemma {:induction false} NoLines()
    ensures LineTokens([]) == []
  {
  }

  // ----- Main results -----

  function TokensOf(spans: seq<TokenSpan>): (r: seq<Token>)
    ensures |r| == |spans|
  {
    seq(|spans|, k requires 0 <= k < |spans| => Token(spans[k].text, spans[k].box, spans[k].confidence))
  }

  /** The output's tokens are a permutation of the non-blank detections; span numbers run from 0;
      the lines' token lists concatenate to exactly all tokens. */
  lemma {:induction false} NothingLostOrInvented(rec: Recognition, strip: string -> string, page: string)
    ensures var r := Parsed(rec, strip, page);
      && multiset(TokensOf(r.tokens)) == multiset(Detected(rec, strip, |rec.texts|))
      && (forall k :: 0 <= k < |r.tokens| ==> r.tokens[k].id == WordId(page, k))
      && LineTokens(r.lines) == Ids(page, 0, |r.tokens|)
  {
    hide Detected, Rows, AllSpans, AllLines, Flatten, WordId;
    var tokens := Detected(rec, strip, |rec.texts|);
    var rows := Rows(tokens);
    RowsCount(tokens);
    RowsNotEmpty(tokens);
    SpansAreFlat(page, rows);
    LineTokensAreAll(page, rows);
    assert TokensOf(AllSpans(page, rows)) == Flatten(rows);
  }

  /** Span identifiers never repeat. */
  lemma {:induction false} WordIdsAreDistinct(page: string, m: nat, n: nat)
    requires WordId(page, m) == WordId(page, n)
    ensures m == n
  {
    var prefix := page + ":ocr:word:";
    assert WordId(page, m)[|prefix|..] == Pad6(m) && WordId(page, n)[|prefix|..] == Pad6(n);
    Pad6Injective(m, n);
  }

  predicate Encloses(outer: Box, inner: Box) {
    outer.left <= inner.left && outer.top <= inner.top && inner.right <= outer.right && inner.bottom <= outer.bottom
  }

  lemma {:induction false} LineEncloses(page: string, group: Group, start: nat, index: nat, o: nat)
    requires o < |group|
    ensures Encloses(LineOf(page, group, start, index).box, group[o].box)
  {
    assert Lefts(group)[o] == group[o].box.left && Tops(group)[o] == group[o].box.top;
    assert Rights(group)[o] == group[o].box.right && Bottoms(group)[o] == group[o].box.bottom;
  }

  lemma {:induction false} SumBounds(s: seq<int>, lo: int, hi: int)
    requires forall i :: 0 <= i < |s| ==> lo <= s[i] <= hi
    ensures lo * |s| <= Sum(s) <= hi * |s|
  {
    if s != [] {
      SumBounds(s[..|s| - 1], lo, hi);
      assert lo * |s| == lo * (|s| - 1) + lo && hi * |s| == hi * (|s| - 1) + hi;
    }
  }

  lemma {:induction false} AverageBetween(s: seq<int>)
    requires s != []
    ensures Min(s) <= Sum(s) / |s| <= Max(s)
  {
    SumBounds(s, Min(s), Max(s));
    DivideBounds(Sum(s), |s|, Min(s), Max(s));
  }

  lemma {:induction false} DivideBounds(sum: int, n: int, lo: int, hi: int)
    requires n > 0 && lo * n <= sum <= hi * n
    ensures lo <= sum / n <= hi
  {
    var q := sum / n;
    assert q * n <= sum < (q + 1) * n;
    ProductsOrder(lo, q + 1, n);
    ProductsOrder(q, hi + 1, n);
  }

  lemma {:induction false} ProductsOrder(a: int, b: int, n: int)
    requires n > 0
    ensures a * n < b * n <==> a < b
  {
    assert (b - a) * n == b * n - a * n;
  }

  /** Every token lies on a line that encloses it and lists it. */
  lemma {:induction false} LinesFitTheirTokens(rec: Recognition, strip: string -> string, page: string, k: nat)
    requires k < |Parsed(rec, strip, page).tokens|
    ensures var r := Parsed(rec, strip, page);
      && r.tokens[k].line < |r.lines|
      && var line := r.lines[r.tokens[k].line];
      && Encloses(line.box, r.tokens[k].box)
      && r.tokens[k].id in line.tokenIds
  {
    hide Rows, AllSpans, AllLines, WordId, LineOf;
    var rows := Rows(Detected(rec, strip, |rec.texts|));
    RowsNotEmpty(Detected(rec, strip, |rec.texts|));
    var i, o := SpanAt(page, rows, k);
    LineAt(page, rows, i);
    LineEncloses(page, rows[i], Start(page, rows, i), i, o);
    LineLists(page, rows[i], Start(page, rows, i), i, o);
  }

  lemma {:induction false} LineLists(page: string, group: Group, start: nat, index: nat, o: nat)
    requires o < |group|
    ensures WordId(page, start + o) in LineOf(page, group, start, index).tokenIds
  {
    assert Ids(page, start, |group|)[o] == WordId(page, start + o);
  }

  lemma {:induction false} SpanOf(page: string, rows: seq<Group>, i: nat, o: nat)
    requires i < |rows| && o < |rows[i]|
    ensures Start(page, rows, i) + o < |AllSpans(page, rows)|
    ensures AllSpans(page, rows)[Start(page, rows, i) + o] == Spans(page, rows[i], Start(page, rows, i), i)[o]
  {
    hide Spans;
    var last := |rows| - 1;
    if i < last {
      SpanOf(page, rows[..last], i, o);
      assert rows[..last][..i] == rows[..i];
    }
  }

  lemma {:induction false} ConfidenceBetween(page: string, group: Group, start: nat,
                                             index: nat) returns (a: nat, b: nat)
    requires group != []
    ensures a < |group| && b < |group|
    ensures group[a].confidence <= LineOf(page, group, start, index).confidence <= group[b].confidence
  {
    hide WordId, LineId, Ids;
    AverageBetween(Confidences(group));
    a :| 0 <= a < |group| && Confidences(group)[a] == Min(Confidences(group));
    b :| 0 <= b < |group| && Confidences(group)[b] == Max(Confidences(group));
  }

  /** A line's confidence lies between those of two of its tokens. */
  lemma {:induction false} LineConfidence(rec: Recognition, strip: string -> string, page: string,
                                          i: nat) returns (low: nat, high: nat)
    requires i < |Parsed(rec, strip, page).lines|
    ensures var r := Parsed(rec, strip, page);
      && low < |r.tokens| && high < |r.tokens| && r.tokens[low].line == i == r.tokens[high].line
      && r.tokens[low].confidence <= r.lines[i].confidence <= r.tokens[high].confidence
  {
    hide Rows, AllSpans, AllLines, WordId, LineOf, Join, LineTexts;
    var rows := Rows(Detected(rec, strip, |rec.texts|));
    RowsNotEmpty(Detected(rec, strip, |rec.texts|));
    LineAt(page, rows, i);
    var a, b := ConfidenceBetween(page, rows[i], Start(page, rows, i), i);
    SpanOf(page, rows, i, a);
    SpanOf(page, rows, i, b);
    low, high := Start(page, rows, i) + a, Start(page, rows, i) + b;
  }

  lemma {:induction false} SameTop(a: Group, b: Group)
    requires multiset(a) == multiset(b) && a != [] && b != []
    ensures TopOf(a) == TopOf(b)
  {
    TopAtMost(a, b);
    TopAtMost(b, a);
  }

  lemma {:induction false} TopAtMost(a: Group, b: Group)
    requires multiset(a) == multiset(b) && a != [] && b != []
    ensures TopOf(a) <= TopOf(b)
  {
    var i :| 0 <= i < |b| && Tops(b)[i] == TopOf(b);
    assert b[i] in multiset(a);
    var k :| 0 <= k < |a| && a[k] == b[i];
    assert Tops(a)[k] == TopOf(b);
  }

  lemma {:induction false} RowsOrdered(tokens: seq<Token>)
    ensures var rows := Rows(tokens);
      && (forall i, j :: 0 <= i < j < |rows| ==> TopOf(rows[i]) <= TopOf(rows[j]))
      && (forall i, m, n :: 0 <= i < |rows| && 0 <= m < n < |rows[i]| ==> rows[i][m].box.left >= rows[i][n].box.left)
  {
    hide Grouped, TopOf;
    RowsNotEmpty(tokens);
    var groups := Grouped(SortBy(tokens, ReadsBefore));
    var ordered, rows := SortBy(groups, HigherGroup), Rows(tokens);
    SortBySorted(groups, HigherGroup);
    SortByMembers(groups, HigherGroup);
    forall i | 0 <= i < |rows|
      ensures TopOf(rows[i]) == TopOf(ordered[i])
      ensures Sorted(rows[i], RightToLeft)
    {
      assert ordered[i] in groups;
      SameTop(rows[i], ordered[i]);
      SortBySorted(ordered[i], RightToLeft);
    }
    forall i, j | 0 <= i < j < |rows|
      ensures TopOf(rows[i]) <= TopOf(rows[j])
    {
      assert HigherGroup(ordered[i], ordered[j]);
    }
  }

  /** Reading order: lines come top to bottom, tokens line by line, right to left within a line. */
  lemma {:induction false} ReadingOrder(rec: Recognition, strip: string -> string, page: string, k: nat, m: nat)
    requires k < m < |Parsed(rec, strip, page).tokens|
    ensures var r := Parsed(rec, strip, page);
      && r.tokens[k].line <= r.tokens[m].line < |r.lines|
      && r.lines[r.tokens[k].line].box.top <= r.lines[r.tokens[m].line].box.top
      && (r.tokens[k].line == r.tokens[m].line ==> r.tokens[k].box.left >= r.tokens[m].box.left)
  {
    hide Rows, AllSpans, AllLines, WordId;
    var tokens := Detected(rec, strip, |rec.texts|);
    var rows := Rows(tokens);
    RowsNotEmpty(tokens);
    RowsOrdered(tokens);
    var i, o := SpanAt(page, rows, k);
    var j, p := SpanAt(page, rows, m);
    LineAt(page, rows, i);
    LineAt(page, rows, j);
    StartsIncrease(page, rows, j, i);
    assert i <= j;
  }

  /** A later row starts after an earlier one ends. */
  lemma {:induction false} StartsIncrease(page: string, rows: seq<Group>, i: nat, j: nat)
    requires i < |rows| && j < |rows|
    ensures i < j ==> Start(page, rows, i) + |rows[i]| <= Start(page, rows, j)
    decreases j
  {
    hide Spans;
    if i < j {
      assert rows[..j][..j - 1] == rows[..j - 1];
      StartsIncrease(page, rows, i, j - 1);
    }
  }
}
