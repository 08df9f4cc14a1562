/** What the numbers and texts of an OCR layout mean: rounding, boxes, confidences, the nearness that
    joins tokens into lines, and what a line says of its tokens. */
module OcrMeaning {
  import opened Wrappers
  import opened Ranges
  import opened Sorting
  import opened Strings
  import opened OcrLayout

  // ----- Numbers -----

  /** `n` is the integer nearest to `x`; of two nearest ones, the even one. */
  predicate IsNearest(n: int, x: real) {
    && -0.5 <= x - n as real <= 0.5
    && (x - n as real == 0.5 || x - n as real == -0.5 ==> n % 2 == 0)
  }

  lemma {:induction false} NearestIsUnique(n: int, m: int, x: real)
    requires IsNearest(n, x) && IsNearest(m, x)
    ensures n == m
  {
    assert -1.0 <= (n - m) as real <= 1.0;
    assert -1 <= n - m <= 1;
  }

  lemma {:induction false} RoundIsNearest(x: real)
    ensures IsNearest(Round(x), x)
  {
    var below := x.Floor;
    assert below as real <= x < below as real + 1.0;
    assert (below + 1) as real == below as real + 1.0;
    assert (below + 1) % 2 == 0 <==> below % 2 != 0;
  }

  lemma {:induction false} NearestOrders(n: int, x: real, m: int, y: real)
    requires IsNearest(n, x) && IsNearest(m, y) && x <= y
    ensures n <= m
  {
    if n > m {
      assert n as real - m as real >= 1.0;
      assert x == y;
      NearestIsUnique(n, m, x);
    }
  }

  /** A coordinate becomes the nearest pixel, and no pixel is negative. */
  lemma {:induction false} PixelIs(x: real)
    ensures NonNegative(x) >= 0
    ensures NonNegative(x) == 0 ==> x <= 0.5
    ensures NonNegative(x) > 0 ==> IsNearest(NonNegative(x), x)
  {
    RoundIsNearest(x);
  }

  lemma {:induction false} PixelsKeepOrder(x: real, y: real)
    requires x <= y
    ensures NonNegative(x) <= NonNegative(y)
  {
    RoundIsNearest(x);
    RoundIsNearest(y);
    NearestOrders(Round(x), x, Round(y), y);
  }

  /** A score becomes a confidence from 0 to 10000. */
  lemma {:induction false} ConfidenceIs(score: real)
    ensures var c := Clamp(Round(score * 10000.0), 0, 10000);
      && 0 <= c <= 10000
      && (0.0 <= score <= 1.0 ==> IsNearest(c, score * 10000.0))
      && (score < 0.0 ==> c == 0) && (score > 1.0 ==> c == 10000)
  {
    RoundIsNearest(score * 10000.0);
  }

  // ----- Boxes -----

  /** Four numbers are left, top, right and bottom. */
  lemma {:induction false} CornerBoxIs(l: real, t: real, r: real, b: real)
    ensures var box := BoxOf(Corners(l, t, r, b));
      && box.left == NonNegative(l) && box.top == NonNegative(t)
      && box.right == NonNegative(r) && box.bottom == NonNegative(b)
    ensures BoxOf(Polygon([])) == Box(0, 0, 0, 0)
  {
  }

  /** A polygon's box holds every corner, and each side touches one. */
  lemma {:induction false} PolygonBoxIs(points: seq<(real, real)>)
    requires points != []
    ensures var box := BoxOf(Polygon(points));
      && (forall k :: 0 <= k < |points| ==>
            && box.left <= NonNegative(points[k].0) <= box.right
            && box.top <= NonNegative(points[k].1) <= box.bottom)
      && (exists k :: 0 <= k < |points| && box.left == NonNegative(points[k].0))
      && (exists k :: 0 <= k < |points| && box.top == NonNegative(points[k].1))
      && (exists k :: 0 <= k < |points| && box.right == NonNegative(points[k].0))
      && (exists k :: 0 <= k < |points| && box.bottom == NonNegative(points[k].1))
  {
    hide NonNegative, Least, Greatest;
    var xs, ys := Xs(points), Ys(points);
    assert forall k :: 0 <= k < |points| ==> xs[k] == points[k].0 && ys[k] == points[k].1;
    forall k | 0 <= k < |points|
      ensures NonNegative(Least(xs)) <= NonNegative(points[k].0) <= NonNegative(Greatest(xs))
      ensures NonNegative(Least(ys)) <= NonNegative(points[k].1) <= NonNegative(Greatest(ys))
    {
      assert xs[k] in xs && ys[k] in ys;
      PixelsKeepOrder(Least(xs), xs[k]);
      PixelsKeepOrder(xs[k], Greatest(xs));
      PixelsKeepOrder(Least(ys), ys[k]);
      PixelsKeepOrder(ys[k], Greatest(ys));
    }
    var a :| 0 <= a < |xs| && xs[a] == Least(xs);
    var b :| 0 <= b < |ys| && ys[b] == Least(ys);
    var c :| 0 <= c < |xs| && xs[c] == Greatest(xs);
    var d :| 0 <= d < |ys| && ys[d] == Greatest(ys);
    assert NonNegative(points[a].0) == BoxOf(Polygon(points)).left;
    assert NonNegative(points[b].1) == BoxOf(Polygon(points)).top;
    assert NonNegative(points[c].0) == BoxOf(Polygon(points)).right;
    assert NonNegative(points[d].1) == BoxOf(Polygon(points)).bottom;
  }

  // ----- Detections -----

  /** A detection's token: its stripped text, the box of its shape if it has one, and its score. */
  lemma {:induction false} TokenIs(rec: Recognition, strip: string -> string, i: nat)
    requires i < |rec.texts|
    ensures var token := TokenAt(rec, strip, i);
      && token.text == strip(rec.texts[i])
      && token.box == (if i < |rec.shapes| then BoxOf(rec.shapes[i]) else Box(0, 0, 0, 0))
      && (i < |rec.scores| && 0.0 <= rec.scores[i] <= 1.0 ==> IsNearest(token.confidence, rec.scores[i] * 10000.0))
      && (i >= |rec.scores| ==> token.confidence == 0)
      && 0 <= token.confidence <= 10000
  {
    hide BoxOf;
    if i < |rec.scores| {
      ConfidenceIs(rec.scores[i]);
    } else {
      ConfidenceIs(0.0);
      NearestIsUnique(TokenAt(rec, strip, i).confidence, 0, 0.0);
    }
  }

  /** The detections below `n` with a text. */
  function NotBlank(rec: Recognition, strip: string -> string, n: nat): set<nat>
    requires n <= |rec.texts|
  {
    set j: nat | j < n && strip(rec.texts[j]) != ""
  }

  /** Every detection with a text, and no other, becomes a token, in the order detected. */
  lemma {:induction false} DetectedAre(rec: Recognition, strip: string -> string, n: nat, i: nat)
    requires i < n <= |rec.texts| && strip(rec.texts[i]) != ""
    ensures |Detected(rec, strip, n)| == |NotBlank(rec, strip, n)|
    ensures |NotBlank(rec, strip, i)| < |Detected(rec, strip, n)|
    ensures Detected(rec, strip, n)[|NotBlank(rec, strip, i)|] == TokenAt(rec, strip, i)
  {
    hide TokenAt;
    DetectedCount(rec, strip, n);
    if i < n - 1 {
      DetectedAre(rec, strip, n - 1, i);
    } else {
      DetectedCount(rec, strip, i);
    }
  }

  lemma {:induction false} DetectedCount(rec: Recognition, strip: string -> string, n: nat)
    requires n <= |rec.texts|
    ensures |Detected(rec, strip, n)| == |NotBlank(rec, strip, n)|
  {
    hide TokenAt;
    if n > 0 {
      DetectedCount(rec, strip, n - 1);
      var before, now := NotBlank(rec, strip, n - 1), NotBlank(rec, strip, n);
      if strip(rec.texts[n - 1]) != "" {
        assert now == before + {n - 1};
      } else {
        assert now == before;
      }
    } else {
      assert NotBlank(rec, strip, 0) == {};
    }
  }

  // ----- Nearness -----

  /** Twice the sum of the centres of a group. */
  function EdgeSum(group: Group): int {
    if group == [] then 0
    else EdgeSum(group[..|group| - 1]) + group[|group| - 1].box.top + group[|group| - 1].box.bottom
  }

  lemma {:induction false} CentersAreEdges(group: Group)
    ensures 2.0 * CenterSum(group) == EdgeSum(group) as real
  {
    if group != [] {
      CentersAreEdges(group[..|group| - 1]);
    }
  }

  /** A token is near a group when the distance of its centre from the group's mean centre is at most
      0.6 of the larger of their heights, which count as at least 1. */
  lemma {:induction false} NearIff(token: Token, group: Group, top: int, bottom: int)
    requires group != []
    requires (forall k :: 0 <= k < |group| ==> top <= group[k].box.top && group[k].box.bottom <= bottom)
    requires (exists k :: 0 <= k < |group| && group[k].box.top == top)
    requires (exists k :: 0 <= k < |group| && group[k].box.bottom == bottom)
    ensures var height := Max([1, token.box.bottom - token.box.top, bottom - top]);
      var distance := |group| * (token.box.top + token.box.bottom) - EdgeSum(group);
      Near(token, group) <==> -6 * |group| * height <= 5 * distance <= 6 * |group| * height
  {
    hide Near, EdgeSum, CenterSum, Max;
    CentersAreEdges(group);
    var n, edges := |group|, token.box.top + token.box.bottom;
    var height := Max([1, token.box.bottom - token.box.top, bottom - top]);
    var mean := CenterSum(group) / n as real;
    NearHeight(token, group, top, bottom);
    MeanTimesCount(CenterSum(group), n);
    DistanceScaled(n, edges, EdgeSum(group), mean);
    ScaledGap(Center(token), mean, n, n * edges - EdgeSum(group), height);
  }

  lemma {:induction false} NearHeight(token: Token, group: Group, top: int, bottom: int)
    requires group != []
    requires (forall k :: 0 <= k < |group| ==> top <= group[k].box.top && group[k].box.bottom <= bottom)
    requires (exists k :: 0 <= k < |group| && group[k].box.top == top)
    requires (exists k :: 0 <= k < |group| && group[k].box.bottom == bottom)
    ensures var limit := Max([1, token.box.bottom - token.box.top, bottom - top]) as real * 0.6;
      Near(token, group) <==> -limit <= Center(token) - CenterSum(group) / |group| as real <= limit
  {
    hide Max, Min, CenterSum, Center;
    GroupEdges(group, top, bottom);
    LargestOfThree(1, token.box.bottom - token.box.top, bottom - top);
  }

  lemma {:induction false} DistanceScaled(n: nat, edges: int, sum: int, mean: real)
    requires 2.0 * (mean * n as real) == sum as real
    ensures (n * edges - sum) as real == 2.0 * n as real * (edges as real / 2.0 - mean)
  {
    assert (n * edges) as real == n as real * edges as real;
    assert 2.0 * n as real * (edges as real / 2.0 - mean) == n as real * edges as real - 2.0 * (mean * n as real);
  }

  lemma {:induction false} GroupEdges(group: Group, top: int, bottom: int)
    requires group != []
    requires (forall k :: 0 <= k < |group| ==> top <= group[k].box.top && group[k].box.bottom <= bottom)
    requires (exists k :: 0 <= k < |group| && group[k].box.top == top)
    requires (exists k :: 0 <= k < |group| && group[k].box.bottom == bottom)
    ensures Min(Tops(group)) == top && Max(Bottoms(group)) == bottom
  {
    var k :| 0 <= k < |group| && group[k].box.top == top;
    assert Tops(group)[k] == top;
    var m :| 0 <= m < |group| && group[m].box.bottom == bottom;
    assert Bottoms(group)[m] == bottom;
  }

  lemma {:induction false} LargestOfThree(a: int, b: int, c: int)
    ensures var m := Max([a, b, c]); m >= a && m >= b && m >= c && (m == a || m == b || m == c)
  {
    var all := [a, b, c];
    assert all[0] == a && all[1] == b && all[2] == c;
    assert Max(all) in all;
  }

  lemma {:induction false} MeanTimesCount(sum: real, n: nat)
    requires n > 0
    ensures (sum / n as real) * n as real == sum
  {
  }

  lemma {:induction false} ScaledGap(center: real, mean: real, n: nat, distance: int, height: int)
    requires n > 0 && distance as real == 2.0 * n as real * (center - mean)
    ensures -(height as real * 0.6) <= center - mean <= height as real * 0.6
       <==> -6 * n * height <= 5 * distance <= 6 * n * height
  {
    var gap, h, k := center - mean, height as real, n as real;
    assert 5.0 * distance as real == 10.0 * k * gap;
    assert (6 * n * height) as real == 6.0 * k * h;
    Scale(gap, h * 0.6, k);
    Scale(-(h * 0.6), gap, k);
    assert 10.0 * (k * (h * 0.6)) == 6.0 * k * h;
  }

  lemma {:induction false} Scale(x: real, y: real, k: real)
    requires k > 0.0
    ensures x <= y <==> k * x <= k * y
  {
  }

  // ----- The order tokens are grouped in -----

  /** Tokens are grouped from top to bottom, and of one top edge from left to right. */
  lemma {:induction false} GroupedFromTheTop(tokens: seq<Token>) returns (s: seq<Token>)
    ensures multiset(s) == multiset(tokens)
    ensures forall i, j :: 0 <= i < j < |s| ==>
      s[i].box.top < s[j].box.top || (s[i].box.top == s[j].box.top && s[i].box.left <= s[j].box.left)
    ensures Rows(tokens) == EachSorted(SortBy(Grouped(s), HigherGroup))
  {
    hide Grouped;
    s := SortBy(tokens, ReadsBefore);
    SortBySorted(tokens, ReadsBefore);
    forall i, j | 0 <= i < j < |s|
      ensures s[i].box.top < s[j].box.top || (s[i].box.top == s[j].box.top && s[i].box.left <= s[j].box.left)
    {
      assert ReadsBefore(s[i], s[j]);
    }
  }

  /** The grouped tokens, one more each time: into the latest of the last three lines it is near, or
      into a line of its own. */
  lemma {:induction false} GroupedStep(tokens: seq<Token>, token: Token)
    ensures var before, after := Grouped(tokens), Grouped(tokens + [token]);
      var near := set k: nat | k < |before| && k + 3 >= |before| && Near(token, before[k]);
      if near == {} then after == before + [[token]]
      else exists k :: k in near && (forall m :: m in near ==> m <= k) && after == before[k := before[k] + [token]]
  {
    hide Near;
    var before := Grouped(tokens);
    assert (tokens + [token])[..|tokens|] == tokens;
    RowBelowMeans(before, token, LastThree(before), |before|);
    var near := set k: nat | k < |before| && k + 3 >= |before| && Near(token, before[k]);
    var row := Row(before, token);
    if row.Some? {
      assert row.value in near;
    }
  }

  // ----- Lines -----

  function SpanTexts(tokens: seq<TokenSpan>): (r: seq<string>)
    ensures |r| == |tokens| && forall k :: 0 <= k < |r| ==> r[k] == tokens[k].text
  {
    seq(|tokens|, k requires 0 <= k < |tokens| => tokens[k].text)
  }

  function ConfidenceSum(tokens: seq<TokenSpan>): int {
    if tokens == [] then 0 else ConfidenceSum(tokens[..|tokens| - 1]) + tokens[|tokens| - 1].confidence
  }

  /** The line's number and text, its tokens in order, the smallest box around them and their mean
      confidence rounded down. */
  predicate LineSays(line: LineSpan, own: seq<TokenSpan>, page: string, i: nat) {
    && own != [] && line.id == page + ":ocr:line:" + Pad6(i)
    && |line.tokenIds| == |own|
    && (forall k :: 0 <= k < |own| ==> line.tokenIds[k] == own[k].id && own[k].line == i)
    && line.text == Join(SpanTexts(own), ' ')
    && (forall k :: 0 <= k < |own| ==> Encloses(line.box, own[k].box))
    && (exists k :: 0 <= k < |own| && own[k].box.left == line.box.left)
    && (exists k :: 0 <= k < |own| && own[k].box.top == line.box.top)
    && (exists k :: 0 <= k < |own| && own[k].box.right == line.box.right)
    && (exists k :: 0 <= k < |own| && own[k].box.bottom == line.box.bottom)
    && line.confidence * |own| <= ConfidenceSum(own) < (line.confidence + 1) * |own|
  }

  lemma {:induction false} SumIsConfidenceSum(page: string, group: Group, start: nat, index: nat)
    ensures ConfidenceSum(Spans(page, group, start, index)) == Sum(Confidences(group))
  {
    hide WordId;
    if group != [] {
      var last := |group| - 1;
      SumIsConfidenceSum(page, group[..last], start, index);
      assert Spans(page, group, start, index)[..last] == Spans(page, group[..last], start, index);
      assert Confidences(group)[..last] == Confidences(group[..last]);
    }
  }

  lemma {:induction false} LineOfSays(page: string, group: Group, start: nat, index: nat)
    requires group != []
    ensures LineSays(LineOf(page, group, start, index), Spans(page, group, start, index), page, index)
  {
    hide WordId, Pad6, Join, Encloses, Min, Max, Sum, ConfidenceSum;
    var line, own := LineOf(page, group, start, index), Spans(page, group, start, index);
    SumIsConfidenceSum(page, group, start, index);
    assert SpanTexts(own) == Texts(group);
    forall k | 0 <= k < |own|
      ensures Encloses(line.box, own[k].box)
    {
      LineEncloses(page, group, start, index, k);
    }
    SidesAreTouched(page, group, start, index);
    MeanIsFloor(Sum(Confidences(group)), |group|);
  }

  lemma {:induction false} MeanIsFloor(sum: int, n: nat)
    requires n > 0
    ensures (sum / n) * n <= sum < (sum / n + 1) * n
  {
    var q := sum / n;
    assert q * n <= sum < q * n + n;
    assert (q + 1) * n == q * n + n;
  }

  lemma {:induction false} SidesAreTouched(page: string, group: Group, start: nat, index: nat)
    requires group != []
    ensures var line, own := LineOf(page, group, start, index), Spans(page, group, start, index);
      && (exists k :: 0 <= k < |own| && own[k].box.left == line.box.left)
      && (exists k :: 0 <= k < |own| && own[k].box.top == line.box.top)
      && (exists k :: 0 <= k < |own| && own[k].box.right == line.box.right)
      && (exists k :: 0 <= k < |own| && own[k].box.bottom == line.box.bottom)
  {
    hide WordId, LineId, Join, Sum;
    var own := Spans(page, group, start, index);
    var a :| 0 <= a < |group| && Lefts(group)[a] == Min(Lefts(group));
    assert own[a].box.left == Min(Lefts(group));
    var b :| 0 <= b < |group| && Tops(group)[b] == Min(Tops(group));
    assert own[b].box.top == Min(Tops(group));
    var c :| 0 <= c < |group| && Rights(group)[c] == Max(Rights(group));
    assert own[c].box.right == Max(Rights(group));
    var d :| 0 <= d < |group| && Bottoms(group)[d] == Max(Bottoms(group));
    assert own[d].box.bottom == Max(Bottoms(group));
  }

  /** Every line of a page speaks for a run of the page's tokens, and the page's text is its lines'. */
  lemma {:induction false} LinesSay(rec: Recognition, strip: string -> string, page: string, i: nat)
    returns (start: nat)
    requires i < |Parsed(rec, strip, page).lines|
    ensures var r := Parsed(rec, strip, page);
      && start + |r.lines[i].tokenIds| <= |r.tokens|
      && LineSays(r.lines[i], r.tokens[start..start + |r.lines[i].tokenIds|], page, i)
      && (forall k :: 0 <= k < |r.tokens| && r.tokens[k].line == i ==> start <= k < start + |r.lines[i].tokenIds|)
      && r.text == Join(LineTexts(r.lines), '\n')
  {
    hide Rows, LineOf, Join, LineTexts, LineSays, Spans, WordId, Detected;
    var rows := Rows(Detected(rec, strip, |rec.texts|));
    RowsNotEmpty(Detected(rec, strip, |rec.texts|));
    start := Start(page, rows, i);
    LineAt(page, rows, i);
    LineOfSays(page, rows[i], start, i);
    LineIds(page, rows[i], start, i);
    RunOfRow(page, rows, i);
    var r := Parsed(rec, strip, page);
    forall k | 0 <= k < |r.tokens| && r.tokens[k].line == i
      ensures start <= k < start + |rows[i]|
    {
      var j, o := SpanAt(page, rows, k);
    }
  }

  /** The tokens of row `i` stand together. */
  lemma {:induction false} RunOfRow(page: string, rows: seq<Group>, i: nat)
    requires i < |rows|
    ensures var start := Start(page, rows, i);
      && start + |rows[i]| <= |AllSpans(page, rows)|
      && AllSpans(page, rows)[start..start + |rows[i]|] == Spans(page, rows[i], start, i)
  {
    hide Spans;
    var last, all := |rows| - 1, AllSpans(page, rows);
    if i < last {
      RunOfRow(page, rows[..last], i);
      assert rows[..last][..i] == rows[..i];
      var before, start := AllSpans(page, rows[..last]), Start(page, rows, i);
      assert all[..|before|] == before;
      assert all[start..start + |rows[i]|] == before[start..start + |rows[i]|];
    }
  }
}
