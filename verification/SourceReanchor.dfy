/** Re-anchoring transcript records on a source graph (`source_reanchor.py`). A record is bound to
    a window of structural nodes only when exactly one window reads like it. */
module SourceReanchor {
  import opened Wrappers
  import opened Lines
  import opened Sorting
  import opened Strings

  datatype Page = Page(id: string, number: int)
  datatype Node = Node(id: string, page: int, span: string, raw: string, order: int)
  datatype Graph = Graph(pages: seq<Page>, nodes: seq<Node>)

  /** Search normalisation, and whether a line is blank after stripping. */
  datatype Reader = Reader(normalise: string -> string, blank: string -> bool)

  /** The fields of a transcript record that anchoring reads or writes; `None` where the list is
      malformed. */
  datatype Record = Record(pageIds: Option<seq<string>>, spanIds: Option<seq<string>>, text: string,
                           nodeIds: seq<string>, exactText: string)

  datatype Reason =
    | InvalidPageIds | UnknownPage | InvalidSpanIds | SpanElsewhere | TextDiffers | MissingText
    | SeveralMatches | NoMatch

  datatype Decision =
    | Anchored(spans: seq<string>, nodeIds: seq<string>, text: string)
    | AlreadyAnchored(spans: seq<string>, nodeIds: seq<string>, text: string)
    | Ambiguous(matches: nat)
    | Unmatched(reason: Reason)
    | InvalidExisting(reason: Reason)

  // ----- The graph -----

  function NodesOn(nodes: seq<Node>, page: int): seq<Node> {
    if nodes == [] then []
    else NodesOn(nodes[..|nodes| - 1], page) + if nodes[|nodes| - 1].page == page then [nodes[|nodes| - 1]] else []
  }

  predicate InOrder(a: Node, b: Node) {
    a.order <= b.order
  }

  /** What `_graph_lines` accepts. */
  predicate GraphOk(graph: Graph) {
    && (forall i, j :: 0 <= i < j < |graph.pages| ==> graph.pages[i].id != graph.pages[j].id)
    && (forall i :: 0 <= i < |graph.nodes| ==>
          exists k :: 0 <= k < |graph.pages| && graph.pages[k].number == graph.nodes[i].page)
    && (forall i, j :: 0 <= i < j < |graph.nodes| ==>
          graph.nodes[i].id != graph.nodes[j].id && graph.nodes[i].span != graph.nodes[j].span)
  }

  function PageNumber(pages: seq<Page>, id: string): Option<int> {
    if pages == [] then None
    else if pages[0].id == id then Some(pages[0].number)
    else PageNumber(pages[1..], id)
  }

  /** Page numbers of the cited pages, if all are known. */
  function Cited(graph: Graph, ids: seq<string>): (r: Option<seq<int>>)
    ensures r.Some? ==> |r.value| == |ids|
  {
    if ids == [] then Some([])
    else
      var front, last := Cited(graph, ids[..|ids| - 1]), PageNumber(graph.pages, ids[|ids| - 1]);
      if front.None? || last.None? then None else Some(front.value + [last.value])
  }

  function Collected(graph: Graph, pages: seq<int>): seq<Node> {
    if pages == [] then []
    else Collected(graph, pages[..|pages| - 1]) + SortBy(NodesOn(graph.nodes, pages[|pages| - 1]), InOrder)
  }

  /** The nodes of the cited pages in source order. */
  function Ordered(graph: Graph, pages: seq<int>): seq<Node> {
    SortBy(Collected(graph, pages), InOrder)
  }

  // ----- Reading text -----

  /** `_lines`: the normalised non-blank lines. */
  function LinesOf(lines: seq<string>, reader: Reader): seq<string> {
    if lines == [] then []
    else LinesOf(lines[..|lines| - 1], reader)
         + if reader.blank(lines[|lines| - 1]) then [] else [reader.normalise(lines[|lines| - 1])]
  }

  function Read(text: string, reader: Reader): seq<string> {
    LinesOf(SplitLines(text), reader)
  }

  function Raws(nodes: seq<Node>): (r: seq<string>)
    ensures |r| == |nodes|
  {
    seq(|nodes|, i requires 0 <= i < |nodes| => nodes[i].raw)
  }

  function Spans(nodes: seq<Node>): (r: seq<string>)
    ensures |r| == |nodes|
  {
    seq(|nodes|, i requires 0 <= i < |nodes| => nodes[i].span)
  }

  function NodeIds(nodes: seq<Node>): (r: seq<string>)
    ensures |r| == |nodes|
  {
    seq(|nodes|, i requires 0 <= i < |nodes| => nodes[i].id)
  }

  function Normalised(nodes: seq<Node>, reader: Reader): (r: seq<string>)
    ensures |r| == |nodes|
  {
    seq(|nodes|, i requires 0 <= i < |nodes| => reader.normalise(nodes[i].raw))
  }

  function SourceText(nodes: seq<Node>): string {
    Join(Raws(nodes), '\n')
  }

  // ----- Windows -----

  /** The window of `lines` starts at `start`. */
  predicate MatchesAt(nodes: seq<string>, lines: seq<string>, start: nat) {
    lines != [] && start + |lines| <= |nodes| && nodes[start..start + |lines|] == lines
  }

  /** All starts below `n`. */
  function Starts(nodes: seq<string>, lines: seq<string>, n: nat): seq<nat> {
    if n == 0 then [] else Starts(nodes, lines, n - 1) + if MatchesAt(nodes, lines, n - 1) then [n - 1] else []
  }

  method FindMatches(nodes: seq<string>, lines: seq<string>) returns (matches: seq<nat>)
    ensures matches == Starts(nodes, lines, |nodes| + 1)
  {
    matches := [];
    var width := |lines|;
    if width == 0 || width > |nodes| {
      NoStarts(nodes, lines, 0, |nodes| + 1);
      return;
    }
    for start := 0 to |nodes| - width + 1
      invariant matches == Starts(nodes, lines, start)
    {
      if nodes[start..start + width] == lines {
        matches := matches + [start];
      }
    }
    NoStarts(nodes, lines, |nodes| - width + 1, |nodes| + 1);
  }

  lemma {:induction false} NoStarts(nodes: seq<string>, lines: seq<string>, from: nat, n: nat)
    requires from <= n && forall s: nat :: from <= s < n ==> !MatchesAt(nodes, lines, s)
    ensures Starts(nodes, lines, n) == Starts(nodes, lines, from)
  {
    hide MatchesAt;
    if from < n {
      NoStarts(nodes, lines, from, n - 1);
    }
  }

  // ----- Deciding one record -----

  /** The position of a span; the last one, as a dictionary keeps it. */
  function SpanIndex(nodes: seq<Node>, span: string): Option<nat> {
    if nodes == [] then None
    else if nodes[|nodes| - 1].span == span then Some(|nodes| - 1)
    else SpanIndex(nodes[..|nodes| - 1], span)
  }

  function Indexes(nodes: seq<Node>, spans: seq<string>): Option<seq<nat>> {
    if spans == [] then Some([])
    else
      var front, last := Indexes(nodes, spans[..|spans| - 1]), SpanIndex(nodes, spans[|spans| - 1]);
      if front.None? || last.None? then None else Some(front.value + [last.value])
  }

  predicate Contiguous(indexes: seq<nat>) {
    forall k :: 0 <= k < |indexes| ==> indexes[k] == indexes[0] + k
  }

  lemma {:induction false} SpanIndexBound(nodes: seq<Node>, span: string)
    ensures SpanIndex(nodes, span).Some? ==>
      SpanIndex(nodes, span).value < |nodes| && nodes[SpanIndex(nodes, span).value].span == span
  {
    if nodes != [] {
      SpanIndexBound(nodes[..|nodes| - 1], span);
    }
  }

  lemma {:induction false} IndexesBound(nodes: seq<Node>, spans: seq<string>)
    ensures Indexes(nodes, spans).Some? ==>
      && |Indexes(nodes, spans).value| == |spans|
      && forall k :: 0 <= k < |spans| ==>
           Indexes(nodes, spans).value[k] < |nodes| && nodes[Indexes(nodes, spans).value[k]].span == spans[k]
  {
    hide SpanIndex;
    if spans != [] {
      IndexesBound(nodes, spans[..|spans| - 1]);
      SpanIndexBound(nodes, spans[|spans| - 1]);
    }
  }

  function DecideExisting(record: Record, existing: seq<string>, nodes: seq<Node>, reader: Reader): Decision
    requires existing != []
  {
    var indexes := Indexes(nodes, existing);
    if indexes.None? then InvalidExisting(SpanElsewhere)
    else
      IndexesBound(nodes, existing);
      var ix := indexes.value;
      if !Contiguous(ix) then InvalidExisting(TextDiffers)
      else
        var matched := nodes[ix[0]..ix[|ix| - 1] + 1];
        if Read(SourceText(matched), reader) != Read(record.text, reader) then InvalidExisting(TextDiffers)
        else AlreadyAnchored(existing, NodeIds(matched), SourceText(matched))
  }

  function Window(nodes: seq<Node>, start: nat, width: nat): seq<Node>
    requires start + width <= |nodes|
  {
    nodes[start..start + width]
  }

  function DecideNew(record: Record, nodes: seq<Node>, reader: Reader): Decision {
    if reader.blank(record.text) then Unmatched(MissingText)
    else
      var lines := Read(record.text, reader);
      var matches := Starts(Normalised(nodes, reader), lines, |nodes| + 1);
      if |matches| > 1 then Ambiguous(|matches|)
      else if |matches| == 0 then Unmatched(NoMatch)
      else
        StartsMatch(Normalised(nodes, reader), lines, |nodes| + 1, 0);
        var matched := Window(nodes, matches[0], |lines|);
        Anchored(Spans(matched), NodeIds(matched), SourceText(matched))
  }

  function Decide(record: Record, graph: Graph, reader: Reader): Decision {
    if record.pageIds.None? then Unmatched(InvalidPageIds)
    else
      var pages := Cited(graph, record.pageIds.value);
      if pages.None? then Unmatched(UnknownPage)
      else if record.spanIds.None? then InvalidExisting(InvalidSpanIds)
      else if record.spanIds.value != [] then
        DecideExisting(record, record.spanIds.value, Ordered(graph, pages.value), reader)
      else DecideNew(record, Ordered(graph, pages.value), reader)
  }

  /** The record after anchoring: bound records get their spans, nodes and source text. */
  function After(record: Record, decision: Decision): Record {
    match decision
    case Anchored(spans, nodeIds, text) => record.(spanIds := Some(spans), nodeIds := nodeIds, exactText := text)
    case AlreadyAnchored(spans, nodeIds, text) => record.(spanIds := Some(spans), nodeIds := nodeIds, exactText := text)
    case _ => record
  }

  // ----- The source's code, updating records in place -----

  class TargetRecord {
    var record: Record

    constructor (record: Record)
      ensures this.record == record
    {
      this.record := record;
    }

    method Bind(spans: seq<string>, nodeIds: seq<string>, text: string)
      modifies this
      ensures record == old(record).(spanIds := Some(spans), nodeIds := nodeIds, exactText := text)
    {
      record := record.(spanIds := Some(spans));
      record := record.(nodeIds := nodeIds);
      record := record.(exactText := text);
    }
  }

  method CitedPages(graph: Graph, ids: seq<string>) returns (r: Option<seq<int>>)
    ensures r == Cited(graph, ids)
  {
    var pages: seq<int> := [];
    for i := 0 to |ids|
      invariant Cited(graph, ids[..i]) == Some(pages)
    {
      assert ids[..i + 1][..i] == ids[..i];
      var page := PageNumber(graph.pages, ids[i]);
      if page.None? {
        CitedFails(graph, ids, i + 1);
        return None;
      }
      pages := pages + [page.value];
    }
    assert ids[..|ids|] == ids;
    return Some(pages);
  }

  lemma {:induction false} CitedFails(graph: Graph, ids: seq<string>, n: nat)
    requires n <= |ids| && Cited(graph, ids[..n]).None?
    ensures Cited(graph, ids).None?
    decreases |ids|
  {
    if n < |ids| {
      assert ids[..|ids| - 1][..n] == ids[..n];
      CitedFails(graph, ids[..|ids| - 1], n);
    } else {
      assert ids[..n] == ids;
    }
  }

  method SpanIndexes(nodes: seq<Node>, spans: seq<string>) returns (r: Option<seq<nat>>)
    ensures r == Indexes(nodes, spans)
  {
    var indexes: seq<nat> := [];
    for i := 0 to |spans|
      invariant Indexes(nodes, spans[..i]) == Some(indexes)
    {
      assert spans[..i + 1][..i] == spans[..i];
      var index := SpanIndex(nodes, spans[i]);
      if index.None? {
        IndexesFail(nodes, spans, i + 1);
        return None;
      }
      indexes := indexes + [index.value];
    }
    assert spans[..|spans|] == spans;
    return Some(indexes);
  }

  lemma {:induction false} IndexesFail(nodes: seq<Node>, spans: seq<string>, n: nat)
    requires n <= |spans| && Indexes(nodes, spans[..n]).None?
    ensures Indexes(nodes, spans).None?
    decreases |spans|
  {
    if n < |spans| {
      assert spans[..|spans| - 1][..n] == spans[..n];
      IndexesFail(nodes, spans[..|spans| - 1], n);
    } else {
      assert spans[..n] == spans;
    }
  }

  /** `_anchor_record`. */
  method AnchorRecord(record: Record, target: TargetRecord, graph: Graph, reader: Reader) returns (d: Decision)
    requires target.record == record
    modifies target
    ensures d == Decide(record, graph, reader)
    ensures target.record == After(record, d)
  {
    hide Starts, Indexes, Cited, Ordered, Read, SourceText;
    if record.pageIds.None? {
      return Unmatched(InvalidPageIds);
    }
    var pages := CitedPages(graph, record.pageIds.value);
    if pages.None? {
      return Unmatched(UnknownPage);
    }
    if record.spanIds.None? {
      return InvalidExisting(InvalidSpanIds);
    }
    var existing, nodes := record.spanIds.value, Ordered(graph, pages.value);
    if existing != [] {
      var indexes := SpanIndexes(nodes, existing);
      if indexes.None? {
        return InvalidExisting(SpanElsewhere);
      }
      IndexesBound(nodes, existing);
      var ix := indexes.value;
      if !Contiguous(ix) {
        return InvalidExisting(TextDiffers);
      }
      var matched := nodes[ix[0]..ix[|ix| - 1] + 1];
      var text := SourceText(matched);
      if Read(text, reader) != Read(record.text, reader) {
        return InvalidExisting(TextDiffers);
      }
      target.Bind(existing, NodeIds(matched), text);
      return AlreadyAnchored(existing, NodeIds(matched), text);
    }
    if reader.blank(record.text) {
      return Unmatched(MissingText);
    }
    var lines := Read(record.text, reader);
    var matches := FindMatches(Normalised(nodes, reader), lines);
    if |matches| != 1 {
      return if |matches| > 1 then Ambiguous(|matches|) else Unmatched(NoMatch);
    }
    StartsMatch(Normalised(nodes, reader), lines, |nodes| + 1, 0);
    var matched := nodes[matches[0]..matches[0] + |lines|];
    target.Bind(Spans(matched), NodeIds(matched), SourceText(matched));
    return Anchored(Spans(matched), NodeIds(matched), SourceText(matched));
  }

  lemma {:induction false} StartsMatch(nodes: seq<string>, lines: seq<string>, n: nat, k: nat)
    requires k < |Starts(nodes, lines, n)|
    ensures Starts(nodes, lines, n)[k] < n && MatchesAt(nodes, lines, Starts(nodes, lines, n)[k])
  {
    hide MatchesAt;
    if k < |Starts(nodes, lines, n - 1)| {
      StartsMatch(nodes, lines, n - 1, k);
    }
  }

  // ----- The whole transcript -----

  datatype Summary = Summary(records: nat, anchored: nat, already: nat, ambiguous: nat, unmatched: nat, invalid: nat,
                             publishable: bool)

  function Decisions(records: seq<Record>, graph: Graph, reader: Reader): (r: seq<Decision>)
    ensures |r| == |records|
  {
    seq(|records|, i requires 0 <= i < |records| => Decide(records[i], graph, reader))
  }

  function AfterAll(records: seq<Record>, decisions: seq<Decision>): (r: seq<Record>)
    requires |decisions| == |records|
    ensures |r| == |records|
  {
    seq(|records|, i requires 0 <= i < |records| => After(records[i], decisions[i]))
  }

  function Count(decisions: seq<Decision>, kind: Decision -> bool): (n: nat)
    ensures n <= |decisions|
  {
    if decisions == [] then 0
    else Count(decisions[..|decisions| - 1], kind) + if kind(decisions[|decisions| - 1]) then 1 else 0
  }

  function SummaryOf(decisions: seq<Decision>): Summary {
    var ambiguous, unmatched, invalid :=
      Count(decisions, (d: Decision) => d.Ambiguous?), Count(decisions, (d: Decision) => d.Unmatched?),
      Count(decisions, (d: Decision) => d.InvalidExisting?);
    Summary(|decisions|, Count(decisions, (d: Decision) => d.Anchored?),
            Count(decisions, (d: Decision) => d.AlreadyAnchored?),
            ambiguous, unmatched, invalid, |decisions| > 0 && ambiguous == 0 && unmatched == 0 && invalid == 0)
  }

  function RecordsOf(targets: seq<TargetRecord>): (r: seq<Record>)
    reads targets
    ensures |r| == |targets|
    ensures forall i :: 0 <= i < |r| ==> r[i] == targets[i].record
  {
    if targets == [] then [] else RecordsOf(targets[..|targets| - 1]) + [targets[|targets| - 1].record]
  }

  /** `reanchor_transcript`, on an accepted graph and the transcript's records in collection order. */
  method Reanchor(records: seq<Record>, graph: Graph, reader: Reader)
    returns (r: Option<(seq<TargetRecord>, seq<Decision>, Summary)>)
    ensures r.Some? <==> GraphOk(graph)
    ensures r.Some? ==>
      var decisions := Decisions(records, graph, reader);
      && r.value.1 == decisions
      && r.value.2 == SummaryOf(decisions)
      && RecordsOf(r.value.0) == AfterAll(records, decisions)
  {
    hide Decide, GraphOk;
    if !GraphOk(graph) {
      return None;
    }
    var targets: seq<TargetRecord> := [];
    var decisions: seq<Decision> := [];
    ghost var all := Decisions(records, graph, reader);
    for i := 0 to |records|
      invariant decisions == all[..i] && |targets| == i
      invariant forall k :: 0 <= k < i ==> fresh(targets[k]) && targets[k].record == After(records[k], all[k])
    {
      var target := new TargetRecord(records[i]);
      var d := AnchorRecord(records[i], target, graph, reader);
      targets, decisions := targets + [target], decisions + [d];
    }
    assert decisions == all;
    assert RecordsOf(targets) == AfterAll(records, all);
    return Some((targets, decisions, SummaryOf(decisions)));
  }

  /** The five statuses partition the records, and a transcript is publishable exactly when it has
      records and every one of them is bound. */
  lemma {:induction false} StatusesPartition(decisions: seq<Decision>)
    ensures var s := SummaryOf(decisions);
      && s.records == s.anchored + s.already + s.ambiguous + s.unmatched + s.invalid
      && (s.publishable <==>
            decisions != []
            && forall i :: 0 <= i < |decisions| ==> decisions[i].Anchored? || decisions[i].AlreadyAnchored?)
  {
    if decisions != [] {
      var front := decisions[..|decisions| - 1];
      StatusesPartition(front);
      assert (forall i :: 0 <= i < |front| ==> front[i].Anchored? || front[i].AlreadyAnchored?) <==
        (forall i :: 0 <= i < |decisions| ==> decisions[i].Anchored? || decisions[i].AlreadyAnchored?);
    }
  }

  // ----- Soundness and uniqueness -----

  lemma {:induction false} StartsAreMatches(nodes: seq<string>, lines: seq<string>, n: nat, s: nat)
    ensures s in Starts(nodes, lines, n) <==> s < n && MatchesAt(nodes, lines, s)
  {
    hide MatchesAt;
    if n > 0 {
      StartsAreMatches(nodes, lines, n - 1, s);
    }
  }

  lemma {:induction false} StartsIncrease(nodes: seq<string>, lines: seq<string>, n: nat)
    ensures forall a, b ::
      0 <= a < b < |Starts(nodes, lines, n)| ==> Starts(nodes, lines, n)[a] < Starts(nodes, lines, n)[b] < n
  {
    hide MatchesAt;
    if n > 0 {
      StartsIncrease(nodes, lines, n - 1);
      var before := Starts(nodes, lines, n - 1);
      forall k | 0 <= k < |before|
        ensures before[k] < n - 1
      {
        StartsMatch(nodes, lines, n - 1, k);
      }
    }
  }

  /** Exactly one window reads like the text. */
  predicate OnlyWindow(nodes: seq<Node>, lines: seq<string>, reader: Reader, start: nat) {
    && MatchesAt(Normalised(nodes, reader), lines, start)
    && forall other :: 0 <= other <= |nodes| && MatchesAt(Normalised(nodes, reader), lines, other) ==> other == start
  }

  lemma {:induction false} SameEverywhere(starts: seq<nat>, start: nat)
    requires forall a, b :: 0 <= a < b < |starts| ==> starts[a] < starts[b]
    requires forall k :: 0 <= k < |starts| ==> starts[k] == start
    ensures |starts| <= 1
  {
    if starts != [] {
      assert starts[0] == start == starts[|starts| - 1];
    }
  }

  lemma {:induction false} OneStart(nodes: seq<Node>, lines: seq<string>, reader: Reader)
    ensures var starts := Starts(Normalised(nodes, reader), lines, |nodes| + 1);
      |starts| == 1 ==> starts[0] <= |nodes| && OnlyWindow(nodes, lines, reader, starts[0])
  {
    hide MatchesAt, Starts;
    var names := Normalised(nodes, reader);
    var starts := Starts(names, lines, |nodes| + 1);
    if |starts| == 1 {
      StartsMatch(names, lines, |nodes| + 1, 0);
      forall other: nat | other <= |nodes| && MatchesAt(names, lines, other)
        ensures other == starts[0]
      {
        StartsAreMatches(names, lines, |nodes| + 1, other);
      }
    }
  }

  lemma {:induction false} OnlyStart(nodes: seq<Node>, lines: seq<string>, reader: Reader, start: nat)
    requires start <= |nodes| && OnlyWindow(nodes, lines, reader, start)
    ensures |Starts(Normalised(nodes, reader), lines, |nodes| + 1)| == 1
  {
    hide MatchesAt, Starts;
    var names := Normalised(nodes, reader);
    var starts := Starts(names, lines, |nodes| + 1);
    StartsAreMatches(names, lines, |nodes| + 1, start);
    StartsIncrease(names, lines, |nodes| + 1);
    forall k | 0 <= k < |starts|
      ensures starts[k] == start
    {
      StartsMatch(names, lines, |nodes| + 1, k);
    }
    SameEverywhere(starts, start);
  }

  /** A record without anchors becomes anchored exactly when its pages are known, its text is not
      blank, and one window of the pages' nodes - and no other - reads like it. */
  lemma {:induction false} AnchoredIff(record: Record, graph: Graph, reader: Reader)
    requires record.spanIds == Some([])
    ensures Decide(record, graph, reader).Anchored? <==>
      (&& record.pageIds.Some? && Cited(graph, record.pageIds.value).Some? && !reader.blank(record.text)
       && var nodes := Ordered(graph, Cited(graph, record.pageIds.value).value);
       exists start :: 0 <= start <= |nodes| && OnlyWindow(nodes, Read(record.text, reader), reader, start))
  {
    hide Starts, Ordered, Read, OnlyWindow, SourceText;
    if record.pageIds.Some? && Cited(graph, record.pageIds.value).Some? {
      var nodes, lines := Ordered(graph, Cited(graph, record.pageIds.value).value), Read(record.text, reader);
      OneStart(nodes, lines, reader);
      if start: nat :| start <= |nodes| && OnlyWindow(nodes, lines, reader, start) {
        OnlyStart(nodes, lines, reader, start);
      }
    }
  }

  /** What it is then bound to is that window. */
  lemma {:induction false} AnchorIsTheWindow(record: Record, graph: Graph, reader: Reader) returns (start: nat)
    requires Decide(record, graph, reader).Anchored?
    ensures record.pageIds.Some? && Cited(graph, record.pageIds.value).Some?
    ensures var nodes, lines := Ordered(graph, Cited(graph, record.pageIds.value).value), Read(record.text, reader);
      && lines != [] && start + |lines| <= |nodes| && OnlyWindow(nodes, lines, reader, start)
      && var matched := Window(nodes, start, |lines|);
      && Decide(record, graph, reader) == Anchored(Spans(matched), NodeIds(matched), SourceText(matched))
      && Normalised(matched, reader) == lines
  {
    hide Starts, Ordered, Read, SourceText;
    var nodes, lines := Ordered(graph, Cited(graph, record.pageIds.value).value), Read(record.text, reader);
    OneStart(nodes, lines, reader);
    var starts := Starts(Normalised(nodes, reader), lines, |nodes| + 1);
    assert |starts| == 1;
    start := starts[0];
    StartsMatch(Normalised(nodes, reader), lines, |nodes| + 1, 0);
    assert Normalised(Window(nodes, start, |lines|), reader) == Normalised(nodes, reader)[start..start + |lines|];
  }

  // ----- Running it again -----

  /** The normaliser neither blanks text nor gives blank text content. */
  ghost predicate ReaderOk(reader: Reader) {
    && reader.blank("")
    && forall s :: reader.normalise(s) == "" <==> reader.blank(s)
  }

  predicate OneLinePerNode(graph: Graph) {
    forall i :: 0 <= i < |graph.nodes| ==> OneLine(graph.nodes[i].raw)
  }

  predicate DistinctSpans(nodes: seq<Node>) {
    forall i, j :: 0 <= i < j < |nodes| ==> nodes[i].span != nodes[j].span
  }

  lemma {:induction false} NodesOnMembers(nodes: seq<Node>, page: int)
    requires NoRepeats(nodes)
    ensures NoRepeats(NodesOn(nodes, page))
    ensures forall x :: x in NodesOn(nodes, page) <==> x in nodes && x.page == page
  {
    if nodes != [] {
      var front, last := nodes[..|nodes| - 1], nodes[|nodes| - 1];
      assert nodes == front + [last];
      NodesOnMembers(front, page);
      assert last !in front;
    }
  }

  lemma {:induction false} CollectedMembers(graph: Graph, pages: seq<int>)
    requires NoRepeats(graph.nodes) && NoRepeats(pages)
    ensures NoRepeats(Collected(graph, pages))
    ensures forall x :: x in Collected(graph, pages) ==> x in graph.nodes && x.page in pages
  {
    if pages != [] {
      var front, last := pages[..|pages| - 1], pages[|pages| - 1];
      assert pages == front + [last];
      CollectedMembers(graph, front);
      var block := NodesOn(graph.nodes, last);
      NodesOnMembers(graph.nodes, last);
      SortByNoRepeats(block, InOrder);
      SortByMembers(block, InOrder);
      assert last !in front;
      NoRepeatsConcat(Collected(graph, front), SortBy(block, InOrder));
    }
  }

  lemma {:induction false} NoRepeatsConcat(a: seq<Node>, b: seq<Node>)
    requires NoRepeats(a) && NoRepeats(b) && forall x :: x in a ==> x !in b
    ensures NoRepeats(a + b)
  {
    forall i, j | 0 <= i < j < |a + b|
      ensures (a + b)[i] != (a + b)[j]
    {
      if i < |a| <= j {
        assert a[i] in a && b[j - |a|] in b;
      }
    }
  }

  lemma {:induction false} NodesAreDistinct(graph: Graph)
    requires GraphOk(graph)
    ensures NoRepeats(graph.nodes)
  {
  }

  lemma {:induction false} Apart(nodes: seq<Node>, i: nat, j: nat)
    requires NoRepeats(nodes) && i < j < |nodes|
    ensures nodes[i] != nodes[j]
  {
  }

  /** The nodes of distinct pages of an accepted graph have distinct spans. */
  lemma {:induction false} OrderedDistinct(graph: Graph, pages: seq<int>)
    requires GraphOk(graph) && NoRepeats(pages)
    ensures DistinctSpans(Ordered(graph, pages))
    ensures forall x :: x in Ordered(graph, pages) ==> x in graph.nodes
  {
    hide NoRepeats, Collected, SortBy;
    NodesAreDistinct(graph);
    CollectedMembers(graph, pages);
    var collected, nodes := Collected(graph, pages), Ordered(graph, pages);
    SortByNoRepeats(collected, InOrder);
    SortByMembers(collected, InOrder);
    forall i, j | 0 <= i < j < |nodes|
      ensures nodes[i].span != nodes[j].span
    {
      assert nodes[i] in collected && nodes[j] in collected;
      Apart(nodes, i, j);
      var a :| 0 <= a < |graph.nodes| && graph.nodes[a] == nodes[i];
      var b :| 0 <= b < |graph.nodes| && graph.nodes[b] == nodes[j];
    }
  }

  /** No node of the window is listed again after it. */
  predicate LastCopies(nodes: seq<Node>, start: nat, n: nat)
    requires start + n <= |nodes|
  {
    forall k, j :: start <= k < start + n && k < j < |nodes| ==> nodes[k].span != nodes[j].span
  }

  /** The dictionary keeps the last position of a span. */
  lemma {:induction false} SpanIndexIsLast(nodes: seq<Node>, k: nat)
    requires k < |nodes|
    ensures SpanIndex(nodes, nodes[k].span) == Some(k) <==> forall j ::
      k < j < |nodes| ==> nodes[k].span != nodes[j].span
  {
    var last := |nodes| - 1;
    if k < last {
      SpanIndexIsLast(nodes[..last], k);
      SpanIndexBound(nodes[..last], nodes[k].span);
    }
  }

  function Run(start: nat, n: nat): (r: seq<nat>)
    ensures |r| == n && forall k :: 0 <= k < n ==> r[k] == start + k
  {
    seq(n, k => start + k)
  }

  lemma {:induction false} AppendedRun(front: Option<seq<nat>>, last: Option<nat>, start: nat, n: nat)
    requires n > 0
    ensures front.Some? && last.Some? && front.value + [last.value] == Run(start, n)
       <==> front == Some(Run(start, n - 1)) && last == Some(start + n - 1)
  {
    assert Run(start, n) == Run(start, n - 1) + [start + n - 1];
    if front.Some? && last.Some? && front.value + [last.value] == Run(start, n) {
      assert front.value == (front.value + [last.value])[..n - 1] == Run(start, n)[..n - 1] == Run(start, n - 1);
      assert last.value == Run(start, n)[n - 1];
    }
  }

  lemma {:induction false} WindowIndexes(nodes: seq<Node>, start: nat, n: nat)
    requires start + n <= |nodes|
    ensures Indexes(nodes, Spans(Window(nodes, start, n))) == Some(Run(start, n)) <==> LastCopies(nodes, start, n)
    decreases n
  {
    hide SpanIndex;
    var spans := Spans(Window(nodes, start, n));
    if n == 0 {
      assert Run(start, 0) == [];
    } else {
      assert spans[..n - 1] == Spans(Window(nodes, start, n - 1));
      WindowIndexes(nodes, start, n - 1);
      SpanIndexIsLast(nodes, start + n - 1);
      assert Run(start, n) == Run(start, n - 1) + [start + n - 1];
      AppendedRun(Indexes(nodes, spans[..n - 1]), SpanIndex(nodes, spans[n - 1]), start, n);
      assert LastCopies(nodes, start, n) <==>
        LastCopies(nodes, start, n - 1) && forall j ::
          start + n - 1 < j < |nodes| ==> nodes[start + n - 1].span != nodes[j].span;
    }
  }

  /** Joined one-line texts split back, when none is empty. */
  lemma {:induction false} JoinSplits(raws: seq<string>)
    requires forall i :: 0 <= i < |raws| ==> OneLine(raws[i]) && raws[i] != ""
    ensures SplitLines(Join(raws, '\n')) == raws
  {
    hide SplitLines, OneLine, Join;
    if |raws| <= 1 {
      ShortJoinSplits(raws);
    } else {
      JoinSplits(raws[1..]);
      var rest := Join(raws[1..], '\n');
      JoinFirst(raws);
      LinesConcat(raws[0] + "\n", rest);
      SingleLine(raws[0]);
      assert raws == [raws[0]] + raws[1..];
    }
  }

  lemma {:induction false} JoinFirst(raws: seq<string>)
    requires |raws| > 1
    ensures Join(raws, '\n') == (raws[0] + "\n") + Join(raws[1..], '\n')
  {
  }

  lemma {:induction false} ShortJoinSplits(raws: seq<string>)
    requires |raws| <= 1 && forall i :: 0 <= i < |raws| ==> OneLine(raws[i]) && raws[i] != ""
    ensures SplitLines(Join(raws, '\n')) == raws
  {
    if |raws| == 1 {
      assert raws[0][..|raws[0]|] == raws[0];
      FirstBoundaryIs(raws[0], |raws[0]|);
    }
  }

  lemma {:induction false} AllKept(raws: seq<string>, reader: Reader)
    requires forall i :: 0 <= i < |raws| ==> !reader.blank(raws[i])
    ensures |LinesOf(raws, reader)| == |raws|
    ensures forall i :: 0 <= i < |raws| ==> LinesOf(raws, reader)[i] == reader.normalise(raws[i])
  {
    if raws != [] {
      AllKept(raws[..|raws| - 1], reader);
    }
  }

  lemma {:induction false} LinesHaveContent(lines: seq<string>, reader: Reader)
    requires ReaderOk(reader)
    ensures "" !in LinesOf(lines, reader)
  {
    if lines != [] {
      LinesHaveContent(lines[..|lines| - 1], reader);
    }
  }

  /** The matched nodes' joined text reads like the nodes. */
  lemma {:induction false} WindowReads(matched: seq<Node>, lines: seq<string>, reader: Reader)
    requires ReaderOk(reader) && "" !in lines && Normalised(matched, reader) == lines
    requires forall i :: 0 <= i < |matched| ==> OneLine(matched[i].raw)
    ensures Read(SourceText(matched), reader) == lines
  {
    var raws := Raws(matched);
    forall i | 0 <= i < |raws|
      ensures !reader.blank(raws[i]) && raws[i] != ""
    {
      assert Normalised(matched, reader)[i] in lines;
    }
    hide SplitLines, OneLine, Join;
    JoinSplits(raws);
    AllKept(raws, reader);
  }

  /** Idempotence: anchoring the anchored record again reports the same spans, nodes and text as
      already anchored, and changes nothing. */
  lemma {:induction false} AnchoringAgain(record: Record, graph: Graph, reader: Reader)
    requires GraphOk(graph) && OneLinePerNode(graph) && ReaderOk(reader)
    requires Decide(record, graph, reader).Anchored?
    requires NoRepeats(Cited(graph, record.pageIds.value).value)
    ensures var d := Decide(record, graph, reader);
      var again := Decide(After(record, d), graph, reader);
      && again == AlreadyAnchored(d.spans, d.nodeIds, d.text)
      && After(After(record, d), again) == After(record, d)
  {
    hide Decide, GraphOk, OneLinePerNode, ReaderOk, Ordered, NoRepeats, Cited, OnlyWindow;
    var start := AnchorIsTheWindow(record, graph, reader);
    OrderedDistinct(graph, Cited(graph, record.pageIds.value).value);
    AnchoringAgainIff(record, graph, reader, start);
  }

  /** With pages cited more than once, idempotence holds exactly when no node of the window is
      listed again after it; otherwise the second run calls the first one's anchor invalid. */
  lemma {:induction false} AnchoringAgainIff(record: Record, graph: Graph, reader: Reader, start: nat)
    requires GraphOk(graph) && OneLinePerNode(graph) && ReaderOk(reader)
    requires Decide(record, graph, reader).Anchored?
    requires var nodes := Ordered(graph, Cited(graph, record.pageIds.value).value);
      start + |Read(record.text, reader)| <= |nodes| && OnlyWindow(nodes, Read(record.text, reader), reader, start)
    ensures var nodes := Ordered(graph, Cited(graph, record.pageIds.value).value);
      var d := Decide(record, graph, reader);
      var again := Decide(After(record, d), graph, reader);
      && (again == AlreadyAnchored(d.spans, d.nodeIds, d.text)
          <==> LastCopies(nodes, start, |Read(record.text, reader)|))
      && (again != AlreadyAnchored(d.spans, d.nodeIds, d.text) ==> again == InvalidExisting(TextDiffers))
  {
    hide Starts, Ordered, Indexes, GraphOk, Read, SourceText, OneLine, Normalised, Spans, NodeIds, LastCopies,
      OnlyWindow, Contiguous, Cited;
    var pages := Cited(graph, record.pageIds.value).value;
    var nodes, lines := Ordered(graph, pages), Read(record.text, reader);
    var again := After(record, Decide(record, graph, reader));
    var found := AnchorIsTheWindow(record, graph, reader);
    WindowIsUnique(nodes, lines, reader, start, found);
    OrderedFrom(graph, pages);
    ReadHasContent(record.text, reader);
    if LastCopies(nodes, start, |lines|) {
      forall i | 0 <= i < |nodes|
        ensures OneLine(nodes[i].raw)
      {
        assert nodes[i] in graph.nodes;
      }
      WindowAgain(again, nodes, start, lines, reader);
    } else {
      WindowLost(again, graph, nodes, start, lines, reader);
    }
  }

  // A record that cites one page twice and reads like that page's two lines.

  const FIRST_LINE := Node("n1", 1, "s1", "a", 0)
  const SECOND_LINE := Node("n2", 1, "s2", "b", 1)
  const TWO_LINES := Graph([Page("p", 1)], [FIRST_LINE, SECOND_LINE])
  const CITED_TWICE := Record(Some(["p", "p"]), Some([]), "a\nb", [], "")

  lemma {:induction false} TwiceCited()
    ensures Cited(TWO_LINES, ["p", "p"]) == Some([1, 1])
  {
    var once, twice := ["p"], ["p", "p"];
    assert PageNumber(TWO_LINES.pages, "p") == Some(1);
    assert once[..|once| - 1] == [] && once[|once| - 1] == "p";
    assert Cited(TWO_LINES, []) == Some([]);
    assert [] + [1] == [1];
    assert Cited(TWO_LINES, once) == Some([1]);
    assert twice[..|twice| - 1] == once && twice[|twice| - 1] == "p";
    assert [1] + [1] == [1, 1];
  }

  lemma {:induction false} TwiceListed()
    ensures Ordered(TWO_LINES, [1, 1]) == [FIRST_LINE, FIRST_LINE, SECOND_LINE, SECOND_LINE]
  {
    hide SortBy;
    var pair, once, twice := [FIRST_LINE, SECOND_LINE], [1], [1, 1];
    PairListed();
    SortedPair();
    assert once[..|once| - 1] == [] && once[|once| - 1] == 1;
    assert Collected(TWO_LINES, []) == [];
    assert Collected(TWO_LINES, once) == [] + pair == pair;
    assert twice[..|twice| - 1] == once && twice[|twice| - 1] == 1;
    assert Collected(TWO_LINES, twice) == pair + pair;
  }

  lemma {:induction false} PairListed()
    ensures NodesOn(TWO_LINES.nodes, 1) == [FIRST_LINE, SECOND_LINE]
  {
    var one, pair := [FIRST_LINE], [FIRST_LINE, SECOND_LINE];
    assert one[..|one| - 1] == [] && one[|one| - 1] == FIRST_LINE;
    assert NodesOn(one, 1) == one;
    assert pair[..|pair| - 1] == one && pair[|pair| - 1] == SECOND_LINE;
  }

  lemma {:induction false} SortedPair()
    ensures SortBy([FIRST_LINE, SECOND_LINE], InOrder) == [FIRST_LINE, SECOND_LINE]
    ensures SortBy([FIRST_LINE, SECOND_LINE] + [FIRST_LINE, SECOND_LINE], InOrder)
         == [FIRST_LINE, FIRST_LINE, SECOND_LINE, SECOND_LINE]
  {
    var pair := [FIRST_LINE, SECOND_LINE];
    assert pair[1..] == [SECOND_LINE] && [SECOND_LINE][1..] == [];
    assert SortBy([SECOND_LINE], InOrder) == [SECOND_LINE];
    assert SortBy(pair, InOrder) == pair;
    var three := [SECOND_LINE] + pair;
    assert three[1..] == pair;
    assert SortBy(three, InOrder) == Insert(SECOND_LINE, pair, InOrder) == [FIRST_LINE, SECOND_LINE, SECOND_LINE];
    assert (pair + pair)[1..] == three;
  }

  /** Such a record is anchored, and the second run calls the anchor invalid. */
  lemma {:induction false} RepeatedPageBreaks(reader: Reader)
    requires ReaderOk(reader) && !reader.blank("a") && !reader.blank("b") && !reader.blank("a\nb")
    requires reader.normalise("a") != reader.normalise("b")
    ensures var d := Decide(CITED_TWICE, TWO_LINES, reader);
      && d.Anchored?
      && Decide(After(CITED_TWICE, d), TWO_LINES, reader) == InvalidExisting(TextDiffers)
  {
    hide Decide, Ordered, Cited, Read;
    TwiceCited();
    TwiceListed();
    var nodes := Ordered(TWO_LINES, [1, 1]);
    assert Cited(TWO_LINES, CITED_TWICE.pageIds.value).value == [1, 1];
    var lines := [reader.normalise("a"), reader.normalise("b")];
    assert Read("a\nb", reader) == lines by { TwoLinesRead(reader); }
    assert OneLine("a") && OneLine("b");
    var names := Normalised(nodes, reader);
    assert names == [lines[0], lines[0], lines[1], lines[1]];
    forall other | 0 <= other <= |nodes| && MatchesAt(names, lines, other)
      ensures other == 1
    {
      assert names[other..other + 2][0] == names[other] && names[other..other + 2][1] == names[other + 1];
    }
    assert names[1..3] == lines;
    assert OnlyWindow(nodes, lines, reader, 1);
    AnchoredIff(CITED_TWICE, TWO_LINES, reader);
    assert Decide(CITED_TWICE, TWO_LINES, reader).Anchored?;
    assert GraphOk(TWO_LINES) by {
      assert TWO_LINES.pages[0].number == 1;
    }
    assert OneLinePerNode(TWO_LINES);
    AnchoringAgainIff(CITED_TWICE, TWO_LINES, reader, 1);
    assert nodes[2].span == nodes[3].span;
  }

  lemma {:induction false} TwoLinesRead(reader: Reader)
    requires ReaderOk(reader) && !reader.blank("a") && !reader.blank("b")
    ensures Read("a\nb", reader) == [reader.normalise("a"), reader.normalise("b")]
  {
    var raws := ["a", "b"];
    assert OneLine("a") && OneLine("b");
    assert Join(raws, '\n') == "a\nb" by {
      assert raws[1..] == ["b"];
      assert Join(["b"], '\n') == "b";
    }
    JoinSplits(raws);
    AllKept(raws, reader);
  }

  lemma {:induction false} WindowIsUnique(nodes: seq<Node>, lines: seq<string>, reader: Reader, a: nat, b: nat)
    requires a <= |nodes| && b <= |nodes| && OnlyWindow(nodes, lines, reader, a) && OnlyWindow(nodes, lines, reader, b)
    ensures a == b
  {
  }

  /** The nodes of any cited pages come from the graph. */
  lemma {:induction false} OrderedFrom(graph: Graph, pages: seq<int>)
    ensures forall x :: x in Ordered(graph, pages) ==> x in graph.nodes
  {
    CollectedFrom(graph, pages);
    SortByMembers(Collected(graph, pages), InOrder);
  }

  lemma {:induction false} CollectedFrom(graph: Graph, pages: seq<int>)
    ensures forall x :: x in Collected(graph, pages) ==> x in graph.nodes
  {
    if pages != [] {
      CollectedFrom(graph, pages[..|pages| - 1]);
      NodesOnFrom(graph.nodes, pages[|pages| - 1]);
      SortByMembers(NodesOn(graph.nodes, pages[|pages| - 1]), InOrder);
    }
  }

  lemma {:induction false} NodesOnFrom(nodes: seq<Node>, page: int)
    ensures forall x :: x in NodesOn(nodes, page) ==> x in nodes
  {
    if nodes != [] { NodesOnFrom(nodes[..|nodes| - 1], page); }
  }

  /** A second copy of one of its nodes makes the window's spans point elsewhere, and there is no
      other window they could point to. */
  lemma {:induction false} WindowLost(record: Record, graph: Graph, nodes: seq<Node>, start: nat, lines: seq<string>,
                                      reader: Reader)
    requires GraphOk(graph) && forall x :: x in nodes ==> x in graph.nodes
    requires lines != [] && start + |lines| <= |nodes| && OnlyWindow(nodes, lines, reader, start)
    requires Normalised(Window(nodes, start, |lines|), reader) == lines && !LastCopies(nodes, start, |lines|)
    ensures Spans(Window(nodes, start, |lines|)) != []
    ensures DecideExisting(record, Spans(Window(nodes, start, |lines|)), nodes, reader) == InvalidExisting(TextDiffers)
  {
    hide LastCopies, Read, SourceText, Contiguous, Indexes, OnlyWindow, Normalised;
    SpansAreListed(nodes, start, |lines|);
    WindowIndexes(nodes, start, |lines|);
    ContiguousIsTheWindow(graph, nodes, start, lines, reader);
  }

  /** The spans of the only window can only be contiguous at the window itself. */
  lemma {:induction false} ContiguousIsTheWindow(graph: Graph, nodes: seq<Node>, start: nat, lines: seq<string>,
                                                 reader: Reader)
    requires GraphOk(graph) && forall x :: x in nodes ==> x in graph.nodes
    requires lines != [] && start + |lines| <= |nodes| && OnlyWindow(nodes, lines, reader, start)
    requires Normalised(Window(nodes, start, |lines|), reader) == lines
    requires Indexes(nodes, Spans(Window(nodes, start, |lines|))).Some?
    ensures var ix := Indexes(nodes, Spans(Window(nodes, start, |lines|))).value;
      Contiguous(ix) ==> ix == Run(start, |lines|)
  {
    var matched := Window(nodes, start, |lines|);
    var spans := Spans(matched);
    IndexesBound(nodes, spans);
    var ix := Indexes(nodes, spans).value;
    if Contiguous(ix) {
      var names := Normalised(nodes, reader);
      forall k | 0 <= k < |lines|
        ensures ix[0] + k < |nodes| && names[ix[0] + k] == lines[k]
      {
        assert nodes[ix[k]].span == spans[k] == matched[k].span && ix[k] == ix[0] + k;
        assert nodes[ix[k]] in nodes && nodes[start + k] in nodes;
        SameSpanSameNode(graph, nodes[ix[k]], nodes[start + k]);
        assert Normalised(matched, reader)[k] == lines[k];
      }
      assert ix[|lines| - 1] == ix[0] + |lines| - 1;
      assert names[ix[0]..ix[0] + |lines|] == lines;
      assert MatchesAt(names, lines, ix[0]);
      assert ix == Run(start, |lines|);
    }
  }

  lemma {:induction false} SameSpanSameNode(graph: Graph, a: Node, b: Node)
    requires GraphOk(graph) && a in graph.nodes && b in graph.nodes && a.span == b.span
    ensures a == b
  {
  }

  lemma {:induction false} SpansAreListed(nodes: seq<Node>, start: nat, n: nat)
    requires start + n <= |nodes|
    ensures Indexes(nodes, Spans(Window(nodes, start, n))).Some?
    decreases n
  {
    hide SpanIndex;
    if n > 0 {
      assert Spans(Window(nodes, start, n))[..n - 1] == Spans(Window(nodes, start, n - 1));
      SpansAreListed(nodes, start, n - 1);
      SpanIsListed(nodes, start + n - 1);
    }
  }

  lemma {:induction false} SpanIsListed(nodes: seq<Node>, k: nat)
    requires k < |nodes|
    ensures SpanIndex(nodes, nodes[k].span).Some?
  {
    var last := |nodes| - 1;
    if k < last { SpanIsListed(nodes[..last], k); }
  }

  lemma {:induction false} ReadHasContent(text: string, reader: Reader)
    requires ReaderOk(reader)
    ensures "" !in Read(text, reader)
  {
    LinesHaveContent(SplitLines(text), reader);
  }

  /** A record holding a window's spans, whose text reads like the window, is already anchored
      there. */
  lemma {:induction false} WindowAgain(record: Record, nodes: seq<Node>, start: nat, lines: seq<string>, reader: Reader)
    requires ReaderOk(reader) && forall i :: 0 <= i < |nodes| ==> OneLine(nodes[i].raw)
    requires lines != [] && "" !in lines && start + |lines| <= |nodes| && lines == Read(record.text, reader)
    requires LastCopies(nodes, start, |lines|)
    requires Normalised(Window(nodes, start, |lines|), reader) == lines
    ensures var matched := Window(nodes, start, |lines|);
      DecideExisting(record, Spans(matched), nodes, reader)
        == AlreadyAnchored(Spans(matched), NodeIds(matched), SourceText(matched))
  {
    hide LastCopies, Read, SourceText, OneLine, Normalised, Indexes, NodeIds;
    var matched := Window(nodes, start, |lines|);
    WindowIndexes(nodes, start, |lines|);
    assert forall i :: 0 <= i < |matched| ==> matched[i] == nodes[start + i];
    WindowReads(matched, lines, reader);
    var run := Run(start, |lines|);
    assert run[|run| - 1] + 1 == start + |lines|;
  }

  /** Every other decision is stable under a second run as well. */
  lemma {:induction false} OtherDecisionsStay(record: Record, graph: Graph, reader: Reader)
    requires !Decide(record, graph, reader).Anchored?
    ensures Decide(After(record, Decide(record, graph, reader)), graph, reader) == Decide(record, graph, reader)
  {
    hide Starts, Ordered, Indexes, Read, SourceText, Cited;
  }

  /** What a second run makes of a first run's decision. */
  function Settled(d: Decision): Decision {
    if d.Anchored? then AlreadyAnchored(d.spans, d.nodeIds, d.text) else d
  }

  function AllSettled(decisions: seq<Decision>): (r: seq<Decision>)
    ensures |r| == |decisions|
  {
    seq(|decisions|, i requires 0 <= i < |decisions| => Settled(decisions[i]))
  }

  lemma {:induction false} SettledSummary(decisions: seq<Decision>)
    ensures var s, t := SummaryOf(decisions), SummaryOf(AllSettled(decisions));
      t == s.(anchored := 0, already := s.already + s.anchored)
  {
    if decisions != [] {
      var front := decisions[..|decisions| - 1];
      SettledSummary(front);
      assert AllSettled(decisions)[..|decisions| - 1] == AllSettled(front);
    }
  }

  /** Running again on the transcript just written binds nothing new and changes no record; its
      summary reports every bound record as already anchored and the rest as before. */
  lemma {:induction false} ReanchoringAgain(records: seq<Record>, graph: Graph, reader: Reader)
    requires GraphOk(graph) && OneLinePerNode(graph) && ReaderOk(reader)
    requires forall i :: 0 <= i < |records| && Decide(records[i], graph, reader).Anchored? ==>
      NoRepeats(Cited(graph, records[i].pageIds.value).value)
    ensures var first := Decisions(records, graph, reader);
      var written := AfterAll(records, first);
      var again := Decisions(written, graph, reader);
      && again == AllSettled(first)
      && AfterAll(written, again) == written
      && SummaryOf(again)
        == SummaryOf(first).(anchored := 0, already := SummaryOf(first).already + SummaryOf(first).anchored)
  {
    hide Decide, GraphOk, OneLinePerNode, ReaderOk, NoRepeats, Cited, SummaryOf;
    var first := Decisions(records, graph, reader);
    var written := AfterAll(records, first);
    forall i | 0 <= i < |records|
      ensures Decide(written[i], graph, reader) == Settled(first[i])
      ensures After(written[i], Settled(first[i])) == written[i]
    {
      if first[i].Anchored? {
        AnchoringAgain(records[i], graph, reader);
      } else {
        OtherDecisionsStay(records[i], graph, reader);
      }
    }
    assert Decisions(written, graph, reader) == AllSettled(first);
    SettledSummary(first);
  }
}
