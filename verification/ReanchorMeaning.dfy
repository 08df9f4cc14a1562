/** When a record is anchored, found anchored or refused, in terms of the graph and the texts alone. */
module ReanchorMeaning {
  import opened Wrappers
  import opened Lines
  import opened Sorting
  import opened Strings
  import opened SourceReanchor

  // ----- Pages and their nodes -----

  predicate OnSomePage(graph: Graph, n: Node) {
    exists k :: 0 <= k < |graph.pages| && graph.pages[k].number == n.page
  }

  /** A graph is accepted with a page ID, a node ID and a span ID for each, and a page for every node. */
  lemma {:induction false} GraphOkIff(graph: Graph)
    ensures GraphOk(graph) <==>
      && (forall i, j :: 0 <= i < j < |graph.pages| ==> graph.pages[i].id != graph.pages[j].id)
      && (forall i, j :: 0 <= i < j < |graph.nodes| ==>
            graph.nodes[i].id != graph.nodes[j].id && graph.nodes[i].span != graph.nodes[j].span)
      && (forall n :: n in graph.nodes ==> OnSomePage(graph, n))
  {
    if GraphOk(graph) {
      forall n | n in graph.nodes
        ensures OnSomePage(graph, n)
      {
        var i :| 0 <= i < |graph.nodes| && graph.nodes[i] == n;
        var k :| 0 <= k < |graph.pages| && graph.pages[k].number == graph.nodes[i].page;
      }
    }
    if forall n :: n in graph.nodes ==> OnSomePage(graph, n) {
      forall i | 0 <= i < |graph.nodes|
        ensures exists k :: 0 <= k < |graph.pages| && graph.pages[k].number == graph.nodes[i].page
      {
        assert OnSomePage(graph, graph.nodes[i]);
      }
    }
  }

  /** The number of the page with this ID. */
  predicate IsPage(graph: Graph, id: string, number: int) {
    exists k :: 0 <= k < |graph.pages| && graph.pages[k].id == id && graph.pages[k].number == number
  }

  lemma {:induction false} PageNumberIs(pages: seq<Page>, id: string, k: nat)
    requires forall i, j :: 0 <= i < j < |pages| ==> pages[i].id != pages[j].id
    requires k < |pages| && pages[k].id == id
    ensures PageNumber(pages, id) == Some(pages[k].number)
  {
    if k > 0 {
      assert pages[0].id != id;
      PageNumberIs(pages[1..], id, k - 1);
    }
  }

  lemma {:induction false} PageNumberFound(pages: seq<Page>, id: string) returns (k: nat)
    requires PageNumber(pages, id).Some?
    ensures k < |pages| && pages[k].id == id && pages[k].number == PageNumber(pages, id).value
  {
    if pages[0].id == id {
      k := 0;
    } else {
      k := PageNumberFound(pages[1..], id);
      k := k + 1;
    }
  }

  lemma {:induction false} NumberIff(graph: Graph, id: string, number: int)
    requires GraphOk(graph)
    ensures PageNumber(graph.pages, id) == Some(number) <==> IsPage(graph, id, number)
  {
    if PageNumber(graph.pages, id) == Some(number) {
      var k := PageNumberFound(graph.pages, id);
    }
    if IsPage(graph, id, number) {
      var k :| 0 <= k < |graph.pages| && graph.pages[k].id == id && graph.pages[k].number == number;
      PageNumberIs(graph.pages, id, k);
    }
  }

  /** The cited pages are known exactly when each is, and then these are their numbers in order. */
  lemma {:induction false} CitedIs(graph: Graph, ids: seq<string>, numbers: seq<int>)
    requires GraphOk(graph)
    ensures Cited(graph, ids) == Some(numbers) <==>
      |numbers| == |ids| && forall k :: 0 <= k < |ids| ==> IsPage(graph, ids[k], numbers[k])
  {
    hide GraphOk, PageNumber, IsPage;
    if ids != [] {
      var last := |ids| - 1;
      if numbers == [] {
      } else {
        var front := numbers[..|numbers| - 1];
        assert numbers == front + [numbers[|numbers| - 1]];
        CitedIs(graph, ids[..last], front);
        NumberIff(graph, ids[last], numbers[|numbers| - 1]);
        if Cited(graph, ids) == Some(numbers) {
          assert Cited(graph, ids[..last]).value + [PageNumber(graph.pages, ids[last]).value] == numbers;
          assert Cited(graph, ids[..last]).value == front;
        }
      }
    }
  }

  lemma {:induction false} NodesOnAre(nodes: seq<Node>, page: int, n: Node)
    ensures n in NodesOn(nodes, page) <==> n in nodes && n.page == page
  {
    if nodes != [] {
      var front, last := nodes[..|nodes| - 1], nodes[|nodes| - 1];
      assert nodes == front + [last];
      NodesOnAre(front, page, n);
    }
  }

  lemma {:induction false} CollectedAre(graph: Graph, pages: seq<int>, n: Node)
    ensures n in Collected(graph, pages) <==> n in graph.nodes && n.page in pages
  {
    if pages != [] {
      var front, last := pages[..|pages| - 1], pages[|pages| - 1];
      assert pages == front + [last];
      CollectedAre(graph, front, n);
      NodesOnAre(graph.nodes, last, n);
      SortByMembers(NodesOn(graph.nodes, last), InOrder);
    }
  }

  /** The nodes a record is compared with: those of its pages, in source order. */
  lemma {:induction false} OrderedAre(graph: Graph, pages: seq<int>)
    ensures forall n :: n in Ordered(graph, pages) <==> n in graph.nodes && n.page in pages
    ensures forall i, j :: 0 <= i < j < |Ordered(graph, pages)| ==>
      Ordered(graph, pages)[i].order <= Ordered(graph, pages)[j].order
  {
    var all := Collected(graph, pages);
    SortByMembers(all, InOrder);
    SortBySorted(all, InOrder);
    forall n
      ensures n in Ordered(graph, pages) <==> n in graph.nodes && n.page in pages
    {
      CollectedAre(graph, pages, n);
    }
    forall i, j | 0 <= i < j < |Ordered(graph, pages)|
      ensures Ordered(graph, pages)[i].order <= Ordered(graph, pages)[j].order
    {
      assert InOrder(Ordered(graph, pages)[i], Ordered(graph, pages)[j]);
    }
  }

  // ----- Reading -----

  /** The lines below `n` that are not blank. */
  function Filled(lines: seq<string>, reader: Reader, n: nat): set<nat>
    requires n <= |lines|
  {
    set k: nat | k < n && !reader.blank(lines[k])
  }

  /** A text reads as its lines without the blank ones, normalised, in order. */
  lemma {:induction false} LinesRead(lines: seq<string>, reader: Reader, i: nat)
    requires i < |lines| && !reader.blank(lines[i])
    ensures |LinesOf(lines, reader)| == |Filled(lines, reader, |lines|)|
    ensures |Filled(lines, reader, i)| < |LinesOf(lines, reader)|
    ensures LinesOf(lines, reader)[|Filled(lines, reader, i)|] == reader.normalise(lines[i])
    decreases |lines|
  {
    LinesCounted(lines, reader);
    var last := |lines| - 1;
    if i < last {
      LinesRead(lines[..last], reader, i);
      assert Filled(lines[..last], reader, i) == Filled(lines, reader, i);
    } else {
      LinesCounted(lines[..last], reader);
      assert Filled(lines[..last], reader, last) == Filled(lines, reader, last);
    }
  }

  lemma {:induction false} LinesCounted(lines: seq<string>, reader: Reader)
    ensures |LinesOf(lines, reader)| == |Filled(lines, reader, |lines|)|
  {
    var now := Filled(lines, reader, |lines|);
    if lines == [] {
      assert now == {};
    } else {
      var last := |lines| - 1;
      LinesCounted(lines[..last], reader);
      var before := Filled(lines[..last], reader, last);
      if reader.blank(lines[last]) {
        assert now == before;
      } else {
        assert now == before + {last};
      }
    }
  }

  // ----- Existing anchors -----

  /** The record's spans are those of the nodes from `start` on. */
  predicate SpansFrom(nodes: seq<Node>, spans: seq<string>, start: nat) {
    && start + |spans| <= |nodes|
    && forall k :: 0 <= k < |spans| ==> nodes[start + k].span == spans[k]
  }

  lemma {:induction false} SpanAt(nodes: seq<Node>, span: string, k: nat)
    requires DistinctSpans(nodes) && k < |nodes| && nodes[k].span == span
    ensures SpanIndex(nodes, span) == Some(k)
  {
    var last := |nodes| - 1;
    if k < last {
      SpanAt(nodes[..last], span, k);
    }
  }

  /** Where each span of a list stands, if all are there. */
  lemma {:induction false} IndexesAre(nodes: seq<Node>, spans: seq<string>)
    requires DistinctSpans(nodes)
    ensures Indexes(nodes, spans).Some? <==> forall k :: 0 <= k < |spans| ==> spans[k] in Spans(nodes)
  {
    hide DistinctSpans;
    if spans != [] {
      var last := |spans| - 1;
      IndexesAre(nodes, spans[..last]);
      SpanIndexBound(nodes, spans[last]);
      if spans[last] in Spans(nodes) {
        var k :| 0 <= k < |Spans(nodes)| && Spans(nodes)[k] == spans[last];
        SpanAt(nodes, spans[last], k);
      }
      if SpanIndex(nodes, spans[last]).Some? {
        assert Spans(nodes)[SpanIndex(nodes, spans[last]).value] == spans[last];
      }
    }
  }

  /** The positions are consecutive exactly when the spans stand together. */
  lemma {:induction false} ContiguousIff(nodes: seq<Node>, spans: seq<string>, start: nat)
    requires DistinctSpans(nodes) && spans != [] && Indexes(nodes, spans).Some?
    ensures |Indexes(nodes, spans).value| == |spans|
    ensures SpansFrom(nodes, spans, start) <==>
      Contiguous(Indexes(nodes, spans).value) && Indexes(nodes, spans).value[0] == start
  {
    IndexesBound(nodes, spans);
    var ix := Indexes(nodes, spans).value;
    if SpansFrom(nodes, spans, start) {
      forall k | 0 <= k < |spans|
        ensures ix[k] == start + k
      {
        assert nodes[ix[k]].span == nodes[start + k].span;
      }
    }
    if Contiguous(ix) && ix[0] == start {
      assert ix[|spans| - 1] == start + (|spans| - 1);
    }
  }

  /** The nodes from `start` on carry the spans, and read like the text. */
  predicate ReadsFrom(nodes: seq<Node>, spans: seq<string>, text: string, reader: Reader, start: nat) {
    SpansFrom(nodes, spans, start) && Read(SourceText(nodes[start..start + |spans|]), reader) == Read(text, reader)
  }

  /** A record that has anchors: they are kept exactly when its pages' nodes carry these spans side by
      side and read like the record; otherwise the reason says whether a span is missing. */
  lemma {:induction false} ExistingIff(record: Record, nodes: seq<Node>, reader: Reader, spans: seq<string>)
    requires spans != [] && DistinctSpans(nodes)
    ensures var d := DecideExisting(record, spans, nodes, reader);
      && (d == InvalidExisting(SpanElsewhere) <==> exists k :: 0 <= k < |spans| && spans[k] !in Spans(nodes))
      && (d.AlreadyAnchored? <==> exists start: nat :: ReadsFrom(nodes, spans, record.text, reader, start))
      && (d.AlreadyAnchored? || d == InvalidExisting(SpanElsewhere) || d == InvalidExisting(TextDiffers))
  {
    hide Read, SourceText, DistinctSpans, Indexes, SpansFrom;
    IndexesAre(nodes, spans);
    var d := DecideExisting(record, spans, nodes, reader);
    if Indexes(nodes, spans).Some? {
      IndexesBound(nodes, spans);
      var ix := Indexes(nodes, spans).value;
      ContiguousIff(nodes, spans, ix[0]);
      if start: nat :| ReadsFrom(nodes, spans, record.text, reader, start) {
        ContiguousIff(nodes, spans, start);
        assert ix[|ix| - 1] + 1 == start + |spans|;
      }
      if d.AlreadyAnchored? {
        assert ix[|ix| - 1] + 1 == ix[0] + |spans|;
        assert ReadsFrom(nodes, spans, record.text, reader, ix[0]);
      }
    }
    if start: nat :| ReadsFrom(nodes, spans, record.text, reader, start) {
      SpansAreThere(nodes, spans, start);
    }
  }

  lemma {:induction false} SpansAreThere(nodes: seq<Node>, spans: seq<string>, start: nat)
    requires SpansFrom(nodes, spans, start)
    ensures forall k :: 0 <= k < |spans| ==> spans[k] in Spans(nodes)
  {
    forall k | 0 <= k < |spans|
      ensures spans[k] in Spans(nodes)
    {
      assert Spans(nodes)[start + k] == spans[k];
    }
  }

  /** A kept record is written its own spans, and the IDs and the text of those nodes. */
  lemma {:induction false} KeptIs(record: Record, nodes: seq<Node>, reader: Reader, spans: seq<string>, start: nat)
    requires spans != [] && DistinctSpans(nodes) && SpansFrom(nodes, spans, start)
    requires DecideExisting(record, spans, nodes, reader).AlreadyAnchored?
    ensures var d, kept := DecideExisting(record, spans, nodes, reader), nodes[start..start + |spans|];
      && d.spans == spans && |d.nodeIds| == |spans| && d.text == SourceText(kept)
      && forall k :: 0 <= k < |spans| ==> d.nodeIds[k] == nodes[start + k].id
  {
    hide Read, SourceText, DistinctSpans, Indexes;
    IndexesBound(nodes, spans);
    ContiguousIff(nodes, spans, start);
    var ix := Indexes(nodes, spans).value;
    assert ix[|ix| - 1] + 1 == start + |spans|;
    assert NodeIds(nodes[start..start + |spans|]) == DecideExisting(record, spans, nodes, reader).nodeIds;
  }

  // ----- New anchors -----

  /** Where the lines of the record stand among the nodes. */
  function Places(nodes: seq<Node>, lines: seq<string>, reader: Reader): set<nat> {
    set start: nat | start <= |nodes| && MatchesAt(Normalised(nodes, reader), lines, start)
  }

  lemma {:induction false} StartsCounted(nodes: seq<string>, lines: seq<string>, n: nat)
    ensures |Starts(nodes, lines, n)| == |set start: nat | start < n && MatchesAt(nodes, lines, start)|
  {
    hide MatchesAt;
    var now := set start: nat | start < n && MatchesAt(nodes, lines, start);
    if n == 0 {
      assert now == {};
    } else {
      StartsCounted(nodes, lines, n - 1);
      var before := set start: nat | start < n - 1 && MatchesAt(nodes, lines, start);
      if MatchesAt(nodes, lines, n - 1) {
        assert now == before + {n - 1};
      } else {
        assert now == before;
      }
    }
  }

  /** A record without anchors: refused without text, refused without a place, ambiguous with several
      - and the number says how many -, and anchored with exactly one. */
  lemma {:induction false} NewIff(record: Record, nodes: seq<Node>, reader: Reader)
    ensures var d, n := DecideNew(record, nodes, reader), |Places(nodes, Read(record.text, reader), reader)|;
      && (d == Unmatched(MissingText) <==> reader.blank(record.text))
      && (!reader.blank(record.text) ==>
            && (d == Unmatched(NoMatch) <==> n == 0)
            && (d.Anchored? <==> n == 1)
            && (n > 1 ==> d == Ambiguous(n)) && (d.Ambiguous? ==> n > 1))
  {
    hide Read, SourceText, Starts, MatchesAt;
    var names, lines := Normalised(nodes, reader), Read(record.text, reader);
    StartsCounted(names, lines, |nodes| + 1);
    assert Places(nodes, lines, reader)
        == (set start: nat | start < |nodes| + 1 && MatchesAt(names, lines, start));
  }

  // ----- The whole decision -----

  /** In which order a record is refused, and which of the two questions is then asked. */
  lemma {:induction false} DecisionOrder(record: Record, graph: Graph, reader: Reader)
    ensures var d := Decide(record, graph, reader);
      && (record.pageIds.None? ==> d == Unmatched(InvalidPageIds))
      && (record.pageIds.Some? && Cited(graph, record.pageIds.value).None? ==> d == Unmatched(UnknownPage))
      && (record.pageIds.Some? && Cited(graph, record.pageIds.value).Some? ==>
            var nodes := Ordered(graph, Cited(graph, record.pageIds.value).value);
            match record.spanIds
            case None => d == InvalidExisting(InvalidSpanIds)
            case Some(spans) =>
              d == if spans == [] then DecideNew(record, nodes, reader)
                   else DecideExisting(record, spans, nodes, reader))
  {
    hide Read, SourceText, Starts, Cited, Ordered, Indexes;
  }

  /** Only anchored records are written to, and only their anchors and source text. */
  lemma {:induction false} WrittenIs(record: Record, decision: Decision)
    ensures var after := After(record, decision);
      && after.pageIds == record.pageIds && after.text == record.text
      && (decision.Anchored? || decision.AlreadyAnchored? ==>
            && after.spanIds == Some(decision.spans) && after.nodeIds == decision.nodeIds
            && after.exactText == decision.text)
      && (!decision.Anchored? && !decision.AlreadyAnchored? ==> after == record)
  {
  }

  /** A transcript may be published exactly when it has records and every one is anchored. */
  lemma {:induction false} PublishableIff(decisions: seq<Decision>)
    ensures var summary := SummaryOf(decisions);
      && summary.records == |decisions|
      && summary.anchored == |set k: nat | k < |decisions| && decisions[k].Anchored?|
      && summary.already == |set k: nat | k < |decisions| && decisions[k].AlreadyAnchored?|
      && summary.ambiguous == |set k: nat | k < |decisions| && decisions[k].Ambiguous?|
      && summary.unmatched == |set k: nat | k < |decisions| && decisions[k].Unmatched?|
      && summary.invalid == |set k: nat | k < |decisions| && decisions[k].InvalidExisting?|
      && (summary.publishable <==> decisions != [] && forall k :: 0 <= k < |decisions| ==>
            decisions[k].Anchored? || decisions[k].AlreadyAnchored?)
  {
    Counted(decisions, (d: Decision) => d.Anchored?);
    Counted(decisions, (d: Decision) => d.AlreadyAnchored?);
    Counted(decisions, (d: Decision) => d.Ambiguous?);
    Counted(decisions, (d: Decision) => d.Unmatched?);
    Counted(decisions, (d: Decision) => d.InvalidExisting?);
    NoneCounted(decisions, (d: Decision) => d.Ambiguous?);
    NoneCounted(decisions, (d: Decision) => d.Unmatched?);
    NoneCounted(decisions, (d: Decision) => d.InvalidExisting?);
    hide Count;
    assert (set k: nat | k < |decisions| && ((d: Decision) => d.Anchored?)(decisions[k]))
        == (set k: nat | k < |decisions| && decisions[k].Anchored?);
    assert (set k: nat | k < |decisions| && ((d: Decision) => d.AlreadyAnchored?)(decisions[k]))
        == (set k: nat | k < |decisions| && decisions[k].AlreadyAnchored?);
    assert (set k: nat | k < |decisions| && ((d: Decision) => d.Ambiguous?)(decisions[k]))
        == (set k: nat | k < |decisions| && decisions[k].Ambiguous?);
    assert (set k: nat | k < |decisions| && ((d: Decision) => d.Unmatched?)(decisions[k]))
        == (set k: nat | k < |decisions| && decisions[k].Unmatched?);
    assert (set k: nat | k < |decisions| && ((d: Decision) => d.InvalidExisting?)(decisions[k]))
        == (set k: nat | k < |decisions| && decisions[k].InvalidExisting?);
  }

  lemma {:induction false} Counted(decisions: seq<Decision>, kind: Decision -> bool)
    ensures Count(decisions, kind) == |set k: nat | k < |decisions| && kind(decisions[k])|
  {
    var now := set k: nat | k < |decisions| && kind(decisions[k]);
    if decisions == [] {
      assert now == {};
    } else {
      var last := |decisions| - 1;
      Counted(decisions[..last], kind);
      var before := set k: nat | k < last && kind(decisions[..last][k]);
      if kind(decisions[last]) {
        assert now == before + {last};
      } else {
        assert now == before;
      }
    }
  }

  lemma {:induction false} NoneCounted(decisions: seq<Decision>, kind: Decision -> bool)
    ensures Count(decisions, kind) == 0 <==> forall k :: 0 <= k < |decisions| ==> !kind(decisions[k])
  {
    if decisions != [] {
      NoneCounted(decisions[..|decisions| - 1], kind);
    }
  }
}
