/** The string that the trajectory hash is computed from, and why it can be read back. */
module TrajectoryEncoding {
  import opened Options
  import opened JsonValues
  import opened JsonReader

  /** A weight stands as printed. */
  predicate IsWeightText(t: string) {
    IsNumberText(t) || t in ["inf", "-inf", "nan", "-nan"]
  }

  type WeightText = t: string | IsWeightText(t) witness "0"

  datatype Node = Node(id: string, kind: string, metadata: Json)
  datatype Edge = Edge(source: string, target: string, weight: WeightText)
  datatype Step = Step(node: string, metadata: Json)
  datatype Ir = Ir(nodes: seq<Node>, edges: seq<Edge>, steps: seq<Step>, metadata: Json)

  const UNIT: char := '\U{1f}'
  const RECORD: char := '\U{1e}'
  const GROUP: char := '\U{1d}'

  // ---- Encoding ----

  type Row = seq<string>

  function NodeRow(n: Node): Row { [n.id, n.kind, Print(n.metadata)] }
  function EdgeRow(e: Edge): Row { [e.source, e.target, e.weight] }
  function StepRow(s: Step): Row { [s.node, Print(s.metadata)] }

  function NodeRows(ir: Ir): seq<Row> { seq(|ir.nodes|, i requires 0 <= i < |ir.nodes| => NodeRow(ir.nodes[i])) }
  function EdgeRows(ir: Ir): seq<Row> { seq(|ir.edges|, i requires 0 <= i < |ir.edges| => EdgeRow(ir.edges[i])) }
  function StepRows(ir: Ir): seq<Row> { seq(|ir.steps|, i requires 0 <= i < |ir.steps| => StepRow(ir.steps[i])) }

  /** Fields from the i-th on, with a separator between each two. */
  function Fields(row: Row, i: nat): string
    decreases |row| - i
  {
    if i >= |row| then "" else if i + 1 == |row| then row[i] else row[i] + [UNIT] + Fields(row, i + 1)
  }

  /** Rows from the i-th on, each ended by a separator. */
  function Section(rows: seq<Row>, i: nat): string
    decreases |rows| - i
  {
    if i >= |rows| then "" else Fields(rows[i], 0) + [RECORD] + Section(rows, i + 1)
  }

  function Encode(ir: Ir): string {
    Joined(Section(NodeRows(ir), 0), Section(EdgeRows(ir), 0), Section(StepRows(ir), 0), Print(ir.metadata))
  }

  function Joined(nodes: string, edges: string, steps: string, metadata: string): string {
    nodes + [GROUP] + (edges + [GROUP] + (steps + [GROUP] + metadata))
  }

  /** The text of one node, edge or step: its fields, in this order, between unit separators, and a record
      separator. */
  function NodeText(n: Node): string { n.id + "\U{1f}" + n.kind + "\U{1f}" + Print(n.metadata) + "\U{1e}" }
  function EdgeText(e: Edge): string { e.source + "\U{1f}" + e.target + "\U{1f}" + e.weight + "\U{1e}" }
  function StepText(s: Step): string { s.node + "\U{1f}" + Print(s.metadata) + "\U{1e}" }

  /** These texts one after the other, from the i-th on. */
  function Concat(texts: seq<string>, i: nat): string
    decreases |texts| - i
  {
    if i >= |texts| then "" else texts[i] + Concat(texts, i + 1)
  }

  lemma {:induction false} SectionIs(rows: seq<Row>, texts: seq<string>, i: nat)
    requires |texts| == |rows| && forall k :: 0 <= k < |rows| ==> texts[k] == Fields(rows[k], 0) + [RECORD]
    ensures Section(rows, i) == Concat(texts, i)
    decreases |rows| - i
  {
    if i < |rows| { SectionIs(rows, texts, i + 1); }
  }

  lemma Flat(a: string, b: string, c: string)
    ensures a + "\U{1f}" + b + "\U{1f}" + c + "\U{1e}" == (a + [UNIT] + (b + [UNIT] + c)) + [RECORD]
  {
  }

  /** The whole string: all nodes, then all edges, then all steps, a group separator after each kind, and the
      metadata. */
  lemma EncodeIs(ir: Ir, nodes: seq<string>, edges: seq<string>, steps: seq<string>)
    requires |nodes| == |ir.nodes| && forall i :: 0 <= i < |nodes| ==> nodes[i] == NodeText(ir.nodes[i])
    requires |edges| == |ir.edges| && forall i :: 0 <= i < |edges| ==> edges[i] == EdgeText(ir.edges[i])
    requires |steps| == |ir.steps| && forall i :: 0 <= i < |steps| ==> steps[i] == StepText(ir.steps[i])
    ensures Encode(ir) == Concat(nodes, 0) + "\U{1d}" + Concat(edges, 0) + "\U{1d}" + Concat(steps, 0) + "\U{1d}" +
                          Print(ir.metadata)
  {
    NodesText(ir, nodes);
    EdgesText(ir, edges);
    StepsText(ir, steps);
    Glued(Concat(nodes, 0), Concat(edges, 0), Concat(steps, 0), Print(ir.metadata));
  }

  lemma Glued(nodes: string, edges: string, steps: string, metadata: string)
    ensures Joined(nodes, edges, steps, metadata) ==
            nodes + "\U{1d}" + edges + "\U{1d}" + steps + "\U{1d}" + metadata
  {
  }

  lemma NodesText(ir: Ir, texts: seq<string>)
    requires |texts| == |ir.nodes| && forall i :: 0 <= i < |texts| ==> texts[i] == NodeText(ir.nodes[i])
    ensures Section(NodeRows(ir), 0) == Concat(texts, 0)
  {
    forall i | 0 <= i < |texts| ensures texts[i] == Fields(NodeRows(ir)[i], 0) + [RECORD] {
      ThreeFields(NodeRow(ir.nodes[i]));
      Flat(ir.nodes[i].id, ir.nodes[i].kind, Print(ir.nodes[i].metadata));
    }
    SectionIs(NodeRows(ir), texts, 0);
  }

  lemma EdgesText(ir: Ir, texts: seq<string>)
    requires |texts| == |ir.edges| && forall i :: 0 <= i < |texts| ==> texts[i] == EdgeText(ir.edges[i])
    ensures Section(EdgeRows(ir), 0) == Concat(texts, 0)
  {
    forall i | 0 <= i < |texts| ensures texts[i] == Fields(EdgeRows(ir)[i], 0) + [RECORD] {
      ThreeFields(EdgeRow(ir.edges[i]));
      Flat(ir.edges[i].source, ir.edges[i].target, ir.edges[i].weight);
    }
    SectionIs(EdgeRows(ir), texts, 0);
  }

  lemma StepsText(ir: Ir, texts: seq<string>)
    requires |texts| == |ir.steps| && forall i :: 0 <= i < |texts| ==> texts[i] == StepText(ir.steps[i])
    ensures Section(StepRows(ir), 0) == Concat(texts, 0)
  {
    forall i | 0 <= i < |texts| ensures texts[i] == Fields(StepRows(ir)[i], 0) + [RECORD] {
      TwoFields(StepRow(ir.steps[i]));
    }
    SectionIs(StepRows(ir), texts, 0);
  }

  method Buffer(ir: Ir) returns (buf: string)
    ensures buf == Encode(ir)
  {
    buf := "";
    var i := 0;
    while i < |ir.nodes|
      invariant 0 <= i <= |ir.nodes|
      invariant buf + Section(NodeRows(ir), i) == "" + Section(NodeRows(ir), 0)
    {
      var n := ir.nodes[i];
      ThreeFields(NodeRow(n));
      var row := n.id + [UNIT] + (n.kind + [UNIT] + Print(n.metadata)) + [RECORD];
      RowAdded(buf, NodeRows(ir), i, row);
      buf := buf + row;
      i := i + 1;
    }
    SectionDone("", NodeRows(ir), buf);
    buf := buf + [GROUP];
    ghost var nodes := buf;
    i := 0;
    while i < |ir.edges|
      invariant 0 <= i <= |ir.edges|
      invariant buf + Section(EdgeRows(ir), i) == nodes + Section(EdgeRows(ir), 0)
    {
      var e := ir.edges[i];
      ThreeFields(EdgeRow(e));
      var row := e.source + [UNIT] + (e.target + [UNIT] + e.weight) + [RECORD];
      RowAdded(buf, EdgeRows(ir), i, row);
      buf := buf + row;
      i := i + 1;
    }
    SectionDone(nodes, EdgeRows(ir), buf);
    buf := buf + [GROUP];
    ghost var edges := buf;
    i := 0;
    while i < |ir.steps|
      invariant 0 <= i <= |ir.steps|
      invariant buf + Section(StepRows(ir), i) == edges + Section(StepRows(ir), 0)
    {
      var s := ir.steps[i];
      TwoFields(StepRow(s));
      var row := s.node + [UNIT] + Print(s.metadata) + [RECORD];
      RowAdded(buf, StepRows(ir), i, row);
      buf := buf + row;
      i := i + 1;
    }
    SectionDone(edges, StepRows(ir), buf);
    Nested(Section(NodeRows(ir), 0), Section(EdgeRows(ir), 0), Section(StepRows(ir), 0), Print(ir.metadata));
    buf := buf + [GROUP] + Print(ir.metadata);
  }

  lemma RowAdded(buf: string, rows: seq<Row>, i: nat, row: string)
    requires i < |rows| && row == Fields(rows[i], 0) + [RECORD]
    ensures buf + row + Section(rows, i + 1) == buf + Section(rows, i)
  {
    assert buf + row + Section(rows, i + 1) == buf + (row + Section(rows, i + 1));
  }

  lemma SectionDone(before: string, rows: seq<Row>, buf: string)
    requires buf + Section(rows, |rows|) == before + Section(rows, 0)
    ensures buf == before + Section(rows, 0)
  {
    assert Section(rows, |rows|) == "" && buf + "" == buf;
  }

  lemma Nested(a: string, b: string, c: string, m: string)
    ensures "" + a + [GROUP] + b + [GROUP] + c + [GROUP] + m == Joined(a, b, c, m)
  {
    assert "" + a == a;
  }

  lemma ThreeFields(row: Row)
    requires |row| == 3
    ensures Fields(row, 0) == row[0] + [UNIT] + (row[1] + [UNIT] + row[2])
  {
    assert Fields(row, 2) == row[2];
    assert Fields(row, 1) == row[1] + [UNIT] + Fields(row, 2);
  }

  lemma TwoFields(row: Row)
    requires |row| == 2
    ensures Fields(row, 0) == row[0] + [UNIT] + row[1]
  {
    assert Fields(row, 1) == row[1];
  }

  // ---- Reading it back ----

  /** A string cut in two at the first `c`, if there is one. */
  function Cut(s: string, c: char): (r: Option<(string, string)>)
    ensures r.None? <==> c !in s
    ensures r.Some? ==> s == r.value.0 + [c] + r.value.1 && c !in r.value.0
  {
    if s == "" then None
    else if s[0] == c then Some(("", s[1..]))
    else
      match Cut(s[1..], c)
      case None => None
      case Some((first, rest)) => Some(([s[0]] + first, rest))
  }

  function Split(s: string, c: char): (parts: seq<string>)
    ensures parts != []
    decreases |s|
  {
    match Cut(s, c)
    case None => [s]
    case Some((first, rest)) => [first] + Split(rest, c)
  }

  function RowsOf(section: string): Option<seq<Row>> {
    var parts := Split(section, RECORD);
    var n := |parts| - 1;
    if parts[n] != "" then None else Some(seq(n, i requires 0 <= i < n => Split(parts[i], UNIT)))
  }

  predicate AllOf(rows: seq<Row>, width: nat) {
    forall i :: 0 <= i < |rows| ==> |rows[i]| == width
  }

  function ReadNodes(section: string): Option<seq<Node>> {
    match RowsOf(section)
    case None => None
    case Some(rows) =>
      if !AllOf(rows, 3) || exists i :: 0 <= i < |rows| && ReadText(rows[i][2]).None? then None
      else Some(seq(|rows|, i requires 0 <= i < |rows| => Node(rows[i][0], rows[i][1], ReadText(rows[i][2]).value)))
  }

  function ReadEdges(section: string): Option<seq<Edge>> {
    match RowsOf(section)
    case None => None
    case Some(rows) =>
      if !AllOf(rows, 3) || exists i :: 0 <= i < |rows| && !IsWeightText(rows[i][2]) then None
      else Some(seq(|rows|, i requires 0 <= i < |rows| => Edge(rows[i][0], rows[i][1], rows[i][2])))
  }

  function ReadSteps(section: string): Option<seq<Step>> {
    match RowsOf(section)
    case None => None
    case Some(rows) =>
      if !AllOf(rows, 2) || exists i :: 0 <= i < |rows| && ReadText(rows[i][1]).None? then None
      else Some(seq(|rows|, i requires 0 <= i < |rows| => Step(rows[i][0], ReadText(rows[i][1]).value)))
  }

  function Read(nodes: string, edges: string, steps: string, metadata: string): Option<Ir> {
    match (ReadNodes(nodes), ReadEdges(edges), ReadSteps(steps), ReadText(metadata))
    case (Some(ns), Some(es), Some(ss), Some(m)) => Some(Ir(ns, es, ss, m))
    case _ => None
  }

  /** The four parts of an encoding. */
  function Parts(s: string): Option<(string, string, string, string)> {
    match Cut(s, GROUP)
    case None => None
    case Some((nodes, s1)) =>
      match Cut(s1, GROUP)
      case None => None
      case Some((edges, s2)) =>
        match Cut(s2, GROUP)
        case None => None
        case Some((steps, metadata)) => Some((nodes, edges, steps, metadata))
  }

  function Decode(s: string): Option<Ir> {
    match Parts(s)
    case None => None
    case Some((nodes, edges, steps, metadata)) => Read(nodes, edges, steps, metadata)
  }

  predicate CleanText(s: string) {
    UNIT !in s && RECORD !in s && GROUP !in s
  }

  predicate CleanRow(row: Row) {
    forall i :: 0 <= i < |row| ==> CleanText(row[i])
  }

  predicate CleanRows(rows: seq<Row>) {
    forall i :: 0 <= i < |rows| ==> CleanRow(rows[i])
  }

  /** No separator byte in any id or type. */
  predicate Clean(ir: Ir) {
    && (forall i :: 0 <= i < |ir.nodes| ==> CleanText(ir.nodes[i].id) && CleanText(ir.nodes[i].kind))
    && (forall i :: 0 <= i < |ir.edges| ==> CleanText(ir.edges[i].source) && CleanText(ir.edges[i].target))
    && (forall i :: 0 <= i < |ir.steps| ==> CleanText(ir.steps[i].node))
  }

  /** Printed values and weights have none of themselves. */
  lemma PrintIsClean(j: Json)
    ensures CleanText(Print(j))
  {
    PrintIsVisible(j);
  }

  lemma WeightIsClean(t: string)
    requires IsWeightText(t)
    ensures CleanText(t)
  {
  }

  lemma RowsAreCleanOf(ir: Ir)
    requires Clean(ir)
    ensures CleanRows(NodeRows(ir)) && CleanRows(EdgeRows(ir)) && CleanRows(StepRows(ir))
  {
    forall i | 0 <= i < |ir.nodes| ensures CleanRow(NodeRows(ir)[i]) { PrintIsClean(ir.nodes[i].metadata); }
    forall i | 0 <= i < |ir.edges| ensures CleanRow(EdgeRows(ir)[i]) { WeightIsClean(ir.edges[i].weight); }
    forall i | 0 <= i < |ir.steps| ensures CleanRow(StepRows(ir)[i]) { PrintIsClean(ir.steps[i].metadata); }
  }

  lemma {:induction false} CutFirst(first: string, c: char, rest: string)
    requires c !in first
    ensures Cut(first + [c] + rest, c) == Some((first, rest))
    decreases |first|
  {
    var s := first + [c] + rest;
    if first == "" {
      assert s[1..] == rest;
    } else {
      CutFirst(first[1..], c, rest);
      assert s[1..] == first[1..] + [c] + rest;
      assert s[0] == first[0] && [first[0]] + first[1..] == first;
    }
  }

  lemma {:induction false} FieldsSplit(row: Row, i: nat)
    requires i < |row| && CleanRow(row)
    ensures Split(Fields(row, i), UNIT) == row[i..]
    ensures RECORD !in Fields(row, i) && GROUP !in Fields(row, i)
    decreases |row| - i
  {
    if i + 1 < |row| {
      FieldsSplit(row, i + 1);
      CutFirst(row[i], UNIT, Fields(row, i + 1));
      assert row[i..] == [row[i]] + row[i + 1..];
    }
  }

  function Lines(rows: seq<Row>, i: nat): seq<string>
    decreases |rows| - i
  {
    if i >= |rows| then [""] else [Fields(rows[i], 0)] + Lines(rows, i + 1)
  }

  lemma {:induction false} LinesAt(rows: seq<Row>, i: nat)
    requires i <= |rows|
    ensures |Lines(rows, i)| == |rows| - i + 1 && Lines(rows, i)[|rows| - i] == ""
    ensures forall k :: 0 <= k < |rows| - i ==> Lines(rows, i)[k] == Fields(rows[i + k], 0)
    decreases |rows| - i
  {
    if i < |rows| { LinesAt(rows, i + 1); }
  }

  lemma {:induction false} SectionSplit(rows: seq<Row>, i: nat)
    requires i <= |rows| && CleanRows(rows) && forall k :: 0 <= k < |rows| ==> |rows[k]| > 0
    ensures Split(Section(rows, i), RECORD) == Lines(rows, i) && GROUP !in Section(rows, i)
    decreases |rows| - i
  {
    if i < |rows| {
      FieldsSplit(rows[i], 0);
      SectionSplit(rows, i + 1);
      CutFirst(Fields(rows[i], 0), RECORD, Section(rows, i + 1));
    }
  }

  lemma RowSplits(row: Row)
    requires CleanRow(row) && |row| > 0
    ensures Split(Fields(row, 0), UNIT) == row
  {
    FieldsSplit(row, 0);
    assert row[0..] == row;
  }

  lemma RowsRoundTrip(rows: seq<Row>, section: string)
    requires CleanRows(rows) && section == Section(rows, 0) && forall k :: 0 <= k < |rows| ==> |rows[k]| > 0
    ensures RowsOf(section) == Some(rows) && GROUP !in section
  {
    SectionSplit(rows, 0);
    LinesSplit(rows, Lines(rows, 0));
  }

  lemma LinesSplit(rows: seq<Row>, parts: seq<string>)
    requires CleanRows(rows) && (forall k :: 0 <= k < |rows| ==> |rows[k]| > 0) && parts == Lines(rows, 0)
    ensures |parts| == |rows| + 1 && parts[|rows|] == ""
    ensures seq(|rows|, i requires 0 <= i < |rows| => Split(parts[i], UNIT)) == rows
  {
    LinesAt(rows, 0);
    forall k | 0 <= k < |rows| ensures Split(parts[k], UNIT) == rows[k] { RowSplits(rows[k]); }
  }

  lemma PartsJoined(a: string, b: string, c: string, m: string)
    requires GROUP !in a && GROUP !in b && GROUP !in c
    ensures Parts(Joined(a, b, c, m)) == Some((a, b, c, m))
  {
    CutFirst(a, GROUP, b + [GROUP] + (c + [GROUP] + m));
    CutFirst(b, GROUP, c + [GROUP] + m);
    CutFirst(c, GROUP, m);
  }

  lemma NodesRoundTrip(ir: Ir)
    requires Clean(ir)
    ensures ReadNodes(Section(NodeRows(ir), 0)) == Some(ir.nodes) && GROUP !in Section(NodeRows(ir), 0)
  {
    var rows := NodeRows(ir);
    RowsAreCleanOf(ir);
    RowsRoundTrip(rows, Section(rows, 0));
    forall i | 0 <= i < |rows| ensures ReadText(rows[i][2]) == Some(ir.nodes[i].metadata) {
      TextRoundTrip(ir.nodes[i].metadata);
    }
    assert ReadNodes(Section(rows, 0)).value == ir.nodes;
  }

  lemma EdgesRoundTrip(ir: Ir)
    requires Clean(ir)
    ensures ReadEdges(Section(EdgeRows(ir), 0)) == Some(ir.edges) && GROUP !in Section(EdgeRows(ir), 0)
  {
    RowsAreCleanOf(ir);
    RowsRoundTrip(EdgeRows(ir), Section(EdgeRows(ir), 0));
    assert ReadEdges(Section(EdgeRows(ir), 0)).value == ir.edges;
  }

  lemma StepsRoundTrip(ir: Ir)
    requires Clean(ir)
    ensures ReadSteps(Section(StepRows(ir), 0)) == Some(ir.steps) && GROUP !in Section(StepRows(ir), 0)
  {
    var rows := StepRows(ir);
    RowsAreCleanOf(ir);
    RowsRoundTrip(rows, Section(rows, 0));
    forall i | 0 <= i < |rows| ensures ReadText(rows[i][1]) == Some(ir.steps[i].metadata) {
      TextRoundTrip(ir.steps[i].metadata);
    }
    assert ReadSteps(Section(rows, 0)).value == ir.steps;
  }

  lemma DecodeEncode(ir: Ir)
    requires Clean(ir)
    ensures Decode(Encode(ir)) == Some(ir)
  {
    NodesRoundTrip(ir);
    EdgesRoundTrip(ir);
    StepsRoundTrip(ir);
    TextRoundTrip(ir.metadata);
    PartsJoined(Section(NodeRows(ir), 0), Section(EdgeRows(ir), 0), Section(StepRows(ir), 0), Print(ir.metadata));
  }

  // ---- What can be read back is clean ----

  lemma {:induction false} PiecesAreFree(s: string, c: char, x: char, k: nat)
    requires k < |Split(s, c)| && (x == c || x !in s)
    ensures x !in Split(s, c)[k]
    decreases |s|
  {
    var cut := Cut(s, c);
    if cut.Some? && k > 0 { PiecesAreFree(cut.value.1, c, x, k - 1); }
  }

  lemma RowsAreClean(section: string)
    requires GROUP !in section && RowsOf(section).Some?
    ensures CleanRows(RowsOf(section).value)
  {
    var parts := Split(section, RECORD);
    var rows := RowsOf(section).value;
    forall i, k | 0 <= i < |rows| && 0 <= k < |rows[i]| ensures CleanText(rows[i][k]) {
      PiecesAreFree(section, RECORD, RECORD, i);
      PiecesAreFree(section, RECORD, GROUP, i);
      PiecesAreFree(parts[i], UNIT, UNIT, k);
      PiecesAreFree(parts[i], UNIT, RECORD, k);
      PiecesAreFree(parts[i], UNIT, GROUP, k);
    }
  }

  lemma NodesAreClean(section: string, nodes: seq<Node>)
    requires GROUP !in section && ReadNodes(section) == Some(nodes)
    ensures forall i :: 0 <= i < |nodes| ==> CleanText(nodes[i].id) && CleanText(nodes[i].kind)
  {
    RowsAreClean(section);
    forall i | 0 <= i < |nodes| ensures CleanText(nodes[i].id) && CleanText(nodes[i].kind) {
      assert CleanRow(RowsOf(section).value[i]);
    }
  }

  lemma EdgesAreClean(section: string, edges: seq<Edge>)
    requires GROUP !in section && ReadEdges(section) == Some(edges)
    ensures forall i :: 0 <= i < |edges| ==> CleanText(edges[i].source) && CleanText(edges[i].target)
  {
    RowsAreClean(section);
    forall i | 0 <= i < |edges| ensures CleanText(edges[i].source) && CleanText(edges[i].target) {
      assert CleanRow(RowsOf(section).value[i]);
    }
  }

  lemma StepsAreClean(section: string, steps: seq<Step>)
    requires GROUP !in section && ReadSteps(section) == Some(steps)
    ensures forall i :: 0 <= i < |steps| ==> CleanText(steps[i].node)
  {
    RowsAreClean(section);
    forall i | 0 <= i < |steps| ensures CleanText(steps[i].node) {
      assert CleanRow(RowsOf(section).value[i]);
    }
  }

  lemma DecodedIsClean(s: string)
    requires Decode(s).Some?
    ensures Clean(Decode(s).value)
  {
    var ir, parts := Decode(s).value, Parts(s).value;
    NodesAreClean(parts.0, ir.nodes);
    EdgesAreClean(parts.1, ir.edges);
    StepsAreClean(parts.2, ir.steps);
  }

  /** Reading the string back gives the IR, values and all, exactly when no id or type contains a separator
      byte. */
  lemma DecodableIffClean(ir: Ir)
    ensures Decode(Encode(ir)) == Some(ir) <==> Clean(ir)
  {
    if Clean(ir) { DecodeEncode(ir); }
    if Decode(Encode(ir)) == Some(ir) { DecodedIsClean(Encode(ir)); }
  }

  /** Two IRs that give the same string, with no separator byte in their ids and types, are the same: their
      metadata too, not only as printed. */
  lemma EncodeIsInjective(a: Ir, b: Ir)
    requires Clean(a) && Clean(b) && Encode(a) == Encode(b)
    ensures a == b
  {
    DecodeEncode(a);
    DecodeEncode(b);
  }

  /** A separator byte in a node's id always makes the string ambiguous: the id can end there and
      the rest belong to the type. */
  lemma SeparatorInAnIdCollides(ir: Ir, n: nat, at: nat) returns (other: Ir)
    requires n < |ir.nodes| && at < |ir.nodes[n].id| && ir.nodes[n].id[at] == UNIT
    ensures other != ir && Encode(other) == Encode(ir)
  {
    var node := ir.nodes[n];
    var moved := Node(node.id[..at], node.id[at + 1..] + [UNIT] + node.kind, node.metadata);
    other := ir.(nodes := ir.nodes[n := moved]);
    assert other.nodes[n] != ir.nodes[n];
    SameFields(node, moved, at);
    SameSection(NodeRows(ir), NodeRows(other), 0);
    assert EdgeRows(other) == EdgeRows(ir) && StepRows(other) == StepRows(ir);
  }

  lemma SameFields(node: Node, moved: Node, at: nat)
    requires at < |node.id| && node.id[at] == UNIT
    requires moved == Node(node.id[..at], node.id[at + 1..] + [UNIT] + node.kind, node.metadata)
    ensures Fields(NodeRow(moved), 0) == Fields(NodeRow(node), 0)
  {
    ThreeFields(NodeRow(node));
    ThreeFields(NodeRow(moved));
    SplitAt(node.id, at);
    MoveBoundary(node.id[..at], node.id[at + 1..], node.kind, Print(node.metadata));
  }

  lemma SplitAt(id: string, at: nat)
    requires at < |id| && id[at] == UNIT
    ensures id == id[..at] + [UNIT] + id[at + 1..]
  {
  }

  lemma MoveBoundary(x: string, y: string, kind: string, m: string)
    ensures x + [UNIT] + ((y + [UNIT] + kind) + [UNIT] + m) == (x + [UNIT] + y) + [UNIT] + (kind + [UNIT] + m)
  {
  }

  lemma {:induction false} SameSection(a: seq<Row>, b: seq<Row>, i: nat)
    requires |a| == |b| && forall k :: 0 <= k < |a| ==> Fields(a[k], 0) == Fields(b[k], 0)
    ensures Section(a, i) == Section(b, i)
    decreases |a| - i
  {
    if i < |a| { SameSection(a, b, i + 1); }
  }
}
