/** The lines of a session file: each record as the JSON object it is printed as. */
module SessionCodec {
  import opened Options
  import opened Sequences
  import opened JsonValues
  import opened JsonReader
  import opened JsonTears
  import opened SessionLog
  import opened SessionFile

  function RecordJson(r: Record): Json {
    match r
    case NodeLine(n) =>
      Object(map["id" := Str(n.id), "parent_id" := Str(n.parent), "branch_id" := Str(n.branch), "content" := n.content])
    case BranchLine(b) =>
      Object(map["type" := Str("branch"), "branch_id" := Str(b.id), "name" := Str(b.name),
                 "forked_from_node" := Str(b.forkedFrom), "created_at" := Str(b.createdAt)])
  }

  /** A field that should be text, or what it defaults to. */
  function TextField(fields: map<string, Json>, key: string, default: string): Option<string> {
    if key !in fields then Some(default)
    else if fields[key].Str? then Some(fields[key].text)
    else None
  }

  function NodeOf(fields: map<string, Json>): Option<Record> {
    match (TextField(fields, "id", ""), TextField(fields, "parent_id", ""), TextField(fields, "branch_id", "main"))
    case (Some(id), Some(parent), Some(branch)) =>
      Some(NodeLine(Node(id, parent, branch, if "content" in fields then fields["content"] else Object(map[]))))
    case _ => None
  }

  function BranchOf(fields: map<string, Json>): Option<Record> {
    match (TextField(fields, "branch_id", ""), TextField(fields, "name", ""),
           TextField(fields, "forked_from_node", ""), TextField(fields, "created_at", ""))
    case (Some(id), Some(name), Some(forkedFrom), Some(createdAt)) =>
      Some(BranchLine(Branch(id, name, forkedFrom, createdAt)))
    case _ => None
  }

  /** A line is a branch record when its type says so, and a node otherwise. */
  function RecordOf(j: Json): Option<Record> {
    if !j.Object? then None
    else if "type" in j.fields && j.fields["type"] == Str("branch") then BranchOf(j.fields)
    else NodeOf(j.fields)
  }

  ghost function LineOf(r: Record): string {
    Print(RecordJson(r))
  }

  function ParseLine(line: string): Option<Record> {
    match ReadText(line)
    case None => None
    case Some(j) => RecordOf(j)
  }

  ghost function JsonLines(): Codec {
    Codec(LineOf, ParseLine)
  }

  lemma RecordRoundTrip(r: Record)
    ensures RecordOf(RecordJson(r)) == Some(r)
  {
  }

  lemma LineIsSound(r: Record)
    ensures SoundOn(JsonLines(), r)
  {
    var c, j := JsonLines(), RecordJson(r);
    TextRoundTrip(j);
    RecordRoundTrip(r);
    PrintIsOneLine(j);
    assert LineOf(r)[0] == '{';
    forall k | 0 <= k < |c.format(r)| ensures c.parse(c.format(r)[..k]) == None { PieceOfObject(j, k); }
  }

  /** The lines the program prints are what the results about the file ask for: for every record, of
      either kind and with any content, one line that parses back while no shorter piece does. */
  lemma JsonLinesAreSound()
    ensures Sound(JsonLines())
  {
    forall r ensures SoundOn(JsonLines(), r) { LineIsSound(r); }
  }

  // ---- After a tear ----

  const NODE_KEYS: seq<string> := ["branch_id", "content", "id", "parent_id"]
  const BRANCH_KEYS: seq<string> := ["branch_id", "created_at", "forked_from_node", "name", "type"]

  lemma KeysInOrder(r: Record)
    ensures Sorted(RecordJson(r).fields.Keys) == if r.NodeLine? then NODE_KEYS else BRANCH_KEYS
  {
    SortedIs(if r.NodeLine? then NODE_KEYS else BRANCH_KEYS, RecordJson(r).fields.Keys);
  }

  /** A line of the file begins with its branch id. */
  lemma LineStarts(r: Record)
    ensures NextLine(LineOf(r))
  {
    KeysInOrder(r);
    assert "branch_id" in RecordJson(r).fields;
    ObjectStarts(RecordJson(r));
  }

  lemma ObjectStarts(j: Json)
    requires j.Object? && j.fields != map[]
    requires var ks := Sorted(j.fields.Keys); ks != [] ==> ks[0] != "" && 'a' <= ks[0][0] <= 'z'
    ensures NextLine(Print(j))
  {
    var ks := Sorted(j.fields.Keys);
    ObjectIs(j, ks);
    FirstLetter(j, ks);
    ReadsWhole(j);
    assert Print(j)[1] == PrintFields(j, ks, 0)[0] && Print(j)[2] == PrintFields(j, ks, 0)[1];
  }

  lemma FirstLetter(j: Json, ks: seq<string>)
    requires j.Object? && ks != [] && (forall k :: k in ks ==> k in j.fields) && ks[0] != "" && Plain(ks[0][0])
    ensures var text := PrintFields(j, ks, 0); |text| > 1 && text[0] == '"' && text[1] == ks[0][0]
  {
    assert Escape(ks[0]) == [ks[0][0]] + Escape(ks[0][1..]);
  }

  lemma ReadsWhole(j: Json)
    requires j.Object?
    ensures ReadValue(Print(j)) == Some((j, ""))
  {
    ObjectReads(j, "");
    assert Print(j) + "" == Print(j);
  }

  /** A line of which only the newline is missing, or more, with a whole one after it never parses. */
  lemma JoinedLinesDoNotParse(torn: Record, cut: nat, next: Record)
    requires 0 < cut <= |LineOf(torn)|
    ensures ParseLine(LineOf(torn)[..cut] + LineOf(next)) == None
  {
    if cut == |LineOf(torn)| {
      assert LineOf(torn)[..cut] == LineOf(torn);
      WholeLinesDoNotJoin(torn, next);
    } else {
      LineStarts(next);
      BrokenObject(RecordJson(torn), LineOf(torn)[..cut], LineOf(next));
    }
  }

  lemma WholeLinesDoNotJoin(first: Record, next: Record)
    ensures ParseLine(LineOf(first) + LineOf(next)) == None
  {
    ObjectReads(RecordJson(first), LineOf(next));
    assert LineOf(next)[0] == '{';
  }

  /** Appending a record, and more after it, to a file whose last write was cut: at its start, inside its
      line or just before its newline, or not at all. */
  function AfterCut(c: Codec, log: seq<Record>, line: string, cut: nat, next: Record, more: seq<Record>): string
    requires cut <= |line + "\n"|
  {
    Text(c, log) + ((line + "\n")[..cut] + c.format(next)) + "\n" + Text(c, more)
  }

  lemma CutInsideLosesTheNext(log: seq<Record>, torn: Record, cut: nat, next: Record, more: seq<Record>)
    requires 0 < cut <= |LineOf(torn)|
    ensures Records(JsonLines(), AfterCut(JsonLines(), log, LineOf(torn), cut, next, more)) == log + more
  {
    var c, line := JsonLines(), LineOf(torn)[..cut] + LineOf(next);
    assert (LineOf(torn) + "\n")[..cut] == LineOf(torn)[..cut];
    JsonLinesAreSound();
    JoinedLinesDoNotParse(torn, cut, next);
    PrintIsOneLine(RecordJson(torn));
    PrintIsOneLine(RecordJson(next));
    SkippedLine(c, line, Text(c, more));
    ReadsBack(c, more);
    TextThen(c, log, line + "\n" + Text(c, more));
    Associates(Text(c, log), line + "\n", Text(c, more));
    Associates(Text(c, log), line, "\n");
  }

  lemma WholeWritesAreRead(log: seq<Record>, next: Record, more: seq<Record>)
    ensures var c := JsonLines(); Records(c, Text(c, log) + LineOf(next) + "\n" + Text(c, more)) == log + [next] + more
  {
    var c := JsonLines();
    JsonLinesAreSound();
    RecordThen(c, next, Text(c, more));
    ReadsBack(c, more);
    TextThen(c, log, LineOf(next) + "\n" + Text(c, more));
    Regrouped(Text(c, log), LineOf(next), "\n", Text(c, more));
    Associates(log, [next], more);
  }

  lemma Regrouped(a: string, b: string, newline: string, d: string)
    ensures a + b + newline + d == a + (b + newline + d)
  {
    Associates(a + b, newline, d);
    Associates(a, b, newline + d);
    Associates(b, newline, d);
  }

  /** What is read of a file that was appended to after a cut, for every place of the cut. A cut before the
      write costs nothing, and so does one after its newline. Any other costs the appended record, and
      also the cut one if only its newline was missing, which until then had been read. */
  lemma AppendAfterCut(log: seq<Record>, torn: Record, cut: nat, next: Record, more: seq<Record>)
    requires cut <= |LineOf(torn)| + 1
    ensures var c := JsonLines();
            Records(c, AfterCut(c, log, LineOf(torn), cut, next, more)) ==
            if cut == 0 then log + [next] + more
            else if cut <= |LineOf(torn)| then log + more
            else log + [torn, next] + more
  {
    var c, line := JsonLines(), LineOf(torn);
    if cut == 0 {
      assert (line + "\n")[..0] + LineOf(next) == LineOf(next);
      Associates(Text(c, log), (line + "\n")[..0], LineOf(next));
      WholeWritesAreRead(log, next, more);
    } else if cut <= |line| {
      CutInsideLosesTheNext(log, torn, cut, next, more);
    } else {
      assert (line + "\n")[..cut] == line + "\n";
      TextAppend(c, log, torn);
      Associates(Text(c, log), line, "\n");
      Associates(Text(c, log), line + "\n", LineOf(next));
      WholeWritesAreRead(log + [torn], next, more);
      assert log + [torn] + [next] == log + [torn, next];
    }
  }

  /** The appended record is lost exactly when the cut left part of a line without its newline. */
  lemma NextIsLostIff(log: seq<Record>, torn: Record, cut: nat, next: Record, more: seq<Record>)
    requires cut <= |LineOf(torn)| + 1
    ensures var c := JsonLines();
            Records(c, AfterCut(c, log, LineOf(torn), cut, next, more)) == log + more <==> 0 < cut <= |LineOf(torn)|
  {
    AppendAfterCut(log, torn, cut, next, more);
  }

  /** A record that loads had read, its newline alone missing, is gone after the next append. */
  lemma ReadRecordVanishes(log: seq<Record>, torn: Record, next: Record)
    ensures var c, line := JsonLines(), LineOf(torn);
            && Records(c, Text(c, log) + line) == log + [torn]
            && Records(c, AfterCut(c, log, line, |line|, next, [])) == log
  {
    var c, line := JsonLines(), LineOf(torn);
    JsonLinesAreSound();
    TornWrite(c, log, torn, |line|);
    assert (line + "\n")[..|line|] == line;
    AppendAfterCut(log, torn, |line|, next, []);
    assert log + [] == log;
  }

  lemma SkippedLine(c: Codec, line: string, rest: string)
    requires '\n' !in line && line != "" && c.parse(line) == None
    ensures Records(c, line + "\n" + rest) == Records(c, rest)
  {
    var text := line + "\n" + rest;
    NewlineAfter(line, rest);
    assert text[..|line|] == line && AfterLine(text) == rest;
    FirstLine(c, text);
  }
}
