/** What the session's operations put into nodes and branches, and what is read of it from the file. */
module SessionContent {
  import opened Options
  import opened JsonValues
  import opened JsonReader
  import opened SessionIds
  import opened SessionLog
  import opened SessionContext
  import opened SessionCodec

  lemma LineReads(r: Record)
    ensures ReadText(LineOf(r)) == Some(RecordJson(r)) && ParseLine(LineOf(r)) == Some(r)
  {
    TextRoundTrip(RecordJson(r));
    RecordRoundTrip(r);
  }

  /** The line of a node holds its id, parent and branch as strings, and its content as it is. */
  lemma NodeLineHolds(n: Node)
    ensures ReadText(LineOf(NodeLine(n))) == Some(RecordJson(NodeLine(n)))
    ensures RecordJson(NodeLine(n)) ==
            Object(map["id" := Str(n.id), "parent_id" := Str(n.parent), "branch_id" := Str(n.branch),
                       "content" := n.content])
  {
    LineReads(NodeLine(n));
  }

  /** The line of a branch says what it is, and its four fields. */
  lemma BranchLineHolds(b: Branch)
    ensures ReadText(LineOf(BranchLine(b))) == Some(RecordJson(BranchLine(b)))
    ensures RecordJson(BranchLine(b)) ==
            Object(map["type" := Str("branch"), "branch_id" := Str(b.id), "name" := Str(b.name),
                       "forked_from_node" := Str(b.forkedFrom), "created_at" := Str(b.createdAt)])
  {
    LineReads(BranchLine(b));
  }

  /** The record an operation has just written. */
  function Newest(s: Session): Record
    requires s.log != []
  {
    s.log[|s.log| - 1]
  }

  /** A walk begins at the node it is asked for, so the context ends with it. */
  lemma ContextEndsWith(nodes: map<string, Node>, id: string)
    requires id != "" && id in nodes
    ensures Context(nodes, id) != [] && Context(nodes, id)[|Context(nodes, id)| - 1] == nodes[id]
  {
    assert Walk(nodes, id, {})[0] == nodes[id];
  }

  lemma AppendWrites(s: Session, text: string, s': Session) returns (n: Node)
    requires s.current != "" && Step(s, Append(text), s')
    ensures n.id == NodeId(Next(s.nodeCounter)) && n.branch == s.current
    ensures n.content == Object(map["message" := Str(text)])
    ensures n.id in s'.ix.nodes && s'.ix.nodes[n.id] == n && n.id != ""
    ensures |s'.log| == |s.log| + 1 && Newest(s') == NodeLine(n)
  {
    var p :| ParentChoice(s.ix, s.current, p) && s' == Appended(s, p, text);
    n := Node(NodeId(Next(s.nodeCounter)), p, s.current, Object(map["message" := Str(text)]));
  }

  /** An append stores its text under `message`, in a node of the current branch with which the context now ends,
      and a load reads the same from the line it wrote. */
  lemma AppendStoresText(s: Session, text: string, s': Session)
    requires s.current != "" && Step(s, Append(text), s')
    ensures var id := NodeId(Next(s.nodeCounter));
            && id in s'.ix.nodes && s'.ix.nodes[id].branch == s.current
            && s'.ix.nodes[id].content == Object(map["message" := Str(text)])
            && Context(s'.ix.nodes, id) != []
            && Context(s'.ix.nodes, id)[|Context(s'.ix.nodes, id)| - 1] == s'.ix.nodes[id]
            && |s'.log| == |s.log| + 1 && Newest(s') == NodeLine(s'.ix.nodes[id])
            && ParseLine(LineOf(Newest(s'))) == Some(NodeLine(s'.ix.nodes[id]))
  {
    var n := AppendWrites(s, text, s');
    LineReads(NodeLine(n));
    ContextEndsWith(s'.ix.nodes, n.id);
  }

  /** A rename stores the name, in a node without parent on the current branch. */
  lemma RenameStoresName(s: Session, name: string, s': Session)
    requires s.current != "" && name != "" && Step(s, Rename(name), s')
    ensures var id := NodeId(Next(s.nodeCounter));
            && id in s'.ix.nodes && s'.ix.nodes[id].branch == s.current && s'.ix.nodes[id].parent == ""
            && s'.ix.nodes[id].content == Object(map["type" := Str("session_meta"), "name" := Str(name)])
            && |s'.log| == |s.log| + 1 && Newest(s') == NodeLine(s'.ix.nodes[id])
            && ParseLine(LineOf(Newest(s'))) == Some(NodeLine(s'.ix.nodes[id]))
  {
    LineReads(NodeLine(s'.ix.nodes[NodeId(Next(s.nodeCounter))]));
  }

  /** A fork makes the new branch current and stores its name, the node it starts from and the time. */
  lemma ForkStoresBranch(s: Session, node: string, name: string, at: string, s': Session)
    requires node != "" && node in s.ix.nodes && Step(s, Fork(node, name, at), s')
    ensures s'.current == BranchId(Next(s.branchCounter)) && s'.current in s'.ix.branches
    ensures s'.ix.branches[s'.current] == Branch(s'.current, name, node, at)
    ensures s'.ix.nodes == s.ix.nodes && s'.ix.children == s.ix.children
    ensures |s'.log| == |s.log| + 1 && Newest(s') == BranchLine(s'.ix.branches[s'.current])
    ensures ParseLine(LineOf(Newest(s'))) == Some(BranchLine(s'.ix.branches[s'.current]))
  {
    LineReads(BranchLine(s'.ix.branches[s'.current]));
  }

  /** The first message of a branch that was just forked hangs below the node it was forked from. */
  lemma FirstOnForkHangsBelow(s: Session, node: string, name: string, at: string, forked: Session, text: string,
                              s': Session)
    requires node != "" && node in s.ix.nodes && Step(s, Fork(node, name, at), forked) && Step(forked, Append(text), s')
    requires BranchId(Next(s.branchCounter)) !in s.ix.branches && Closed(s.ix)
    ensures var id := NodeId(Next(s.nodeCounter)); id in s'.ix.nodes && s'.ix.nodes[id].parent == node
  {
    assert !HasLeaf(forked.ix, forked.current);
    var p :| ParentChoice(forked.ix, forked.current, p) && s' == Appended(forked, p, text);
    assert p == node;
  }

  /** A switch makes a known branch current, and changes nothing else; messages then go onto that branch. */
  lemma SwitchThenAppend(s: Session, branch: string, switched: Session, text: string, s': Session)
    requires branch != "" && branch in s.ix.branches
    requires Step(s, Switch(branch), switched) && Step(switched, Append(text), s')
    ensures switched.current == branch && switched.ix == s.ix && switched.log == s.log
    ensures var id := NodeId(Next(s.nodeCounter)); id in s'.ix.nodes && s'.ix.nodes[id].branch == branch
    ensures var id := NodeId(Next(s.nodeCounter));
            HasLeaf(s.ix, branch) ==> LeafOf(s.ix, branch, s'.ix.nodes[id].parent)
  {
    var p :| ParentChoice(switched.ix, switched.current, p) && s' == Appended(switched, p, text);
  }

  /** A node's line that lacks a key reads as if it had the default: main for the branch, an empty object for the
      content and an empty string for the rest. */
  lemma MissingNodeKeys(n: Node, fields: map<string, Json>)
    requires fields == RecordJson(NodeLine(n)).fields
    ensures RecordOf(Object(fields - {"id"})) == Some(NodeLine(n.(id := "")))
    ensures RecordOf(Object(fields - {"parent_id"})) == Some(NodeLine(n.(parent := "")))
    ensures RecordOf(Object(fields - {"branch_id"})) == Some(NodeLine(n.(branch := "main")))
    ensures RecordOf(Object(fields - {"content"})) == Some(NodeLine(n.(content := Object(map[]))))
  {
  }

  /** The same for a branch's line. */
  lemma MissingBranchKeys(b: Branch, fields: map<string, Json>)
    requires fields == RecordJson(BranchLine(b)).fields
    ensures RecordOf(Object(fields - {"branch_id"})) == Some(BranchLine(b.(id := "")))
    ensures RecordOf(Object(fields - {"name"})) == Some(BranchLine(b.(name := "")))
    ensures RecordOf(Object(fields - {"forked_from_node"})) == Some(BranchLine(b.(forkedFrom := "")))
    ensures RecordOf(Object(fields - {"created_at"})) == Some(BranchLine(b.(createdAt := "")))
  {
  }
}
