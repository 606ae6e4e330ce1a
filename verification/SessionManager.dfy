/** The session manager object, and the script that mirrors its legacy migration. */
module SessionManager {
  import opened Options
  import opened JsonValues
  import opened SessionIds
  import opened SessionLog
  import opened SessionFile
  import opened SessionContext
  import opened SessionCompaction

  datatype Error = NodeIdEmpty | NodeUnknown | BranchUnknown | NoCurrentBranch | LegacyUnreadable

  datatype Result<+T> = Ok(value: T) | Err(error: Error)

  /** The messages migration finds in a legacy document: those of its list, if it has one. */
  function MessagesOf(legacy: Json): seq<Json> {
    if legacy.Object? && "messages" in legacy.fields && legacy.fields["messages"].Array?
    then legacy.fields["messages"].items else []
  }

  /** What a fork starts from: an empty node index is first loaded from the file. */
  function BeforeFork(s: Session, clock: nat -> string): Session {
    if s.ix.nodes == map[] then s.(ix := Load(s.ix, s.log, clock)) else s
  }

  /** The branches named by the meta lines of a log, the last line of a branch counting. */
  function Metas(log: seq<Record>): map<string, Branch> {
    if log == [] then map[]
    else
      var k := |log| - 1;
      if log[k].BranchLine? && log[k].meta.id != "" then Metas(log[..k])[log[k].meta.id := log[k].meta]
      else Metas(log[..k])
  }

  lemma {:induction false} MetasOnly(base: Index, log: seq<Record>, clock: nat -> string)
    requires IdsIn(log) == {}
    ensures Load(base, log, clock) == base.(branches := base.branches + Metas(log))
    decreases |log|
  {
    if log == [] {
      assert base.branches + map[] == base.branches;
    } else {
      var k := |log| - 1;
      IdsSnoc(log[..k], log[k]);
      assert log == log[..k] + [log[k]];
      MetasOnly(base, log[..k], clock);
      if log[k].BranchLine? {
        var m := log[k].meta;
        assert (base.branches + Metas(log[..k]))[m.id := m] == base.branches + Metas(log[..k])[m.id := m];
      }
    }
  }

  /** That load changes nothing in a session reached by a run, compactions included: with no node indexed
      there are no node lines, and loading the same meta lines again has no effect. */
  lemma ReloadIsNoOp(s: Session, clock: nat -> string, budget: nat)
    requires Kept(s, clock, budget)
    ensures BeforeFork(s, clock) == s
  {
    if s.ix.nodes == map[] {
      MetasOnly(OPENED, s.log, clock);
      MetasOnly(s.ix, s.log, clock);
      MetasAreOnFile(s.log);
      SameMetas(s.ix.branches, Metas(s.log));
    }
  }

  lemma {:induction false} MetasAreOnFile(log: seq<Record>)
    ensures forall b :: b in Metas(log) ==> b != "" && exists r :: r in log && r.BranchLine? && r.meta.id == b
    decreases |log|
  {
    if log != [] {
      var k := |log| - 1;
      MetasAreOnFile(log[..k]);
      forall b | b in Metas(log) ensures b != "" && exists r :: r in log && r.BranchLine? && r.meta.id == b {
        if b in Metas(log[..k]) {
          var r :| r in log[..k] && r.BranchLine? && r.meta.id == b;
          assert r in log;
        } else {
          assert log[k] in log;
        }
      }
    }
  }

  lemma SameMetas(branches: map<string, Branch>, metas: map<string, Branch>)
    requires OPENED.branches + metas == WithMain(branches) && metas.Keys <= branches.Keys
    ensures branches + metas == branches
  {
    forall b | b in metas ensures branches[b] == metas[b] { assert (OPENED.branches + metas)[b] == metas[b]; }
  }

  lemma NextLink(started: Session, messages: seq<Json>, i: nat)
    requires i < |messages| < TWO_TO_64
    ensures Next(i) == i + 1
    ensures var n := Node(NodeId(i + 1), if i == 0 then "" else NodeId(i), "main", messages[i]);
            ChainOf(started, messages, i + 1) ==
            WriteNode(ChainOf(started, messages, i), n).(nodeCounter := i + 1)
  {
    assert Next(i) == i + 1;
    assert ChainOf(started, messages, i + 1) == Linked(ChainOf(started, messages, i), ChainNode(messages, i), i);
  }

  class SessionManager {
    const codec: Codec
    /** The session file. */
    var file: string
    var nodes: map<string, Node>
    var children: map<string, set<string>>
    var branches: map<string, Branch>
    var currentBranch: string
    var nodeCounter: nat
    var branchCounter: nat
    /** The records appended to the file. */
    ghost var log: seq<Record>

    ghost function Indexes(): Index
      reads this
    {
      Index(nodes, children, branches)
    }

    ghost function State(): Session
      reads this
    {
      Session(Indexes(), currentBranch, log, nodeCounter, branchCounter)
    }

    /** The file is exactly the lines of the records appended to it. */
    ghost predicate Whole()
      reads this
    {
      Sound(codec) && file == Text(codec, log)
    }

    /** A new manager opened on a session whose file already holds `existing`. */
    constructor (codec: Codec, existing: string)
      ensures this.codec == codec && file == existing && log == Records(codec, existing)
      ensures Indexes() == OPENED && currentBranch == "main" && nodeCounter == 0 && branchCounter == 0
      ensures existing == [] ==> State() == FRESH
    {
      this.codec := codec;
      file, log := existing, Records(codec, existing);
      nodes, children, branches := map[], map[], map["main" := Branch("main", "main", "", "")];
      currentBranch, nodeCounter, branchCounter := "main", 0, 0;
    }

    method NextNodeId() returns (id: string)
      modifies this`nodeCounter
      ensures nodeCounter == Next(old(nodeCounter)) && id == NodeId(nodeCounter)
    {
      nodeCounter := Next(nodeCounter);
      var hex := ToHex(nodeCounter);
      id := "node_" + hex;
    }

    method NextBranchId() returns (id: string)
      modifies this`branchCounter
      ensures branchCounter == Next(old(branchCounter)) && id == BranchId(branchCounter)
    {
      branchCounter := Next(branchCounter);
      var hex := ToHex(branchCounter);
      id := "branch_" + hex;
    }

    method AddToIndexes(node: Node)
      modifies this`nodes, this`children
      ensures Indexes() == AddNode(old(Indexes()), node)
    {
      nodes := nodes[node.id := node];
      if node.parent != "" {
        var siblings := if node.parent in children then children[node.parent] else {};
        children := children[node.parent := siblings + {node.id}];
      }
    }

    method LoadLine(line: string, seen: set<string>, now: string) returns (seen': set<string>, counted: bool)
      modifies this`nodes, this`children, this`branches
      ensures var r := ParsedLine(codec, line);
              && counted == r.Some?
              && Indexes() == (if r.Some? then LoadRecord(old(Indexes()), seen, r.value, now) else old(Indexes()))
              && seen' == seen + (if r.Some? then IdOf(r.value) else {})
    {
      seen', counted := seen, false;
      if line == [] { return; }
      var parsed := codec.parse(line);
      if parsed.None? { return; }
      counted := true;
      match parsed.value {
        case BranchLine(meta) =>
          if meta.id != "" { branches := branches[meta.id := meta]; }
        case NodeLine(node) =>
          if node.id != "" && node.id !in seen {
            seen' := seen + {node.id};
            AddToIndexes(node);
            if node.branch != "" && node.branch !in branches {
              branches := branches[node.branch := Branch(node.branch, node.branch, "", now)];
            }
          }
      }
    }

    /** Reads the file line by line into the indexes. */
    method LoadJsonl(clock: nat -> string)
      modifies this`nodes, this`children, this`branches
      ensures Indexes() == Load(old(Indexes()), Records(codec, file), clock)
    {
      ghost var base := Indexes();
      ghost var done: seq<Record> := [];
      var rest := file;
      var seen: set<string> := {};
      var count := 0;
      assert IdsIn([]) == {};
      while rest != []
        invariant done + Records(codec, rest) == Records(codec, file)
        invariant Indexes() == Load(base, done, clock)
        invariant seen == IdsIn(done) && count == |done|
        decreases |rest|
      {
        done := LineLoaded(codec, base, done, rest, clock);
        var counted;
        seen, counted := LoadLine(rest[..NewlineAt(rest)], seen, clock(count));
        rest := AfterLine(rest);
        count := if counted then count + 1 else count;
      }
      assert Records(codec, []) == [] && done + [] == done;
    }

    method AppendLine(r: Record)
      requires Whole()
      modifies this`file, this`log
      ensures Whole() && log == old(log) + [r]
      ensures file == old(file) + codec.format(r) + "\n"
    {
      TextAppend(codec, log, r);
      file := file + codec.format(r) + "\n";
      log := log + [r];
    }

    /** Writes a node's line and then indexes it. */
    method FlushAppend(node: Node)
      requires Whole()
      modifies this`file, this`log, this`nodes, this`children, this`currentBranch
      ensures Whole()
      ensures State() == WriteNode(old(State()), node).(current :=
                if node.branch == "" then "main"
                else if old(currentBranch) == "" then node.branch else old(currentBranch))
    {
      AppendLine(NodeLine(node));
      AddToIndexes(node);
      if node.branch == "" || currentBranch == "" {
        currentBranch := if node.branch == "" then "main" else node.branch;
      }
    }

    method Fork(node: string, name: string, createdAt: string, clock: nat -> string) returns (r: Result<string>)
      requires Whole()
      modifies this
      ensures Whole()
      ensures node == "" ==> r == Err(NodeIdEmpty) && State() == old(State())
      ensures node != "" ==>
                var base := BeforeFork(old(State()), clock);
                if node in base.ix.nodes
                then State() == Forked(base, node, name, createdAt) && r == Ok(currentBranch)
                else State() == base && r == Err(NodeUnknown)
    {
      if node == "" { return Err(NodeIdEmpty); }
      if nodes == map[] {
        ReadsBack(codec, log);
        LoadJsonl(clock);
      }
      if node !in nodes { return Err(NodeUnknown); }
      var id := NextBranchId();
      var meta := Branch(id, name, node, createdAt);
      branches := branches[id := meta];
      currentBranch := id;
      AppendLine(BranchLine(meta));
      r := Ok(id);
    }

    method SwitchBranch(branch: string) returns (r: Result<()>)
      modifies this`currentBranch
      ensures Step(old(State()), Switch(branch), State())
      ensures r == if branch in branches then Ok(()) else Err(BranchUnknown)
    {
      if branch !in branches { return Err(BranchUnknown); }
      currentBranch := branch;
      r := Ok(());
    }

    /** The parent for the next node: the scan walks the hash map in some order and keeps the last
        leaf of the branch it meets. */
    method FindParent(branch: string) returns (parent: string)
      ensures ParentChoice(Indexes(), branch, parent)
    {
      parent := if branch in branches then branches[branch].forkedFrom else "";
      var todo := nodes.Keys;
      ghost var found := false;
      while todo != {}
        invariant todo <= nodes.Keys
        invariant forall id :: LeafOf(Indexes(), branch, id) ==> id in todo || found
        invariant if found then LeafOf(Indexes(), branch, parent)
                  else parent == if branch in branches then branches[branch].forkedFrom else ""
        decreases todo
      {
        var id :| id in todo;
        todo := todo - {id};
        if nodes[id].branch == branch {
          if id !in children || children[id] == {} {
            parent, found := id, true;
          }
        }
      }
    }

    method AppendToBranch(text: string) returns (r: Result<string>)
      requires Whole()
      modifies this
      ensures Whole() && Step(old(State()), Append(text), State())
      ensures r == if old(currentBranch) == "" then Err(NoCurrentBranch) else Ok(NodeId(nodeCounter))
    {
      if currentBranch == "" { return Err(NoCurrentBranch); }
      var branch := currentBranch;
      var parent := FindParent(branch);
      var id := NextNodeId();
      FlushAppend(Node(id, parent, branch, Message(text)));
      assert State() == Appended(old(State()), parent, text);
      r := Ok(id);
    }

    method RenameSession(name: string)
      requires Whole()
      modifies this
      ensures Whole() && Step(old(State()), Rename(name), State())
    {
      if name == "" { return; }
      var id := NextNodeId();
      var meta := Node(id, "", if currentBranch == "" then "main" else currentBranch, SessionMeta(name));
      AppendLine(NodeLine(meta));
      nodes := nodes[id := meta];
    }

    /** The leaf scan of readers: the first leaf met, in some hash-map order. */
    method GetBranchLeaf(branch: string) returns (leaf: string)
      ensures if branch in branches && HasLeaf(Indexes(), branch) then LeafOf(Indexes(), branch, leaf) else leaf == ""
    {
      leaf := "";
      if branch !in branches { return; }
      var todo := nodes.Keys;
      while todo != {}
        invariant todo <= nodes.Keys
        invariant forall id :: LeafOf(Indexes(), branch, id) ==> id in todo
        decreases todo
      {
        var id :| id in todo;
        todo := todo - {id};
        if nodes[id].branch != branch { continue; }
        if id !in children || children[id] == {} {
          assert LeafOf(Indexes(), branch, id);
          return id;
        }
      }
    }

    method BuildContextEntries(leaf: string) returns (entries: seq<Node>)
      requires Keyed(nodes)
      ensures entries == Context(nodes, leaf) && Ancestry(nodes, leaf, Reverse(entries))
    {
      ghost var walk := Walk(nodes, leaf, {});
      var path: seq<Node> := [];
      var visited: set<string> := {};
      var cur := leaf;
      while cur != ""
        invariant path + Walk(nodes, cur, visited) == walk
        decreases nodes.Keys - visited, cur != ""
      {
        if cur in visited { break; }
        if cur !in nodes { break; }
        assert cur in nodes.Keys - visited;
        ghost var more := Walk(nodes, nodes[cur].parent, visited + {cur});
        assert path + ([nodes[cur]] + more) == (path + [nodes[cur]]) + more;
        visited := visited + {cur};
        path := path + [nodes[cur]];
        cur := nodes[cur].parent;
      }
      assert Walk(nodes, cur, visited) == [] && path + [] == path;
      entries := Reverse(path);
      assert Reverse(entries) == path;
      WalkIsAncestry(nodes, leaf);
    }

    /** Rewrites the file with the active branch only. `order` is the order in which the hash map
        was walked. */
    method Compact() returns (ghost order: seq<Node>)
      requires Whole() && Keyed(nodes)
      modifies this
      ensures Whole() && Compacted(old(State()), order, State())
    {
      var active := currentBranch;
      var activeNodes := CollectBranch(active);
      order := activeNodes;
      RewriteFile(activeNodes, active);
      Reindex(activeNodes);
      AllKept(activeNodes, KeepBranch(old(nodes), active), nodes);
      branches := if active in branches then map[active := branches[active]] else map[];
    }

    /** The temporary file, renamed over the session file. */
    method RewriteFile(kept: seq<Node>, active: string)
      requires Whole()
      modifies this`file, this`log
      ensures Whole() && log == CompactLog(kept, branches, active)
    {
      file, log := [], [];
      for i := 0 to |kept|
        invariant Whole() && log == NodeLines(kept[..i])
      {
        AppendLine(NodeLine(kept[i]));
        assert NodeLines(kept[..i + 1]) == NodeLines(kept[..i]) + [NodeLine(kept[i])];
      }
      assert kept[..|kept|] == kept;
      if active in branches { AppendLine(BranchLine(branches[active])); }
    }

    method Reindex(kept: seq<Node>)
      requires forall i, j :: 0 <= i < j < |kept| ==> kept[i].id != kept[j].id
      modifies this`nodes, this`children
      ensures forall id :: id in nodes ==> exists k :: 0 <= k < |kept| && kept[k].id == id
      ensures forall k :: 0 <= k < |kept| ==> kept[k].id in nodes && nodes[kept[k].id] == kept[k]
      ensures ChildrenExact(nodes, children)
    {
      nodes, children := map[], map[];
      for i := 0 to |kept|
        invariant forall id :: id in nodes ==> exists k :: 0 <= k < i && kept[k].id == id
        invariant forall k :: 0 <= k < i ==> kept[k].id in nodes && nodes[kept[k].id] == kept[k]
        invariant ChildrenExact(nodes, children)
      {
        AddKeepsChildrenExact(Indexes(), kept[i]);
        AddToIndexes(kept[i]);
      }
    }

    method CollectBranch(branch: string) returns (found: seq<Node>)
      requires Keyed(nodes)
      ensures Lists(found, KeepBranch(nodes, branch))
    {
      found := [];
      var todo := nodes.Keys;
      while todo != {}
        invariant todo <= nodes.Keys
        invariant forall i :: 0 <= i < |found| ==>
                    && found[i].id in nodes && found[i].id !in todo
                    && nodes[found[i].id] == found[i] && found[i].branch == branch
        invariant forall id :: id in nodes && nodes[id].branch == branch ==> id in todo || nodes[id] in found
        invariant forall i, j :: 0 <= i < j < |found| ==> found[i].id != found[j].id
        decreases todo
      {
        var id :| id in todo;
        todo := todo - {id};
        if nodes[id].branch == branch { found := found + [nodes[id]]; }
      }
    }

    /** Writes the messages as a chain on main. */
    method ImportChain(messages: seq<Json>)
      requires Whole() && nodeCounter == 0 && currentBranch == "main" && |messages| < TWO_TO_64
      modifies this
      ensures Whole() && State() == ChainOf(old(State()), messages, |messages|)
    {
      ghost var started := State();
      var parent := "";
      for i := 0 to |messages|
        invariant Whole() && State() == ChainOf(started, messages, i)
        invariant nodeCounter == i && currentBranch == "main"
        invariant parent == if i == 0 then "" else NodeId(i)
      {
        NextLink(started, messages, i);
        parent := ImportOne(parent, messages[i]);
      }
    }

    method ImportOne(parent: string, message: Json) returns (id: string)
      requires Whole() && currentBranch == "main"
      modifies this
      ensures id == NodeId(nodeCounter) && nodeCounter == Next(old(nodeCounter))
      ensures Whole() && State() ==
              WriteNode(old(State()), Node(id, parent, "main", message)).(nodeCounter := nodeCounter)
    {
      id := NextNodeId();
      FlushAppend(Node(id, parent, "main", message));
    }

    /** Migrates a legacy document into a freshly opened session; there is none when it could not be
        opened or parsed. */
    method MigrateLegacyJson(legacy: Option<Json>, createdAt: string) returns (r: Result<()>)
      requires Whole() && State() == FRESH
      requires legacy.Some? ==> |MessagesOf(legacy.value)| < TWO_TO_64
      modifies this
      ensures Whole()
      ensures match legacy
              case None => r == Err(LegacyUnreadable) && State() == FRESH
              case Some(document) => r == Ok(()) && State() == Migrated(MessagesOf(document), createdAt)
      ensures (if r.Ok? then Some(log) else None) == ManagerWrites(legacy, createdAt)
    {
      if legacy == None { return Err(LegacyUnreadable); }
      var main := Branch("main", "main", "", createdAt);
      branches := branches["main" := main];
      currentBranch := "main";
      ghost var started := FRESH.(ix := OPENED.(branches := map["main" := main]));
      assert State() == started;
      var messages := MessagesOf(legacy.value);
      ImportChain(messages);
      ChainShape(started, messages, |messages|);
      assert branches == Indexes().branches == map["main" := main];
      AppendLine(BranchLine(branches["main"]));
      r := Ok(());
    }
  }

  function IdOf(r: Record): set<string> {
    if r.NodeLine? && r.node.id != "" then {r.node.id} else {}
  }

  /** The records loaded once the first line of `rest` is loaded too. */
  lemma LineLoaded(c: Codec, base: Index, done: seq<Record>, rest: string, clock: nat -> string)
    returns (done': seq<Record>)
    requires rest != []
    ensures done' + Records(c, AfterLine(rest)) == done + Records(c, rest)
    ensures var r := ParsedLine(c, rest[..NewlineAt(rest)]);
            if r.None? then done' == done
            else
              && |done'| == |done| + 1 && IdsIn(done') == IdsIn(done) + IdOf(r.value)
              && Load(base, done', clock) == LoadRecord(Load(base, done, clock), IdsIn(done), r.value, clock(|done|))
  {
    var r, more := ParsedLine(c, rest[..NewlineAt(rest)]), Records(c, AfterLine(rest));
    var head := if r.Some? then [r.value] else [];
    done' := done + head;
    assert Records(c, rest) == head + more by { FirstLine(c, rest); }
    Regroup(done, head, more);
    if r.Some? {
      LoadSnoc(base, done, r.value, clock);
      IdsSnoc(done, r.value);
    }
  }

  lemma Regroup(done: seq<Record>, head: seq<Record>, more: seq<Record>)
    ensures done + head + more == done + (head + more)
    ensures head == [] ==> done + head == done
  {
  }

  lemma AllKept(ns: seq<Node>, kept: map<string, Node>, nodes: map<string, Node>)
    requires Lists(ns, kept)
    requires forall id :: id in kept ==> kept[id].id == id
    requires forall id :: id in nodes ==> exists k :: 0 <= k < |ns| && ns[k].id == id
    requires forall k :: 0 <= k < |ns| ==> ns[k].id in nodes && nodes[ns[k].id] == ns[k]
    ensures nodes == kept
  {
    forall id | id in kept ensures id in nodes && nodes[id] == kept[id] {
      var k :| 0 <= k < |ns| && ns[k] == kept[id];
    }
    forall id | id in nodes ensures id in kept {
      var k :| 0 <= k < |ns| && ns[k].id == id;
    }
  }

  // ---- The migration script ----

  /** The records a migration by the manager leaves on file, or none if it throws. */
  function ManagerWrites(legacy: Option<Json>, now: string): Option<seq<Record>> {
    match legacy
    case None => None
    case Some(document) => Some(Migrated(MessagesOf(document), now).log)
  }

  /** What the script writes, or none if it fails: it asks the document for its messages by key,
      which only an object answers. */
  function ScriptWrites(legacy: Option<Json>, now: string): Option<seq<Record>> {
    if legacy.Some? && legacy.value.Object? then Some(MigratedLog(MessagesOf(legacy.value), now)) else None
  }

  method MigrateLegacyScript(legacy: Option<Json>, now: string) returns (lines: Option<seq<Record>>)
    ensures lines == ScriptWrites(legacy, now)
  {
    if legacy == None || !legacy.value.Object? { return None; }
    var fields := legacy.value.fields;
    var messages := if "messages" in fields then fields["messages"] else Array([]);
    var counter, parent, written := 0, "", [];
    if messages.Array? {
      var list := messages.items;
      for i := 0 to |list|
        invariant counter == i && written == ChainLines(list, i)
        invariant parent == if i == 0 then "" else NodeId(i)
      {
        counter := counter + 1;
        var node := Node("node_" + Hex(counter), parent, "main", list[i]);
        written := written + [NodeLine(node)];
        parent := node.id;
      }
    }
    lines := Some(written + [BranchLine(Branch("main", "main", "", now))]);
  }

  /** Given the same time stamp the two write the same records, or both fail, exactly when the
      document cannot be read or is an object: on any other value the script fails, while the
      manager writes main's meta line. */
  lemma MigrationsAgree(legacy: Option<Json>, now: string)
    requires legacy.Some? ==> |MessagesOf(legacy.value)| < TWO_TO_64
    ensures ScriptWrites(legacy, now) == ManagerWrites(legacy, now) <==> legacy.None? || legacy.value.Object?
  {
    if legacy.Some? { MigratedInv(MessagesOf(legacy.value), now, (k: nat) => ""); }
  }
}
