/** What loading a file leaves in the indexes, line by line, whatever the file holds and whatever was indexed
    before. */
module SessionLoad {
  import opened JsonValues
  import opened SessionIds
  import opened SessionLog
  import opened SessionContext
  import opened SessionManager

  /** Line `i` is the first node line with its id. */
  ghost predicate First(log: seq<Record>, i: nat) {
    i < |log| && log[i].NodeLine? && log[i].node.id != "" && log[i].node.id !in IdsIn(log[..i])
  }

  /** Line `i` is the last one that describes its branch. */
  ghost predicate Last(log: seq<Record>, i: nat) {
    && i < |log| && log[i].BranchLine? && log[i].meta.id != ""
    && forall j :: i < j < |log| && log[j].BranchLine? ==> log[j].meta.id != log[i].meta.id
  }

  ghost predicate Described(log: seq<Record>, branch: string) {
    exists i :: 0 <= i < |log| && log[i].BranchLine? && log[i].meta.id == branch
  }

  /** What a log shorter by its last line says of the lines they share. */
  lemma Shorter(log: seq<Record>, i: nat)
    requires log != [] && i < |log| - 1
    ensures log[..|log| - 1][i] == log[i] && log[..|log| - 1][..i] == log[..i]
    ensures First(log, i) <==> First(log[..|log| - 1], i)
  {
  }

  lemma IdsGrow(log: seq<Record>)
    requires log != []
    ensures var k := |log| - 1;
            IdsIn(log) == IdsIn(log[..k]) +
                          (if log[k].NodeLine? && log[k].node.id != "" then {log[k].node.id} else {})
  {
    var k := |log| - 1;
    IdsSnoc(log[..k], log[k]);
    assert log[..k] + [log[k]] == log;
  }

  // ---- Nodes and children ----

  /** Of several lines with one id the first counts: its node is indexed, below its parent. */
  lemma {:induction false} FirstLineCounts(base: Index, log: seq<Record>, clock: nat -> string, i: nat)
    requires First(log, i)
    ensures var got, n := Load(base, log, clock), log[i].node;
            && n.id in got.nodes && got.nodes[n.id] == n
            && (n.parent != "" ==> n.parent in got.children && n.id in got.children[n.parent])
    decreases |log|
  {
    var k := |log| - 1;
    if i < k {
      Shorter(log, i);
      FirstLineCounts(base, log[..k], clock, i);
      assert log[i] in log[..k];
    } else {
      assert log[..k] == log[..i];
    }
  }

  /** Nothing else becomes a node, or a child. */
  lemma {:induction false} NodesAreFirstLines(base: Index, log: seq<Record>, clock: nat -> string, id: string)
    requires id in Load(base, log, clock).nodes
    ensures (id in base.nodes && id !in IdsIn(log) && Load(base, log, clock).nodes[id] == base.nodes[id]) ||
            exists i: nat :: First(log, i) && log[i].node == Load(base, log, clock).nodes[id]
    decreases |log|
  {
    if log != [] {
      var k := |log| - 1;
      var was, r := Load(base, log[..k], clock), log[k];
      IdsGrow(log);
      if r.NodeLine? && r.node.id == id && id != "" && id !in IdsIn(log[..k]) {
        assert First(log, k);
      } else {
        assert id in was.nodes && Load(base, log, clock).nodes[id] == was.nodes[id];
        NodesAreFirstLines(base, log[..k], clock, id);
        if i: nat :| First(log[..k], i) && log[..k][i].node == was.nodes[id] { Shorter(log, i); }
      }
    }
  }

  lemma {:induction false} ChildrenAreFirstLines(base: Index, log: seq<Record>, clock: nat -> string,
                                                 parent: string, id: string)
    requires parent in Load(base, log, clock).children && id in Load(base, log, clock).children[parent]
    ensures (parent in base.children && id in base.children[parent]) ||
            exists i: nat :: First(log, i) && log[i].node.id == id && log[i].node.parent == parent
    decreases |log|
  {
    if log != [] {
      var k := |log| - 1;
      var was, r := Load(base, log[..k], clock), log[k];
      if r.NodeLine? && r.node.id == id && r.node.parent == parent && id != "" && id !in IdsIn(log[..k]) {
        assert First(log, k);
      } else {
        assert parent in was.children && id in was.children[parent];
        ChildrenAreFirstLines(base, log[..k], clock, parent, id);
        if i: nat :| First(log[..k], i) && log[..k][i].node.id == id && log[..k][i].node.parent == parent {
          Shorter(log, i);
        }
      }
    }
  }

  // ---- Branches ----

  /** Of several lines that describe one branch the last counts. */
  lemma {:induction false} LastLineCounts(base: Index, log: seq<Record>, clock: nat -> string, i: nat)
    requires Last(log, i)
    ensures var got, m := Load(base, log, clock), log[i].meta; m.id in got.branches && got.branches[m.id] == m
    decreases |log|
  {
    var k := |log| - 1;
    if i < k {
      var init := log[..k];
      assert init[i] == log[i];
      forall j | i < j < |init| && init[j].BranchLine? ensures init[j].meta.id != init[i].meta.id {
        assert init[j] == log[j];
      }
      LastLineCounts(base, init, clock, i);
    }
  }

  /** A branch that no line describes stays as it was, or gets a placeholder when the first node counts that is
      on it. */
  lemma {:induction false} OtherBranches(base: Index, log: seq<Record>, clock: nat -> string, branch: string)
    requires branch != "" && !Described(log, branch)
    ensures var got := Load(base, log, clock).branches;
            if branch in base.branches then branch in got && got[branch] == base.branches[branch]
            else if branch in got then
              exists i: nat :: First(log, i) && log[i].node.branch == branch &&
                (forall j: nat :: j < i && First(log, j) ==> log[j].node.branch != branch) &&
                got[branch] == Branch(branch, branch, "", clock(i))
            else forall i: nat :: First(log, i) ==> log[i].node.branch != branch
    decreases |log|
  {
    if log != [] {
      var k := |log| - 1;
      var init := log[..k];
      forall i: nat | i < k ensures First(log, i) <==> First(init, i) { Shorter(log, i); }
      assert forall i :: 0 <= i < k ==> init[i] == log[i];
      assert log[k].BranchLine? ==> log[k].meta.id != branch;
      OtherBranches(base, init, clock, branch);
      BranchStep(base, log, clock, branch);
    }
  }

  lemma BranchStep(base: Index, log: seq<Record>, clock: nat -> string, branch: string)
    requires log != [] && branch != ""
    requires log[|log| - 1].BranchLine? ==> log[|log| - 1].meta.id != branch
    ensures var k := |log| - 1;
            var was, got := Load(base, log[..k], clock).branches, Load(base, log, clock).branches;
            if branch in was then branch in got && got[branch] == was[branch]
            else
              && (branch in got <==> First(log, k) && log[k].node.branch == branch)
              && (branch in got ==> got[branch] == Branch(branch, branch, "", clock(k)))
  {
  }

  // ---- A session opened on a file ----

  /** A manager opened on a file can fork exactly the nodes the file has lines for, before anything was
      loaded. */
  lemma OpenedForks(log: seq<Record>, clock: nat -> string, node: string)
    ensures var s := Session(OPENED, "main", log, 0, 0);
            node in BeforeFork(s, clock).ix.nodes <==> node in IdsIn(log)
  {
    if node in Load(OPENED, log, clock).nodes {
      NodesAreFirstLines(OPENED, log, clock, node);
      var i: nat :| First(log, i) && log[i].node == Load(OPENED, log, clock).nodes[node];
      LoadIsKeyed(log, clock, node);
      assert log[i] in log;
    }
    if node in IdsIn(log) {
      var i := FirstWith(log, node);
      FirstLineCounts(OPENED, log, clock, i);
    }
  }

  lemma {:induction false} LoadIsKeyed(log: seq<Record>, clock: nat -> string, id: string)
    requires id in Load(OPENED, log, clock).nodes
    ensures id != "" && Load(OPENED, log, clock).nodes[id].id == id
    decreases |log|
  {
    if log != [] && id in Load(OPENED, log[..|log| - 1], clock).nodes { LoadIsKeyed(log[..|log| - 1], clock, id); }
  }

  lemma {:induction false} FirstWith(log: seq<Record>, id: string) returns (i: nat)
    requires id in IdsIn(log)
    ensures First(log, i) && log[i].node.id == id
    decreases |log|
  {
    var k := |log| - 1;
    IdsGrow(log);
    if id in IdsIn(log[..k]) {
      i := FirstWith(log[..k], id);
      Shorter(log, i);
    } else {
      i := k;
    }
  }

  // ---- A migrated document ----

  /** A list under `messages` becomes the context at main's leaf; of any other document only main's line is left. */
  lemma MigrationKeepsDocument(document: Json, createdAt: string, leaf: string)
    requires |MessagesOf(document)| < TWO_TO_64
    requires var ix := Migrated(MessagesOf(document), createdAt).ix;
             if HasLeaf(ix, "main") then LeafOf(ix, "main", leaf) else leaf == ""
    ensures var migrated := Migrated(MessagesOf(document), createdAt);
            if document.Object? && "messages" in document.fields && document.fields["messages"].Array?
            then Contents(Context(migrated.ix.nodes, leaf)) == document.fields["messages"].items
            else migrated.ix.nodes == map[] && migrated.log == [BranchLine(Branch("main", "main", "", createdAt))]
    ensures Migrated(MessagesOf(document), createdAt).ix.branches ==
            map["main" := Branch("main", "main", "", createdAt)]
  {
    var messages := MessagesOf(document);
    MigrationKeepsMessages(messages, createdAt, leaf);
    var main := map["main" := Branch("main", "main", "", createdAt)];
    var started := FRESH.(ix := OPENED.(branches := main));
    ChainKeepsBranches(started, messages, |messages|);
    if messages == [] {
      assert ChainOf(started, messages, 0) == started;
      assert [] + [BranchLine(main["main"])] == [BranchLine(main["main"])];
    }
  }

  lemma {:induction false} ChainKeepsBranches(started: Session, messages: seq<Json>, k: nat)
    requires k <= |messages|
    ensures ChainOf(started, messages, k).ix.branches == started.ix.branches
    decreases k
  {
    if k > 0 { ChainKeepsBranches(started, messages, k - 1); }
  }
}
