/** Runs in which the session is compacted, any number of times. */
module SessionCompaction {
  import opened SessionIds
  import opened SessionLog
  import opened SessionContext

  datatype Move = Operate(op: Op) | Compact

  ghost predicate MoveStep(s: Session, move: Move, s': Session) {
    match move
    case Operate(op) => Step(s, op, s')
    case Compact => exists order :: Compacted(s, order, s')
  }

  ghost predicate Run(states: seq<Session>, moves: seq<Move>) {
    && |states| == |moves| + 1
    && forall i :: 0 <= i < |moves| ==> MoveStep(states[i], moves[i], states[i + 1])
  }

  // ---- What such runs keep ----

  /** A new manager always has main, which compaction may drop from memory. */
  function WithMain(branches: map<string, Branch>): map<string, Branch> {
    if "main" in branches then branches else branches["main" := OPENED.branches["main"]]
  }

  /** The file rebuilds nodes and children exactly, and the branches but for main. */
  ghost predicate Replays(s: Session, clock: nat -> string) {
    && Load(OPENED, s.log, clock) == s.ix.(branches := WithMain(s.ix.branches))
    && IdsIn(s.log) == s.ix.nodes.Keys
  }

  ghost predicate BranchesKnown(ix: Index, current: string) {
    && "" !in ix.branches && current in ix.branches
    && (forall id :: id in ix.nodes ==> ix.nodes[id].branch in ix.branches)
    && (forall b :: b in ix.branches ==> ix.branches[b].id == b)
  }

  /** Every branch line on file names a branch in memory. */
  ghost predicate MetasKnown(s: Session) {
    forall r :: r in s.log && r.BranchLine? && r.meta.id != "" ==> r.meta.id in s.ix.branches
  }

  ghost predicate Kept(s: Session, clock: nat -> string, budget: nat) {
    && Replays(s, clock) && BranchesKnown(s.ix, s.current) && MetasKnown(s)
    && Keyed(s.ix.nodes) && ChildrenExact(s.ix.nodes, s.ix.children)
    && IdsUnused(s.ix.nodes, s.nodeCounter) && s.nodeCounter <= budget
  }

  lemma {:induction false} LoadHasBranches(base: Index, log: seq<Record>, clock: nat -> string)
    ensures forall b :: b in base.branches ==> b in Load(base, log, clock).branches
    ensures forall r :: r in log && r.BranchLine? && r.meta.id != "" ==> r.meta.id in Load(base, log, clock).branches
    decreases |log|
  {
    if log != [] {
      var k := |log| - 1;
      LoadHasBranches(base, log[..k], clock);
      assert forall r :: r in log ==> r in log[..k] || r == log[k];
    }
  }

  /** In particular the runs without compaction keep it, with main always there. */
  lemma InvIsKept(s: Session, clock: nat -> string, budget: nat)
    requires Inv(s, OPENED, clock, budget)
    ensures Kept(s, clock, budget) && "main" in s.ix.branches
  {
    LoadHasBranches(OPENED, s.log, clock);
    assert s.ix.(branches := WithMain(s.ix.branches)) == s.ix;
  }

  /** The state after a node was written, part by part. */
  ghost predicate Wrote(s: Session, n: Node, s': Session) {
    && s'.ix == AddNode(s.ix, n) && s'.log == s.log + [NodeLine(n)] && s'.current == s.current
    && s'.nodeCounter == s.nodeCounter + 1
  }

  lemma WroteIs(s: Session, n: Node, s': Session)
    requires s' == WriteNode(s, n).(nodeCounter := s.nodeCounter + 1)
    ensures Wrote(s, n, s')
  {
  }

  lemma WriteKeepsReplay(s: Session, n: Node, s': Session, clock: nat -> string)
    requires Replays(s, clock) && n.id != "" && n.id !in s.ix.nodes && n.branch in s.ix.branches && Wrote(s, n, s')
    ensures Replays(s', clock)
  {
    LoadSnoc(OPENED, s.log, NodeLine(n), clock);
    IdsSnoc(s.log, NodeLine(n));
  }

  lemma WriteIsFresh(s: Session, n: Node, id: nat)
    requires IdsUnused(s.ix.nodes, s.nodeCounter) && id == s.nodeCounter + 1 && n.id == NodeId(id)
    ensures n.id !in s.ix.nodes && IdsUnused(AddNode(s.ix, n).nodes, id)
  {
    forall k: nat | k > id ensures NodeId(k) !in AddNode(s.ix, n).nodes {
      if NodeId(k) == n.id { NodeIdsDiffer(k, id); }
    }
  }

  lemma WriteKeeps(s: Session, n: Node, s': Session, clock: nat -> string, budget: nat)
    requires Kept(s, clock, budget) && n.id == NodeId(s.nodeCounter + 1) && n.branch in s.ix.branches
    requires Wrote(s, n, s')
    ensures Kept(s', clock, budget + 1)
  {
    WriteIsFresh(s, n, s.nodeCounter + 1);
    WriteKeepsReplay(s, n, s', clock);
    AddKeepsChildrenExact(s.ix, n);
    WriteKeepsKnown(s, n, s');
    WriteKeepsKeyed(s.ix, n);
  }

  lemma WriteKeepsKeyed(ix: Index, n: Node)
    requires Keyed(ix.nodes) && n.id != ""
    ensures Keyed(AddNode(ix, n).nodes)
  {
  }

  lemma WriteKeepsKnown(s: Session, n: Node, s': Session)
    requires BranchesKnown(s.ix, s.current) && MetasKnown(s) && n.branch in s.ix.branches && Wrote(s, n, s')
    ensures BranchesKnown(s'.ix, s'.current) && MetasKnown(s')
  {
  }

  lemma ForkKeepsReplay(s: Session, meta: Branch, s': Session, clock: nat -> string)
    requires Replays(s, clock) && meta.id != "" && meta.id != "main"
    requires s'.ix == s.ix.(branches := s.ix.branches[meta.id := meta]) && s'.log == s.log + [BranchLine(meta)]
    ensures Replays(s', clock)
  {
    LoadSnoc(OPENED, s.log, BranchLine(meta), clock);
    IdsSnoc(s.log, BranchLine(meta));
    assert WithMain(s.ix.branches)[meta.id := meta] == WithMain(s.ix.branches[meta.id := meta]);
  }

  lemma ForkKeeps(s: Session, node: string, name: string, at: string, s': Session, clock: nat -> string, budget: nat)
    requires Kept(s, clock, budget) && s' == Forked(s, node, name, at)
    ensures Kept(s', clock, budget)
  {
    var meta := Branch(BranchId(Next(s.branchCounter)), name, node, at);
    assert meta.id[0] == 'b' && meta.id != "main";
    ForkKeepsReplay(s, meta, s', clock);
  }

  /** The compacted file holds the kept nodes' lines and no others. */
  lemma CompactIds(ix: Index, active: string, ns: seq<Node>, clock: nat -> string)
    requires Keyed(ix.nodes) && active != "" && active in ix.branches && Lists(ns, KeepBranch(ix.nodes, active))
    ensures IdsIn(CompactLog(ns, ix.branches, active)) == KeepBranch(ix.nodes, active).Keys
  {
    NodesReload(ns, active, clock);
    SameNodes(ns, KeepBranch(ix.nodes, active), Load(OPENED, NodeLines(ns), clock).nodes);
    IdsSnoc(NodeLines(ns), BranchLine(ix.branches[active]));
  }

  lemma CompactKeepsReplay(s: Session, order: seq<Node>, s': Session, clock: nat -> string)
    requires Keyed(s.ix.nodes) && BranchesKnown(s.ix, s.current) && Compacted(s, order, s')
    ensures Replays(s', clock)
  {
    CompactReloads(s.ix, s.current, order, s'.ix.children, clock);
    CompactIds(s.ix, s.current, order, clock);
    OnlyActive(s.current, s.ix.branches[s.current]);
  }

  lemma OnlyActive(active: string, meta: Branch)
    ensures WithMain(map[active := meta]) == OPENED.branches[active := meta]
  {
  }

  lemma CompactKeeps(s: Session, order: seq<Node>, s': Session, clock: nat -> string, budget: nat)
    requires Kept(s, clock, budget) && Compacted(s, order, s')
    ensures Kept(s', clock, budget)
  {
    CompactKeepsReplay(s, order, s', clock);
  }

  lemma AppendKeeps(s: Session, p: string, text: string, s': Session, clock: nat -> string, budget: nat)
    requires Kept(s, clock, budget) && s' == Appended(s, p, text) && budget + 1 < TWO_TO_64
    ensures Kept(s', clock, budget + 1)
  {
    var n := Node(NodeId(s.nodeCounter + 1), p, s.current, Message(text));
    NextIs(s.nodeCounter);
    AppendedIs(s, p, text, s.nodeCounter + 1);
    WroteIs(s, n, s');
    WriteKeeps(s, n, s', clock, budget);
  }

  lemma RenameKeeps(s: Session, name: string, s': Session, clock: nat -> string, budget: nat)
    requires Kept(s, clock, budget) && s' == Renamed(s, name) && budget + 1 < TWO_TO_64
    ensures Kept(s', clock, budget + 1)
  {
    var n := Node(NodeId(s.nodeCounter + 1), "", s.current, SessionMeta(name));
    NextIs(s.nodeCounter);
    RenamedIs(s, name, s.nodeCounter + 1);
    WroteIs(s, n, s');
    WriteKeeps(s, n, s', clock, budget);
  }

  lemma OperateKeeps(s: Session, op: Op, s': Session, clock: nat -> string, budget: nat)
    requires Kept(s, clock, budget) && Step(s, op, s') && budget + 1 < TWO_TO_64
    ensures Kept(s', clock, budget + 1)
  {
    if s' != s {
      match op
      case Append(text) =>
        var p :| ParentChoice(s.ix, s.current, p) && s' == Appended(s, p, text);
        AppendKeeps(s, p, text, s', clock, budget);
      case Fork(node, name, at) => ForkKeeps(s, node, name, at, s', clock, budget);
      case Switch(b) => assert s' == s.(current := b);
      case Rename(name) => RenameKeeps(s, name, s', clock, budget);
    }
  }

  lemma {:induction false} RunKeeps(o: Origin, states: seq<Session>, moves: seq<Move>, clock: nat -> string, i: nat)
    requires Run(states, moves) && states[0] == Start(o) && IdsUsed(o) + |moves| < TWO_TO_64 && i <= |moves|
    ensures Kept(states[i], clock, IdsUsed(o) + i)
    decreases i
  {
    if i == 0 {
      StartInv(o, clock);
      InvIsKept(states[0], clock, IdsUsed(o));
    } else {
      RunKeeps(o, states, moves, clock, i - 1);
      var s, s' := states[i - 1], states[i];
      match moves[i - 1]
      case Operate(op) => OperateKeeps(s, op, s', clock, IdsUsed(o) + i - 1);
      case Compact =>
        var order :| Compacted(s, order, s');
        CompactKeeps(s, order, s', clock, IdsUsed(o) + i - 1);
    }
  }

  // ---- Results ----

  /** After any run of appends, forks, switches, renames and compactions, a new manager that replays the file has
      exactly the nodes and children the running one has, and its branches with main. The two are the same
      exactly when the running one still has main. */
  lemma ReplayThroughCompactions(o: Origin, states: seq<Session>, moves: seq<Move>, clock: nat -> string, i: nat)
    requires Run(states, moves) && states[0] == Start(o) && IdsUsed(o) + |moves| < TWO_TO_64 && i <= |moves|
    ensures var loaded := Load(OPENED, states[i].log, clock);
            && loaded.nodes == states[i].ix.nodes && loaded.children == states[i].ix.children
            && loaded.branches == WithMain(states[i].ix.branches)
            && (loaded == states[i].ix <==> "main" in states[i].ix.branches)
  {
    RunKeeps(o, states, moves, clock, i);
  }

  /** Main is gone from memory exactly if some compaction met another branch as the current one: nothing brings
      it back. */
  lemma {:induction false} MainIsThereIff(o: Origin, states: seq<Session>, moves: seq<Move>, i: nat)
    requires Run(states, moves) && states[0] == Start(o) && IdsUsed(o) + |moves| < TWO_TO_64 && i <= |moves|
    ensures "main" in states[i].ix.branches <==>
            forall k :: 0 <= k < i && moves[k].Compact? ==> states[k].current == "main"
    decreases i
  {
    var clock := (k: nat) => "";
    if i == 0 {
      StartInv(o, clock);
      InvIsKept(states[0], clock, IdsUsed(o));
    } else {
      MainIsThereIff(o, states, moves, i - 1);
      RunKeeps(o, states, moves, clock, i - 1);
      MoveAndMain(states[i - 1], moves[i - 1], states[i]);
    }
  }

  lemma MoveAndMain(s: Session, move: Move, s': Session)
    requires MoveStep(s, move, s') && BranchesKnown(s.ix, s.current)
    ensures "main" in s'.ix.branches <==> "main" in s.ix.branches && (move.Compact? ==> s.current == "main")
  {
    if move.Operate? && move.op.Fork? { assert BranchId(Next(s.branchCounter))[0] == 'b'; }
  }
}
