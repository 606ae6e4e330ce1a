/** The shape of a branch in every reached session: chains, each hanging off another branch or
    starting anew. It decides what compaction does to the branch's leaves. */
module SessionBranches {
  import opened JsonValues
  import opened SessionIds
  import opened SessionLog
  import opened SessionContext

  // ---- Nodes of one branch ----

  predicate On(nodes: map<string, Node>, b: string, x: string) {
    x in nodes && nodes[x].branch == b
  }

  predicate ChildOn(nodes: map<string, Node>, b: string, x: string, c: string) {
    On(nodes, b, c) && nodes[c].parent == x
  }

  /** A node of the branch whose parent is not one. */
  predicate Head(nodes: map<string, Node>, b: string, x: string) {
    On(nodes, b, x) && !On(nodes, b, nodes[x].parent)
  }

  /** A node of the branch without a child on it. */
  ghost predicate Tail(nodes: map<string, Node>, b: string, x: string) {
    On(nodes, b, x) && forall c :: !ChildOn(nodes, b, x, c)
  }

  /** No node has two children on its own branch. */
  ghost predicate Chains(nodes: map<string, Node>) {
    forall b, x, c, d :: On(nodes, b, x) && ChildOn(nodes, b, x, c) && ChildOn(nodes, b, x, d) ==> c == d
  }

  /** The number an id was made from. */
  function Rank(id: string): nat {
    if |id| < 5 then 0 else HexValue(id[5..])
  }

  lemma RankOf(k: nat)
    ensures Rank(NodeId(k)) == k
  {
    assert NodeId(k)[5..] == Hex(k);
    HexRoundTrip(k);
  }

  /** Ids are made in order, and parents before their children. */
  ghost predicate Ranked(nodes: map<string, Node>, counter: nat) {
    forall id {:trigger RankedNode(nodes[id], id, counter)} :: id in nodes ==> RankedNode(nodes[id], id, counter)
  }

  predicate RankedNode(n: Node, id: string, counter: nat) {
    id == NodeId(Rank(id)) && Rank(id) <= counter && (n.parent != "" ==> Rank(n.parent) < Rank(id))
  }

  // ---- Following a chain ----

  ghost function Top(nodes: map<string, Node>, b: string, x: string, bound: nat): (t: string)
    requires Ranked(nodes, bound) && "" !in nodes && On(nodes, b, x)
    ensures Head(nodes, b, t)
    decreases Rank(x)
  {
    assert RankedNode(nodes[x], x, bound);
    if On(nodes, b, nodes[x].parent) then Top(nodes, b, nodes[x].parent, bound) else x
  }

  ghost function Bottom(nodes: map<string, Node>, b: string, x: string, bound: nat): (t: string)
    requires Ranked(nodes, bound) && "" !in nodes && On(nodes, b, x)
    ensures Tail(nodes, b, t)
    decreases bound - Rank(x)
  {
    assert RankedNode(nodes[x], x, bound);
    if exists c :: ChildOn(nodes, b, x, c) then
      var c :| ChildOn(nodes, b, x, c);
      assert RankedNode(nodes[c], c, bound);
      Bottom(nodes, b, c, bound)
    else x
  }

  lemma {:induction false} TopOfBottom(nodes: map<string, Node>, b: string, x: string, bound: nat)
    requires Ranked(nodes, bound) && "" !in nodes && On(nodes, b, x)
    ensures Top(nodes, b, Bottom(nodes, b, x, bound), bound) == Top(nodes, b, x, bound)
    decreases bound - Rank(x)
  {
    assert RankedNode(nodes[x], x, bound);
    if exists c :: ChildOn(nodes, b, x, c) {
      var c :| ChildOn(nodes, b, x, c) && Bottom(nodes, b, x, bound) == Bottom(nodes, b, c, bound);
      assert RankedNode(nodes[c], c, bound);
      TopOfBottom(nodes, b, c, bound);
    }
  }

  lemma {:induction false} BottomOfTop(nodes: map<string, Node>, b: string, x: string, bound: nat)
    requires Ranked(nodes, bound) && "" !in nodes && On(nodes, b, x) && Chains(nodes)
    ensures Bottom(nodes, b, Top(nodes, b, x, bound), bound) == Bottom(nodes, b, x, bound)
    decreases Rank(x)
  {
    assert RankedNode(nodes[x], x, bound);
    var p := nodes[x].parent;
    if On(nodes, b, p) {
      BottomOfTop(nodes, b, p, bound);
      assert ChildOn(nodes, b, p, x);
      var c :| ChildOn(nodes, b, p, c) && Bottom(nodes, b, p, bound) == Bottom(nodes, b, c, bound);
      assert c == x;
    }
  }

  ghost predicate OneHead(nodes: map<string, Node>, b: string) {
    forall x, y :: Head(nodes, b, x) && Head(nodes, b, y) ==> x == y
  }

  ghost predicate OneTail(nodes: map<string, Node>, b: string) {
    forall x, y :: Tail(nodes, b, x) && Tail(nodes, b, y) ==> x == y
  }

  /** A branch made of chains has one end just when it has one beginning. */
  lemma OneTailIffOneHead(nodes: map<string, Node>, b: string, bound: nat)
    requires Ranked(nodes, bound) && "" !in nodes && Chains(nodes)
    ensures OneTail(nodes, b) <==> OneHead(nodes, b)
  {
    if OneTail(nodes, b) {
      forall x, y | Head(nodes, b, x) && Head(nodes, b, y) ensures x == y {
        TopOfBottom(nodes, b, x, bound);
        TopOfBottom(nodes, b, y, bound);
      }
    }
    if OneHead(nodes, b) {
      forall x, y | Tail(nodes, b, x) && Tail(nodes, b, y) ensures x == y {
        BottomOfTop(nodes, b, x, bound);
        BottomOfTop(nodes, b, y, bound);
      }
    }
  }

  // ---- Every reached session is made of chains ----

  lemma BranchIdsDiffer(a: nat, b: nat)
    requires BranchId(a) == BranchId(b)
    ensures a == b
  {
    assert BranchId(a)[7..] == Hex(a) && BranchId(b)[7..] == Hex(b);
    HexRoundTrip(a);
    HexRoundTrip(b);
  }

  /** Branch ids to come are unused, and every branch was forked off another one. */
  ghost predicate ForkedElsewhere(s: Session) {
    && (forall k: nat :: k > s.branchCounter ==> BranchId(k) !in s.ix.branches)
    && (forall b :: b in s.ix.branches ==> !On(s.ix.nodes, b, s.ix.branches[b].forkedFrom))
  }

  ghost predicate Shape(s: Session) {
    Ranked(s.ix.nodes, s.nodeCounter) && Chains(s.ix.nodes) && ForkedElsewhere(s)
  }

  /** A new node keeps the shape unless its parent is on its branch and has a child there already. */
  lemma AddKeepsChains(nodes: map<string, Node>, n: Node, counter: nat)
    requires Ranked(nodes, counter) && Chains(nodes) && n.id == NodeId(counter + 1) && n.id !in nodes
    requires n.parent == "" || n.parent in nodes
    requires forall c :: On(nodes, n.branch, n.parent) ==> !ChildOn(nodes, n.branch, n.parent, c)
    ensures Ranked(nodes[n.id := n], counter + 1) && Chains(nodes[n.id := n])
  {
    var more := nodes[n.id := n];
    RankOf(counter + 1);
    forall id | id in more ensures RankedNode(more[id], id, counter + 1) {
      if id != n.id { assert RankedNode(nodes[id], id, counter); }
      if n.parent in nodes { assert RankedNode(nodes[n.parent], n.parent, counter); }
    }
    forall b, x, c, d | On(more, b, x) && ChildOn(more, b, x, c) && ChildOn(more, b, x, d) ensures c == d {
      NewParent(nodes, n, counter, b, x, c);
      NewParent(nodes, n, counter, b, x, d);
    }
  }

  /** No older node has the new one as its parent. */
  lemma NewParent(nodes: map<string, Node>, n: Node, counter: nat, b: string, x: string, c: string)
    requires Ranked(nodes, counter) && n.id == NodeId(counter + 1) && n.id !in nodes
    requires n.parent == "" || n.parent in nodes
    requires On(nodes[n.id := n], b, x) && ChildOn(nodes[n.id := n], b, x, c)
    ensures x != n.id && On(nodes, b, x) && (c == n.id || ChildOn(nodes, b, x, c))
  {
    RankOf(counter + 1);
    if c != n.id { assert RankedNode(nodes[c], c, counter); }
  }

  lemma AppendParent(s: Session, p: string, c: string)
    requires WellFormed(s.ix) && ForkedElsewhere(s) && s.current in s.ix.branches
    requires ParentChoice(s.ix, s.current, p) && On(s.ix.nodes, s.current, p)
    ensures !ChildOn(s.ix.nodes, s.current, p, c)
  {
    assert p != "";
  }

  lemma WriteKeepsForks(s: Session, n: Node)
    requires WellFormed(s.ix) && ForkedElsewhere(s) && n.id !in s.ix.nodes && n.id != ""
    ensures ForkedElsewhere(WriteNode(s, n).(nodeCounter := s.nodeCounter + 1))
  {
  }

  /** The only child there is, or none. */
  ghost predicate NoSibling(nodes: map<string, Node>, n: Node) {
    On(nodes, n.branch, n.parent) ==> forall c :: !ChildOn(nodes, n.branch, n.parent, c)
  }

  lemma WriteKeepsShape(s: Session, n: Node, s': Session)
    requires WellFormed(s.ix) && Shape(s) && n.id == NodeId(s.nodeCounter + 1) && n.id !in s.ix.nodes
    requires n.parent == "" || n.parent in s.ix.nodes
    requires NoSibling(s.ix.nodes, n)
    requires s' == WriteNode(s, n).(nodeCounter := s.nodeCounter + 1)
    ensures Shape(s')
  {
    AddKeepsChains(s.ix.nodes, n, s.nodeCounter);
    WriteKeepsForks(s, n);
  }

  lemma AppendKeepsShape(s: Session, p: string, text: string)
    requires WellFormed(s.ix) && Shape(s) && s.current in s.ix.branches && s.nodeCounter + 1 < TWO_TO_64
    requires ParentChoice(s.ix, s.current, p) && NodeId(s.nodeCounter + 1) !in s.ix.nodes
    ensures Shape(Appended(s, p, text))
  {
    ParentIsKnown(s.ix, s.current, p);
    AppendHasNoSibling(s, p);
    NextIs(s.nodeCounter);
    AppendedIs(s, p, text, s.nodeCounter + 1);
    WriteKeepsShape(s, Node(NodeId(s.nodeCounter + 1), p, s.current, Message(text)), Appended(s, p, text));
  }

  lemma AppendHasNoSibling(s: Session, p: string)
    requires WellFormed(s.ix) && ForkedElsewhere(s) && s.current in s.ix.branches && ParentChoice(s.ix, s.current, p)
    ensures On(s.ix.nodes, s.current, p) ==> forall c :: !ChildOn(s.ix.nodes, s.current, p, c)
  {
    if On(s.ix.nodes, s.current, p) {
      forall c ensures !ChildOn(s.ix.nodes, s.current, p, c) { AppendParent(s, p, c); }
    }
  }

  lemma ForkedIs(s: Session, node: string, name: string, at: string)
    requires s.branchCounter + 1 < TWO_TO_64
    ensures var s', id := Forked(s, node, name, at), BranchId(s.branchCounter + 1);
            && s'.ix.branches == s.ix.branches[id := Branch(id, name, node, at)] && s'.ix.nodes == s.ix.nodes
            && s'.branchCounter == s.branchCounter + 1 && s'.nodeCounter == s.nodeCounter
  {
  }

  lemma RenameKeepsShape(s: Session, name: string)
    requires WellFormed(s.ix) && Shape(s) && s.current in s.ix.branches && s.nodeCounter + 1 < TWO_TO_64
    requires NodeId(s.nodeCounter + 1) !in s.ix.nodes
    ensures Shape(Renamed(s, name))
  {
    NextIs(s.nodeCounter);
    RenamedIs(s, name, s.nodeCounter + 1);
    WriteKeepsShape(s, Node(NodeId(s.nodeCounter + 1), "", s.current, SessionMeta(name)), Renamed(s, name));
  }

  lemma ForkKeepsShape(s: Session, node: string, name: string, at: string)
    requires WellFormed(s.ix) && Shape(s) && node in s.ix.nodes && s.branchCounter + 1 < TWO_TO_64
    ensures Shape(Forked(s, node, name, at)) && Forked(s, node, name, at).branchCounter == s.branchCounter + 1
  {
    ForkedIs(s, node, name, at);
    ForkKeepsForks(s.ix, Branch(BranchId(s.branchCounter + 1), name, node, at), s.branchCounter);
  }

  lemma ForkKeepsForks(ix: Index, meta: Branch, counter: nat)
    requires WellFormed(ix) && meta.id == BranchId(counter + 1) && meta.forkedFrom in ix.nodes
    requires forall k: nat :: k > counter ==> BranchId(k) !in ix.branches
    requires forall b :: b in ix.branches ==> !On(ix.nodes, b, ix.branches[b].forkedFrom)
    ensures var branches := ix.branches[meta.id := meta];
            && (forall k: nat :: k > counter + 1 ==> BranchId(k) !in branches)
            && (forall b :: b in branches ==> !On(ix.nodes, b, branches[b].forkedFrom))
  {
    ForkIsFresh(ix.branches, meta, counter);
    assert meta.id !in ix.branches;
  }

  lemma ForkIsFresh(branches: map<string, Branch>, meta: Branch, counter: nat)
    requires forall k: nat :: k > counter ==> BranchId(k) !in branches
    ensures forall k: nat :: k > counter + 1 ==> BranchId(k) !in branches[BranchId(counter + 1) := meta]
  {
    forall k: nat | k > counter + 1 ensures BranchId(k) !in branches[BranchId(counter + 1) := meta] {
      if BranchId(k) == BranchId(counter + 1) { BranchIdsDiffer(k, counter + 1); }
    }
  }

  lemma StepKeepsShape(s: Session, op: Op, s': Session, clock: nat -> string, budget: nat)
    requires Inv(s, OPENED, clock, budget) && Shape(s) && Step(s, op, s') && budget + 1 < TWO_TO_64
    requires s.branchCounter <= budget
    ensures Shape(s') && s'.branchCounter <= budget + 1
  {
    InvFacts(s, clock, budget);
    if s' != s {
      match op
      case Append(text) =>
        var p :| ParentChoice(s.ix, s.current, p) && s' == Appended(s, p, text);
        AppendKeepsShape(s, p, text);
      case Fork(node, name, at) => ForkKeepsShape(s, node, name, at);
      case Switch(_) =>
      case Rename(name) => RenameKeepsShape(s, name);
    }
  }

  /** What is known of a session while a chain is written into it. */
  ghost predicate Chaining(s: Session, k: nat) {
    && WellFormed(s.ix) && s.nodeCounter == k && NodeId(k + 1) !in s.ix.nodes
    && (k > 0 ==> NodeId(k) in s.ix.nodes)
  }

  lemma ChainIsChaining(started: Session, messages: seq<Json>, k: nat, clock: nat -> string)
    requires Inv(started, started.ix, clock, 0) && started.current == "main" && k <= |messages| < TWO_TO_64
    ensures Chaining(ChainOf(started, messages, k), k)
  {
    ChainFacts(started, messages, k, clock);
    ChainShape(started, messages, k);
  }

  lemma {:induction false} ChainForksNothing(started: Session, messages: seq<Json>, k: nat)
    requires k <= |messages|
    ensures ChainOf(started, messages, k).branchCounter == started.branchCounter
    decreases k
  {
    if k > 0 { ChainForksNothing(started, messages, k - 1); }
  }

  lemma {:induction false} ChainKeepsShape(started: Session, messages: seq<Json>, k: nat, s: Session,
                                           clock: nat -> string)
    requires Inv(started, started.ix, clock, 0) && started.current == "main" && k <= |messages| < TWO_TO_64
    requires Shape(started) && s == ChainOf(started, messages, k)
    ensures Shape(s)
    decreases k
  {
    if k > 0 {
      var before := ChainOf(started, messages, k - 1);
      ChainKeepsShape(started, messages, k - 1, before, clock);
      ChainIsChaining(started, messages, k - 1, clock);
      MessageKeepsShape(before, messages, k - 1, s);
    }
  }

  lemma MessageKeepsShape(s: Session, messages: seq<Json>, k: nat, s': Session)
    requires Chaining(s, k) && Shape(s) && k < |messages| < TWO_TO_64 && s' == Linked(s, ChainNode(messages, k), k)
    ensures Shape(s')
  {
    LinkKeepsShape(s, ChainNode(messages, k));
  }

  lemma LinkKeepsShape(s: Session, n: Node)
    requires WellFormed(s.ix) && Shape(s) && s.nodeCounter + 1 < TWO_TO_64 && n.id !in s.ix.nodes
    requires n.id == NodeId(s.nodeCounter + 1)
    requires n.parent == if s.nodeCounter == 0 then "" else NodeId(s.nodeCounter)
    requires n.parent == "" || n.parent in s.ix.nodes
    ensures Shape(Linked(s, n, s.nodeCounter))
  {
    if n.parent in s.ix.nodes { LastHasNoChild(s.ix.nodes, s.nodeCounter); }
    NextIs(s.nodeCounter);
    WriteKeepsShape(s, n, Linked(s, n, s.nodeCounter));
  }

  lemma LastHasNoChild(nodes: map<string, Node>, counter: nat)
    requires Ranked(nodes, counter)
    ensures forall b, c :: !ChildOn(nodes, b, NodeId(counter), c)
  {
    forall b, c ensures !ChildOn(nodes, b, NodeId(counter), c) {
      RankOf(counter);
      if c in nodes { assert RankedNode(nodes[c], c, counter); }
      assert NodeId(counter) != "";
    }
  }

  lemma StartHasShape(o: Origin, clock: nat -> string)
    requires IdsUsed(o) < TWO_TO_64
    ensures Shape(Start(o)) && Start(o).branchCounter == 0
  {
    match o
    case Empty => assert FRESH.ix.nodes == map[];
    case FromLegacy(messages, at) =>
      var started := FRESH.(ix := OPENED.(branches := map["main" := Branch("main", "main", "", at)]));
      assert IdsIn([]) == {};
      MainIsNoFork(started);
      ChainKeepsShape(started, messages, |messages|, ChainOf(started, messages, |messages|), clock);
      ChainForksNothing(started, messages, |messages|);
  }

  lemma MainIsNoFork(s: Session)
    requires s.ix.nodes == map[] && s.nodeCounter == 0 && s.branchCounter == 0 && s.ix.branches.Keys == {"main"}
    ensures Shape(s)
  {
    forall k: nat ensures BranchId(k) !in s.ix.branches { assert BranchId(k)[0] == 'b'; }
  }

  lemma {:induction false} RunKeepsShape(o: Origin, states: seq<Session>, ops: seq<Op>, i: nat, clock: nat -> string)
    requires Run(states, ops) && states[0] == Start(o) && IdsUsed(o) + |ops| < TWO_TO_64 && i <= |ops|
    ensures Shape(states[i]) && states[i].branchCounter <= IdsUsed(o) + i && "" !in states[i].ix.nodes
    decreases i
  {
    NoEmptyId(o, states, ops, i, clock);
    if i == 0 {
      StartHasShape(o, clock);
    } else {
      RunKeepsShape(o, states, ops, i - 1, clock);
      RunStepKeepsShape(o, states, ops, i - 1, clock);
    }
  }

  lemma RunStepKeepsShape(o: Origin, states: seq<Session>, ops: seq<Op>, i: nat, clock: nat -> string)
    requires Run(states, ops) && states[0] == Start(o) && IdsUsed(o) + |ops| < TWO_TO_64 && i < |ops|
    requires Shape(states[i]) && states[i].branchCounter <= IdsUsed(o) + i
    ensures Shape(states[i + 1]) && states[i + 1].branchCounter <= IdsUsed(o) + i + 1
  {
    StartInv(o, clock);
    RunKeepsInv(states, ops, OPENED, clock, IdsUsed(o), i);
    StepKeepsShape(states[i], ops[i], states[i + 1], clock, IdsUsed(o) + i);
  }

  lemma NoEmptyId(o: Origin, states: seq<Session>, ops: seq<Op>, i: nat, clock: nat -> string)
    requires Run(states, ops) && states[0] == Start(o) && IdsUsed(o) + |ops| < TWO_TO_64 && i <= |ops|
    ensures "" !in states[i].ix.nodes
  {
    StartInv(o, clock);
    RunKeepsInv(states, ops, OPENED, clock, IdsUsed(o), i);
  }

  // ---- Results ----

  /** In every reached state, renames or not, each branch is a set of disjoint chains. */
  lemma BranchesAreChains(o: Origin, states: seq<Session>, ops: seq<Op>, i: nat)
    requires Run(states, ops) && states[0] == Start(o) && IdsUsed(o) + |ops| < TWO_TO_64 && i <= |ops|
    ensures Chains(states[i].ix.nodes)
    ensures forall b :: OneTail(states[i].ix.nodes, b) <==> OneHead(states[i].ix.nodes, b)
  {
    RunKeepsShape(o, states, ops, i, (k: nat) => "");
    forall b ensures OneTail(states[i].ix.nodes, b) <==> OneHead(states[i].ix.nodes, b) {
      OneTailIffOneHead(states[i].ix.nodes, b, states[i].nodeCounter);
    }
  }

  /** The leaves of a compacted session are the ends of the active branch's chains. */
  lemma CompactedLeaves(nodes: map<string, Node>, active: string, kept: map<string, set<string>>,
                        branches: map<string, Branch>, b: string, x: string)
    requires ChildrenExact(KeepBranch(nodes, active), kept) && "" !in nodes
    ensures LeafOf(Index(KeepBranch(nodes, active), kept, branches), b, x) <==> b == active && Tail(nodes, active, x)
  {
    var on := KeepBranch(nodes, active);
    if On(nodes, active, x) {
      if x in kept {
        var c :| c in kept[x];
        assert c in on && on[c].parent == x;
        assert ChildOn(nodes, active, x, c);
      } else {
        assert forall c :: ChildOn(nodes, active, x, c) ==> c in on;
      }
    }
  }

  /** Compacting a reached session leaves one leaf exactly when at most one node of the active branch
      has its parent off the branch. */
  lemma CompactKeepsOneLeafIff(o: Origin, states: seq<Session>, ops: seq<Op>, i: nat, kept: map<string, set<string>>,
                               branches: map<string, Branch>)
    requires Run(states, ops) && states[0] == Start(o) && IdsUsed(o) + |ops| < TWO_TO_64 && i <= |ops|
    requires ChildrenExact(KeepBranch(states[i].ix.nodes, states[i].current), kept)
    ensures OneLeafEach(Index(KeepBranch(states[i].ix.nodes, states[i].current), kept, branches)) <==>
            OneHead(states[i].ix.nodes, states[i].current)
  {
    var nodes, active := states[i].ix.nodes, states[i].current;
    var ix := Index(KeepBranch(nodes, active), kept, branches);
    RunKeepsShape(o, states, ops, i, (k: nat) => "");
    OneTailIffOneHead(nodes, active, states[i].nodeCounter);
    forall b, x ensures LeafOf(ix, b, x) <==> b == active && Tail(nodes, active, x) {
      CompactedLeaves(nodes, active, kept, branches, b, x);
    }
    if OneLeafEach(ix) {
      forall x, y | Tail(nodes, active, x) && Tail(nodes, active, y) ensures x == y {
        assert LeafOf(ix, active, x) && LeafOf(ix, active, y);
      }
    }
  }
}
