/** The session tree: an append-only log of records and the three indexes kept beside it. */
module SessionLog {
  import opened JsonValues
  import opened SessionIds

  /** A node carries any JSON value. */
  type Content = Json

  /** What an append records. */
  function Message(text: string): Content {
    Object(map["message" := Str(text)])
  }

  /** What a rename records. */
  function SessionMeta(name: string): Content {
    Object(map["type" := Str("session_meta"), "name" := Str(name)])
  }

  datatype Node = Node(id: string, parent: string, branch: string, content: Content)

  datatype Branch = Branch(id: string, name: string, forkedFrom: string, createdAt: string)

  /** One line of the file. */
  datatype Record = NodeLine(node: Node) | BranchLine(meta: Branch)

  datatype Index = Index(nodes: map<string, Node>,
                         children: map<string, set<string>>,
                         branches: map<string, Branch>)

  datatype Session = Session(ix: Index, current: string, log: seq<Record>, nodeCounter: nat, branchCounter: nat)

  /** What opening a manager on a session puts in the indexes. */
  const OPENED: Index := Index(map[], map[], map["main" := Branch("main", "main", "", "")])

  /** One manager, opened once on an empty file. */
  const FRESH: Session := Session(OPENED, "main", [], 0, 0)

  function AddChild(children: map<string, set<string>>, parent: string, child: string): map<string, set<string>> {
    if parent == "" then children
    else children[parent := (if parent in children then children[parent] else {}) + {child}]
  }

  function AddNode(ix: Index, n: Node): Index {
    ix.(nodes := ix.nodes[n.id := n], children := AddChild(ix.children, n.parent, n.id))
  }

  // ---- Replay ----

  function IdsIn(log: seq<Record>): set<string> {
    set r | r in log && r.NodeLine? && r.node.id != "" :: r.node.id
  }

  /** Loading one record: the first line of an id counts, an unknown branch gets a placeholder
      stamped with the load time. */
  function LoadRecord(ix: Index, seen: set<string>, r: Record, now: string): Index {
    match r
    case BranchLine(b) => if b.id == "" then ix else ix.(branches := ix.branches[b.id := b])
    case NodeLine(n) =>
      if n.id == "" || n.id in seen then ix
      else
        var added := AddNode(ix, n);
        if n.branch != "" && n.branch !in ix.branches
        then added.(branches := ix.branches[n.branch := Branch(n.branch, n.branch, "", now)])
        else added
  }

  /** Loading a whole log on top of `base`; `clock` gives the time at each record. */
  function Load(base: Index, log: seq<Record>, clock: nat -> string): Index {
    if log == [] then base
    else
      var k := |log| - 1;
      LoadRecord(Load(base, log[..k], clock), IdsIn(log[..k]), log[k], clock(k))
  }

  lemma LoadSnoc(base: Index, log: seq<Record>, r: Record, clock: nat -> string)
    ensures Load(base, log + [r], clock) == LoadRecord(Load(base, log, clock), IdsIn(log), r, clock(|log|))
  {
    assert (log + [r])[..|log|] == log;
  }

  lemma IdsSnoc(log: seq<Record>, r: Record)
    ensures IdsIn(log + [r]) == IdsIn(log) + (if r.NodeLine? && r.node.id != "" then {r.node.id} else {})
  {
    var want := IdsIn(log) + (if r.NodeLine? && r.node.id != "" then {r.node.id} else {});
    forall x ensures x in IdsIn(log + [r]) <==> x in want {
      if x in IdsIn(log) {
        var q :| q in log && q.NodeLine? && q.node.id != "" && q.node.id == x;
        assert q in log + [r];
      }
      assert r in log + [r];
    }
  }

  // ---- Leaves ----

  predicate Childless(ix: Index, id: string) {
    id !in ix.children || ix.children[id] == {}
  }

  predicate LeafOf(ix: Index, branch: string, id: string) {
    id in ix.nodes && ix.nodes[id].branch == branch && Childless(ix, id)
  }

  ghost predicate HasLeaf(ix: Index, branch: string) {
    exists id :: LeafOf(ix, branch, id)
  }

  /** The parent an append may choose: some leaf of the branch if there is one (which one
      depends on hash-map order), otherwise the node the branch was forked from. */
  ghost predicate ParentChoice(ix: Index, branch: string, parent: string) {
    if HasLeaf(ix, branch) then LeafOf(ix, branch, parent)
    else parent == if branch in ix.branches then ix.branches[branch].forkedFrom else ""
  }

  // ---- Operations ----

  datatype Op =
    | Append(text: string)
    | Fork(node: string, name: string, createdAt: string)
    | Switch(branch: string)
    | Rename(name: string)

  function WriteNode(s: Session, n: Node): Session {
    s.(ix := AddNode(s.ix, n), log := s.log + [NodeLine(n)])
  }

  function Appended(s: Session, parent: string, text: string): Session {
    var id := Next(s.nodeCounter);
    WriteNode(s, Node(NodeId(id), parent, s.current, Message(text))).(nodeCounter := id)
  }

  function Forked(s: Session, node: string, name: string, createdAt: string): Session {
    var id := Next(s.branchCounter);
    var meta := Branch(BranchId(id), name, node, createdAt);
    s.(ix := s.ix.(branches := s.ix.branches[meta.id := meta]), current := meta.id,
       log := s.log + [BranchLine(meta)], branchCounter := id)
  }

  function Renamed(s: Session, name: string): Session {
    var id := Next(s.nodeCounter);
    var branch := if s.current == "" then "main" else s.current;
    WriteNode(s, Node(NodeId(id), "", branch, SessionMeta(name))).(nodeCounter := id)
  }

  lemma NextIs(counter: nat)
    requires counter + 1 < TWO_TO_64
    ensures Next(counter) == counter + 1
  {
  }

  lemma AppendedIs(s: Session, p: string, text: string, id: nat)
    requires id == Next(s.nodeCounter)
    ensures Appended(s, p, text) == WriteNode(s, Node(NodeId(id), p, s.current, Message(text))).(nodeCounter := id)
  {
  }

  lemma RenamedIs(s: Session, name: string, id: nat)
    requires id == Next(s.nodeCounter) && s.current != ""
    ensures Renamed(s, name) == WriteNode(s, Node(NodeId(id), "", s.current, SessionMeta(name))).(nodeCounter := id)
  {
  }

  /** One operation; an operation that throws leaves the session as it was. */
  ghost predicate Step(s: Session, op: Op, s': Session) {
    match op
    case Append(text) =>
      if s.current == "" then s' == s
      else exists p :: ParentChoice(s.ix, s.current, p) && s' == Appended(s, p, text)
    case Fork(node, name, at) =>
      s' == if node != "" && node in s.ix.nodes then Forked(s, node, name, at) else s
    case Switch(b) => s' == if b in s.ix.branches then s.(current := b) else s
    case Rename(name) => s' == if name == "" then s else Renamed(s, name)
  }

  // ---- Legacy migration ----

  /** The lines a legacy message list turns into: a chain on main, then main's meta line. */
  function ChainNode(messages: seq<Json>, i: nat): Node
    requires i < |messages|
  {
    Node(NodeId(i + 1), if i == 0 then "" else NodeId(i), "main", messages[i])
  }

  /** The lines of the first `k` messages. */
  function ChainLines(messages: seq<Json>, k: nat): (lines: seq<Record>)
    requires k <= |messages|
    ensures |lines| == k
  {
    if k == 0 then [] else ChainLines(messages, k - 1) + [NodeLine(ChainNode(messages, k - 1))]
  }

  function MigratedLog(messages: seq<Json>, createdAt: string): seq<Record> {
    ChainLines(messages, |messages|) + [BranchLine(Branch("main", "main", "", createdAt))]
  }

  /** One message written: the `k`-th node of the chain. */
  function Linked(s: Session, n: Node, k: nat): Session {
    WriteNode(s, n).(nodeCounter := Next(k))
  }

  /** The session after the first `k` messages were written. */
  function ChainOf(s: Session, messages: seq<Json>, k: nat): Session
    requires k <= |messages|
  {
    if k == 0 then s else Linked(ChainOf(s, messages, k - 1), ChainNode(messages, k - 1), k - 1)
  }

  /** Migrating a message list into a fresh session. */
  function Migrated(messages: seq<Json>, createdAt: string): Session {
    var main := Branch("main", "main", "", createdAt);
    var started := FRESH.(ix := OPENED.(branches := map["main" := main]));
    var chain := ChainOf(started, messages, |messages|);
    chain.(log := chain.log + [BranchLine(main)])
  }

  // ---- What every run keeps ----

  /** Nodes are filed under their own id. */
  ghost predicate Keyed(nodes: map<string, Node>) {
    forall id :: id in nodes ==> nodes[id].id == id && id != ""
  }

  /** `children` lists, for every parent that is named, exactly the nodes naming it. */
  ghost predicate ChildrenExact(nodes: map<string, Node>, children: map<string, set<string>>) {
    && (forall p :: p in children ==> p != "" && children[p] != {})
    && (forall p, c :: p in children && c in children[p] ==> c in nodes && nodes[c].parent == p)
    && (forall c :: c in nodes && nodes[c].parent != "" ==>
          nodes[c].parent in children && c in children[nodes[c].parent])
  }

  lemma ChildrenDetermined(nodes: map<string, Node>, a: map<string, set<string>>, b: map<string, set<string>>)
    requires ChildrenExact(nodes, a) && ChildrenExact(nodes, b)
    ensures a == b
  {
    forall p | p in a ensures p in b && a[p] == b[p] { SameChildren(nodes, a, b, p); }
    forall p | p in b ensures p in a && a[p] == b[p] { SameChildren(nodes, b, a, p); }
  }

  lemma SameChildren(nodes: map<string, Node>, a: map<string, set<string>>, b: map<string, set<string>>, p: string)
    requires ChildrenExact(nodes, a) && ChildrenExact(nodes, b) && p in a
    ensures p in b && a[p] == b[p]
  {
    var c :| c in a[p];
    assert nodes[c].parent == p;
    forall x ensures x in a[p] <==> x in b[p] {
      if x in a[p] { assert nodes[x].parent == p; }
      if x in b[p] { assert nodes[x].parent == p; }
    }
  }

  lemma AddKeepsChildrenExact(ix: Index, n: Node)
    requires ChildrenExact(ix.nodes, ix.children) && n.id !in ix.nodes
    ensures ChildrenExact(AddNode(ix, n).nodes, AddNode(ix, n).children)
  {
  }

  /** The indexes refer only to nodes and branches they hold. */
  ghost predicate Closed(ix: Index) {
    && "" !in ix.branches
    && (forall id :: id in ix.nodes ==> ix.nodes[id].branch in ix.branches)
    && (forall id :: id in ix.nodes ==> ix.nodes[id].parent == "" || ix.nodes[id].parent in ix.nodes)
    && (forall b :: b in ix.branches ==> ix.branches[b].id == b)
    && (forall b :: b in ix.branches ==> ix.branches[b].forkedFrom == "" || ix.branches[b].forkedFrom in ix.nodes)
  }

  ghost predicate WellFormed(ix: Index) {
    Keyed(ix.nodes) && ChildrenExact(ix.nodes, ix.children) && Closed(ix)
  }

  /** Later counter values are still unused. */
  ghost predicate IdsUnused(nodes: map<string, Node>, counter: nat) {
    forall k: nat :: k > counter ==> NodeId(k) !in nodes
  }

  /** The log, loaded on top of `base`, rebuilds the indexes. */
  ghost predicate LogMatches(s: Session, base: Index, clock: nat -> string) {
    Load(base, s.log, clock) == s.ix && IdsIn(s.log) == s.ix.nodes.Keys
  }

  /** `budget` bounds the number of node identifiers handed out. */
  ghost predicate Inv(s: Session, base: Index, clock: nat -> string, budget: nat) {
    && LogMatches(s, base, clock)
    && WellFormed(s.ix) && s.current in s.ix.branches
    && IdsUnused(s.ix.nodes, s.nodeCounter) && s.nodeCounter <= budget
  }

  lemma AddKeepsWellFormed(ix: Index, n: Node)
    requires WellFormed(ix) && n.id != "" && n.id !in ix.nodes && n.branch in ix.branches
    requires n.parent == "" || n.parent in ix.nodes
    ensures WellFormed(AddNode(ix, n))
  {
    AddKeepsChildrenExact(ix, n);
  }

  lemma WriteKeepsLog(s: Session, n: Node, base: Index, clock: nat -> string)
    requires LogMatches(s, base, clock) && n.id != "" && n.id !in s.ix.nodes && n.branch in s.ix.branches
    ensures LogMatches(WriteNode(s, n), base, clock)
  {
    LoadSnoc(base, s.log, NodeLine(n), clock);
    IdsSnoc(s.log, NodeLine(n));
  }

  /** Writing one fresh node keeps log and indexes in step. */
  lemma WriteKeepsInv(s: Session, n: Node, base: Index, clock: nat -> string, budget: nat)
    requires Inv(s, base, clock, budget) && budget + 1 < TWO_TO_64
    requires n.id == NodeId(s.nodeCounter + 1) && n.branch in s.ix.branches
    requires n.parent == "" || n.parent in s.ix.nodes
    ensures Next(s.nodeCounter) == s.nodeCounter + 1
    ensures Inv(WriteNode(s, n).(nodeCounter := s.nodeCounter + 1), base, clock, budget + 1)
  {
    assert n.id !in s.ix.nodes;
    WriteKeepsLog(s, n, base, clock);
    AddKeepsWellFormed(s.ix, n);
    forall k: nat | k > s.nodeCounter + 1 ensures NodeId(k) !in AddNode(s.ix, n).nodes {
      if NodeId(k) == n.id { NodeIdsDiffer(k, s.nodeCounter + 1); }
    }
  }

  lemma ForkKeepsInv(s: Session, node: string, name: string, at: string, base: Index, clock: nat -> string, budget: nat)
    requires Inv(s, base, clock, budget) && node in s.ix.nodes
    ensures Inv(Forked(s, node, name, at), base, clock, budget)
  {
    var meta := Branch(BranchId(Next(s.branchCounter)), name, node, at);
    LoadSnoc(base, s.log, BranchLine(meta), clock);
    IdsSnoc(s.log, BranchLine(meta));
  }

  lemma ParentIsKnown(ix: Index, branch: string, p: string)
    requires WellFormed(ix) && branch in ix.branches && ParentChoice(ix, branch, p)
    ensures p == "" || p in ix.nodes
  {
  }

  lemma AppendKeepsInv(s: Session, p: string, text: string, base: Index, clock: nat -> string, budget: nat)
    requires Inv(s, base, clock, budget) && budget + 1 < TWO_TO_64 && ParentChoice(s.ix, s.current, p)
    ensures Inv(Appended(s, p, text), base, clock, budget + 1)
  {
    ParentIsKnown(s.ix, s.current, p);
    WriteKeepsInv(s, Node(NodeId(s.nodeCounter + 1), p, s.current, Message(text)), base, clock, budget);
  }

  lemma RenameKeepsInv(s: Session, name: string, base: Index, clock: nat -> string, budget: nat)
    requires Inv(s, base, clock, budget) && budget + 1 < TWO_TO_64
    ensures Inv(Renamed(s, name), base, clock, budget + 1)
  {
    WriteKeepsInv(s, Node(NodeId(s.nodeCounter + 1), "", s.current, SessionMeta(name)), base, clock, budget);
  }

  lemma StepKeepsInv(s: Session, op: Op, s': Session, base: Index, clock: nat -> string, budget: nat)
    requires Inv(s, base, clock, budget) && Step(s, op, s') && budget + 1 < TWO_TO_64
    ensures Inv(s', base, clock, budget + 1)
  {
    if s' != s {
      match op
      case Append(text) =>
        var p :| ParentChoice(s.ix, s.current, p) && s' == Appended(s, p, text);
        AppendKeepsInv(s, p, text, base, clock, budget);
      case Fork(node, name, at) => ForkKeepsInv(s, node, name, at, base, clock, budget);
      case Switch(_) => assert s' == s.(current := op.branch);
      case Rename(name) => RenameKeepsInv(s, name, base, clock, budget);
    }
  }

  // ---- Runs ----

  ghost predicate Run(states: seq<Session>, ops: seq<Op>) {
    && |states| == |ops| + 1
    && forall i :: 0 <= i < |ops| ==> Step(states[i], ops[i], states[i + 1])
  }

  lemma {:induction false} RunKeepsInv(states: seq<Session>, ops: seq<Op>, base: Index, clock: nat -> string,
                                       budget: nat, i: nat)
    requires Run(states, ops) && i <= |ops|
    requires Inv(states[0], base, clock, budget) && budget + |ops| < TWO_TO_64
    ensures Inv(states[i], base, clock, budget + i)
    decreases i
  {
    if i > 0 {
      RunKeepsInv(states, ops, base, clock, budget, i - 1);
      StepKeepsInv(states[i - 1], ops[i - 1], states[i], base, clock, budget + i - 1);
    }
  }

  lemma FreshInv(clock: nat -> string)
    ensures Inv(FRESH, OPENED, clock, 0)
  {
    assert IdsIn([]) == {};
  }

  lemma LinkedIs(s: Session, n: Node, k: nat)
    requires k + 1 < TWO_TO_64
    ensures var t := Linked(s, n, k);
            && t.ix == AddNode(s.ix, n) && t.log == s.log + [NodeLine(n)] && t.current == s.current
            && t.nodeCounter == k + 1 && t.ix.branches == s.ix.branches && n.id in t.ix.nodes
  {
  }

  lemma LogGrows(log: seq<Record>, lines: seq<Record>, line: Record)
    ensures log + (lines + [line]) == log + lines + [line]
  {
  }

  lemma {:induction false} ChainShape(started: Session, messages: seq<Json>, k: nat)
    requires k <= |messages| < TWO_TO_64 && started.nodeCounter == 0
    ensures var s := ChainOf(started, messages, k);
            s.nodeCounter == k && s.current == started.current && s.ix.branches == started.ix.branches &&
            s.log == started.log + ChainLines(messages, k) &&
            (k > 0 ==> NodeId(k) in s.ix.nodes)
    decreases k
  {
    if k > 0 {
      ChainShape(started, messages, k - 1);
      LinkedIs(ChainOf(started, messages, k - 1), ChainNode(messages, k - 1), k - 1);
      LogGrows(started.log, ChainLines(messages, k - 1), NodeLine(ChainNode(messages, k - 1)));
    }
  }

  lemma {:induction false} ChainKeepsInv(started: Session, messages: seq<Json>, k: nat, base: Index,
                                         clock: nat -> string)
    requires Inv(started, base, clock, 0) && started.current == "main"
    requires k <= |messages| < TWO_TO_64
    ensures Inv(ChainOf(started, messages, k), base, clock, k)
    decreases k
  {
    if k > 0 {
      ChainKeepsInv(started, messages, k - 1, base, clock);
      ChainShape(started, messages, k - 1);
      LinkKeepsInv(ChainOf(started, messages, k - 1), messages, k - 1, base, clock);
    }
  }

  lemma LinkKeepsInv(s: Session, messages: seq<Json>, k: nat, base: Index, clock: nat -> string)
    requires Inv(s, base, clock, k) && s.current == "main" && s.nodeCounter == k < |messages| < TWO_TO_64
    requires k > 0 ==> NodeId(k) in s.ix.nodes
    ensures Inv(Linked(s, ChainNode(messages, k), k), base, clock, k + 1)
  {
    WriteKeepsInv(s, ChainNode(messages, k), base, clock, k);
  }

  /** Which meta a known branch carries makes no difference to how its node lines load. */
  lemma {:induction false} LoadIgnoresMeta(log: seq<Record>, base: Index, branches: map<string, Branch>,
                                           clock: nat -> string)
    requires forall r :: r in log ==> r.NodeLine? && r.node.branch in base.branches
    requires branches.Keys == base.branches.Keys
    ensures Load(base.(branches := branches), log, clock) == Load(base, log, clock).(branches := branches)
    ensures Load(base, log, clock).branches == base.branches
    decreases |log|
  {
    if log != [] {
      var k := |log| - 1;
      forall r | r in log[..k] ensures r in log {}
      LoadIgnoresMeta(log[..k], base, branches, clock);
      assert log[k] in log;
    }
  }

  lemma MainMetaLast(s: Session, base: Index, main: Branch, clock: nat -> string)
    requires main.id == "main" && base == OPENED.(branches := map["main" := main])
    requires LogMatches(s, base, clock)
    requires forall r :: r in s.log ==> r.NodeLine? && r.node.branch == "main"
    ensures LogMatches(s.(log := s.log + [BranchLine(main)]), OPENED, clock)
  {
    LoadIgnoresMeta(s.log, OPENED, base.branches, clock);
    LoadSnoc(OPENED, s.log, BranchLine(main), clock);
    IdsSnoc(s.log, BranchLine(main));
    assert Load(OPENED, s.log, clock).(branches := base.branches) == s.ix;
    assert OPENED.branches["main" := main] == base.branches;
  }

  lemma {:induction false} ChainLinesOnMain(messages: seq<Json>, k: nat, r: Record)
    requires k <= |messages| && r in ChainLines(messages, k)
    ensures r.NodeLine? && r.node.branch == "main"
    decreases k
  {
    if r != NodeLine(ChainNode(messages, k - 1)) { ChainLinesOnMain(messages, k - 1, r); }
  }

  lemma MigratedInv(messages: seq<Json>, createdAt: string, clock: nat -> string)
    requires |messages| < TWO_TO_64
    ensures Inv(Migrated(messages, createdAt), OPENED, clock, |messages|)
    ensures Migrated(messages, createdAt).log == MigratedLog(messages, createdAt)
  {
    var main := Branch("main", "main", "", createdAt);
    var base := OPENED.(branches := map["main" := main]);
    var started := FRESH.(ix := base);
    var chain := ChainOf(started, messages, |messages|);
    assert Migrated(messages, createdAt) == chain.(log := chain.log + [BranchLine(main)]);
    assert chain.log == ChainLines(messages, |messages|) by { ChainShape(started, messages, |messages|); }
    assert Inv(chain, base, clock, |messages|) by {
      assert IdsIn([]) == {};
      ChainKeepsInv(started, messages, |messages|, base, clock);
    }
    forall r | r in chain.log ensures r.NodeLine? && r.node.branch == "main" {
      ChainLinesOnMain(messages, |messages|, r);
    }
    MainMetaLast(chain, base, main, clock);
  }

  /** Where a run may start: a fresh session, or one a message list was just migrated into. */
  datatype Origin = Empty | FromLegacy(messages: seq<Json>, createdAt: string)

  function Start(o: Origin): Session {
    match o
    case Empty => FRESH
    case FromLegacy(m, at) => Migrated(m, at)
  }

  function IdsUsed(o: Origin): nat {
    match o
    case Empty => 0
    case FromLegacy(m, _) => |m|
  }

  lemma StartInv(o: Origin, clock: nat -> string)
    requires IdsUsed(o) < TWO_TO_64
    ensures Inv(Start(o), OPENED, clock, IdsUsed(o))
  {
    match o
    case Empty => FreshInv(clock);
    case FromLegacy(m, at) => MigratedInv(m, at, clock);
  }

  /** After any run of appends, forks, switches and renames, a new manager that replays the file
      has the nodes, children and branches the running one has, whatever the clock says. */
  lemma ReplayRebuilds(o: Origin, states: seq<Session>, ops: seq<Op>, clock: nat -> string, i: nat)
    requires Run(states, ops) && states[0] == Start(o) && IdsUsed(o) + |ops| < TWO_TO_64
    requires i <= |ops|
    ensures Load(OPENED, states[i].log, clock) == states[i].ix
  {
    StartInv(o, clock);
    RunKeepsInv(states, ops, OPENED, clock, IdsUsed(o), i);
  }

  // ---- One leaf a branch ----

  ghost predicate OneLeafEach(ix: Index) {
    forall b, x, y :: LeafOf(ix, b, x) && LeafOf(ix, b, y) ==> x == y
  }

  lemma ParentsAreNodes(ix: Index, id: string)
    requires WellFormed(ix) && id in ix.children
    ensures id in ix.nodes
  {
    var c :| c in ix.children[id];
    assert ix.nodes[c].parent == id;
  }

  lemma AddKeepsOneLeaf(ix: Index, n: Node)
    requires WellFormed(ix) && n.id !in ix.nodes && n.id != n.parent && OneLeafEach(ix)
    requires ParentChoice(ix, n.branch, n.parent)
    ensures OneLeafEach(AddNode(ix, n)) && LeafOf(AddNode(ix, n), n.branch, n.id)
  {
    var ix' := AddNode(ix, n);
    forall b, x, y | LeafOf(ix', b, x) && LeafOf(ix', b, y) ensures x == y {
      OldLeaf(ix, n, b, x);
      OldLeaf(ix, n, b, y);
      assert LeafOf(ix, b, x) ==> HasLeaf(ix, b);
      assert LeafOf(ix, b, y) ==> HasLeaf(ix, b);
    }
    if n.id in ix.children { ParentsAreNodes(ix, n.id); }
  }

  /** A leaf after the write was a leaf before it, or is the new node; and it is not the parent. */
  lemma OldLeaf(ix: Index, n: Node, b: string, x: string)
    requires n.id !in ix.nodes && LeafOf(AddNode(ix, n), b, x)
    ensures x == n.id || LeafOf(ix, b, x)
    ensures n.parent != "" ==> x != n.parent
  {
  }

  lemma AppendKeepsOneLeaf(s: Session, p: string, text: string)
    requires WellFormed(s.ix) && s.current in s.ix.branches && OneLeafEach(s.ix)
    requires NodeId(Next(s.nodeCounter)) !in s.ix.nodes && ParentChoice(s.ix, s.current, p)
    ensures OneLeafEach(Appended(s, p, text).ix)
  {
    ParentIsKnown(s.ix, s.current, p);
    AddKeepsOneLeaf(s.ix, Node(NodeId(Next(s.nodeCounter)), p, s.current, Message(text)));
  }

  lemma StepKeepsOneLeaf(s: Session, op: Op, s': Session)
    requires WellFormed(s.ix) && s.current in s.ix.branches && OneLeafEach(s.ix)
    requires NodeId(Next(s.nodeCounter)) !in s.ix.nodes
    requires Step(s, op, s') && !op.Rename?
    ensures OneLeafEach(s'.ix)
  {
    if op.Append? {
      var p :| ParentChoice(s.ix, s.current, p) && s' == Appended(s, p, op.text);
      AppendKeepsOneLeaf(s, p, op.text);
    } else {
      assert s'.ix.nodes == s.ix.nodes && s'.ix.children == s.ix.children;
      forall b, x | LeafOf(s'.ix, b, x) ensures LeafOf(s.ix, b, x) {}
    }
  }

  lemma ChainLinkKeepsOneLeaf(ix: Index, messages: seq<Json>, k: nat)
    requires k < |messages| && WellFormed(ix) && OneLeafEach(ix) && "main" in ix.branches
    requires NodeId(k + 1) !in ix.nodes
    requires if k > 0 then LeafOf(ix, "main", NodeId(k))
             else !HasLeaf(ix, "main") && ix.branches["main"].forkedFrom == ""
    ensures OneLeafEach(AddNode(ix, ChainNode(messages, k)))
    ensures LeafOf(AddNode(ix, ChainNode(messages, k)), "main", NodeId(k + 1))
  {
    var n := ChainNode(messages, k);
    if k > 0 { assert HasLeaf(ix, "main"); }
    AddKeepsOneLeaf(ix, n);
  }

  lemma ChainFacts(started: Session, messages: seq<Json>, k: nat, clock: nat -> string)
    requires Inv(started, started.ix, clock, 0) && started.current == "main" && k <= |messages| < TWO_TO_64
    ensures var ix := ChainOf(started, messages, k).ix;
            WellFormed(ix) && ix.branches == started.ix.branches && NodeId(k + 1) !in ix.nodes
  {
    ChainKeepsInv(started, messages, k, started.ix, clock);
    ChainShape(started, messages, k);
  }

  lemma {:induction false} ChainHasOneLeaf(messages: seq<Json>, k: nat, started: Session, clock: nat -> string)
    requires Inv(started, started.ix, clock, 0) && started.current == "main"
    requires started.ix.nodes == map[] && started.ix.branches["main"].forkedFrom == ""
    requires k <= |messages| < TWO_TO_64
    ensures OneLeafEach(ChainOf(started, messages, k).ix)
    ensures k > 0 ==> LeafOf(ChainOf(started, messages, k).ix, "main", NodeId(k))
    decreases k
  {
    EmptyHasNoLeaf(started.ix);
    if k > 0 {
      ChainHasOneLeaf(messages, k - 1, started, clock);
      ChainFacts(started, messages, k - 1, clock);
      LinkHasOneLeaf(ChainOf(started, messages, k - 1), messages, k - 1);
    }
  }

  lemma EmptyHasNoLeaf(ix: Index)
    requires ix.nodes == map[]
    ensures OneLeafEach(ix) && !HasLeaf(ix, "main")
  {
  }

  lemma LinkHasOneLeaf(s: Session, messages: seq<Json>, k: nat)
    requires k < |messages| < TWO_TO_64 && WellFormed(s.ix) && OneLeafEach(s.ix) && "main" in s.ix.branches
    requires NodeId(k + 1) !in s.ix.nodes
    requires if k > 0 then LeafOf(s.ix, "main", NodeId(k))
             else !HasLeaf(s.ix, "main") && s.ix.branches["main"].forkedFrom == ""
    ensures OneLeafEach(Linked(s, ChainNode(messages, k), k).ix)
    ensures LeafOf(Linked(s, ChainNode(messages, k), k).ix, "main", NodeId(k + 1))
  {
    ChainLinkKeepsOneLeaf(s.ix, messages, k);
    LinkedIs(s, ChainNode(messages, k), k);
  }

  lemma StartHasOneLeaf(o: Origin)
    requires IdsUsed(o) < TWO_TO_64
    ensures OneLeafEach(Start(o).ix)
  {
    if o.FromLegacy? {
      var started := FRESH.(ix := OPENED.(branches := map["main" := Branch("main", "main", "", o.createdAt)]));
      assert IdsIn([]) == {};
      ChainHasOneLeaf(o.messages, |o.messages|, started, (k: nat) => "");
    }
  }

  lemma InvFacts(s: Session, clock: nat -> string, budget: nat)
    requires Inv(s, OPENED, clock, budget) && budget + 1 < TWO_TO_64
    ensures WellFormed(s.ix) && s.current in s.ix.branches && NodeId(Next(s.nodeCounter)) !in s.ix.nodes
  {
  }

  /** A rename writes a node without parent on the current branch, so the branch must have had no leaf:
      what a caller learns by asking for the branch's leaf first. */
  ghost predicate Guarded(s: Session, op: Op) {
    op.Rename? && op.name != "" ==> !HasLeaf(s.ix, s.current)
  }

  lemma LeafStays(s: Session, name: string, b: string, x: string)
    requires WellFormed(s.ix) && s.current in s.ix.branches && NodeId(Next(s.nodeCounter)) !in s.ix.nodes
    ensures LeafOf(Renamed(s, name).ix, b, x) <==>
            LeafOf(s.ix, b, x) || (b == s.current && x == NodeId(Next(s.nodeCounter)))
  {
    var id := NodeId(Next(s.nodeCounter));
    if id in s.ix.children { ParentsAreNodes(s.ix, id); }
  }

  /** A rename keeps one leaf on each branch exactly when the current branch has none. */
  lemma RenameKeepsOneLeafIff(s: Session, name: string)
    requires WellFormed(s.ix) && s.current in s.ix.branches && NodeId(Next(s.nodeCounter)) !in s.ix.nodes
    requires OneLeafEach(s.ix)
    ensures OneLeafEach(Renamed(s, name).ix) <==> !HasLeaf(s.ix, s.current)
  {
    var ix', id := Renamed(s, name).ix, NodeId(Next(s.nodeCounter));
    LeafStays(s, name, s.current, id);
    if HasLeaf(s.ix, s.current) {
      var x :| LeafOf(s.ix, s.current, x);
      LeafStays(s, name, s.current, x);
      assert LeafOf(ix', s.current, x) && LeafOf(ix', s.current, id) && x != id;
    } else {
      forall b, x, y | LeafOf(ix', b, x) && LeafOf(ix', b, y) ensures x == y {
        LeafStays(s, name, b, x);
        LeafStays(s, name, b, y);
        if b == s.current { assert !LeafOf(s.ix, b, x) && !LeafOf(s.ix, b, y); }
      }
    }
  }

  lemma StepKeepsOneLeafIff(s: Session, op: Op, s': Session)
    requires WellFormed(s.ix) && s.current in s.ix.branches && OneLeafEach(s.ix)
    requires NodeId(Next(s.nodeCounter)) !in s.ix.nodes && Step(s, op, s')
    ensures OneLeafEach(s'.ix) <==> Guarded(s, op)
  {
    if op.Rename? && op.name != "" {
      RenameKeepsOneLeafIff(s, op.name);
    } else if !op.Rename? {
      StepKeepsOneLeaf(s, op, s');
    }
  }

  lemma ReachedFacts(o: Origin, states: seq<Session>, ops: seq<Op>, i: nat)
    requires Run(states, ops) && states[0] == Start(o) && IdsUsed(o) + |ops| < TWO_TO_64 && i < |ops|
    ensures var s := states[i];
            WellFormed(s.ix) && s.current in s.ix.branches && NodeId(Next(s.nodeCounter)) !in s.ix.nodes
  {
    var clock := (k: nat) => "";
    StartInv(o, clock);
    RunKeepsInv(states, ops, OPENED, clock, IdsUsed(o), i);
    InvFacts(states[i], clock, IdsUsed(o) + i);
  }

  lemma {:induction false} RunKeepsOneLeaf(o: Origin, states: seq<Session>, ops: seq<Op>, i: nat)
    requires Run(states, ops) && states[0] == Start(o) && IdsUsed(o) + |ops| < TWO_TO_64
    requires i <= |ops| && forall k :: 0 <= k < i ==> Guarded(states[k], ops[k])
    ensures OneLeafEach(states[i].ix)
    decreases i
  {
    if i == 0 {
      StartHasOneLeaf(o);
    } else {
      RunKeepsOneLeaf(o, states, ops, i - 1);
      ReachedFacts(o, states, ops, i - 1);
      StepKeepsOneLeafIff(states[i - 1], ops[i - 1], states[i]);
    }
  }

  /** Through a run of appends, forks, switches and renames every state has at most one leaf on each
      branch exactly when every rename met a current branch without one. */
  lemma RunKeepsOneLeafIff(o: Origin, states: seq<Session>, ops: seq<Op>, n: nat)
    requires Run(states, ops) && states[0] == Start(o) && IdsUsed(o) + |ops| < TWO_TO_64 && n <= |ops|
    ensures (forall i :: 0 <= i <= n ==> OneLeafEach(states[i].ix)) <==>
            (forall k :: 0 <= k < n ==> Guarded(states[k], ops[k]))
  {
    if forall k :: 0 <= k < n ==> Guarded(states[k], ops[k]) {
      forall i | 0 <= i <= n ensures OneLeafEach(states[i].ix) { RunKeepsOneLeaf(o, states, ops, i); }
    }
    if forall i :: 0 <= i <= n ==> OneLeafEach(states[i].ix) {
      forall k | 0 <= k < n ensures Guarded(states[k], ops[k]) {
        ReachedFacts(o, states, ops, k);
        StepKeepsOneLeafIff(states[k], ops[k], states[k + 1]);
      }
    }
  }

  /** Then the scan that keeps the last leaf it meets and the scans that keep the first one meet the
      same leaf, in any hash-map order. */
  lemma ScansAgree(o: Origin, states: seq<Session>, ops: seq<Op>, i: nat, branch: string, first: string, last: string)
    requires Run(states, ops) && states[0] == Start(o) && IdsUsed(o) + |ops| < TWO_TO_64
    requires i <= |ops| && forall k :: 0 <= k < i ==> Guarded(states[k], ops[k])
    requires HasLeaf(states[i].ix, branch)
    requires LeafOf(states[i].ix, branch, first) && ParentChoice(states[i].ix, branch, last)
    ensures first == last
  {
    RunKeepsOneLeaf(o, states, ops, i);
  }
}
