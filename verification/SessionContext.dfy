/** Rebuilding a conversation from a leaf, and what compaction and migration do to it. */
module SessionContext {
  import opened JsonValues
  import opened SessionIds
  import opened SessionLog

  /** The ancestors of `cur`, nearest first, stopping at a node met before. */
  function Walk(nodes: map<string, Node>, cur: string, visited: set<string>): seq<Node>
    decreases nodes.Keys - visited
  {
    if cur == "" || cur in visited || cur !in nodes then []
    else
      assert cur in nodes.Keys - visited;
      [nodes[cur]] + Walk(nodes, nodes[cur].parent, visited + {cur})
  }

  function Reverse<T>(s: seq<T>): (r: seq<T>)
    ensures |r| == |s|
  {
    seq(|s|, i requires 0 <= i < |s| => s[|s| - 1 - i])
  }

  /** The context handed to the caller: root first. */
  function Context(nodes: map<string, Node>, leaf: string): seq<Node> {
    Reverse(Walk(nodes, leaf, {}))
  }

  /** A path of parent links from `leaf` (nearest first) that repeats no node and stops only where
      the links do: at a root, at a missing parent, or at a node already on the path. */
  ghost predicate Ancestry(nodes: map<string, Node>, leaf: string, path: seq<Node>) {
    && (path == [] <==> leaf == "" || leaf !in nodes)
    && (path != [] ==> path[0].id == leaf)
    && (forall i :: 0 <= i < |path| ==> path[i].id in nodes && path[i].id != "" && nodes[path[i].id] == path[i])
    && (forall i :: 0 < i < |path| ==> path[i].id == path[i - 1].parent)
    && (forall i, j :: 0 <= i < j < |path| ==> path[i].id != path[j].id)
    && (path != [] ==>
          var next := path[|path| - 1].parent;
          next == "" || next !in nodes || exists i :: 0 <= i < |path| && path[i].id == next)
  }

  /** What a walk that avoids `visited` finds, part by part. */
  ghost predicate Stored(nodes: map<string, Node>, visited: set<string>, w: seq<Node>) {
    forall i :: 0 <= i < |w| ==> w[i].id in nodes && nodes[w[i].id] == w[i] && w[i].id !in visited
  }

  ghost predicate ParentLinked(w: seq<Node>) {
    forall i :: 0 < i < |w| ==> w[i].id == w[i - 1].parent
  }

  ghost predicate RepeatsNothing(w: seq<Node>) {
    forall i, j :: 0 <= i < j < |w| ==> w[i].id != w[j].id
  }

  /** A walk ends at a root, at a missing parent, or where it would meet a node again. */
  ghost predicate EndsRightly(nodes: map<string, Node>, visited: set<string>, w: seq<Node>) {
    w != [] ==>
      var next := w[|w| - 1].parent;
      next == "" || next !in nodes || next in visited || exists i :: 0 <= i < |w| && w[i].id == next
  }

  lemma StoredStep(nodes: map<string, Node>, cur: string, visited: set<string>, rest: seq<Node>)
    requires cur in nodes && nodes[cur].id == cur && cur !in visited && Stored(nodes, visited + {cur}, rest)
    ensures Stored(nodes, visited, [nodes[cur]] + rest)
  {
  }

  lemma LinkedStep(n: Node, rest: seq<Node>)
    requires ParentLinked(rest) && (rest != [] ==> rest[0].id == n.parent)
    ensures ParentLinked([n] + rest)
  {
  }

  lemma RepeatsStep(nodes: map<string, Node>, n: Node, visited: set<string>, rest: seq<Node>)
    requires RepeatsNothing(rest) && Stored(nodes, visited + {n.id}, rest)
    ensures RepeatsNothing([n] + rest)
  {
  }

  lemma EndsStep(nodes: map<string, Node>, n: Node, visited: set<string>, rest: seq<Node>)
    requires EndsRightly(nodes, visited + {n.id}, rest)
    requires rest == [] ==> n.parent == "" || n.parent in visited + {n.id} || n.parent !in nodes
    ensures EndsRightly(nodes, visited, [n] + rest)
  {
    var w := [n] + rest;
    assert w[0].id == n.id;
    if rest != [] {
      var next := w[|w| - 1].parent;
      if i :| 0 <= i < |rest| && rest[i].id == next { assert w[i + 1].id == next; }
    }
  }

  lemma {:induction false} WalkPath(nodes: map<string, Node>, cur: string, visited: set<string>)
    requires Keyed(nodes)
    ensures var w := Walk(nodes, cur, visited);
            && (w == [] <==> cur == "" || cur in visited || cur !in nodes) && (w != [] ==> w[0].id == cur)
            && Stored(nodes, visited, w) && ParentLinked(w) && RepeatsNothing(w) && EndsRightly(nodes, visited, w)
    decreases nodes.Keys - visited
  {
    if !(cur == "" || cur in visited || cur !in nodes) {
      assert cur in nodes.Keys - visited;
      var n, rest := nodes[cur], Walk(nodes, nodes[cur].parent, visited + {cur});
      WalkPath(nodes, n.parent, visited + {cur});
      StoredStep(nodes, cur, visited, rest);
      LinkedStep(n, rest);
      RepeatsStep(nodes, n, visited, rest);
      EndsStep(nodes, n, visited, rest);
    }
  }

  lemma WalkIsAncestry(nodes: map<string, Node>, leaf: string)
    requires Keyed(nodes)
    ensures Ancestry(nodes, leaf, Walk(nodes, leaf, {}))
  {
    WalkPath(nodes, leaf, {});
  }

  lemma {:induction false} AncestryStep(nodes: map<string, Node>, leaf: string, a: seq<Node>, b: seq<Node>, i: nat)
    requires Ancestry(nodes, leaf, a) && Ancestry(nodes, leaf, b) && i < |a| && i < |b|
    ensures a[i] == b[i]
    decreases i
  {
    if i > 0 {
      AncestryStep(nodes, leaf, a, b, i - 1);
    }
  }

  lemma AncestryNotLonger(nodes: map<string, Node>, leaf: string, a: seq<Node>, b: seq<Node>)
    requires Ancestry(nodes, leaf, a) && Ancestry(nodes, leaf, b)
    ensures |b| <= |a|
  {
    if |a| < |b| && a != [] {
      var k := |a| - 1;
      AncestryStep(nodes, leaf, a, b, k);
      assert b[k + 1].id == a[k].parent;
      var i :| 0 <= i < |a| && a[i].id == a[k].parent;
      AncestryStep(nodes, leaf, a, b, i);
      assert false;
    }
  }

  /** There is exactly one such path. */
  lemma AncestryIsUnique(nodes: map<string, Node>, leaf: string, a: seq<Node>, b: seq<Node>)
    requires Ancestry(nodes, leaf, a) && Ancestry(nodes, leaf, b)
    ensures a == b
  {
    AncestryNotLonger(nodes, leaf, a, b);
    AncestryNotLonger(nodes, leaf, b, a);
    forall i | 0 <= i < |a| ensures a[i] == b[i] { AncestryStep(nodes, leaf, a, b, i); }
  }

  // ---- Compaction ----

  /** What compaction keeps: the nodes of one branch. */
  function KeepBranch(nodes: map<string, Node>, branch: string): map<string, Node> {
    map id | id in nodes && nodes[id].branch == branch :: nodes[id]
  }

  /** The nearest-first part of a path that lies on the branch. */
  function NearPart(path: seq<Node>, branch: string): (near: seq<Node>)
    ensures near <= path && forall n :: n in near ==> n.branch == branch
    ensures |near| < |path| ==> path[|near|].branch != branch
  {
    if path == [] || path[0].branch != branch then [] else [path[0]] + NearPart(path[1..], branch)
  }

  lemma {:induction false} WalkAfterCompact(nodes: map<string, Node>, branch: string, cur: string, visited: set<string>)
    ensures Walk(KeepBranch(nodes, branch), cur, visited) == NearPart(Walk(nodes, cur, visited), branch)
    decreases nodes.Keys - visited
  {
    if !(cur == "" || cur in visited || cur !in nodes) {
      assert cur in nodes.Keys - visited;
      var rest := Walk(nodes, nodes[cur].parent, visited + {cur});
      assert ([nodes[cur]] + rest)[1..] == rest;
      if nodes[cur].branch == branch {
        WalkAfterCompact(nodes, branch, nodes[cur].parent, visited + {cur});
      }
    }
  }

  lemma ReverseOfPrefix<T>(s: seq<T>, k: nat)
    requires k <= |s|
    ensures Reverse(s[..k]) == Reverse(s)[|s| - k..]
  {
  }

  /** After compaction the context is the longest suffix of the earlier context that lies wholly
      on the active branch: all of it is on the branch, and the entry just before it is not. */
  lemma CompactKeepsLongestSuffix(nodes: map<string, Node>, branch: string, leaf: string)
    ensures var before, after := Context(nodes, leaf), Context(KeepBranch(nodes, branch), leaf);
            && |after| <= |before| && after == before[|before| - |after|..]
            && (forall i :: 0 <= i < |after| ==> after[i].branch == branch)
            && (|after| < |before| ==> before[|before| - |after| - 1].branch != branch)
  {
    var path := Walk(nodes, leaf, {});
    WalkAfterCompact(nodes, branch, leaf, {});
    NearIsSuffix(path, NearPart(path, branch), branch);
  }

  lemma NearIsSuffix(path: seq<Node>, near: seq<Node>, branch: string)
    requires near <= path && (forall n :: n in near ==> n.branch == branch)
    requires |near| < |path| ==> path[|near|].branch != branch
    ensures var before, after := Reverse(path), Reverse(near);
            && after == before[|before| - |after|..] && (forall i :: 0 <= i < |after| ==> after[i].branch == branch)
            && (|after| < |before| ==> before[|before| - |after| - 1].branch != branch)
  {
    assert near == path[..|near|];
    ReverseOfPrefix(path, |near|);
    assert forall i :: 0 <= i < |near| ==> near[i] in near;
  }

  // ---- Compaction and reload ----

  function NodeLines(ns: seq<Node>): (lines: seq<Record>)
    ensures |lines| == |ns|
  {
    seq(|ns|, i requires 0 <= i < |ns| => NodeLine(ns[i]))
  }

  /** `ns` lists the nodes of a map, each once, in some order. */
  ghost predicate Lists(ns: seq<Node>, nodes: map<string, Node>) {
    && (forall i :: 0 <= i < |ns| ==> ns[i].id in nodes && nodes[ns[i].id] == ns[i])
    && (forall id :: id in nodes ==> nodes[id] in ns)
    && (forall i, j :: 0 <= i < j < |ns| ==> ns[i].id != ns[j].id)
  }

  /** The branches are those of a fresh load, but for a placeholder for the active branch. */
  ghost predicate PlaceholderOnly(branches: map<string, Branch>, active: string) {
    branches[active := Branch("", "", "", "")] == OPENED.branches[active := Branch("", "", "", "")] &&
    (active == "main" ==> branches == OPENED.branches)
  }

  /** The nodes of `ns`, filed by id. */
  ghost predicate Files(ns: seq<Node>, nodes: map<string, Node>) {
    && (forall id :: id in nodes ==> nodes[id].id == id && nodes[id] in ns)
    && (forall n :: n in ns ==> n.id in nodes && nodes[n.id] == n)
  }

  lemma FileOneMore(ns: seq<Node>, nodes: map<string, Node>, n: Node)
    requires Files(ns, nodes) && n.id !in nodes
    ensures Files(ns + [n], nodes[n.id := n])
  {
  }

  ghost predicate LoadsTo(ns: seq<Node>, active: string, got: Index) {
    && Files(ns, got.nodes) && ChildrenExact(got.nodes, got.children)
    && PlaceholderOnly(got.branches, active) && IdsIn(NodeLines(ns)) == got.nodes.Keys
  }

  lemma OneMoreLine(was: Index, seen: set<string>, n: Node, active: string, now: string)
    requires active != "" && n.branch == active && n.id != "" && n.id !in was.nodes && seen == was.nodes.Keys
    requires ChildrenExact(was.nodes, was.children) && PlaceholderOnly(was.branches, active)
    ensures var got := LoadRecord(was, seen, NodeLine(n), now);
            && got.nodes == was.nodes[n.id := n]
            && ChildrenExact(got.nodes, got.children) && PlaceholderOnly(got.branches, active)
  {
    AddKeepsChildrenExact(was, n);
  }

  lemma OneMoreLoads(init: seq<Node>, n: Node, active: string, clock: nat -> string)
    requires active != "" && n.branch == active && n.id != "" && forall m :: m in init ==> m.id != n.id
    requires LoadsTo(init, active, Load(OPENED, NodeLines(init), clock))
    ensures LoadsTo(init + [n], active, Load(OPENED, NodeLines(init + [n]), clock))
  {
    var was := Load(OPENED, NodeLines(init), clock);
    assert n.id !in was.nodes;
    OneMoreLine(was, IdsIn(NodeLines(init)), n, active, clock(|init|));
    FileOneMore(init, was.nodes, n);
    assert NodeLines(init + [n]) == NodeLines(init) + [NodeLine(n)];
    LoadSnoc(OPENED, NodeLines(init), NodeLine(n), clock);
    IdsSnoc(NodeLines(init), NodeLine(n));
  }

  lemma {:induction false} NodesReload(ns: seq<Node>, active: string, clock: nat -> string)
    requires active != ""
    requires forall i :: 0 <= i < |ns| ==> ns[i].id != "" && ns[i].branch == active
    requires forall i, j :: 0 <= i < j < |ns| ==> ns[i].id != ns[j].id
    ensures LoadsTo(ns, active, Load(OPENED, NodeLines(ns), clock))
    decreases |ns|
  {
    if ns == [] {
      assert IdsIn([]) == {};
    } else {
      var k := |ns| - 1;
      NodesReload(ns[..k], active, clock);
      forall m | m in ns[..k] ensures m.id != ns[k].id {}
      OneMoreLoads(ns[..k], ns[k], active, clock);
      assert ns == ns[..k] + [ns[k]];
    }
  }

  /** The file compaction writes: the branch's nodes in hash-map order, then the branch's meta. */
  function CompactLog(ns: seq<Node>, branches: map<string, Branch>, active: string): seq<Record> {
    NodeLines(ns) + if active in branches then [BranchLine(branches[active])] else []
  }

  /** What compaction leaves, the hash map having been walked in this order: the file as above, and in memory
      the active branch alone. */
  ghost predicate Compacted(s: Session, order: seq<Node>, s': Session) {
    && Lists(order, KeepBranch(s.ix.nodes, s.current)) && s'.log == CompactLog(order, s.ix.branches, s.current)
    && s'.ix.nodes == KeepBranch(s.ix.nodes, s.current) && ChildrenExact(s'.ix.nodes, s'.ix.children)
    && s'.ix.branches == (if s.current in s.ix.branches then map[s.current := s.ix.branches[s.current]] else map[])
    && s'.current == s.current && s'.nodeCounter == s.nodeCounter && s'.branchCounter == s.branchCounter
  }

  lemma SameNodes(ns: seq<Node>, a: map<string, Node>, b: map<string, Node>)
    requires Lists(ns, a) && Files(ns, b) && Keyed(a)
    ensures a == b
  {
    forall id | id in a ensures id in b && b[id] == a[id] {
      assert a[id] in ns;
    }
    forall id | id in b ensures id in a {
      var i :| 0 <= i < |ns| && ns[i] == b[id];
    }
  }

  /** Whatever order the hash map was walked in, the compacted file loads to the kept nodes, to
      their children, and to the active branch's own meta: a placeholder made for an early node
      line is overwritten by the meta line after it. */
  lemma CompactReloads(ix: Index, active: string, ns: seq<Node>, kept: map<string, set<string>>, clock: nat -> string)
    requires Keyed(ix.nodes) && active != "" && active in ix.branches && ix.branches[active].id == active
    requires Lists(ns, KeepBranch(ix.nodes, active))
    requires ChildrenExact(KeepBranch(ix.nodes, active), kept)
    ensures Load(OPENED, CompactLog(ns, ix.branches, active), clock) ==
            Index(KeepBranch(ix.nodes, active), kept, OPENED.branches[active := ix.branches[active]])
  {
    var nodes, meta := KeepBranch(ix.nodes, active), ix.branches[active];
    NodesReload(ns, active, clock);
    var got := Load(OPENED, NodeLines(ns), clock);
    SameNodes(ns, nodes, got.nodes);
    ChildrenDetermined(nodes, got.children, kept);
    LoadSnoc(OPENED, NodeLines(ns), BranchLine(meta), clock);
    SamePlusMeta(got.branches, active, meta);
  }

  lemma SamePlusMeta(branches: map<string, Branch>, active: string, meta: Branch)
    requires PlaceholderOnly(branches, active)
    ensures branches[active := meta] == OPENED.branches[active := meta]
  {
    var none := Branch("", "", "", "");
    assert branches[active := none][active := meta] == OPENED.branches[active := none][active := meta];
    assert branches[active := none][active := meta] == branches[active := meta];
    assert OPENED.branches[active := none][active := meta] == OPENED.branches[active := meta];
  }

  /** Compaction also drops main from memory while a reload always has it, so the branch indexes
      agree exactly when main is the active branch. */
  lemma CompactBranchesAgree(ix: Index, active: string)
    requires active in ix.branches
    ensures OPENED.branches[active := ix.branches[active]] == map[active := ix.branches[active]] <==> active == "main"
  {
    var reloaded := OPENED.branches[active := ix.branches[active]];
    assert "main" in reloaded;
  }

  /** The first node of main, forked, with its only child on the side branch; main is current. */
  lemma OnlyChildAside() returns (states: seq<Session>, ops: seq<Op>)
    ensures Run(states, ops) && states[0] == FRESH && |ops| == 4 && forall op :: op in ops ==> !op.Rename?
    ensures var x, z, side := NodeId(1), NodeId(2), BranchId(1);
            && states[4].ix.nodes ==
                map[x := Node(x, "", "main", Message("first")), z := Node(z, x, side, Message("aside"))]
            && states[4].ix.children == map[x := {z}] && side != "main" && x != z
            && states[4].ix.branches == OPENED.branches[side := Branch(side, "side", x, "0")]
            && states[4].current == "main" && states[4].nodeCounter == 2
  {
    var x, z, side := NodeId(1), NodeId(2), BranchId(1);
    if x == z { NodeIdsDiffer(1, 2); }
    assert side[0] == 'b' && side != "main";
    var a := Appended(FRESH, "", "first");
    var b := Forked(a, x, "side", "0");
    var c := Appended(b, x, "aside");
    var d := c.(current := "main");
    states, ops := [FRESH, a, b, c, d], [Append("first"), Fork(x, "side", "0"), Append("aside"), Switch("main")];
    assert a.ix.nodes == map[x := Node(x, "", "main", Message("first"))] && a.ix.children == map[];
    assert ParentChoice(FRESH.ix, "main", "");
    assert Step(FRESH, ops[0], a) && Step(a, ops[1], b);
    assert !HasLeaf(b.ix, side);
    assert ParentChoice(b.ix, side, x);
    assert Step(b, ops[2], c) && Step(c, ops[3], d);
    assert {} + {z} == {z};
    assert c.ix.children == map[x := {} + {z}];
  }

  lemma AppendedRoot(s: Session)
    requires var x, z := NodeId(1), NodeId(2);
             && s.ix.nodes ==
                map[x := Node(x, "", "main", Message("first")), z := Node(z, x, BranchId(1), Message("aside"))]
             && s.ix.children == map[x := {z}] && BranchId(1) != "main" && x != z
             && s.ix.branches == OPENED.branches[BranchId(1) := Branch(BranchId(1), "side", x, "0")]
             && s.current == "main" && s.nodeCounter == 2
    ensures Step(s, Append("second"), Appended(s, "", "second"))
  {
    assert !HasLeaf(s.ix, "main");
    assert ParentChoice(s.ix, "main", "");
  }

  /** A run after which a branch is not one chain, and whose compaction leaves it two leaves: the
      first node of main got its only child on a side branch, so the next append on main started
      a new root; compaction then drops that child. */
  lemma CompactCanMakeTwoLeaves()
    returns (states: seq<Session>, ops: seq<Op>, x: string, y: string)
    ensures Run(states, ops) && states[0] == FRESH && |ops| == 5 && forall op :: op in ops ==> !op.Rename?
    ensures x != y && LeafOf(states[5].ix, "main", y) && !LeafOf(states[5].ix, "main", x)
    ensures forall kept :: ChildrenExact(KeepBranch(states[5].ix.nodes, "main"), kept) ==>
              var ix := Index(KeepBranch(states[5].ix.nodes, "main"), kept, states[5].ix.branches);
              LeafOf(ix, "main", x) && LeafOf(ix, "main", y)
  {
    states, ops := OnlyChildAside();
    var d := states[4];
    AppendedRoot(d);
    var e := Appended(d, "", "second");
    states, ops := states + [e], ops + [Append("second")];
    x, y := NodeId(1), NodeId(3);
    if x == y { NodeIdsDiffer(1, 3); }
    if NodeId(2) == y { NodeIdsDiffer(2, 3); }
    assert e.ix.nodes == d.ix.nodes[y := Node(y, "", "main", Message("second"))] && e.ix.children == d.ix.children;
    forall kept | ChildrenExact(KeepBranch(e.ix.nodes, "main"), kept) ensures kept == map[] {
      RootsHaveNoChildren(KeepBranch(e.ix.nodes, "main"), kept);
    }
  }

  lemma RootsHaveNoChildren(nodes: map<string, Node>, children: map<string, set<string>>)
    requires ChildrenExact(nodes, children) && forall id :: id in nodes ==> nodes[id].parent == ""
    ensures children == map[]
  {
    ChildrenDetermined(nodes, children, map[]);
  }

  // ---- Migration ----

  ghost predicate HoldsLink(nodes: map<string, Node>, messages: seq<Json>, i: nat)
    requires i < |messages|
  {
    NodeId(i + 1) in nodes && nodes[NodeId(i + 1)] == ChainNode(messages, i)
  }

  lemma LinkStays(was: map<string, Node>, messages: seq<Json>, k: nat, i: nat)
    requires i < k < |messages| && HoldsLink(was, messages, i)
    ensures HoldsLink(was[NodeId(k + 1) := ChainNode(messages, k)], messages, i)
  {
    if NodeId(i + 1) == NodeId(k + 1) { NodeIdsDiffer(i + 1, k + 1); }
  }

  lemma {:induction false} ChainNodes(started: Session, messages: seq<Json>, k: nat)
    requires k <= |messages| < TWO_TO_64
    ensures forall i :: 0 <= i < k ==> HoldsLink(ChainOf(started, messages, k).ix.nodes, messages, i)
    decreases k
  {
    if k > 0 {
      ChainNodes(started, messages, k - 1);
      var was, nodes := ChainOf(started, messages, k - 1).ix.nodes, ChainOf(started, messages, k).ix.nodes;
      assert nodes == was[NodeId(k) := ChainNode(messages, k - 1)];
      forall i | 0 <= i < k - 1 ensures HoldsLink(nodes, messages, i) { LinkStays(was, messages, k - 1, i); }
    }
  }

  function Contents(path: seq<Node>): seq<Content> {
    seq(|path|, i requires 0 <= i < |path| => path[i].content)
  }

  /** The leaf the scans find on main: the last message's node. */
  lemma MigratedLeaf(messages: seq<Json>, createdAt: string, leaf: string)
    requires 0 < |messages| < TWO_TO_64 && LeafOf(Migrated(messages, createdAt).ix, "main", leaf)
    ensures leaf == NodeId(|messages|)
  {
    var started := FRESH.(ix := OPENED.(branches := map["main" := Branch("main", "main", "", createdAt)]));
    StartHasOneLeaf(FromLegacy(messages, createdAt));
    assert IdsIn([]) == {};
    ChainHasOneLeaf(messages, |messages|, started, (k: nat) => "");
    assert LeafOf(Migrated(messages, createdAt).ix, "main", NodeId(|messages|));
  }

  lemma MigratedWalk(messages: seq<Json>, createdAt: string)
    requires 0 < |messages| < TWO_TO_64
    ensures var w := Walk(Migrated(messages, createdAt).ix.nodes, NodeId(|messages|), {});
            |w| == |messages| && forall i :: 0 <= i < |w| ==> w[i] == ChainNode(messages, |messages| - 1 - i)
  {
    var started := FRESH.(ix := OPENED.(branches := map["main" := Branch("main", "main", "", createdAt)]));
    var nodes := Migrated(messages, createdAt).ix.nodes;
    assert nodes == ChainOf(started, messages, |messages|).ix.nodes;
    ChainNodes(started, messages, |messages|);
    var path := seq(|messages|, i requires 0 <= i < |messages| => ChainNode(messages, |messages| - 1 - i));
    ChainIsAncestry(messages, nodes, path);
    assert Keyed(nodes) by { MigratedInv(messages, createdAt, (k: nat) => ""); }
    WalkIsAncestry(nodes, NodeId(|messages|));
    AncestryIsUnique(nodes, NodeId(|messages|), path, Walk(nodes, NodeId(|messages|), {}));
  }

  /** Migrating a message list and rebuilding the context from main's leaf gives back exactly the
      messages, in order. */
  lemma MigrationKeepsMessages(messages: seq<Json>, createdAt: string, leaf: string)
    requires |messages| < TWO_TO_64
    requires var ix := Migrated(messages, createdAt).ix;
             if HasLeaf(ix, "main") then LeafOf(ix, "main", leaf) else leaf == ""
    ensures Contents(Context(Migrated(messages, createdAt).ix.nodes, leaf)) == messages
  {
    var ix := Migrated(messages, createdAt).ix;
    if messages == [] {
      assert !HasLeaf(ix, "main");
      assert Walk(ix.nodes, leaf, {}) == [];
    } else {
      assert HasLeaf(ix, "main") by { MigratedHasLeaf(messages, createdAt); }
      MigratedLeaf(messages, createdAt, leaf);
      MigratedWalk(messages, createdAt);
    }
  }

  lemma MigratedHasLeaf(messages: seq<Json>, createdAt: string)
    requires 0 < |messages| < TWO_TO_64
    ensures HasLeaf(Migrated(messages, createdAt).ix, "main")
  {
    var started := FRESH.(ix := OPENED.(branches := map["main" := Branch("main", "main", "", createdAt)]));
    assert IdsIn([]) == {};
    ChainHasOneLeaf(messages, |messages|, started, (k: nat) => "");
    assert LeafOf(Migrated(messages, createdAt).ix, "main", NodeId(|messages|));
  }

  lemma ChainIsAncestry(messages: seq<Json>, nodes: map<string, Node>, path: seq<Node>)
    requires messages != [] && Backwards(messages, path)
    requires forall i :: 0 <= i < |messages| ==> HoldsLink(nodes, messages, i)
    ensures Ancestry(nodes, NodeId(|messages|), path)
  {
    PathIsStored(messages, nodes, path);
    PathIsLinked(messages, path);
    PathRepeatsNothing(messages, path);
    ChainEnds(messages, path);
  }

  /** The chain, last message first. */
  ghost predicate Backwards(messages: seq<Json>, path: seq<Node>) {
    |path| == |messages| && forall i :: 0 <= i < |path| ==> path[i] == ChainNode(messages, |messages| - 1 - i)
  }

  lemma PathIsStored(messages: seq<Json>, nodes: map<string, Node>, path: seq<Node>)
    requires Backwards(messages, path) && forall i :: 0 <= i < |messages| ==> HoldsLink(nodes, messages, i)
    ensures forall i :: 0 <= i < |path| ==> path[i].id in nodes && path[i].id != "" && nodes[path[i].id] == path[i]
  {
    forall i | 0 <= i < |path| ensures path[i].id in nodes && path[i].id != "" && nodes[path[i].id] == path[i] {
      LinkIsStored(messages, nodes, |messages| - 1 - i);
    }
  }

  lemma PathIsLinked(messages: seq<Json>, path: seq<Node>)
    requires Backwards(messages, path)
    ensures forall i :: 0 < i < |path| ==> path[i].id == path[i - 1].parent
  {
    forall i | 0 < i < |path| ensures path[i].id == path[i - 1].parent { LinksMeet(messages, |messages| - i); }
  }

  lemma PathRepeatsNothing(messages: seq<Json>, path: seq<Node>)
    requires Backwards(messages, path)
    ensures forall i, j :: 0 <= i < j < |path| ==> path[i].id != path[j].id
  {
    forall i, j | 0 <= i < j < |path| ensures path[i].id != path[j].id {
      LinksDiffer(messages, |messages| - 1 - i, |messages| - 1 - j);
    }
  }

  lemma ChainEnds(messages: seq<Json>, path: seq<Node>)
    requires messages != [] && Backwards(messages, path)
    ensures path[0].id == NodeId(|messages|) != "" && path[|path| - 1].parent == ""
  {
    assert path[0] == ChainNode(messages, |messages| - 1) && path[|path| - 1] == ChainNode(messages, 0);
  }

  lemma LinkIsStored(messages: seq<Json>, nodes: map<string, Node>, k: nat)
    requires k < |messages| && HoldsLink(nodes, messages, k)
    ensures var n := ChainNode(messages, k); n.id in nodes && n.id != "" && nodes[n.id] == n
  {
  }

  lemma LinksMeet(messages: seq<Json>, k: nat)
    requires 0 < k < |messages|
    ensures ChainNode(messages, k).parent == ChainNode(messages, k - 1).id
  {
  }

  lemma LinksDiffer(messages: seq<Json>, a: nat, b: nat)
    requires a < |messages| && b < |messages| && a != b
    ensures ChainNode(messages, a).id != ChainNode(messages, b).id
  {
    if NodeId(a + 1) == NodeId(b + 1) { NodeIdsDiffer(a + 1, b + 1); }
  }
}
