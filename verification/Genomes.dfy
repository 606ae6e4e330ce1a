/** The genome store: versions of an agent's harness, each forked from an earlier one. */
module Genomes {
  import opened Options

  datatype Spec = Spec(harness: string, tools: seq<string>, budget: nat, modelRouting: string, cachePrefix: string)

  datatype Parent = NoParent | Of(name: string, version: nat)

  datatype Genome = Genome(name: string, version: nat, parent: Parent, captureMode: string, spec: Spec)

  datatype GenomeError = NotFound | SchemaViolation | IntegrityViolation | BrokenLineage | IOError

  datatype Result<+T> = Ok(value: T) | Err(error: GenomeError)

  type Key = (string, nat)
  type Store = map<Key, Genome>

  /** What the file system and the signature check do during one call. */
  datatype Disk = Disk(reading: Option<GenomeError>, writing: Option<GenomeError>)

  const MAX_LINEAGE: nat := 10000

  predicate ValidMode(mode: string) {
    mode == "mock" || mode == "real" || mode == "hybrid"
  }

  // ---- Operations ----

  /** The walk up the parents that guards loading and committing: the `depth + 1`-th ancestor is at
      `key`. */
  function CheckLineage(store: Store, key: Key, seen: set<Key>, depth: nat): Result<bool>
    requires depth <= MAX_LINEAGE
    decreases MAX_LINEAGE - depth
  {
    if depth == MAX_LINEAGE then Err(BrokenLineage)
    else if key in seen then Err(BrokenLineage)
    else if key !in store then Err(NotFound)
    else
      match store[key].parent
      case NoParent => Ok(true)
      case Of(name, version) => CheckLineage(store, (name, version), seen + {key}, depth + 1)
  }

  function CheckParent(store: Store, parent: Parent): Result<bool> {
    match parent
    case NoParent => Ok(true)
    case Of(name, version) => CheckLineage(store, (name, version), {}, 0)
  }

  function Load(store: Store, key: Key, disk: Disk): Result<Genome> {
    if key !in store then Err(NotFound)
    else
      var g := store[key];
      if !ValidMode(g.captureMode) || g.version != key.1 then Err(SchemaViolation)
      else if disk.reading.Some? then Err(disk.reading.value)
      else
        match CheckParent(store, g.parent)
        case Err(e) => Err(e)
        case Ok(_) => Ok(g)
  }

  function Versions(store: Store, name: string): set<nat> {
    set k | k in store && k.0 == name :: k.1
  }

  predicate IsNext(versions: set<nat>, next: nat) {
    next >= 1 && (forall v :: v in versions ==> v < next) && (next > 1 ==> next - 1 in versions)
  }

  ghost function Next(versions: set<nat>): (next: nat)
    ensures IsNext(versions, next)
  {
    if versions == {} then 1
    else
      var v :| v in versions;
      var rest := Next(versions - {v});
      assert versions == (versions - {v}) + {v};
      if v >= rest then v + 1 else rest
  }

  lemma NextIsUnique(versions: set<nat>, a: nat, b: nat)
    requires IsNext(versions, a) && IsNext(versions, b)
    ensures a == b
  {
  }

  /** The result of committing a genome, and the store after it. */
  ghost function Committed(store: Store, g: Genome, disk: Disk): (Result<nat>, Store) {
    if g.name == "" || !ValidMode(g.captureMode) then (Err(SchemaViolation), store)
    else
      match CheckParent(store, g.parent)
      case Err(e) => (Err(e), store)
      case Ok(_) =>
        if disk.writing.Some? then (Err(disk.writing.value), store)
        else
          var next := Next(Versions(store, g.name));
          (Ok(next), store[(g.name, next) := g.(version := next)])
  }

  /** What a mutation leaves unset is taken from the parent. */
  function Merge(parent: Spec, mutation: Spec): Spec {
    Spec(if mutation.harness != "" then mutation.harness else parent.harness,
         if mutation.tools != [] then mutation.tools else parent.tools,
         if mutation.budget != 0 then mutation.budget else parent.budget,
         if mutation.modelRouting != "" then mutation.modelRouting else parent.modelRouting,
         if mutation.cachePrefix != "" then mutation.cachePrefix else parent.cachePrefix)
  }

  function Child(parent: Genome, key: Key, mutation: Spec): Genome {
    Genome(key.0, 0, Of(key.0, key.1), parent.captureMode, Merge(parent.spec, mutation))
  }

  /** The child as it is stored. */
  function Born(store: Store, name: string, version: nat, mutation: Spec, next: nat): Genome
    requires (name, version) in store
  {
    Child(store[(name, version)], (name, version), mutation).(version := next)
  }

  ghost function Forked(store: Store, name: string, version: nat, mutation: Spec, disk: Disk): (Result<nat>, Store) {
    match Load(store, (name, version), disk)
    case Err(e) => (Err(e), store)
    case Ok(parent) => Committed(store, Child(parent, (name, version), mutation), disk)
  }

  // ---- What commits and forks keep ----

  ghost predicate WellPlaced(store: Store, k: Key)
    requires k in store
  {
    var g := store[k];
    && g.name == k.0 && g.name != "" && g.version == k.1 && k.1 >= 1 && ValidMode(g.captureMode)
    && (g.parent.Of? ==> g.parent.name == k.0 && g.parent.version < k.1 && (k.0, g.parent.version) in store)
  }

  /** Every genome's parent is an earlier version under the same name. */
  ghost predicate WellFormed(store: Store) {
    forall k :: k in store ==> WellPlaced(store, k)
  }

  /** How many genomes there are from this one up to its root. */
  ghost function Generations(store: Store, k: Key): nat
    requires WellFormed(store) && k in store
    decreases k.1
  {
    assert WellPlaced(store, k);
    match store[k].parent
    case NoParent => 1
    case Of(_, version) => 1 + Generations(store, (k.0, version))
  }

  /** In a well-formed store only the depth cap can stop the lineage check. */
  lemma {:induction false} LineageIffShallow(store: Store, k: Key, seen: set<Key>, depth: nat)
    requires WellFormed(store) && k in store && depth <= MAX_LINEAGE
    requires forall s :: s in seen ==> s.1 > k.1
    ensures CheckLineage(store, k, seen, depth).Ok? <==> depth + Generations(store, k) <= MAX_LINEAGE
    decreases k.1
  {
    assert WellPlaced(store, k);
    if depth < MAX_LINEAGE && store[k].parent.Of? {
      LineageIffShallow(store, (k.0, store[k].parent.version), seen + {k}, depth + 1);
    }
  }

  lemma ParentIffShallow(store: Store, g: Genome)
    requires WellFormed(store)
    requires g.parent.Of? ==> (g.parent.name, g.parent.version) in store
    ensures CheckParent(store, g.parent).Ok? <==>
            (g.parent.Of? ==> Generations(store, (g.parent.name, g.parent.version)) <= MAX_LINEAGE)
  {
    if g.parent.Of? { LineageIffShallow(store, (g.parent.name, g.parent.version), {}, 0); }
  }

  /** Loading gives what is stored, and fails only on a missing key, trouble on disk, or too long a
      lineage. */
  lemma LoadIff(store: Store, k: Key, disk: Disk)
    requires WellFormed(store)
    ensures Load(store, k, disk).Ok? <==>
            k in store && disk.reading.None? && Generations(store, k) <= MAX_LINEAGE + 1
    ensures Load(store, k, disk).Ok? ==> Load(store, k, disk).value == store[k]
  {
    if k in store {
      assert WellPlaced(store, k);
      ParentIffShallow(store, store[k]);
    }
  }

  lemma MissingParent(store: Store, g: Genome)
    requires g.parent.Of? && CheckParent(store, g.parent).Ok?
    ensures (g.parent.name, g.parent.version) in store
  {
  }

  /** A failed commit stores nothing; a successful one stores one genome under a version larger than
      any before it, and the store stays well formed. */
  lemma CommitKeeps(store: Store, g: Genome, disk: Disk)
    requires WellFormed(store) && (g.parent.Of? ==> g.parent.name == g.name)
    ensures var (r, after) := Committed(store, g, disk);
            && WellFormed(after)
            && (r.Err? ==> after == store)
            && (r.Ok? ==> && after == store[(g.name, r.value) := g.(version := r.value)]
                          && forall v :: (g.name, v) in store ==> v < r.value)
  {
    var (r, after) := Committed(store, g, disk);
    if r.Ok? {
      if g.parent.Of? { MissingParent(store, g); }
      assert forall v :: (g.name, v) in store ==> v in Versions(store, g.name);
      var k := (g.name, r.value);
      forall o | o in after ensures WellPlaced(after, o) {
        if o != k { assert WellPlaced(store, o); }
      }
    }
  }

  /** A fork succeeds exactly when its parent is there and not too far down, and the disk obeys; the
      child is one version later than all, under its parent, with the merged spec. */
  lemma ForkIff(store: Store, name: string, version: nat, mutation: Spec, disk: Disk)
    requires WellFormed(store)
    ensures var (r, after) := Forked(store, name, version, mutation, disk);
            && WellFormed(after)
            && (r.Ok? <==> (name, version) in store && disk == Disk(None, None)
                           && Generations(store, (name, version)) <= MAX_LINEAGE)
            && (r.Err? ==> after == store)
            && (r.Ok? ==> && after == store[(name, r.value) := Born(store, name, version, mutation, r.value)]
                          && version < r.value && (name, r.value) !in store)
  {
    var k := (name, version);
    LoadIff(store, k, disk);
    if Load(store, k, disk).Ok? {
      assert WellPlaced(store, k);
      var child := Child(store[k], k, mutation);
      ParentIffShallow(store, child);
      CommitKeeps(store, child, disk);
    }
  }

  /** Field by field: what the mutation sets is the mutation's, and what it leaves unset is the parent's. */
  lemma ForkInherits(store: Store, name: string, version: nat, mutation: Spec, disk: Disk)
    requires WellFormed(store) && Forked(store, name, version, mutation, disk).0.Ok?
    ensures var (r, after) := Forked(store, name, version, mutation, disk);
            (name, version) in store && (name, r.value) in after &&
            var parent, child := store[(name, version)].spec, after[(name, r.value)].spec;
            && child.harness == (if mutation.harness == "" then parent.harness else mutation.harness)
            && child.tools == (if mutation.tools == [] then parent.tools else mutation.tools)
            && child.budget == (if mutation.budget == 0 then parent.budget else mutation.budget)
            && child.modelRouting ==
               (if mutation.modelRouting == "" then parent.modelRouting else mutation.modelRouting)
            && child.cachePrefix == (if mutation.cachePrefix == "" then parent.cachePrefix else mutation.cachePrefix)
    ensures var (r, after) := Forked(store, name, version, mutation, disk);
            var child := after[(name, r.value)];
            && child.name == name && child.version == r.value && child.parent == Of(name, version)
            && child.captureMode == store[(name, version)].captureMode
  {
    ForkIff(store, name, version, mutation, disk);
  }

  // ---- Which error ----

  lemma {:induction false} DeepLineage(store: Store, k: Key, seen: set<Key>, depth: nat)
    requires WellFormed(store) && k in store && depth <= MAX_LINEAGE
    ensures CheckLineage(store, k, seen, depth).Err? ==> CheckLineage(store, k, seen, depth).error == BrokenLineage
    decreases k.1
  {
    assert WellPlaced(store, k);
    if depth < MAX_LINEAGE && store[k].parent.Of? {
      DeepLineage(store, (k.0, store[k].parent.version), seen + {k}, depth + 1);
    }
  }

  /** What stands against a parent. */
  lemma ParentAnswer(store: Store, parent: Parent)
    requires WellFormed(store)
    ensures CheckParent(store, parent) ==
            if parent.NoParent? then Ok(true)
            else if (parent.name, parent.version) !in store then Err(NotFound)
            else if Generations(store, (parent.name, parent.version)) > MAX_LINEAGE then Err(BrokenLineage)
            else Ok(true)
  {
    if parent.Of? && (parent.name, parent.version) in store {
      LineageIffShallow(store, (parent.name, parent.version), {}, 0);
      DeepLineage(store, (parent.name, parent.version), {}, 0);
      if CheckParent(store, parent).Ok? { LineageIsTrue(store, (parent.name, parent.version), {}, 0); }
    }
  }

  lemma {:induction false} LineageIsTrue(store: Store, k: Key, seen: set<Key>, depth: nat)
    requires depth <= MAX_LINEAGE && CheckLineage(store, k, seen, depth).Ok?
    ensures CheckLineage(store, k, seen, depth) == Ok(true)
    decreases MAX_LINEAGE - depth
  {
    if store[k].parent.Of? {
      LineageIsTrue(store, (store[k].parent.name, store[k].parent.version), seen + {k}, depth + 1);
    }
  }

  /** Loading: a key that is not there, then the disk, then the lineage. */
  lemma LoadAnswers(store: Store, k: Key, disk: Disk)
    requires WellFormed(store)
    ensures Load(store, k, disk) ==
            if k !in store then Err(NotFound)
            else if disk.reading.Some? then Err(disk.reading.value)
            else if Generations(store, k) > 10001 then Err(BrokenLineage)
            else Ok(store[k])
  {
    if k in store {
      assert WellPlaced(store, k);
      ParentAnswer(store, store[k].parent);
    }
  }

  /** In any store, what loads carries the version it was asked for and a mode there is; anything else stored there
      is refused. */
  lemma LoadRefuses(store: Store, k: Key, disk: Disk)
    requires k in store
    ensures Load(store, k, disk).Ok? ==>
              Load(store, k, disk).value == store[k] && store[k].version == k.1 &&
              store[k].captureMode in ["mock", "real", "hybrid"]
    ensures store[k].version != k.1 || store[k].captureMode !in ["mock", "real", "hybrid"] ==>
              Load(store, k, disk) == Err(SchemaViolation)
  {
  }

  /** Committing: the genome itself, then its parent, then the disk; the version is the successor of the largest
      one there, or 1. */
  lemma CommitAnswers(store: Store, g: Genome, disk: Disk)
    requires WellFormed(store)
    ensures var r := Committed(store, g, disk).0;
            if g.name == "" || g.captureMode !in ["mock", "real", "hybrid"] then r == Err(SchemaViolation)
            else if g.parent.Of? && (g.parent.name, g.parent.version) !in store then r == Err(NotFound)
            else if g.parent.Of? && Generations(store, (g.parent.name, g.parent.version)) > 10000
            then r == Err(BrokenLineage)
            else if disk.writing.Some? then r == Err(disk.writing.value)
            else
              && r.Ok? && r.value >= 1 && (r.value > 1 ==> (g.name, r.value - 1) in store)
              && forall v :: (g.name, v) in store ==> v < r.value
  {
    ParentAnswer(store, g.parent);
    assert forall v :: (g.name, v) in store ==> v in Versions(store, g.name);
  }

  /** Forking: the parent, reading, the lineage, then writing. */
  lemma ForkAnswers(store: Store, name: string, version: nat, mutation: Spec, disk: Disk)
    requires WellFormed(store)
    ensures var r := Forked(store, name, version, mutation, disk).0;
            if (name, version) !in store then r == Err(NotFound)
            else if disk.reading.Some? then r == Err(disk.reading.value)
            else if Generations(store, (name, version)) > 10000 then r == Err(BrokenLineage)
            else if disk.writing.Some? then r == Err(disk.writing.value)
            else r.Ok? && r.value > version && (name, r.value - 1) in store
  {
    LoadAnswers(store, (name, version), disk);
    if (name, version) in store && Load(store, (name, version), disk).Ok? {
      assert WellPlaced(store, (name, version));
      CommitAnswers(store, Child(store[(name, version)], (name, version), mutation), disk);
    }
  }

  // ---- Walking up ----

  /** The genome at a version and its ancestors, closest first. A cycle, a missing ancestor and a
      parent under another name are all broken lineage. */
  function Walk(store: Store, name: string, version: nat, seen: set<Key>): Result<seq<Genome>>
    decreases store.Keys - seen
  {
    var k := (name, version);
    if k in seen then Err(BrokenLineage)
    else if k !in store then Err(if seen == {} then NotFound else BrokenLineage)
    else
      match store[k].parent
      case NoParent => Ok([store[k]])
      case Of(n, v) => if n != name then Err(BrokenLineage) else After([store[k]], Walk(store, name, v, seen + {k}))
  }

  function After(walked: seq<Genome>, rest: Result<seq<Genome>>): Result<seq<Genome>> {
    match rest
    case Err(e) => Err(e)
    case Ok(gs) => Ok(walked + gs)
  }

  method WalkAncestors(store: Store, name: string, from: nat) returns (r: Result<seq<Genome>>)
    ensures r == Walk(store, name, from, {})
  {
    var walked: seq<Genome>, seen: set<Key>, version := [], {}, from;
    ghost var all := Walk(store, name, from, {});
    assert all.Ok? ==> [] + all.value == all.value;
    while true
      invariant After(walked, Walk(store, name, version, seen)) == Walk(store, name, from, {})
      invariant version == from || seen != {}
      invariant seen != {} ==> (name, from) in seen
      decreases store.Keys - seen
    {
      var k := (name, version);
      if k in seen { return Err(BrokenLineage); }
      if k !in store { return Err(if version == from then NotFound else BrokenLineage); }
      var g := store[k];
      ghost var before := walked;
      walked := walked + [g];
      if g.parent.NoParent? { return Ok(walked); }
      if g.parent.name != name { return Err(BrokenLineage); }
      ghost var rest := Walk(store, name, g.parent.version, seen + {k});
      assert rest.Ok? ==> before + ([g] + rest.value) == walked + rest.value;
      seen, version := seen + {k}, g.parent.version;
    }
  }

  /** The same, without the guards a well-formed store never needs. */
  ghost function Ancestors(store: Store, k: Key): seq<Genome>
    requires WellFormed(store) && k in store
    decreases k.1
  {
    assert WellPlaced(store, k);
    match store[k].parent
    case NoParent => [store[k]]
    case Of(_, version) => [store[k]] + Ancestors(store, (k.0, version))
  }

  lemma {:induction false} WalkIsAncestors(store: Store, name: string, version: nat, seen: set<Key>)
    requires WellFormed(store) && (name, version) in store
    requires forall s :: s in seen ==> s.1 > version
    ensures Walk(store, name, version, seen) == Ok(Ancestors(store, (name, version)))
    decreases version
  {
    var k := (name, version);
    assert WellPlaced(store, k);
    if store[k].parent.Of? {
      WalkIsAncestors(store, name, store[k].parent.version, seen + {k});
    }
  }

  /** Later versions do not change the ancestors of earlier ones. */
  lemma {:induction false} AncestorsStable(store: Store, more: Store, k: Key)
    requires WellFormed(store) && WellFormed(more) && k in store
    requires forall o :: o in store ==> o in more && more[o] == store[o]
    ensures Ancestors(more, k) == Ancestors(store, k) && Generations(more, k) == Generations(store, k)
    decreases k.1
  {
    assert WellPlaced(store, k) && WellPlaced(more, k);
    if store[k].parent.Of? { AncestorsStable(store, more, (k.0, store[k].parent.version)); }
  }

  // ---- Walking up any store ----

  predicate Follows(store: Store, name: string, g: Genome, next: Genome) {
    && g.parent.Of? && g.parent.name == name && (name, g.parent.version) in store
    && next == store[(name, g.parent.version)]
  }

  /** A line of parents, all stored under one name, from a version to one without parent. */
  ghost predicate IsLine(store: Store, name: string, version: nat, gs: seq<Genome>) {
    && gs != [] && (name, version) in store && gs[0] == store[(name, version)] && gs[|gs| - 1].parent.NoParent?
    && forall i :: 0 <= i < |gs| - 1 ==> Follows(store, name, gs[i], gs[i + 1])
  }

  lemma LineTail(store: Store, name: string, version: nat, gs: seq<Genome>, i: nat)
    requires IsLine(store, name, version, gs) && 0 < i < |gs|
    ensures gs[i - 1].parent.Of? && IsLine(store, name, gs[i - 1].parent.version, gs[i..])
  {
    assert Follows(store, name, gs[i - 1], gs[i]);
    forall k | 0 <= k < |gs| - i - 1 ensures Follows(store, name, gs[i..][k], gs[i..][k + 1]) {
      assert Follows(store, name, gs[i + k], gs[i + k + 1]);
    }
  }

  /** There is one such line at most. */
  lemma {:induction false} LinesAgree(store: Store, name: string, version: nat, a: seq<Genome>, b: seq<Genome>)
    requires IsLine(store, name, version, a) && IsLine(store, name, version, b)
    ensures a == b
    decreases |a|
  {
    assert |a| > 1 ==> Follows(store, name, a[0], a[1]);
    assert |b| > 1 ==> Follows(store, name, b[0], b[1]);
    if |a| > 1 && |b| > 1 {
      LineTail(store, name, version, a, 1);
      LineTail(store, name, version, b, 1);
      LinesAgree(store, name, a[0].parent.version, a[1..], b[1..]);
      assert a == [a[0]] + a[1..] && b == [b[0]] + b[1..];
    }
  }

  /** Nobody on a line has its parent among these. */
  ghost predicate Avoids(name: string, gs: seq<Genome>, seen: set<Key>) {
    forall i :: 0 <= i < |gs| - 1 && gs[i].parent.Of? ==> (name, gs[i].parent.version) !in seen
  }

  /** A line does not come back to where it starts. */
  lemma LineGoesOn(store: Store, name: string, version: nat, gs: seq<Genome>)
    requires IsLine(store, name, version, gs)
    ensures Avoids(name, gs, {(name, version)})
  {
    forall i | 0 <= i < |gs| - 1 && gs[i].parent.Of? ensures gs[i].parent.version != version {
      LineTail(store, name, version, gs, i + 1);
      if gs[i].parent.version == version { LinesAgree(store, name, version, gs, gs[i + 1..]); }
    }
  }

  lemma {:induction false} WalkFindsLine(store: Store, name: string, version: nat, seen: set<Key>, gs: seq<Genome>)
    requires IsLine(store, name, version, gs) && (name, version) !in seen && Avoids(name, gs, seen)
    ensures Walk(store, name, version, seen) == Ok(gs)
    decreases |gs|
  {
    if |gs| > 1 {
      assert Follows(store, name, gs[0], gs[1]);
      LineTail(store, name, version, gs, 1);
      LineGoesOn(store, name, version, gs);
      assert forall i :: 0 <= i < |gs| - 1 ==> gs[1..][i] == gs[i + 1];
      assert Avoids(name, gs[1..], seen + {(name, version)});
      WalkFindsLine(store, name, gs[0].parent.version, seen + {(name, version)}, gs[1..]);
      assert gs == [gs[0]] + gs[1..];
    } else {
      assert gs == [gs[0]];
    }
  }

  lemma {:induction false} WalkGivesLine(store: Store, name: string, version: nat, seen: set<Key>)
    ensures var r := Walk(store, name, version, seen);
            if r.Ok? then IsLine(store, name, version, r.value)
            else r.error == if seen == {} && (name, version) !in store then NotFound else BrokenLineage
    decreases store.Keys - seen
  {
    var k := (name, version);
    if k !in seen && k in store && store[k].parent.Of? && store[k].parent.name == name {
      var up := store[k].parent.version;
      WalkGivesLine(store, name, up, seen + {k});
      var rest := Walk(store, name, up, seen + {k});
      if rest.Ok? {
        var gs := [store[k]] + rest.value;
        assert Walk(store, name, version, seen) == Ok(gs);
        forall i | 0 <= i < |gs| - 1 ensures Follows(store, name, gs[i], gs[i + 1]) {
          if i > 0 { assert Follows(store, name, rest.value[i - 1], rest.value[i]); }
        }
      }
    }
  }

  /** In any store, well formed or not: a walk answers the line of parents if there is one, and else an error that
      tells whether the start is missing or something above it. */
  lemma WalkIsLine(store: Store, name: string, version: nat, gs: seq<Genome>)
    ensures Walk(store, name, version, {}) == Ok(gs) <==> IsLine(store, name, version, gs)
    ensures Walk(store, name, version, {}).Err? ==>
              Walk(store, name, version, {}).error ==
              if (name, version) !in store then NotFound else BrokenLineage
  {
    WalkGivesLine(store, name, version, {});
    if IsLine(store, name, version, gs) { WalkFindsLine(store, name, version, {}, gs); }
  }

  // ---- The registry object ----

  class Registry {
    var store: Store

    /** Opens a directory with whatever versions it already holds. */
    constructor (existing: Store)
      ensures store == existing
    {
      store := existing;
    }

    /** One more than the largest version in the directory. */
    method NextVersion(name: string) returns (next: nat)
      ensures next == Next(Versions(store, name))
    {
      var versions := Versions(store, name);
      var left := versions;
      next := 1;
      while left != {}
        invariant left <= versions && IsNext(versions - left, next)
        decreases left
      {
        var v :| v in left;
        if v >= next { next := v + 1; }
        assert versions - (left - {v}) == versions - left + {v};
        left := left - {v};
      }
      assert versions - {} == versions;
      NextIsUnique(versions, next, Next(versions));
    }

    method Commit(g: Genome, disk: Disk) returns (r: Result<nat>)
      modifies this
      ensures (r, store) == Committed(old(store), g, disk)
    {
      if g.name == "" || !ValidMode(g.captureMode) { return Err(SchemaViolation); }
      var next := NextVersion(g.name);
      var lineage := CheckParent(store, g.parent);
      if lineage.Err? { return Err(lineage.error); }
      if disk.writing.Some? { return Err(disk.writing.value); }
      store := store[(g.name, next) := g.(version := next)];
      r := Ok(next);
    }

    method Fork(name: string, version: nat, mutation: Spec, disk: Disk) returns (r: Result<nat>)
      modifies this
      ensures (r, store) == Forked(old(store), name, version, mutation, disk)
    {
      var parent := Load(store, (name, version), disk);
      if parent.Err? { return Err(parent.error); }
      r := Commit(Child(parent.value, (name, version), mutation), disk);
    }
  }
}
