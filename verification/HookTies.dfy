/** What priorities have to be for the outcome of the pre-hooks not to depend on the order of ties. */
module HookTies {
  import opened GlobMatcher
  import opened HookChain
  import opened Permutations

  // ---- Some order is possible ----

  lemma {:induction false} Insert<F>(e: Entry<F>, t: seq<Entry<F>>) returns (r: seq<Entry<F>>)
    requires Descending(t)
    ensures Permutes(r, [e] + t) && Descending(r)
    decreases |t|
  {
    if t == [] || t[0].priority <= e.priority {
      r := [e] + t;
    } else {
      var rest := Insert(e, t[1..]);
      r := [t[0]] + rest;
      assert t == [t[0]] + t[1..];
      SameMembers(rest, [e] + t[1..]);
      HeadAbove(t[0], rest, e, t);
    }
  }

  lemma HeadAbove<F>(head: Entry<F>, rest: seq<Entry<F>>, e: Entry<F>, t: seq<Entry<F>>)
    requires Descending(t) && Descending(rest) && t != [] && head == t[0] && head.priority > e.priority
    requires forall x :: x in rest <==> x in [e] + t[1..]
    ensures Descending([head] + rest)
  {
    forall k | 0 <= k < |rest| ensures head.priority >= rest[k].priority {
      assert rest[k] in [e] + t[1..];
    }
  }

  lemma {:induction false} SortedExists<F>(es: seq<Entry<F>>) returns (o: seq<Entry<F>>)
    ensures Permutes(o, es) && Descending(o)
    decreases |es|
  {
    if es == [] { return []; }
    var t := SortedExists(es[1..]);
    o := Insert(es[0], t);
    assert es == [es[0]] + es[1..];
  }

  // ---- Two hooks that tie ----

  function Passing(): PreHook { (a: string, t: string) => Returns(PLAIN) }

  function Denying(reason: string): PreHook { (a: string, t: string) => Returns(PreResult(Deny, reason, map[])) }

  ghost predicate Passes(e: Entry<PreHook>) {
    forall a, t :: e.hook(a, t) == Returns(PLAIN)
  }

  ghost predicate Denies(e: Entry<PreHook>, reason: string) {
    forall a, t :: e.hook(a, t) == Returns(PreResult(Deny, reason, map[]))
  }

  /** Hooks with these priorities: the i-th and the j-th deny, each for its own reason, and the others pass. */
  function Tied(ps: seq<int>, i: nat, j: nat): seq<Entry<PreHook>> {
    seq(|ps|, k requires 0 <= k < |ps| => TiedEntry(ps[k], k, i, j))
  }

  function TiedEntry(priority: int, k: nat, i: nat, j: nat): Entry<PreHook> {
    if k == i then Entry(Denying("first"), priority, FailOpen)
    else if k == j then Entry(Denying("second"), priority, FailOpen)
    else Entry(Passing(), priority, FailOpen)
  }

  lemma PassingPasses(priority: int)
    ensures Passes(Entry(Passing(), priority, FailOpen))
  {
    var e: Entry<PreHook> := Entry(Passing(), priority, FailOpen);
    forall a, t ensures e.hook(a, t) == Returns(PLAIN) { assert Passing()(a, t) == Returns(PLAIN); }
  }

  lemma DenyingDenies(priority: int, reason: string)
    ensures Denies(Entry(Denying(reason), priority, FailOpen), reason)
  {
    var e: Entry<PreHook> := Entry(Denying(reason), priority, FailOpen);
    forall a, t ensures e.hook(a, t) == Returns(PreResult(Deny, reason, map[])) {
      assert Denying(reason)(a, t) == Returns(PreResult(Deny, reason, map[]));
    }
  }

  lemma {:induction false} FirstDenies(o: seq<Entry<PreHook>>, k: nat, agent: string, text: string, reason: string)
    requires k < |o| && Denies(o[k], reason) && forall i :: 0 <= i < k ==> Passes(o[i])
    ensures RunPre(o, agent, text, []).0.denyReason == reason
    decreases k
  {
    if k > 0 { FirstDenies(o[1..], k - 1, agent, text, reason); }
  }

  function Swapped<T>(s: seq<T>, x: nat, y: nat): seq<T>
    requires x < |s| && y < |s|
  {
    s[x := s[y]][y := s[x]]
  }

  lemma SwapIsPossible(o: seq<Entry<PreHook>>, x: nat, y: nat)
    requires x < y < |o| && Descending(o) && o[x].priority == o[y].priority
    ensures Permutes(Swapped(o, x, y), o) && Descending(Swapped(o, x, y))
  {
  }

  lemma SwapDiverges(o: seq<Entry<PreHook>>, x: nat, y: nat, agent: string, text: string, early: string, late: string)
    requires x < y < |o| && (forall i :: 0 <= i < x ==> Passes(o[i])) && early != late
    requires Denies(o[x], early) && Denies(o[y], late)
    ensures RunPre(o, agent, text, []) != RunPre(Swapped(o, x, y), agent, text, [])
  {
    FirstDenies(o, x, agent, text, early);
    FirstDenies(Swapped(o, x, y), x, agent, text, late);
  }

  /** Where the two denying hooks of an order are, the earlier one first. */
  lemma DenyingPlaces(o: seq<Entry<PreHook>>, a: Entry<PreHook>, b: Entry<PreHook>) returns (x: nat, y: nat)
    requires a in o && b in o && a != b && forall e :: e in o ==> e == a || e == b || Passes(e)
    ensures x < y < |o| && (forall i :: 0 <= i < x ==> Passes(o[i]))
    ensures (o[x] == a && o[y] == b) || (o[x] == b && o[y] == a)
  {
    x := FirstOf(o, a, b);
    var other := if o[x] == a then b else a;
    y :| 0 <= y < |o| && o[y] == other;
    assert forall i :: 0 <= i < x ==> o[i] != other;
  }

  lemma {:induction false} FirstOf(o: seq<Entry<PreHook>>, a: Entry<PreHook>, b: Entry<PreHook>) returns (x: nat)
    requires a in o && forall e :: e in o ==> e == a || e == b || Passes(e)
    ensures x < |o| && (o[x] == a || o[x] == b)
    ensures forall i :: 0 <= i < x ==> o[i] != a && o[i] != b && Passes(o[i])
    decreases |o|
  {
    if o[0] == a || o[0] == b { return 0; }
    var rest := o[1..];
    assert o == [o[0]] + rest;
    x := FirstOf(rest, a, b);
    assert forall i :: 0 < i <= x ==> o[i] == rest[i - 1];
    x := x + 1;
  }

  // ---- The result ----

  /** In every order in which the matching hooks may run the chain gives the same. */
  ghost predicate OneOutcome(log: seq<Registration<PreHook>>, agent: string, text: string) {
    forall o, p :: PossibleOrder(o, log, agent) && PossibleOrder(p, log, agent) ==>
      RunPre(o, agent, text, []) == RunPre(p, agent, text, [])
  }

  ghost predicate HavePriorities(entries: seq<Entry<PreHook>>, ps: seq<int>) {
    |entries| == |ps| && forall k :: 0 <= k < |ps| ==> entries[k].priority == ps[k]
  }

  ghost predicate Distinct(ps: seq<int>) {
    forall i, j :: 0 <= i < j < |ps| ==> ps[i] != ps[j]
  }

  function Registered(entries: seq<Entry<PreHook>>, agent: string): seq<Registration<PreHook>> {
    if entries == [] then [] else [Registration(agent, entries[0])] + Registered(entries[1..], agent)
  }

  lemma {:induction false} AllMatch(entries: seq<Entry<PreHook>>, agent: string)
    ensures Matching(Registered(entries, agent), agent) == entries
    decreases |entries|
  {
    if entries != [] {
      AllMatch(entries[1..], agent);
      SelfMatch(agent);
      assert Registered(entries, agent)[1..] == Registered(entries[1..], agent);
    }
  }

  lemma DistinctNeverTie(entries: seq<Entry<PreHook>>, ps: seq<int>)
    requires HavePriorities(entries, ps) && Distinct(ps)
    ensures TiesAreEqual(entries)
  {
    forall x, y | x in entries && y in entries && x.priority == y.priority ensures x == y {
      var i :| 0 <= i < |entries| && entries[i] == x;
      var j :| 0 <= j < |entries| && entries[j] == y;
      assert ps[i] == ps[j];
    }
  }

  lemma TiedFacts(ps: seq<int>, i: nat, j: nat)
    requires i < j < |ps|
    ensures var es := Tied(ps, i, j);
            && HavePriorities(es, ps) && Denies(es[i], "first") && Denies(es[j], "second")
            && es[i] in es && es[j] in es && es[i] != es[j]
            && forall e :: e in es ==> e == es[i] || e == es[j] || Passes(e)
  {
    var es := Tied(ps, i, j);
    DenyingDenies(ps[i], "first");
    DenyingDenies(ps[j], "second");
    assert es[i].hook("", "") != es[j].hook("", "");
    forall e | e in es ensures e == es[i] || e == es[j] || Passes(e) {
      var k :| 0 <= k < |es| && es[k] == e;
      if k != i && k != j { PassingPasses(ps[k]); }
    }
  }

  /** Where two priorities are equal, some hooks with these priorities can run to two outcomes. */
  lemma TiesCanDiverge(ps: seq<int>, i: nat, j: nat, agent: string, text: string)
    requires i < j < |ps| && ps[i] == ps[j]
    ensures !OneOutcome(Registered(Tied(ps, i, j), agent), agent, text)
  {
    var es := Tied(ps, i, j);
    TiedFacts(ps, i, j);
    AllMatch(es, agent);
    var o := SortedExists(es);
    SameMembers(o, es);
    var x, y := DenyingPlaces(o, es[i], es[j]);
    SwapIsPossible(o, x, y);
    var p := Swapped(o, x, y);
    if o[x] == es[i] {
      SwapDiverges(o, x, y, agent, text, "first", "second");
    } else {
      SwapDiverges(o, x, y, agent, text, "second", "first");
    }
    assert PossibleOrder(o, Registered(es, agent), agent) && PossibleOrder(p, Registered(es, agent), agent);
  }

  /** Given the priorities of the matching hooks, whatever the hooks do, the outcome is the same in every possible
      order exactly when the priorities all differ. */
  lemma OneOutcomeIffDistinct(ps: seq<int>, agent: string, text: string)
    ensures (forall log :: HavePriorities(Matching(log, agent), ps) ==> OneOutcome(log, agent, text)) <==> Distinct(ps)
  {
    if Distinct(ps) {
      forall log | HavePriorities(Matching(log, agent), ps) ensures OneOutcome(log, agent, text) {
        DistinctNeverTie(Matching(log, agent), ps);
        forall o, p | PossibleOrder(o, log, agent) && PossibleOrder(p, log, agent)
          ensures RunPre(o, agent, text, []) == RunPre(p, agent, text, [])
        {
          OrdersAgree(log, log, agent, o, p);
        }
      }
    } else {
      var i: nat, j: nat :| i < j < |ps| && ps[i] == ps[j];
      TiesCanDiverge(ps, i, j, agent, text);
      TiedFacts(ps, i, j);
      AllMatch(Tied(ps, i, j), agent);
    }
  }
}
