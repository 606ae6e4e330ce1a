/** Agent pre-step and post-step hooks: registration by glob, and the priority-ordered chain. */
module HookChain {
  import opened Options
  import opened Sequences
  import opened GlobMatcher
  import opened Permutations

  datatype Policy = FailClosed | FailOpen

  datatype Action = Continue | Deny | ModifyContext

  datatype PreResult = PreResult(action: Action, denyReason: string, modifiedContext: map<string, string>)

  datatype PostResult = PostResult(modifyResult: bool, modifiedOutput: string)

  /** A hook either returns or throws. */
  datatype Reply<+R> = Returns(result: R) | Throws(what: string)

  /** Hooks see the agent's name and the current text. */
  type PreHook = (string, string) -> Reply<PreResult>
  type PostHook = (string, string) -> Reply<PostResult>

  datatype Entry<F> = Entry(hook: F, priority: int, policy: Policy)

  /** One registration: the glob it was made under, and the entry. */
  datatype Registration<F> = Registration(glob: string, entry: Entry<F>)

  const PLAIN: PreResult := PreResult(Continue, "", map[])

  // ---- What the chain computes, given the order in which the hooks run ----

  function EditedText(r: PreResult, text: string): string {
    if r.action == ModifyContext && "input" in r.modifiedContext then r.modifiedContext["input"] else text
  }

  /** The pre-hook chain on a fixed order. It never answers ModifyContext: edits reach later
      hooks only. */
  function RunPre(order: seq<Entry<PreHook>>, agent: string, text: string, warnings: seq<string>)
    : (r: (PreResult, seq<string>))
    ensures r.0.action == Deny || r.0 == PLAIN
    ensures warnings <= r.1
  {
    if order == [] then (PLAIN, warnings)
    else match order[0].hook(agent, text)
      case Returns(res) =>
        if res.action == Deny then (res, warnings)
        else RunPre(order[1..], agent, EditedText(res, text), warnings)
      case Throws(what) =>
        if order[0].policy == FailClosed then (PreResult(Deny, "pre-hook failed: " + what, map[]), warnings)
        else RunPre(order[1..], agent, text, warnings + ["pre-hook failed (FailOpen): " + what])
  }

  function PostWarning(policy: Policy, what: string): string {
    (if policy == FailClosed then "post-hook failed (FailClosed): " else "post-hook failed (FailOpen): ") + what
  }

  /** The post-hook chain on a fixed order: the text, whether any hook rewrote it, warnings. */
  function RunPost(order: seq<Entry<PostHook>>, agent: string, text: string, modified: bool, warnings: seq<string>)
    : (r: (string, bool, seq<string>))
    ensures modified ==> r.1
    ensures !r.1 ==> r.0 == text
    ensures warnings <= r.2 && |r.2| <= |warnings| + |order|
  {
    if order == [] then (text, modified, warnings)
    else match order[0].hook(agent, text)
      case Returns(res) =>
        if res.modifyResult then RunPost(order[1..], agent, res.modifiedOutput, true, warnings)
        else RunPost(order[1..], agent, text, modified, warnings)
      case Throws(what) =>
        RunPost(order[1..], agent, text, modified, warnings + [PostWarning(order[0].policy, what)])
  }

  // ---- Reading of the pre-hook chain: the first hook that stops it decides ----

  /** The text the hook at position `k` is given, if the chain gets that far. */
  function TextAt(order: seq<Entry<PreHook>>, agent: string, text: string, k: nat): string
    requires k <= |order|
  {
    if k == 0 then text
    else
      var before := TextAt(order, agent, text, k - 1);
      match order[k - 1].hook(agent, before)
      case Returns(res) => EditedText(res, before)
      case Throws(_) => before
  }

  predicate StopsAt(order: seq<Entry<PreHook>>, agent: string, text: string, k: nat)
    requires k < |order|
  {
    match order[k].hook(agent, TextAt(order, agent, text, k))
    case Returns(res) => res.action == Deny
    case Throws(_) => order[k].policy == FailClosed
  }

  predicate FirstStop(order: seq<Entry<PreHook>>, agent: string, text: string, k: nat)
    requires k < |order|
  {
    StopsAt(order, agent, text, k) && forall j :: 0 <= j < k ==> !StopsAt(order, agent, text, j)
  }

  lemma {:induction false} TextAtTail(order: seq<Entry<PreHook>>, agent: string, text: string, k: nat)
    requires 0 < k <= |order|
    ensures TextAt(order, agent, text, k) == TextAt(order[1..], agent, TextAt(order, agent, text, 1), k - 1)
    decreases k
  {
    assert TextAt(order, agent, text, 0) == text;
    if k > 1 {
      TextAtTail(order, agent, text, k - 1);
      assert order[1..][k - 2] == order[k - 1];
    }
  }

  /** The chain denies exactly when some hook stops it, and the answer is then the one of the
      first hook that does. */
  lemma {:induction false} FirstStopDecides(order: seq<Entry<PreHook>>, agent: string, text: string,
                                            warnings: seq<string>)
    ensures RunPre(order, agent, text, warnings).0.action == Deny <==>
            exists k :: 0 <= k < |order| && StopsAt(order, agent, text, k)
    ensures forall k | 0 <= k < |order| && FirstStop(order, agent, text, k) ::
              RunPre(order, agent, text, warnings).0 ==
              match order[k].hook(agent, TextAt(order, agent, text, k))
              case Returns(res) => res
              case Throws(what) => PreResult(Deny, "pre-hook failed: " + what, map[])
    decreases |order|
  {
    if order != [] {
      assert TextAt(order, agent, text, 0) == text;
      if !StopsAt(order, agent, text, 0) {
        var rest, next := order[1..], TextAt(order, agent, text, 1);
        var more := match order[0].hook(agent, text)
                    case Returns(_) => warnings
                    case Throws(what) => warnings + ["pre-hook failed (FailOpen): " + what];
        assert RunPre(order, agent, text, warnings) == RunPre(rest, agent, next, more);
        FirstStopDecides(rest, agent, next, more);
        forall k | 0 < k < |order|
          ensures TextAt(order, agent, text, k) == TextAt(rest, agent, next, k - 1)
          ensures StopsAt(order, agent, text, k) == StopsAt(rest, agent, next, k - 1)
        {
          TextAtTail(order, agent, text, k);
        }
        if k :| 0 <= k < |order| && StopsAt(order, agent, text, k) {
          assert StopsAt(rest, agent, next, k - 1);
        }
        if k :| 0 <= k < |rest| && StopsAt(rest, agent, next, k) {
          assert StopsAt(order, agent, text, k + 1);
        }
        forall k | 0 < k < |order| && FirstStop(order, agent, text, k)
          ensures FirstStop(rest, agent, next, k - 1)
        {
          forall j | 0 <= j < k - 1 ensures !StopsAt(rest, agent, next, j) {
            assert !StopsAt(order, agent, text, j + 1);
          }
        }
      }
    }
  }

  /** A denial stands whatever hooks come after it. */
  lemma {:induction false} LaterHooksCannotUndoDeny(order: seq<Entry<PreHook>>, more: seq<Entry<PreHook>>,
                                                    agent: string, text: string, warnings: seq<string>)
    requires RunPre(order, agent, text, warnings).0.action == Deny
    ensures RunPre(order + more, agent, text, warnings) == RunPre(order, agent, text, warnings)
    decreases |order|
  {
    assert order != [];
    assert (order + more)[1..] == order[1..] + more;
    match order[0].hook(agent, text)
    case Returns(res) =>
      if res.action != Deny { LaterHooksCannotUndoDeny(order[1..], more, agent, EditedText(res, text), warnings); }
    case Throws(what) =>
      if order[0].policy == FailOpen {
        LaterHooksCannotUndoDeny(order[1..], more, agent, text, warnings + ["pre-hook failed (FailOpen): " + what]);
      }
  }

  // ---- Reading of the post-hook chain: every hook runs, whatever happens to the others ----

  /** The text the post-hook at position `k` is given. */
  function PostTextAt(order: seq<Entry<PostHook>>, agent: string, text: string, k: nat): string
    requires k <= |order|
  {
    if k == 0 then text
    else
      var before := PostTextAt(order, agent, text, k - 1);
      match order[k - 1].hook(agent, before)
      case Returns(res) => if res.modifyResult then res.modifiedOutput else before
      case Throws(_) => before
  }

  predicate Rewrites(order: seq<Entry<PostHook>>, agent: string, text: string, k: nat)
    requires k < |order|
  {
    var reply := order[k].hook(agent, PostTextAt(order, agent, text, k));
    reply.Returns? && reply.result.modifyResult
  }

  function WarningsOf(e: Entry<PostHook>, agent: string, text: string): seq<string> {
    match e.hook(agent, text)
    case Returns(_) => []
    case Throws(what) => [PostWarning(e.policy, what)]
  }

  /** The warnings of the hooks from position `k` on. */
  function PostWarnings(order: seq<Entry<PostHook>>, agent: string, text: string, k: nat): seq<string>
    requires k <= |order|
    decreases |order| - k
  {
    if k == |order| then []
    else
      WarningsOf(order[k], agent, PostTextAt(order, agent, text, k)) + PostWarnings(order, agent, text, k + 1)
  }

  /** What one more hook does, given what the ones after it do. */
  lemma OnePostHook(order: seq<Entry<PostHook>>, agent: string, text: string, k: nat, modified: bool,
                    warnings: seq<string>)
    requires k < |order|
    ensures var before := PostTextAt(order, agent, text, k);
            RunPost(order[k..], agent, before, modified, warnings) ==
            RunPost(order[k + 1..], agent, PostTextAt(order, agent, text, k + 1),
                    modified || Rewrites(order, agent, text, k), warnings + WarningsOf(order[k], agent, before))
  {
    assert order[k..][0] == order[k] && order[k..][1..] == order[k + 1..];
    assert warnings + [] == warnings;
  }

  lemma {:induction false} PostHooksFrom(order: seq<Entry<PostHook>>, agent: string, text: string, k: nat,
                                         modified: bool, warnings: seq<string>)
    requires k <= |order|
    ensures var r := RunPost(order[k..], agent, PostTextAt(order, agent, text, k), modified, warnings);
            && r.0 == PostTextAt(order, agent, text, |order|)
            && (r.1 <==> modified || exists j :: k <= j < |order| && Rewrites(order, agent, text, j))
            && r.2 == warnings + PostWarnings(order, agent, text, k)
    decreases |order| - k
  {
    if k < |order| {
      var own := WarningsOf(order[k], agent, PostTextAt(order, agent, text, k));
      OnePostHook(order, agent, text, k, modified, warnings);
      PostHooksFrom(order, agent, text, k + 1, modified || Rewrites(order, agent, text, k), warnings + own);
      Associates(warnings, own, PostWarnings(order, agent, text, k + 1));
    }
  }

  /** The text is rewritten by each hook that asks for it, in order, and every hook that throws is
      reported; under either policy the others still run. */
  lemma EveryPostHookRuns(order: seq<Entry<PostHook>>, agent: string, text: string, warnings: seq<string>)
    ensures var r := RunPost(order, agent, text, false, warnings);
            && r.0 == PostTextAt(order, agent, text, |order|)
            && (r.1 <==> exists j :: 0 <= j < |order| && Rewrites(order, agent, text, j))
            && r.2 == warnings + PostWarnings(order, agent, text, 0)
  {
    assert order[0..] == order;
    PostHooksFrom(order, agent, text, 0, false, warnings);
  }

  // ---- Which order? ----

  ghost predicate Descending<F>(order: seq<Entry<F>>) {
    forall i, j :: 0 <= i < j < |order| ==> order[i].priority >= order[j].priority
  }

  function Hit<F>(r: Registration<F>, agent: string): seq<Entry<F>> {
    if LiteralFirst(r.glob, agent) then [r.entry] else []
  }

  /** The registrations whose glob matches the agent, in registration order. */
  function Matching<F>(log: seq<Registration<F>>, agent: string): seq<Entry<F>> {
    if log == [] then [] else Hit(log[0], agent) + Matching(log[1..], agent)
  }

  /** An order in which the chain may run: the matching entries, highest priority first. How
      entries of equal priority are arranged is left open, as an unstable sort leaves it. */
  ghost predicate PossibleOrder<F>(order: seq<Entry<F>>, log: seq<Registration<F>>, agent: string) {
    Permutes(order, Matching(log, agent)) && Descending(order)
  }

  /** No two different entries share a priority. */
  ghost predicate TiesAreEqual<F>(entries: seq<Entry<F>>) {
    forall x, y :: x in entries && y in entries && x.priority == y.priority ==> x == y
  }

  lemma {:induction false} SortedOrderIsUnique<F>(a: seq<Entry<F>>, b: seq<Entry<F>>)
    requires Permutes(a, b) && Descending(a) && Descending(b) && TiesAreEqual(a)
    ensures a == b
    decreases |a|
  {
    SameMembers(a, b);
    if a != [] {
      var i := TakeHead(a, b);
      assert b[0] in a;
      var j :| 0 <= j < |a| && a[j] == b[0];
      assert a[0].priority >= a[j].priority && b[0].priority >= b[i].priority;
      assert a[0] == b[0];
      TailsAgree(a, b);
      SortedOrderIsUnique(a[1..], b[1..]);
    }
  }

  lemma {:induction false} MatchingSplits<F>(a: seq<Registration<F>>, b: seq<Registration<F>>, agent: string)
    ensures Matching(a + b, agent) == Matching(a, agent) + Matching(b, agent)
    decreases |a|
  {
    if a == [] {
      assert a + b == b;
      assert [] + Matching(b, agent) == Matching(b, agent);
    } else {
      assert (a + b)[1..] == a[1..] + b;
      MatchingSplits(a[1..], b, agent);
      Associates(Hit(a[0], agent), Matching(a[1..], agent), Matching(b, agent));
    }
  }

  lemma MatchingAround<F>(b: seq<Registration<F>>, i: nat, agent: string)
    requires i < |b|
    ensures Matching(b, agent) == Matching(b[..i], agent) + (Hit(b[i], agent) + Matching(b[i + 1..], agent))
    ensures Matching(Without(b, i), agent) == Matching(b[..i], agent) + Matching(b[i + 1..], agent)
  {
    MatchingSplits(b[..i], b[i..], agent);
    MatchingSplits(b[..i], b[i + 1..], agent);
    assert b[..i] + b[i..] == b && b[i..][1..] == b[i + 1..];
  }

  lemma {:induction false} MatchingOfPermutation<F>(a: seq<Registration<F>>, b: seq<Registration<F>>, agent: string)
    requires Permutes(a, b)
    ensures Permutes(Matching(a, agent), Matching(b, agent))
    decreases |a|
  {
    SameMembers(a, b);
    if a != [] {
      var i := TakeHead(a, b);
      MatchingOfPermutation(a[1..], Without(b, i), agent);
      MatchingAround(b, i, agent);
      MovedToFront(Hit(a[0], agent), Matching(a[1..], agent), Matching(b[..i], agent), Matching(b[i + 1..], agent));
    }
  }

  lemma OrdersAgree<F>(log: seq<Registration<F>>, other: seq<Registration<F>>, agent: string,
                       o: seq<Entry<F>>, p: seq<Entry<F>>)
    requires Permutes(log, other) && TiesAreEqual(Matching(log, agent))
    requires PossibleOrder(o, log, agent) && PossibleOrder(p, other, agent)
    ensures o == p
  {
    MatchingOfPermutation(log, other, agent);
    SameMembers(o, Matching(log, agent));
    SortedOrderIsUnique(o, p);
  }

  /** With distinct priorities the outcome and the warnings depend only on which hooks were
      registered: not on registration order, hash-map order or the sort. */
  lemma OrderIndependence(pre: seq<Registration<PreHook>>, pre': seq<Registration<PreHook>>,
                          post: seq<Registration<PostHook>>, post': seq<Registration<PostHook>>,
                          agent: string, text: string, warnings: seq<string>)
    requires Permutes(pre, pre') && TiesAreEqual(Matching(pre, agent))
    requires Permutes(post, post') && TiesAreEqual(Matching(post, agent))
    ensures forall o, p :: PossibleOrder(o, pre, agent) && PossibleOrder(p, pre', agent) ==>
              RunPre(o, agent, text, warnings) == RunPre(p, agent, text, warnings)
    ensures forall o, p :: PossibleOrder(o, post, agent) && PossibleOrder(p, post', agent) ==>
              RunPost(o, agent, text, false, warnings) == RunPost(p, agent, text, false, warnings)
  {
    forall o, p | PossibleOrder(o, pre, agent) && PossibleOrder(p, pre', agent)
      ensures RunPre(o, agent, text, warnings) == RunPre(p, agent, text, warnings)
    {
      OrdersAgree(pre, pre', agent, o, p);
    }
    forall o, p | PossibleOrder(o, post, agent) && PossibleOrder(p, post', agent)
      ensures RunPost(o, agent, text, false, warnings) == RunPost(p, agent, text, false, warnings)
    {
      OrdersAgree(post, post', agent, o, p);
    }
  }

  lemma MatchingSnoc<F>(log: seq<Registration<F>>, added: Registration<F>, agent: string)
    ensures Matching(log + [added], agent) == Matching(log, agent) + Hit(added, agent)
  {
    MatchingSplits(log, [added], agent);
    assert [added][1..] == [];
    assert Matching([added], agent) == Hit(added, agent) + [];
  }

  lemma LowestLast(o: seq<Entry<PreHook>>, extra: seq<Entry<PreHook>>)
    requires Descending(o) && TiesAreEqual(o) && |extra| <= 1
    requires forall e, x :: e in o && x in extra ==> x.priority < e.priority
    ensures Descending(o + extra) && TiesAreEqual(o + extra)
  {
    forall i, j | 0 <= i < j < |o + extra| ensures (o + extra)[i].priority >= (o + extra)[j].priority {
      assert i < |o|;
      if j >= |o| { assert o[i] in o && extra[j - |o|] in extra; }
    }
  }

  /** Registering a hook below all the others never turns a denial into anything else. */
  lemma LowerHookCannotUndoDeny(log: seq<Registration<PreHook>>, added: Registration<PreHook>, agent: string,
                                text: string, warnings: seq<string>,
                                o: seq<Entry<PreHook>>, p: seq<Entry<PreHook>>)
    requires TiesAreEqual(Matching(log, agent))
    requires forall e :: e in Matching(log, agent) ==> added.entry.priority < e.priority
    requires PossibleOrder(o, log, agent) && PossibleOrder(p, log + [added], agent)
    requires RunPre(o, agent, text, warnings).0.action == Deny
    ensures RunPre(p, agent, text, warnings) == RunPre(o, agent, text, warnings)
  {
    var extra := Hit(added, agent);
    MatchingSnoc(log, added, agent);
    SameMembers(o, Matching(log, agent));
    Appended(o, Matching(log, agent), extra);
    LowestLast(o, extra);
    SortedOrderIsUnique(o + extra, p);
    LaterHooksCannotUndoDeny(o, extra, agent, text, warnings);
  }

  lemma {:induction false} SelfMatch(s: string)
    ensures LiteralFirst(s, s)
  {
    if s != [] { SelfMatch(s[1..]); }
  }

  // ---- The registry ----

  /** What the caller gets of a post-hook run: the text only if some hook modified it. */
  function Reported(run: (string, bool, seq<string>)): (PostResult, seq<string>) {
    (if run.1 then PostResult(true, run.0) else PostResult(false, ""), run.2)
  }

  type Table<F> = map<string, seq<Entry<F>>>

  function Own<F>(r: Registration<F>, glob: string): seq<Entry<F>> {
    if r.glob == glob then [r.entry] else []
  }

  function Under<F>(log: seq<Registration<F>>, glob: string): seq<Entry<F>> {
    if log == [] then [] else Own(log[0], glob) + Under(log[1..], glob)
  }

  /** The table groups the registrations by glob. */
  ghost predicate Groups<F>(table: Table<F>, log: seq<Registration<F>>) {
    && (forall r :: r in log ==> r.glob in table)
    && (forall g :: g in table ==> table[g] == Under(log, g))
  }

  lemma {:induction false} UnderAppend<F>(log: seq<Registration<F>>, r: Registration<F>, glob: string)
    ensures Under(log + [r], glob) == Under(log, glob) + Own(r, glob)
    decreases |log|
  {
    if log == [] {
      assert log + [r] == [r] && [r][1..] == [];
      assert Own(r, glob) + [] == [] + Own(r, glob);
    } else {
      assert (log + [r])[1..] == log[1..] + [r];
      UnderAppend(log[1..], r, glob);
      Associates(Own(log[0], glob), Under(log[1..], glob), Own(r, glob));
    }
  }

  lemma {:induction false} NothingUnder<F>(log: seq<Registration<F>>, glob: string)
    requires forall r :: r in log ==> r.glob != glob
    ensures Under(log, glob) == []
    decreases |log|
  {
    if log != [] { NothingUnder(log[1..], glob); }
  }

  /** Registrations restricted to some globs. */
  ghost function Restricted<F>(log: seq<Registration<F>>, globs: set<string>): seq<Registration<F>> {
    if log == [] then []
    else (if log[0].glob in globs then [log[0]] else []) + Restricted(log[1..], globs)
  }

  lemma {:induction false} OneMoreGlob<F>(log: seq<Registration<F>>, globs: set<string>, g: string, agent: string)
    requires g !in globs
    ensures Permutes(Matching(Restricted(log, globs + {g}), agent),
                     Matching(Restricted(log, globs), agent) +
                     (if LiteralFirst(g, agent) then Under(log, g) else []))
    decreases |log|
  {
    if log != [] {
      var r, rest := log[0], log[1..];
      OneMoreGlob(rest, globs, g, agent);
      var fewer, more := Restricted(rest, globs), Restricted(rest, globs + {g});
      MatchingHead(r, fewer, agent);
      MatchingHead(r, more, agent);
      if r.glob == g {
        assert Restricted(log, globs) == [] + fewer == fewer && Restricted(log, globs + {g}) == [r] + more;
        assert Under(log, g) == [r.entry] + Under(rest, g);
        if LiteralFirst(g, agent) {
          MovedToFront([r.entry], Matching(more, agent), Matching(fewer, agent), Under(rest, g));
        } else {
          assert [] + Matching(more, agent) == Matching(more, agent);
        }
      } else {
        var kept := if r.glob in globs then [r] else [];
        assert Under(log, g) == Own(r, g) + Under(rest, g) == Under(rest, g);
        assert Restricted(log, globs) == kept + fewer && Restricted(log, globs + {g}) == kept + more;
        MatchingSplits(kept, fewer, agent);
        MatchingSplits(kept, more, agent);
        MovedToFront(Matching(kept, agent), Matching(more, agent), Matching(fewer, agent),
                     if LiteralFirst(g, agent) then Under(rest, g) else []);
      }
    }
  }

  lemma MatchingHead<F>(r: Registration<F>, rest: seq<Registration<F>>, agent: string)
    ensures Matching([r] + rest, agent) == Hit(r, agent) + Matching(rest, agent)
  {
    assert ([r] + rest)[1..] == rest;
  }

  lemma {:induction false} RestrictedToAll<F>(log: seq<Registration<F>>, globs: set<string>)
    requires forall r :: r in log ==> r.glob in globs
    ensures Restricted(log, globs) == log
    decreases |log|
  {
    if log != [] { RestrictedToAll(log[1..], globs); }
  }

  lemma {:induction false} RestrictedToNone<F>(log: seq<Registration<F>>)
    ensures Restricted(log, {}) == []
    decreases |log|
  {
    if log != [] { RestrictedToNone(log[1..]); }
  }

  /** Adds one registration to a table. */
  method Register<F>(table: Table<F>, ghost log: seq<Registration<F>>, glob: string, entry: Entry<F>)
    returns (table': Table<F>)
    requires Groups(table, log)
    ensures Groups(table', log + [Registration(glob, entry)])
  {
    var existing := if glob in table then table[glob] else [];
    table' := table[glob := existing + [entry]];
    ghost var r := Registration(glob, entry);
    if glob !in table { NothingUnder(log, glob); }
    forall g | g in table' ensures table'[g] == Under(log + [r], g) {
      UnderAppend(log, r, g);
    }
  }

  /** Gathers the matching entries, walking the hash map in some arbitrary order. */
  method Collect<F>(table: Table<F>, ghost log: seq<Registration<F>>, agent: string)
    returns (matching: seq<Entry<F>>)
    requires Groups(table, log)
    ensures Permutes(matching, Matching(log, agent))
  {
    matching := [];
    var todo := table.Keys;
    ghost var seen: set<string> := {};
    RestrictedToNone(log);
    while todo != {}
      invariant todo !! seen && todo + seen == table.Keys
      invariant Permutes(matching, Matching(Restricted(log, seen), agent))
      decreases todo
    {
      var g :| g in todo;
      OneMoreGlob(log, seen, g, agent);
      var hit := GlobMatch(g, agent);
      Appended(matching, Matching(Restricted(log, seen), agent), table[g]);
      if hit { matching := matching + table[g]; }
      todo, seen := todo - {g}, seen + {g};
    }
    RestrictedToAll(log, seen);
  }

  method Highest<F>(entries: seq<Entry<F>>) returns (best: nat)
    requires entries != []
    ensures best < |entries| && forall j :: 0 <= j < |entries| ==> entries[j].priority <= entries[best].priority
  {
    best := 0;
    for i := 1 to |entries|
      invariant best < |entries|
      invariant forall j :: 0 <= j < i ==> entries[j].priority <= entries[best].priority
    {
      if entries[i].priority > entries[best].priority { best := i; }
    }
  }

  /** Orders entries by falling priority; nothing is promised about ties. */
  method SortByPriority<F>(entries: seq<Entry<F>>) returns (sorted: seq<Entry<F>>)
    ensures Permutes(sorted, entries) && Descending(sorted)
  {
    sorted := [];
    var rest := entries;
    while rest != []
      invariant Permutes(sorted + rest, entries)
      invariant Descending(sorted)
      invariant sorted != [] ==> forall j :: 0 <= j < |rest| ==> sorted[|sorted| - 1].priority >= rest[j].priority
      decreases |rest|
    {
      var best := Highest(rest);
      MoveAcross(sorted, rest, best, entries);
      sorted, rest := sorted + [rest[best]], Without(rest, best);
    }
    assert sorted + rest == sorted;
  }

  /** The in-memory registry of agent hooks. */
  class Registry {
    var preHooks: Table<PreHook>
    var postHooks: Table<PostHook>
    /** Everything registered so far, in order. */
    ghost var preLog: seq<Registration<PreHook>>
    ghost var postLog: seq<Registration<PostHook>>

    ghost predicate Valid()
      reads this
    {
      Groups(preHooks, preLog) && Groups(postHooks, postLog)
    }

    constructor ()
      ensures Valid() && preLog == [] && postLog == []
    {
      preHooks, postHooks := map[], map[];
      preLog, postLog := [], [];
    }

    /** An empty hook is ignored. */
    method RegisterPreHook(glob: string, hook: Option<PreHook>, priority: int, policy: Policy)
      requires Valid()
      modifies this
      ensures Valid() && postLog == old(postLog)
      ensures preLog == old(preLog) +
              (if hook.None? then [] else [Registration(glob, Entry(hook.value, priority, policy))])
    {
      if hook.None? { return; }
      preHooks := Register(preHooks, preLog, glob, Entry(hook.value, priority, policy));
      preLog := preLog + [Registration(glob, Entry(hook.value, priority, policy))];
    }

    method RegisterPostHook(glob: string, hook: Option<PostHook>, priority: int, policy: Policy)
      requires Valid()
      modifies this
      ensures Valid() && preLog == old(preLog)
      ensures postLog == old(postLog) +
              (if hook.None? then [] else [Registration(glob, Entry(hook.value, priority, policy))])
    {
      if hook.None? { return; }
      postHooks := Register(postHooks, postLog, glob, Entry(hook.value, priority, policy));
      postLog := postLog + [Registration(glob, Entry(hook.value, priority, policy))];
    }

    /** Runs the chain in one of the possible orders. */
    method ApplyPreHooks(agent: string, input: string, warnings: seq<string>)
      returns (result: PreResult, warnings': seq<string>)
      requires Valid()
      ensures exists order :: PossibleOrder(order, preLog, agent) &&
                (result, warnings') == RunPre(order, agent, input, warnings)
    {
      var matching := Collect(preHooks, preLog, agent);
      var sorted := SortByPriority(matching);
      assert PossibleOrder(sorted, preLog, agent);
      var text := input;
      warnings' := warnings;
      for k := 0 to |sorted|
        invariant RunPre(sorted, agent, input, warnings) == RunPre(sorted[k..], agent, text, warnings')
      {
        assert sorted[k..][0] == sorted[k] && sorted[k..][1..] == sorted[k + 1..];
        match sorted[k].hook(agent, text)
        case Returns(res) =>
          if res.action == Deny { return res, warnings'; }
          if res.action == ModifyContext {
            text := if "input" in res.modifiedContext then res.modifiedContext["input"] else text;
          }
        case Throws(what) =>
          if sorted[k].policy == FailClosed {
            return PreResult(Deny, "pre-hook failed: " + what, map[]), warnings';
          }
          warnings' := warnings' + ["pre-hook failed (FailOpen): " + what];
      }
      result := PLAIN;
    }

    method ApplyPostHooks(agent: string, output: string, warnings: seq<string>)
      returns (result: PostResult, warnings': seq<string>)
      requires Valid()
      ensures exists order :: PossibleOrder(order, postLog, agent) &&
                (result, warnings') == Reported(RunPost(order, agent, output, false, warnings))
    {
      var matching := Collect(postHooks, postLog, agent);
      var sorted := SortByPriority(matching);
      assert PossibleOrder(sorted, postLog, agent);
      var text := output;
      warnings' := warnings;
      result := PostResult(false, "");
      for k := 0 to |sorted|
        invariant RunPost(sorted, agent, output, false, warnings) ==
                  RunPost(sorted[k..], agent, text, result.modifyResult, warnings')
        invariant result == if result.modifyResult then PostResult(true, text) else PostResult(false, "")
      {
        assert sorted[k..][0] == sorted[k] && sorted[k..][1..] == sorted[k + 1..];
        match sorted[k].hook(agent, text)
        case Returns(res) =>
          if res.modifyResult {
            text := res.modifiedOutput;
            result := PostResult(true, text);
          }
        case Throws(what) =>
          if sorted[k].policy == FailClosed {
            warnings' := warnings' + ["post-hook failed (FailClosed): " + what];
          } else {
            warnings' := warnings' + ["post-hook failed (FailOpen): " + what];
          }
      }
    }
  }
}
