/** What each pre-hook is given and what its caller is told, in terms of the hooks' own replies. */
module HookText {
  import opened GlobMatcher
  import opened HookChain

  /** Hook `k` asks for its text to be replaced, and by this. */
  predicate Edits(order: seq<Entry<PreHook>>, agent: string, text: string, k: nat, edit: string)
    requires k < |order|
  {
    var reply := order[k].hook(agent, TextAt(order, agent, text, k));
    reply.Returns? && reply.result.action == ModifyContext &&
    "input" in reply.result.modifiedContext && reply.result.modifiedContext["input"] == edit
  }

  predicate EditsNothing(order: seq<Entry<PreHook>>, agent: string, text: string, k: nat)
    requires k < |order|
  {
    var reply := order[k].hook(agent, TextAt(order, agent, text, k));
    reply.Throws? || reply.result.action != ModifyContext || "input" !in reply.result.modifiedContext
  }

  /** An edit reaches the next hook, and without one the text stays. */
  lemma TextPassedOn(order: seq<Entry<PreHook>>, agent: string, text: string, k: nat)
    requires k < |order|
    ensures EditsNothing(order, agent, text, k) ==> TextAt(order, agent, text, k + 1) == TextAt(order, agent, text, k)
    ensures forall edit :: Edits(order, agent, text, k, edit) ==> TextAt(order, agent, text, k + 1) == edit
  {
  }

  /** Each hook is given the last edit made before it, or the original text if there was none. */
  lemma {:induction false} TextIsLastEdit(order: seq<Entry<PreHook>>, agent: string, text: string, k: nat)
    requires k <= |order|
    ensures (forall i :: 0 <= i < k ==> EditsNothing(order, agent, text, i)) ==> TextAt(order, agent, text, k) == text
    ensures forall i, edit | 0 <= i < k && Edits(order, agent, text, i, edit) &&
              (forall j :: i < j < k ==> EditsNothing(order, agent, text, j)) ::
              TextAt(order, agent, text, k) == edit
    decreases k
  {
    if k > 0 {
      TextIsLastEdit(order, agent, text, k - 1);
      TextPassedOn(order, agent, text, k - 1);
      forall i, edit | 0 <= i < k && Edits(order, agent, text, i, edit) &&
        (forall j :: i < j < k ==> EditsNothing(order, agent, text, j))
        ensures TextAt(order, agent, text, k) == edit
      {
        assert i < k - 1 ==> EditsNothing(order, agent, text, k - 1);
      }
    }
  }

  /** A chain of one hook: a denial is passed on as it is, a throw denies or is reported as the hook's policy says,
      and anything else lets the step go on. */
  lemma OneHookChain(e: Entry<PreHook>, agent: string, text: string, warnings: seq<string>)
    ensures var reply := e.hook(agent, text);
            RunPre([e], agent, text, warnings) ==
            if reply.Returns? && reply.result.action == Deny then (reply.result, warnings)
            else if reply.Returns? then (PreResult(Continue, "", map[]), warnings)
            else if e.policy == FailClosed then (PreResult(Deny, "pre-hook failed: " + reply.what, map[]), warnings)
            else (PreResult(Continue, "", map[]), warnings + ["pre-hook failed (FailOpen): " + reply.what])
  {
    assert [e][1..] == [];
  }

  // ---- Warnings ----

  /** What the hooks before position `k` threw. */
  function Thrown(order: seq<Entry<PreHook>>, agent: string, text: string, k: nat): seq<string>
    requires k <= |order|
  {
    if k == 0 then []
    else
      var reply := order[k - 1].hook(agent, TextAt(order, agent, text, k - 1));
      Thrown(order, agent, text, k - 1) +
      (if reply.Throws? then ["pre-hook failed (FailOpen): " + reply.what] else [])
  }

  lemma {:induction false} ThrownTail(order: seq<Entry<PreHook>>, agent: string, text: string, k: nat)
    requires 0 < k <= |order|
    ensures Thrown(order, agent, text, k) ==
            Thrown(order, agent, text, 1) + Thrown(order[1..], agent, TextAt(order, agent, text, 1), k - 1)
    decreases k
  {
    if k > 1 {
      ThrownTail(order, agent, text, k - 1);
      TextAtTail(order, agent, text, k - 1);
      assert order[1..][k - 2] == order[k - 1];
    }
  }

  /** Where the chain stops: at the first hook that stops it, or at the end. */
  ghost predicate Stops(order: seq<Entry<PreHook>>, agent: string, text: string, k: nat) {
    k == |order| || (k < |order| && StopsAt(order, agent, text, k))
  }

  ghost predicate RunsTo(order: seq<Entry<PreHook>>, agent: string, text: string, k: nat) {
    k <= |order| && Stops(order, agent, text, k) && forall j :: 0 <= j < k ==> !StopsAt(order, agent, text, j)
  }

  lemma StopsInTail(order: seq<Entry<PreHook>>, agent: string, text: string, k: nat)
    requires 0 < k && RunsTo(order, agent, text, k)
    ensures RunsTo(order[1..], agent, TextAt(order, agent, text, 1), k - 1)
  {
    var rest, next := order[1..], TextAt(order, agent, text, 1);
    forall j | 0 < j < |order| ensures StopsAt(order, agent, text, j) == StopsAt(rest, agent, next, j - 1) {
      TextAtTail(order, agent, text, j);
    }
    forall j | 0 <= j < k - 1 ensures !StopsAt(rest, agent, next, j) {
      assert !StopsAt(order, agent, text, j + 1);
    }
  }

  /** The caller's warnings grow by one for each hook that threw before the chain stopped, in order. */
  lemma {:induction false} WarningsAreThrown(order: seq<Entry<PreHook>>, agent: string, text: string,
                                             warnings: seq<string>, k: nat)
    requires RunsTo(order, agent, text, k)
    ensures RunPre(order, agent, text, warnings).1 == warnings + Thrown(order, agent, text, k)
    decreases |order|
  {
    assert TextAt(order, agent, text, 0) == text;
    if k == 0 {
      assert warnings + [] == warnings;
    } else {
      assert !StopsAt(order, agent, text, 0);
      var next := TextAt(order, agent, text, 1);
      var own := Thrown(order, agent, text, 1);
      StopsInTail(order, agent, text, k);
      WarningsAreThrown(order[1..], agent, next, warnings + own, k - 1);
      ThrownTail(order, agent, text, k);
      OneHook(order, agent, text, warnings);
      assert warnings + own + Thrown(order[1..], agent, next, k - 1) ==
             warnings + (own + Thrown(order[1..], agent, next, k - 1));
    }
  }

  lemma OneHook(order: seq<Entry<PreHook>>, agent: string, text: string, warnings: seq<string>)
    requires order != [] && !StopsAt(order, agent, text, 0)
    ensures RunPre(order, agent, text, warnings) ==
            RunPre(order[1..], agent, TextAt(order, agent, text, 1), warnings + Thrown(order, agent, text, 1))
  {
    var reply := order[0].hook(agent, text);
    assert TextAt(order, agent, text, 0) == text && Thrown(order, agent, text, 0) == [];
    assert TextAt(order, agent, text, 1) == if reply.Returns? then EditedText(reply.result, text) else text;
    assert StopsAt(order, agent, text, 0) ==
           if reply.Throws? then order[0].policy == FailClosed else reply.result.action == Deny;
    var own := if reply.Throws? then ["pre-hook failed (FailOpen): " + reply.what] else [];
    assert Thrown(order, agent, text, 1) == [] + own == own;
    assert reply.Returns? ==> warnings + own == warnings;
  }

  // ---- Which hooks, and what the post-hooks' caller gets ----

  /** A registration takes part exactly if its glob matches the agent's name. */
  lemma TakesPartIff<F>(r: Registration<F>, agent: string)
    ensures Matching([r], agent) == if LiteralFirst(r.glob, agent) then [r.entry] else []
    ensures '*' !in agent ==> (Matching([r], agent) == [r.entry] <==> Matches(r.glob, agent))
  {
    assert [r][1..] == [];
    if '*' !in agent { LiteralFirstIsMatches(r.glob, agent); }
  }

  /** The caller gets the last rewrite if there was one, and otherwise no text at all. */
  lemma PostCallerGets(order: seq<Entry<PostHook>>, agent: string, text: string, warnings: seq<string>)
    ensures var (result, warned) := Reported(RunPost(order, agent, text, false, warnings));
            && (result.modifyResult <==> exists j :: 0 <= j < |order| && Rewrites(order, agent, text, j))
            && result.modifiedOutput == (if result.modifyResult then PostTextAt(order, agent, text, |order|) else "")
            && warned == warnings + PostWarnings(order, agent, text, 0)
  {
    EveryPostHookRuns(order, agent, text, warnings);
  }

  /** Each post-hook is given the last rewrite made before it. */
  lemma PostTextPassedOn(order: seq<Entry<PostHook>>, agent: string, text: string, k: nat)
    requires k < |order|
    ensures var reply := order[k].hook(agent, PostTextAt(order, agent, text, k));
            PostTextAt(order, agent, text, k + 1) ==
            if reply.Returns? && reply.result.modifyResult then reply.result.modifiedOutput
            else PostTextAt(order, agent, text, k)
    ensures PostTextAt(order, agent, text, 0) == text
  {
  }

  /** What a throwing post-hook adds to the warnings names its policy and its message. */
  lemma PostWarningSays(e: Entry<PostHook>, agent: string, text: string)
    ensures var reply := e.hook(agent, text);
            WarningsOf(e, agent, text) ==
            if reply.Returns? then []
            else if e.policy == FailClosed then ["post-hook failed (FailClosed): " + reply.what]
            else ["post-hook failed (FailOpen): " + reply.what]
  {
  }
}
