/** Reading and querying an event log: the substring test that lets `query` skip parsing a line,
    and when it is safe. */
module EventQuery {
  import opened Options
  import opened JsonValues

  datatype Event = Event(topic: string, time: nat, payload: Json)

  datatype Filter = Filter(glob: string, hasWindow: bool, start: nat, end: nat)

  /** What parsing a line gives: an event, or nothing if the line is not a well-formed event of
      version 1. */
  type Parser = string -> Option<Event>

  // ---- Matching a topic ----

  /** Where the first star at `i` or later is, or the length. */
  function StarFrom(glob: string, i: nat): (p: nat)
    requires i <= |glob|
    ensures i <= p <= |glob| && (p < |glob| ==> glob[p] == '*') && forall k :: i <= k < p ==> glob[k] != '*'
    decreases |glob| - i
  {
    if i == |glob| || glob[i] == '*' then i else StarFrom(glob, i + 1)
  }

  function StarAt(glob: string): nat {
    StarFrom(glob, 0)
  }

  /** The part before the first star, or all of it. */
  function Literal(glob: string): string {
    glob[..StarAt(glob)]
  }

  predicate TopicMatches(topic: string, glob: string) {
    if glob == "" || glob == "*" then true
    else if StarAt(glob) == |glob| then topic == glob
    else if StarAt(glob) == 0 then true
    else Literal(glob) <= topic
  }

  /** What a glob means: nothing, or a star in front, takes every topic; without a star the topic has to be the
      glob; and with its first star further on, what stands before it has to begin the topic. */
  lemma TopicMatchesIff(topic: string, glob: string, p: nat)
    ensures (glob == "" || glob[0] == '*') ==> TopicMatches(topic, glob)
    ensures glob != "" && '*' !in glob ==> (TopicMatches(topic, glob) <==> topic == glob)
    ensures 0 < p < |glob| && glob[p] == '*' && '*' !in glob[..p] ==>
              (TopicMatches(topic, glob) <==> p <= |topic| && topic[..p] == glob[..p])
  {
    if 0 < p < |glob| && glob[p] == '*' && '*' !in glob[..p] {
      FirstStar(glob, p);
    }
    forall k | 0 <= k < |glob| && '*' !in glob ensures glob[k] != '*' { assert glob[k] in glob; }
  }

  lemma FirstStar(glob: string, p: nat)
    requires p < |glob| && glob[p] == '*' && '*' !in glob[..p]
    ensures StarAt(glob) == p
  {
    forall k | 0 <= k < p ensures glob[k] != '*' { assert glob[..p][k] == glob[k]; }
  }

  predicate Matches(e: Event, f: Filter) {
    TopicMatches(e.topic, f.glob) && (f.hasWindow ==> f.start <= e.time <= f.end)
  }

  // ---- The test on the raw line ----

  const TOPIC_KEY := "\"topic\":\""

  predicate OccursAt(line: string, needle: string, k: nat) {
    k + |needle| <= |line| && line[k..k + |needle|] == needle
  }

  /** The needle occurs at `k` or later. */
  predicate Contains(line: string, needle: string, k: nat)
    decreases |line| - k
  {
    k + |needle| <= |line| && (OccursAt(line, needle, k) || Contains(line, needle, k + 1))
  }

  lemma {:induction false} ContainsAt(line: string, needle: string, k: nat, at: nat)
    requires k <= at && OccursAt(line, needle, at)
    ensures Contains(line, needle, k)
    decreases |line| - k
  {
    if k < at { ContainsAt(line, needle, k + 1, at); }
  }

  lemma {:induction false} ContainsWhere(line: string, needle: string, k: nat) returns (at: nat)
    requires Contains(line, needle, k)
    ensures k <= at && OccursAt(line, needle, at)
    decreases |line| - k
  {
    at := k;
    if !OccursAt(line, needle, k) { at := ContainsWhere(line, needle, k + 1); }
  }

  predicate QuickMatch(line: string, glob: string) {
    if glob == "" || glob == "*" then true
    else if StarAt(glob) == 0 then true
    else Contains(line, TOPIC_KEY + Literal(glob), 0)
  }

  // ---- Reading and querying ----

  function EventsOn(line: string, parse: Parser): seq<Event> {
    if line != "" && parse(line).Some? then [parse(line).value] else []
  }

  /** The events of the first `n` lines of a log, in order. */
  function Events(lines: seq<string>, n: nat, parse: Parser): seq<Event>
    requires n <= |lines|
  {
    if n == 0 then [] else Events(lines, n - 1, parse) + EventsOn(lines[n - 1], parse)
  }

  function Chosen(e: Event, f: Filter): seq<Event> {
    if Matches(e, f) then [e] else []
  }

  /** Those among the first `n` events that match. */
  function Selected(events: seq<Event>, n: nat, f: Filter): seq<Event>
    requires n <= |events|
  {
    if n == 0 then [] else Selected(events, n - 1, f) + Chosen(events[n - 1], f)
  }

  /** Reading a whole log and filtering it. */
  function FilteredRead(lines: seq<string>, parse: Parser, f: Filter): seq<Event> {
    var events := Events(lines, |lines|, parse);
    Selected(events, |events|, f)
  }

  /** What a query finds on one line: the cheap test comes before parsing. */
  function Look(line: string, parse: Parser, f: Filter): Option<Event> {
    if line == "" || !QuickMatch(line, f.glob) then None
    else
      match parse(line)
      case None => None
      case Some(e) =>
        if !TopicMatches(e.topic, f.glob) then None
        else if f.hasWindow && (e.time < f.start || e.time > f.end) then None
        else Some(e)
  }

  function Looking(parse: Parser, f: Filter): string -> Option<Event> {
    (line: string) => Look(line, parse, f)
  }

  function Listed(e: Option<Event>): seq<Event> {
    if e.Some? then [e.value] else []
  }

  /** What is found on the first `n` lines. */
  function Found(lines: seq<string>, n: nat, look: string -> Option<Event>): seq<Event>
    requires n <= |lines|
  {
    if n == 0 then [] else Found(lines, n - 1, look) + Listed(look(lines[n - 1]))
  }

  function Kept(lines: seq<string>, parse: Parser, f: Filter): seq<Event> {
    Found(lines, |lines|, Looking(parse, f))
  }

  /** The first `n` of these events, or all of them if there are fewer. */
  ghost predicate AreFirst(out: seq<Event>, s: seq<Event>, n: nat) {
    out <= s && |out| <= n && (|out| == n || out == s)
  }

  method Read(lines: seq<string>, parse: Parser) returns (out: seq<Event>)
    ensures out == Events(lines, |lines|, parse)
  {
    out := [];
    for i := 0 to |lines|
      invariant out == Events(lines, i, parse)
    {
      out := out + EventsOn(lines[i], parse);
    }
  }

  method ReadWindow(lines: seq<string>, parse: Parser, start: nat, end: nat) returns (out: seq<Event>)
    ensures out == FilteredRead(lines, parse, Filter("", true, start, end))
  {
    var all := Read(lines, parse);
    out := [];
    for i := 0 to |all|
      invariant out == Selected(all, i, Filter("", true, start, end))
    {
      if start <= all[i].time <= end { out := out + [all[i]]; }
    }
  }

  /** The scan stops once it has `maxCount` events; it notices only after adding one. */
  method Scan(lines: seq<string>, look: string -> Option<Event>, maxCount: nat) returns (out: seq<Event>)
    ensures AreFirst(out, Found(lines, |lines|, look), if maxCount == 0 then 1 else maxCount)
  {
    out := [];
    for i := 0 to |lines|
      invariant out == Found(lines, i, look)
      invariant out == [] || |out| < maxCount
    {
      var e := look(lines[i]);
      FoundNext(lines, i, look);
      if e.Some? {
        out := out + [e.value];
        if |out| >= maxCount {
          EnoughFound(lines, i + 1, look, |out|);
          return;
        }
      }
    }
  }

  lemma FoundNext(lines: seq<string>, i: nat, look: string -> Option<Event>)
    requires i < |lines|
    ensures look(lines[i]).None? ==> Found(lines, i + 1, look) == Found(lines, i, look)
    ensures look(lines[i]).Some? ==> Found(lines, i + 1, look) == Found(lines, i, look) + [look(lines[i]).value]
  {
  }

  lemma EnoughFound(lines: seq<string>, i: nat, look: string -> Option<Event>, n: nat)
    requires i <= |lines| && |Found(lines, i, look)| == n
    ensures AreFirst(Found(lines, i, look), Found(lines, |lines|, look), n)
  {
    FoundGrows(lines, i, |lines|, look);
  }

  method Query(lines: seq<string>, parse: Parser, f: Filter, maxCount: nat) returns (out: seq<Event>)
    ensures AreFirst(out, Kept(lines, parse, f), if maxCount == 0 then 1 else maxCount)
  {
    out := Scan(lines, Looking(parse, f), maxCount);
  }

  lemma {:induction false} FoundGrows(lines: seq<string>, i: nat, n: nat, look: string -> Option<Event>)
    requires i <= n <= |lines|
    ensures Found(lines, i, look) <= Found(lines, n, look)
    decreases n
  {
    if i < n { FoundGrows(lines, i, n - 1, look); }
  }

  // ---- What a query returns ----

  lemma {:induction false} FoundMatch(lines: seq<string>, n: nat, parse: Parser, f: Filter, e: Event)
    requires n <= |lines| && e in Found(lines, n, Looking(parse, f))
    ensures TopicMatches(e.topic, f.glob) && (f.hasWindow ==> f.start <= e.time <= f.end)
    ensures exists i :: 0 <= i < n && lines[i] != "" && parse(lines[i]) == Some(e)
    decreases n
  {
    var last := Looking(parse, f)(lines[n - 1]);
    if last == Some(e) {
      assert lines[n - 1] != "" && parse(lines[n - 1]) == Some(e);
    } else {
      FoundMatch(lines, n - 1, parse, f, e);
    }
  }

  /** Every event a query returns is on some line, its time in the window, and its topic as the glob asks: any at
      all, or the glob itself, or one that begins with what stands before the first star. */
  lemma QueryReturnsMatches(lines: seq<string>, parse: Parser, f: Filter, maxCount: nat, out: seq<Event>, e: Event)
    requires AreFirst(out, Kept(lines, parse, f), maxCount) && e in out
    ensures exists i :: 0 <= i < |lines| && parse(lines[i]) == Some(e)
    ensures f.hasWindow ==> f.start <= e.time <= f.end
    ensures f.glob != "" && '*' !in f.glob ==> e.topic == f.glob
    ensures forall p | 0 < p < |f.glob| && f.glob[p] == '*' && '*' !in f.glob[..p] :: f.glob[..p] <= e.topic
  {
    FoundMatch(lines, |lines|, parse, f, e);
    TopicMatchesIff(e.topic, f.glob, 0);
    forall p | 0 < p < |f.glob| && f.glob[p] == '*' && '*' !in f.glob[..p] ensures f.glob[..p] <= e.topic {
      TopicMatchesIff(e.topic, f.glob, p);
    }
  }

  // ---- What a read returns ----

  /** Places below `n`, from the first on. */
  ghost predicate Ascending(at: seq<nat>, n: nat) {
    && (forall k :: 0 <= k < |at| ==> at[k] < n)
    && (forall j, k :: 0 <= j < k < |at| ==> at[j] < at[k])
  }

  lemma AscendingSnoc(at: seq<nat>, n: nat, more: seq<nat>)
    requires Ascending(at, n) && (more == [] || more == [n])
    ensures Ascending(at + more, n + 1) && (forall i :: 0 <= i < n ==> (i in at + more <==> i in at))
    ensures n in at + more <==> more == [n]
  {
    if more == [] { assert at + more == at; }
    forall k | 0 <= k < |at + more| ensures (at + more)[k] == (if k < |at| then at[k] else n) {}
  }

  ghost predicate PickedFrom(out: seq<Event>, events: seq<Event>, at: seq<nat>) {
    |out| == |at| && forall k :: 0 <= k < |at| ==> at[k] < |events| && out[k] == events[at[k]]
  }

  lemma PickedSnoc(out: seq<Event>, events: seq<Event>, at: seq<nat>, n: nat, out': seq<Event>, at': seq<nat>)
    requires PickedFrom(out, events, at) && n < |events|
    requires (out' == out && at' == at) || (out' == out + [events[n]] && at' == at + [n])
    ensures PickedFrom(out', events, at')
  {
  }

  lemma {:induction false} FilterPicks(events: seq<Event>, n: nat, f: Filter) returns (at: seq<nat>)
    requires n <= |events|
    ensures Ascending(at, n) && PickedFrom(Selected(events, n, f), events, at)
    ensures forall i :: 0 <= i < n ==> (i in at <==> Matches(events[i], f))
    decreases n
  {
    at := [];
    if n > 0 {
      var before := FilterPicks(events, n - 1, f);
      var more := if Matches(events[n - 1], f) then [n - 1] else [];
      AscendingSnoc(before, n - 1, more);
      at := before + more;
      PickedSnoc(Selected(events, n - 1, f), events, before, n - 1, Selected(events, n, f), at);
    }
  }

  /** Filtering keeps the order: the events kept are those at ascending places, and those passed over are of
      another topic or outside the window. */
  lemma FilterKeepsOrder(events: seq<Event>, f: Filter) returns (at: seq<nat>)
    ensures Ascending(at, |events|) && PickedFrom(Selected(events, |events|, f), events, at)
    ensures forall i :: 0 <= i < |events| ==>
              (i in at <==> TopicMatches(events[i].topic, f.glob) &&
                            (f.hasWindow ==> f.start <= events[i].time <= f.end))
  {
    at := FilterPicks(events, |events|, f);
  }

  ghost predicate ReadFrom(out: seq<Event>, lines: seq<string>, parse: Parser, at: seq<nat>) {
    |out| == |at| && forall k :: 0 <= k < |at| ==> at[k] < |lines| && parse(lines[at[k]]) == Some(out[k])
  }

  lemma ReadSnoc(out: seq<Event>, lines: seq<string>, parse: Parser, at: seq<nat>, n: nat, out': seq<Event>,
                 at': seq<nat>)
    requires ReadFrom(out, lines, parse, at) && n < |lines|
    requires (out' == out && at' == at) ||
             (parse(lines[n]).Some? && out' == out + [parse(lines[n]).value] && at' == at + [n])
    ensures ReadFrom(out', lines, parse, at')
  {
  }

  /** Reading gives one event for each line that can be read, in order. */
  lemma {:induction false} ReadKeepsOrder(lines: seq<string>, n: nat, parse: Parser) returns (at: seq<nat>)
    requires n <= |lines|
    ensures Ascending(at, n) && ReadFrom(Events(lines, n, parse), lines, parse, at)
    ensures forall i :: 0 <= i < n ==> (i in at <==> lines[i] != "" && parse(lines[i]).Some?)
    decreases n
  {
    at := [];
    if n > 0 {
      var before := ReadKeepsOrder(lines, n - 1, parse);
      var more := if EventsOn(lines[n - 1], parse) != [] then [n - 1] else [];
      AscendingSnoc(before, n - 1, more);
      at := before + more;
      ReadSnoc(Events(lines, n - 1, parse), lines, parse, before, n - 1, Events(lines, n, parse), at);
    }
  }

  // ---- What the test may cost ----

  predicate Dropped(line: string, parse: Parser, f: Filter) {
    line != "" && parse(line).Some? && Matches(parse(line).value, f) && !QuickMatch(line, f.glob)
  }

  /** The test drops none of the first `n` lines if they match. */
  predicate DropsNone(lines: seq<string>, n: nat, parse: Parser, f: Filter)
    requires n <= |lines|
  {
    forall i :: 0 <= i < n ==> !Dropped(lines[i], parse, f)
  }

  lemma {:induction false} SelectedStable(events: seq<Event>, more: seq<Event>, n: nat, f: Filter)
    requires n <= |events|
    ensures Selected(events + more, n, f) == Selected(events, n, f)
    decreases n
  {
    if n > 0 { SelectedStable(events, more, n - 1, f); }
  }

  /** One more line adds its event to what is read and matches, and to what is kept unless the test
      drops it. */
  lemma OneMoreLine(lines: seq<string>, n: nat, before: seq<Event>, after: seq<Event>, parse: Parser, f: Filter)
    requires n < |lines| && before == Events(lines, n, parse) && after == Events(lines, n + 1, parse)
    ensures Selected(after, |after|, f) == Selected(before, |before|, f) +
            (if Dropped(lines[n], parse, f) then [parse(lines[n]).value] else Listed(Look(lines[n], parse, f)))
  {
    SelectedStable(before, EventsOn(lines[n], parse), |before|, f);
    if EventsOn(lines[n], parse) == [] {
      assert after == before;
    } else {
      assert after[|before|] == parse(lines[n]).value;
    }
  }

  lemma {:induction false} KeptCounts(lines: seq<string>, n: nat, events: seq<Event>, parse: Parser, f: Filter)
    requires n <= |lines| && events == Events(lines, n, parse)
    ensures DropsNone(lines, n, parse, f) ==> Found(lines, n, Looking(parse, f)) == Selected(events, |events|, f)
    ensures |Found(lines, n, Looking(parse, f))| <= |Selected(events, |events|, f)|
    ensures !DropsNone(lines, n, parse, f) ==> |Found(lines, n, Looking(parse, f))| < |Selected(events, |events|, f)|
    decreases n
  {
    if n > 0 {
      var before := Events(lines, n - 1, parse);
      KeptCounts(lines, n - 1, before, parse, f);
      OneMoreLine(lines, n - 1, before, events, parse, f);
      KeptStep(lines, n, parse, f);
    }
  }

  lemma KeptStep(lines: seq<string>, n: nat, parse: Parser, f: Filter)
    requires 0 < n <= |lines|
    ensures Found(lines, n, Looking(parse, f)) ==
            Found(lines, n - 1, Looking(parse, f)) + Listed(Look(lines[n - 1], parse, f))
    ensures DropsNone(lines, n, parse, f) <==> DropsNone(lines, n - 1, parse, f) && !Dropped(lines[n - 1], parse, f)
    ensures Dropped(lines[n - 1], parse, f) ==> Look(lines[n - 1], parse, f) == None
  {
  }

  /** A query without a limit in its way equals reading and filtering exactly when the test drops
      no matching line. */
  lemma QueryIsFilteredRead(lines: seq<string>, parse: Parser, f: Filter)
    ensures Kept(lines, parse, f) == FilteredRead(lines, parse, f) <==> DropsNone(lines, |lines|, parse, f)
  {
    KeptCounts(lines, |lines|, Events(lines, |lines|, parse), parse, f);
  }
}
