/** The lines the event-log writer prints, and for which globs the cheap test finds every matching
    topic on them. */
module EventLines {
  import opened Options
  import opened Sequences
  import opened JsonValues
  import opened JsonReader
  import opened EventQuery

  // ---- What the writer prints ----

  /** A bus event with what the writer adds to it. An empty session id is not printed. */
  datatype Entry = Entry(agentId: string, causalTime: nat, eventId: string, payload: Json, sessionId: string,
                         topic: string, wallTime: nat)

  function Decimal(n: nat): NumberText {
    var digit := ["0123456789"[n % 10]];
    if n < 10 then digit else Decimal(n / 10) + digit
  }

  function EntryJson(e: Entry): Json {
    var fields := map["v" := Number("1"), "event_id" := Str(e.eventId), "ts_wall" := Number(Decimal(e.wallTime)),
                      "causal_time" := Number(Decimal(e.causalTime)), "topic" := Str(e.topic),
                      "agent_id" := Str(e.agentId), "payload" := e.payload];
    Object(if e.sessionId == "" then fields else fields["session_id" := Str(e.sessionId)])
  }

  ghost function LineOf(e: Entry): string {
    Print(EntryJson(e))
  }

  /** The line as the test sees it: text, the topic key, the escaped topic, more text. */
  function Line(before: string, topic: string, after: string): string {
    before + (TOPIC_KEY + (Escape(topic) + ("\"" + after)))
  }

  /** The fields before the t-th key, each with its comma. */
  ghost function Leading(j: Json, ks: seq<string>, t: nat): string
    requires j.Object? && t < |ks| && forall k :: k in ks ==> k in j.fields
  {
    if t == 0 then "" else Leading(j, ks, t - 1) + FieldText(ks[t - 1], j.fields[ks[t - 1]], ",")
  }

  ghost function FieldText(key: string, value: Json, end: string): string {
    Quoted(key) + (":" + (Print(value) + end))
  }

  lemma LeadingFields(j: Json, ks: seq<string>, t: nat, whole: string)
    requires j.Object? && t < |ks| && (forall k :: k in ks ==> k in j.fields) && whole == PrintFields(j, ks, 0)
    ensures whole == Leading(j, ks, t) + PrintFields(j, ks, t)
  {
    NothingBefore(whole);
    for i := 0 to t
      invariant whole == Leading(j, ks, i) + PrintFields(j, ks, i)
    {
      LeadingStep(j, ks, i, whole);
    }
  }

  lemma NothingBefore(s: string)
    ensures "" + s == s
  {
  }

  lemma LeadingNext(j: Json, ks: seq<string>, i: nat)
    requires j.Object? && i + 1 < |ks| && forall k :: k in ks ==> k in j.fields
    ensures Leading(j, ks, i + 1) == Leading(j, ks, i) + FieldText(ks[i], j.fields[ks[i]], ",")
  {
  }

  lemma LeadingStep(j: Json, ks: seq<string>, i: nat, whole: string)
    requires j.Object? && i + 1 < |ks| && forall k :: k in ks ==> k in j.fields
    requires whole == Leading(j, ks, i) + PrintFields(j, ks, i)
    ensures whole == Leading(j, ks, i + 1) + PrintFields(j, ks, i + 1)
  {
    FieldThen(j, ks, i);
    LeadingNext(j, ks, i);
    Moved(whole, Leading(j, ks, i), FieldText(ks[i], j.fields[ks[i]], ","), PrintFields(j, ks, i + 1),
          PrintFields(j, ks, i), Leading(j, ks, i + 1));
  }

  lemma Moved(whole: string, a: string, b: string, c: string, tail: string, ahead: string)
    requires whole == a + tail && tail == b + c && ahead == a + b
    ensures whole == ahead + c
  {
    Associates(a, b, c);
  }

  lemma FieldThen(j: Json, ks: seq<string>, i: nat)
    requires j.Object? && i + 1 < |ks| && forall k :: k in ks ==> k in j.fields
    ensures PrintFields(j, ks, i) == FieldText(ks[i], j.fields[ks[i]], ",") + PrintFields(j, ks, i + 1)
  {
    Regroup(Quoted(ks[i]), Print(j.fields[ks[i]]), ",", PrintFields(j, ks, i + 1));
  }

  lemma {:induction false} PlainEscape(s: string)
    requires forall i :: 0 <= i < |s| ==> Plain(s[i])
    ensures Escape(s) == s
    decreases |s|
  {
    if s != "" {
      PlainEscape(s[1..]);
      assert s == [s[0]] + s[1..];
    }
  }

  lemma TopicField(topic: string, rest: string)
    ensures FieldText("topic", Str(topic), ",") + rest == TOPIC_KEY + (Escape(topic) + ("\"" + ("," + rest)))
  {
    TopicKey();
    Regroup(Quoted("topic"), Quoted(topic), ",", rest);
    QuotedThen(topic, "," + rest);
    KeyAndQuote(Quoted("topic"), Escape(topic) + ("\"" + ("," + rest)));
  }

  lemma TopicKey()
    ensures Quoted("topic") == "\"topic\"" && Quoted("topic") + ":\"" == TOPIC_KEY
  {
    PlainEscape("topic");
  }

  lemma QuotedThen(text: string, rest: string)
    ensures Quoted(text) + rest == "\"" + (Escape(text) + ("\"" + rest))
  {
    Associates("\"", Escape(text) + "\"", rest);
    Associates(Escape(text), "\"", rest);
  }

  lemma KeyAndQuote(key: string, rest: string)
    ensures key + (":" + ("\"" + rest)) == key + ":\"" + rest
  {
    assert ":" + ("\"" + rest) == ":\"" + rest;
    Associates(key, ":\"", rest);
  }

  const SHORT_KEYS: seq<string> := ["agent_id", "causal_time", "event_id", "payload", "topic", "ts_wall", "v"]
  const LONG_KEYS: seq<string> := ["agent_id", "causal_time", "event_id", "payload", "session_id", "topic",
                                 "ts_wall", "v"]

  /** The keys of a line, in the order they are printed. */
  function KeysOf(e: Entry): seq<string> {
    if e.sessionId == "" then SHORT_KEYS else LONG_KEYS
  }

  function TopicAt(e: Entry): nat {
    if e.sessionId == "" then 4 else 5
  }

  lemma KeysAre(e: Entry)
    ensures Sorted(EntryJson(e).fields.Keys) == KeysOf(e)
  {
    if e.sessionId == "" { ShortKeys(e); } else { LongKeys(e); }
  }

  lemma ShortKeys(e: Entry)
    requires e.sessionId == ""
    ensures Sorted(EntryJson(e).fields.Keys) == SHORT_KEYS
  {
    assert Less("topic", "ts_wall");
    SortedIs(SHORT_KEYS, EntryJson(e).fields.Keys);
  }

  lemma LongKeys(e: Entry)
    requires e.sessionId != ""
    ensures Sorted(EntryJson(e).fields.Keys) == LONG_KEYS
  {
    assert Less("topic", "ts_wall");
    SortedIs(LONG_KEYS, EntryJson(e).fields.Keys);
  }

  /** The text of an object before its t-th value's field, and after it. */
  ghost function Ahead(j: Json, ks: seq<string>, t: nat): string
    requires j.Object? && t < |ks| && forall k :: k in ks ==> k in j.fields
  {
    "{" + Leading(j, ks, t)
  }

  ghost function Behind(j: Json, ks: seq<string>, t: nat): string
    requires j.Object? && t + 1 < |ks| && forall k :: k in ks ==> k in j.fields
  {
    "," + PrintFields(j, ks, t + 1)
  }

  ghost function BeforeTopic(e: Entry): string {
    Ahead(EntryJson(e), KeysOf(e), TopicAt(e))
  }

  ghost function AfterTopic(e: Entry): string {
    Behind(EntryJson(e), KeysOf(e), TopicAt(e))
  }

  /** Every printed line has its topic where the test looks for one. */
  lemma LineIs(e: Entry)
    ensures LineOf(e) == Line(BeforeTopic(e), e.topic, AfterTopic(e))
  {
    KeysAre(e);
    EntryFacts(e);
    TopicIsAt(e);
    WholeLine(EntryJson(e), KeysOf(e), TopicAt(e), e.topic);
  }

  lemma TopicIsAt(e: Entry)
    ensures TopicAt(e) + 1 < |KeysOf(e)| && KeysOf(e)[TopicAt(e)] == "topic"
  {
  }

  lemma EntryFacts(e: Entry)
    ensures EntryJson(e).fields != map[] && "topic" in EntryJson(e).fields
    ensures EntryJson(e).fields["topic"] == Str(e.topic)
  {
  }

  lemma WholeLine(j: Json, ks: seq<string>, t: nat, topic: string)
    requires j.Object? && j.fields != map[] && ks == Sorted(j.fields.Keys) && t + 1 < |ks|
    requires ks[t] == "topic" && j.fields["topic"] == Str(topic)
    ensures Print(j) == Line(Ahead(j, ks, t), topic, Behind(j, ks, t))
  {
    ObjectIs(j, ks);
    TopicInFields(j, ks, t, topic);
  }

  lemma TopicInFields(j: Json, ks: seq<string>, t: nat, topic: string)
    requires j.Object? && t + 1 < |ks| && (forall k :: k in ks ==> k in j.fields)
    requires ks[t] == "topic" && j.fields["topic"] == Str(topic)
    ensures "{" + PrintFields(j, ks, 0) == Line(Ahead(j, ks, t), topic, Behind(j, ks, t))
  {
    LeadingFields(j, ks, t, PrintFields(j, ks, 0));
    FieldThen(j, ks, t);
    TopicField(topic, PrintFields(j, ks, t + 1));
    Associates("{", Leading(j, ks, t), PrintFields(j, ks, t));
  }

  // ---- When a text starts with itself, escaped ----

  lemma {:induction false} EscapeAppend(a: string, b: string)
    ensures Escape(a + b) == Escape(a) + Escape(b)
    decreases |a|
  {
    if a == "" {
      assert a + b == b;
    } else {
      assert (a + b)[1..] == a[1..] + b;
      EscapeAppend(a[1..], b);
    }
  }

  lemma {:induction false} QuotesAreEscaped(s: string, i: nat)
    requires i < |Escape(s)| && Escape(s)[i] == '"'
    ensures i > 0 && Escape(s)[i - 1] == '\\'
    decreases |s|
  {
    var head := EscapeChar(s[0]);
    if i >= |head| { QuotesAreEscaped(s[1..], i - |head|); }
  }

  /** Characters that are printed as they are, then nothing but backslashes. */
  predicate PlainThenBackslashes(s: string) {
    s == "" || (Plain(s[0]) && PlainThenBackslashes(s[1..])) || Backslashes(s)
  }

  predicate Backslashes(s: string) {
    forall i :: 0 <= i < |s| ==> s[i] == '\\'
  }

  lemma {:induction false} EscapedBackslashes(s: string, n: nat)
    requires n <= |s| && Backslashes(s[..n])
    ensures |Escape(s)| >= 2 * n && Backslashes(Escape(s)[..2 * n])
    decreases n
  {
    if n > 0 {
      assert s[..n][0] == '\\';
      assert s[1..][..n - 1] == s[..n][1..];
      EscapedBackslashes(s[1..], n - 1);
      assert Escape(s)[..2 * n] == "\\\\" + Escape(s[1..])[..2 * (n - 1)];
    }
  }

  lemma {:induction false} BackslashesFollow(s: string, n: nat)
    requires 0 < n <= |s| && Backslashes(s[..n]) && s <= Escape(s)
    ensures Backslashes(s)
    decreases |s| - n
  {
    if n == |s| {
      assert s[..n] == s;
    } else {
      EscapedBackslashes(s, n);
      assert s[n] == Escape(s)[n] == Escape(s)[..2 * n][n];
      BackslashesFollow(s, n + 1);
    }
  }

  lemma {:induction false} StartsWithItself(s: string)
    ensures s <= Escape(s) <==> PlainThenBackslashes(s)
    decreases |s|
  {
    if s != "" {
      var e := Escape(s);
      if Plain(s[0]) {
        StartsWithItself(s[1..]);
        assert e[1..] == Escape(s[1..]) && s == [s[0]] + s[1..] && e == [s[0]] + e[1..];
      } else {
        assert e[0] == '\\';
        if s <= e { assert s[..1] == [s[0]]; BackslashesFollow(s, 1); }
        if Backslashes(s) {
          assert s[..|s|] == s;
          EscapedBackslashes(s, |s|);
          assert forall i :: 0 <= i < |s| ==> e[i] == e[..2 * |s|][i];
        }
      }
    }
  }

  // ---- When the test is safe ----

  lemma LiteralIsPrefix(topic: string, glob: string)
    requires TopicMatches(topic, glob) && glob != "" && StarAt(glob) > 0
    ensures Literal(glob) <= topic
  {
  }

  /** With a safe literal part the test finds every matching topic on its line. */
  lemma SafeLiteral(before: string, topic: string, after: string, glob: string)
    requires PlainThenBackslashes(Literal(glob)) && TopicMatches(topic, glob)
    ensures QuickMatch(Line(before, topic, after), glob)
  {
    if glob != "" && StarAt(glob) > 0 {
      var literal := Literal(glob);
      LiteralIsPrefix(topic, glob);
      StartsWithItself(literal);
      EscapeAppend(literal, topic[|literal|..]);
      assert topic == literal + topic[|literal|..];
      var escaped := Escape(topic);
      assert literal <= escaped;
      LiteralAtKey(before, escaped, "\"" + after, literal);
      ContainsAt(Line(before, topic, after), TOPIC_KEY + literal, 0, |before|);
    }
  }

  lemma LiteralAtKey(before: string, escaped: string, rest: string, literal: string)
    requires literal <= escaped
    ensures var line, needle := before + (TOPIC_KEY + (escaped + rest)), TOPIC_KEY + literal;
            |before| + |needle| <= |line| && line[|before|..|before| + |needle|] == needle
  {
    var line, needle := before + (TOPIC_KEY + (escaped + rest)), TOPIC_KEY + literal;
    assert needle <= TOPIC_KEY + (escaped + rest);
    assert line[|before|..] == TOPIC_KEY + (escaped + rest);
  }

  // ---- When it is not ----

  /** The end of the topic key, and of no other: a quote between a `c` and a colon. */
  predicate KeyEndAt(s: string, q: int) {
    0 < q && q + 1 < |s| && s[q - 1] == 'c' && s[q] == '"' && s[q + 1] == ':'
  }

  ghost predicate Free(s: string) {
    forall q :: !KeyEndAt(s, q)
  }

  /** Nothing can complete the end of a key across the place where these two meet. */
  predicate Apart(a: string, b: string) {
    || a == "" || (a[|a| - 1] != 'c' && a[|a| - 1] != '"')
    || b == "" || (b[0] != '"' && b[0] != ':')
  }

  lemma FreeJoin(a: string, b: string)
    requires Free(a) && Free(b) && Apart(a, b)
    ensures Free(a + b)
  {
    forall q ensures !KeyEndAt(a + b, q) {
      assert !KeyEndAt(a, q) && !KeyEndAt(b, q - |a|);
    }
  }

  lemma QuotedFree(s: string)
    ensures Free(Quoted(s))
  {
    var e, text := Escape(s), Quoted(s);
    forall q ensures !KeyEndAt(text, q) {
      if KeyEndAt(text, q) {
        assert text[q] == e[q - 1];
        QuotesAreEscaped(s, q - 1);
      }
    }
  }

  predicate PlainKey(key: string) {
    key != "" && key[|key| - 1] != 'c' && forall i :: 0 <= i < |key| ==> Plain(key[i])
  }

  /** A key of the line other than the topic's. */
  lemma KeyFree(key: string)
    requires PlainKey(key)
    ensures Free(Quoted(key) + ":")
  {
    PlainEscape(key);
    QuotedFree(key);
    var text := Quoted(key) + ":";
    forall q ensures !KeyEndAt(text, q) {
      assert !KeyEndAt(Quoted(key), q);
    }
  }

  /** Values whose text never holds the end of a key: the strings and numbers of a line, and `{}`. */
  predicate Simple(j: Json) {
    j.Str? || j.Number? || j == Object(map[])
  }

  lemma ValueFree(j: Json)
    requires Simple(j)
    ensures Free(Print(j))
  {
    match j
    case Str(s) => QuotedFree(s);
    case Number(t) => forall q ensures !KeyEndAt(t, q) {}
    case Object(_) => assert Print(j) == "{}";
  }

  lemma FieldFree(key: string, value: Json, end: string)
    requires PlainKey(key) && Simple(value) && (end == "," || end == "}")
    ensures Free(FieldText(key, value, end)) && Apart(FieldText(key, value, end), "\"")
  {
    KeyFree(key);
    ValueFree(value);
    FreeJoin(Print(value), end);
    ColonThen(Quoted(key), Print(value) + end);
  }

  lemma ColonThen(key: string, value: string)
    requires Free(key + ":") && Free(value) && value != "" && Apart(value, "\"")
    ensures Free(key + (":" + value)) && Apart(key + (":" + value), "\"")
  {
    FreeJoin(key + ":", value);
    Associates(key, ":", value);
  }

  ghost predicate SimpleFields(j: Json, ks: seq<string>, i: nat, n: nat)
    requires n <= |ks|
  {
    j.Object? && forall k :: i <= k < n ==> ks[k] in j.fields && PlainKey(ks[k]) && Simple(j.fields[ks[k]])
  }

  lemma {:induction false} LeadingFree(j: Json, ks: seq<string>, t: nat)
    requires j.Object? && t < |ks| && (forall k :: k in ks ==> k in j.fields) && SimpleFields(j, ks, 0, t)
    ensures Free(Leading(j, ks, t)) && Apart(Leading(j, ks, t), "\"")
    decreases t
  {
    if t > 0 {
      LeadingFree(j, ks, t - 1);
      FieldFree(ks[t - 1], j.fields[ks[t - 1]], ",");
      JoinFields(Leading(j, ks, t - 1), FieldText(ks[t - 1], j.fields[ks[t - 1]], ","));
    }
  }

  lemma JoinFields(a: string, b: string)
    requires Free(a) && Free(b) && Apart(a, "\"") && Apart(b, "\"") && b != ""
    ensures Free(a + b) && Apart(a + b, "\"")
  {
    FreeJoin(a, b);
  }

  lemma {:induction false} FieldsFree(j: Json, ks: seq<string>, i: nat)
    requires j.Object? && i < |ks| && (forall k :: k in ks ==> k in j.fields) && SimpleFields(j, ks, i, |ks|)
    ensures Free(PrintFields(j, ks, i))
    decreases |ks| - i
  {
    if i + 1 == |ks| {
      FieldFree(ks[i], j.fields[ks[i]], "}");
    } else {
      FieldsFree(j, ks, i + 1);
      OneMoreFree(j, ks, i);
    }
  }

  lemma OneMoreFree(j: Json, ks: seq<string>, i: nat)
    requires j.Object? && i + 1 < |ks| && (forall k :: k in ks ==> k in j.fields)
    requires PlainKey(ks[i]) && Simple(j.fields[ks[i]]) && Free(PrintFields(j, ks, i + 1))
    ensures Free(PrintFields(j, ks, i))
  {
    FieldFree(ks[i], j.fields[ks[i]], ",");
    FreeJoin(FieldText(ks[i], j.fields[ks[i]], ","), PrintFields(j, ks, i + 1));
    FieldThen(j, ks, i);
  }

  lemma SimpleKeys(e: Entry)
    requires e.payload == Object(map[])
    ensures SimpleFields(EntryJson(e), KeysOf(e), 0, TopicAt(e))
    ensures SimpleFields(EntryJson(e), KeysOf(e), TopicAt(e) + 1, |KeysOf(e)|)
  {
    KeysAre(e);
    var j, ks := EntryJson(e), KeysOf(e);
    forall k | 0 <= k < |ks| && k != TopicAt(e)
      ensures ks[k] in j.fields && PlainKey(ks[k]) && Simple(j.fields[ks[k]])
    {
      assert ks[k] in j.fields.Keys && ks[k] != ks[TopicAt(e)];
      FieldIsSimple(e, ks[k]);
    }
  }

  lemma FieldIsSimple(e: Entry, key: string)
    requires e.payload == Object(map[]) && key in EntryJson(e).fields && key != "topic"
    ensures PlainKey(key) && Simple(EntryJson(e).fields[key])
  {
    PlainKeys();
    assert key in {"agent_id", "causal_time", "event_id", "payload", "session_id", "ts_wall", "v"};
  }

  lemma PlainKeys()
    ensures forall key :: key in {"agent_id", "causal_time", "event_id", "payload", "session_id", "ts_wall", "v"} ==>
        PlainKey(key)
  {
    assert PlainKey("agent_id");
    assert PlainKey("causal_time");
    assert PlainKey("event_id");
    assert PlainKey("payload");
    assert PlainKey("session_id");
    assert PlainKey("ts_wall");
    assert PlainKey("v");
  }

  lemma LineIsSimple(e: Entry)
    requires e.payload == Object(map[])
    ensures Free(BeforeTopic(e)) && Apart(BeforeTopic(e), "\"") && BeforeTopic(e) != "" && Free(AfterTopic(e))
  {
    SimpleKeys(e);
    AroundTopic(EntryJson(e), KeysOf(e), TopicAt(e));
  }

  lemma AroundTopic(j: Json, ks: seq<string>, t: nat)
    requires j.Object? && t + 1 < |ks| && (forall k :: k in ks ==> k in j.fields)
    requires SimpleFields(j, ks, 0, t) && SimpleFields(j, ks, t + 1, |ks|)
    ensures Free("{" + Leading(j, ks, t)) && Apart("{" + Leading(j, ks, t), "\"")
    ensures Free("," + PrintFields(j, ks, t + 1))
  {
    LeadingFree(j, ks, t);
    FreeJoin("{", Leading(j, ks, t));
    FieldsFree(j, ks, t + 1);
    FreeJoin(",", PrintFields(j, ks, t + 1));
  }

  lemma KeyThenValue(value: string, q: int)
    requires Free(value) && KeyEndAt("\"topic\":" + value, q)
    ensures q == 6
  {
    assert !KeyEndAt(value, q - 8);
  }

  lemma LineHalves(before: string, topic: string, after: string)
    ensures Line(before, topic, after) == before + ("\"topic\":" + (Quoted(topic) + after))
  {
    QuotedThen(topic, after);
    TopicKey();
    KeyAndQuote("\"topic\"", Escape(topic) + ("\"" + after));
    assert "\"topic\"" + (":" + (Quoted(topic) + after)) == "\"topic\":" + (Quoted(topic) + after);
  }

  /** On such a line the end of the topic key is the only one. */
  lemma OnlyKeyEnd(before: string, topic: string, after: string, q: int)
    requires Free(before) && Apart(before, "\"") && before != "" && Free(after) && after != "" && after[0] == ','
    requires KeyEndAt(Line(before, topic, after), q)
    ensures q == |before| + 6
  {
    var tail := "\"topic\":" + (Quoted(topic) + after);
    LineHalves(before, topic, after);
    QuotedFree(topic);
    FreeJoin(Quoted(topic), after);
    Beyond(before, tail, q);
    KeyThenValue(Quoted(topic) + after, q - |before|);
  }

  lemma Beyond(before: string, tail: string, q: int)
    requires Free(before) && Apart(before, "\"") && before != "" && tail != "" && tail[0] == '"'
    requires KeyEndAt(before + tail, q)
    ensures KeyEndAt(tail, q - |before|)
  {
    assert !KeyEndAt(before, q);
  }

  lemma CharsOf(line: string, needle: string, k: nat, j: nat)
    requires OccursAt(line, needle, k) && j < |needle|
    ensures line[k + j] == needle[j]
  {
    assert line[k..k + |needle|][j] == line[k + j];
  }

  lemma {:induction false} LongerEscaped(s: string)
    ensures |s| <= |Escape(s)|
    decreases |s|
  {
    if s != "" { LongerEscaped(s[1..]); }
  }

  lemma FoundAtTheKey(line: string, before: string, topic: string, after: string, k: nat)
    requires Free(before) && Apart(before, "\"") && before != "" && Free(after) && after != "" && after[0] == ','
    requires line == Line(before, topic, after) && OccursAt(line, TOPIC_KEY + topic, k)
    ensures topic <= Escape(topic)
  {
    KeyFound(line, TOPIC_KEY + topic, k);
    OnlyKeyEnd(before, topic, after, k + 6);
    LongerEscaped(topic);
    forall i | 0 <= i < |topic| ensures Escape(topic)[i] == topic[i] { SameChar(line, before, topic, after, i); }
  }

  lemma SameChar(line: string, before: string, topic: string, after: string, i: nat)
    requires line == Line(before, topic, after) && i < |topic| <= |Escape(topic)|
    requires OccursAt(line, TOPIC_KEY + topic, |before|)
    ensures Escape(topic)[i] == topic[i]
  {
    CharsOf(line, TOPIC_KEY + topic, |before|, 9 + i);
    NeedleChar(topic, i);
    TopicChars(before, topic, after, i);
  }

  lemma NeedleChar(topic: string, i: nat)
    requires i < |topic|
    ensures 9 + i < |TOPIC_KEY + topic| && (TOPIC_KEY + topic)[9 + i] == topic[i]
  {
  }

  lemma KeyFound(line: string, needle: string, k: nat)
    requires OccursAt(line, needle, k) && TOPIC_KEY <= needle
    ensures KeyEndAt(line, k + 6)
  {
    CharsOf(line, needle, k, 5);
    CharsOf(line, needle, k, 6);
    CharsOf(line, needle, k, 7);
    assert needle[5] == TOPIC_KEY[5] && needle[6] == TOPIC_KEY[6] && needle[7] == TOPIC_KEY[7];
  }

  lemma TopicChars(before: string, topic: string, after: string, i: nat)
    requires i < |Escape(topic)|
    ensures |before| + 9 + i < |Line(before, topic, after)|
    ensures Line(before, topic, after)[|before| + 9 + i] == Escape(topic)[i]
  {
  }

  /** For every other glob the test passes over the line of an event whose topic is the glob's literal
      part and whose payload is empty, whoever writes it and whenever. */
  lemma UnsafeLiteral(glob: string, e: Entry)
    requires !PlainThenBackslashes(Literal(glob)) && e.topic == Literal(glob) && e.payload == Object(map[])
    ensures TopicMatches(e.topic, glob) && !QuickMatch(LineOf(e), glob)
  {
    LiteralMatches(glob);
    TopicNotFound(e);
  }

  lemma LiteralMatches(glob: string)
    ensures TopicMatches(Literal(glob), glob)
    ensures !PlainThenBackslashes(Literal(glob)) ==> glob != "" && glob != "*" && StarAt(glob) != 0
  {
    if StarAt(glob) == |glob| { assert Literal(glob) == glob; }
  }

  lemma TopicNotFound(e: Entry)
    requires e.payload == Object(map[]) && !PlainThenBackslashes(e.topic)
    ensures !Contains(LineOf(e), TOPIC_KEY + e.topic, 0)
  {
    LineIs(e);
    LineIsSimple(e);
    StartsWithItself(e.topic);
    NotContained(LineOf(e), BeforeTopic(e), e.topic, AfterTopic(e));
  }

  lemma NotContained(line: string, before: string, topic: string, after: string)
    requires Free(before) && Apart(before, "\"") && before != "" && Free(after) && after != "" && after[0] == ','
    requires line == Line(before, topic, after) && !(topic <= Escape(topic))
    ensures !Contains(line, TOPIC_KEY + topic, 0)
  {
    if Contains(line, TOPIC_KEY + topic, 0) {
      var k := ContainsWhere(line, TOPIC_KEY + topic, 0);
      FoundAtTheKey(line, before, topic, after, k);
    }
  }

  lemma SafeOnLine(glob: string, e: Entry)
    requires PlainThenBackslashes(Literal(glob)) && TopicMatches(e.topic, glob)
    ensures QuickMatch(LineOf(e), glob)
  {
    LineIs(e);
    SafeLiteral(BeforeTopic(e), e.topic, AfterTopic(e), glob);
  }

  /** The test finds every matching topic on every line the writer can print exactly when the literal
      part of the glob prints as itself, up to a run of backslashes at its end. */
  lemma TestIsSafeIff(glob: string)
    ensures (forall e: Entry :: TopicMatches(e.topic, glob) ==> QuickMatch(LineOf(e), glob)) <==>
            PlainThenBackslashes(Literal(glob))
  {
    if PlainThenBackslashes(Literal(glob)) {
      forall e: Entry | TopicMatches(e.topic, glob) ensures QuickMatch(LineOf(e), glob) { SafeOnLine(glob, e); }
    } else {
      UnsafeLiteral(glob, Entry("", 0, "", Object(map[]), "", Literal(glob), 0));
    }
  }

  // ---- Logs the writer printed ----

  /** Reading an entry's error code fails on anything but a number or a boolean, and then the whole
      line is skipped. */
  predicate Readable(e: Entry) {
    e.payload.Object? && "_error_code" in e.payload.fields ==>
      e.payload.fields["_error_code"].Number? || e.payload.fields["_error_code"].Bool?
  }

  /** The event read back from an entry's line. A payload that is no object is not read. */
  function EventOf(e: Entry): Event {
    Event(e.topic, e.causalTime, if e.payload.Object? then e.payload else Null)
  }

  /** A parser that reads what the writer prints. */
  ghost predicate ReadsEntries(parse: Parser) {
    forall e :: Readable(e) ==> parse(LineOf(e)) == Some(EventOf(e))
  }

  /** Every line of the log that reads as an event was printed for one. */
  ghost predicate Printed(lines: seq<string>, parse: Parser) {
    forall i :: 0 <= i < |lines| ==> PrintedLine(lines[i], parse)
  }

  ghost predicate PrintedLine(line: string, parse: Parser) {
    parse(line).Some? ==> exists e :: line == LineOf(e) && parse(line).value.topic == e.topic
  }

  /** On a log the writer printed, a query with a safe glob returns the first matches of what a
      read returns. */
  lemma QueryOfPrintedLog(lines: seq<string>, parse: Parser, f: Filter, out: seq<Event>, maxCount: nat)
    requires Printed(lines, parse) && PlainThenBackslashes(Literal(f.glob))
    requires AreFirst(out, Kept(lines, parse, f), maxCount)
    ensures AreFirst(out, FilteredRead(lines, parse, f), maxCount)
  {
    forall i | 0 <= i < |lines| ensures !Dropped(lines[i], parse, f) {
      var line := lines[i];
      assert PrintedLine(line, parse);
      if parse(line).Some? && Matches(parse(line).value, f) {
        var e :| line == LineOf(e) && parse(line).value.topic == e.topic;
        SafeOnLine(f.glob, e);
      }
    }
    QueryIsFilteredRead(lines, parse, f);
  }

  /** With any other glob there is a printed log whose one event a read finds and a query loses. */
  lemma UnsafeQueryLoses(glob: string, e: Entry, parse: Parser)
    requires !PlainThenBackslashes(Literal(glob)) && e.topic == Literal(glob) && e.payload == Object(map[])
    requires ReadsEntries(parse)
    ensures var f := Filter(glob, false, 0, 0);
            Kept([LineOf(e)], parse, f) == [] && FilteredRead([LineOf(e)], parse, f) == [EventOf(e)]
  {
    var f, lines := Filter(glob, false, 0, 0), [LineOf(e)];
    UnsafeLiteral(glob, e);
    assert Readable(e) && parse(LineOf(e)) == Some(EventOf(e));
    assert Found(lines, 0, Looking(parse, f)) == [] && Found(lines, 1, Looking(parse, f)) == [];
    assert Events(lines, 0, parse) == [] && Events(lines, 1, parse) == [EventOf(e)];
    assert Selected([EventOf(e)], 0, f) == [] && Selected([EventOf(e)], 1, f) == [EventOf(e)];
  }

  // ---- Such a parser exists ----

  function Digits(t: string): Option<nat> {
    if t == "" then Some(0)
    else
      var c := t[|t| - 1];
      match Digits(t[..|t| - 1])
      case Some(n) => if '0' <= c <= '9' then Some(10 * n + (c as int - '0' as int)) else None
      case None => None
  }

  lemma {:induction false} DigitsRead(n: nat)
    ensures Digits(Decimal(n)) == Some(n)
    decreases n
  {
    var t, d := Decimal(n), "0123456789"[n % 10];
    assert t[|t| - 1] == d && d as int == '0' as int + n % 10;
    if n < 10 {
      assert t[..|t| - 1] == "";
    } else {
      DigitsRead(n / 10);
      assert t[..|t| - 1] == Decimal(n / 10);
    }
  }

  /** Reading one line: version 1, then topic, time and payload. */
  function EventIn(j: Json): Option<Event> {
    if !j.Object? || "v" !in j.fields || j.fields["v"] != Number("1") then None
    else
      var topic := if "topic" in j.fields then j.fields["topic"] else Str("");
      var time := if "causal_time" in j.fields then j.fields["causal_time"] else Number("0");
      var payload := if "payload" in j.fields then j.fields["payload"] else Null;
      if !topic.Str? || !time.Number? || Digits(time.digits) == None then None
      else if payload.Object? && "_error_code" in payload.fields &&
              !payload.fields["_error_code"].Number? && !payload.fields["_error_code"].Bool? then None
      else Some(Event(topic.text, Digits(time.digits).value, if payload.Object? then payload else Null))
  }

  function ParseEntry(line: string): Option<Event> {
    match ReadText(line)
    case None => None
    case Some(j) => EventIn(j)
  }

  /** Reading a printed line gives the event back, or skips the line just when its error code cannot be
      read. */
  lemma ParseEntryIs(e: Entry)
    ensures ParseEntry(LineOf(e)) == if Readable(e) then Some(EventOf(e)) else None
  {
    LineReads(e);
    EntryReads(e);
  }

  lemma EntryReads(e: Entry)
    ensures EventIn(EntryJson(e)) == if Readable(e) then Some(EventOf(e)) else None
  {
    DigitsRead(e.causalTime);
  }

  lemma ParseEntryReads()
    ensures ReadsEntries(ParseEntry)
  {
    forall e | Readable(e) ensures ParseEntry(LineOf(e)) == Some(EventOf(e)) { ParseEntryIs(e); }
  }

  /** A line of another version is skipped. */
  lemma OtherVersions(fields: map<string, Json>)
    requires "v" !in fields || fields["v"] != Number("1")
    ensures ParseEntry(Print(Object(fields))) == None
  {
    TextRoundTrip(Object(fields));
  }

  /** A line that lacks the topic reads as if it were empty. */
  lemma MissingTopic(e: Entry, fields: map<string, Json>)
    requires Readable(e) && fields == EntryJson(e).fields - {"topic"}
    ensures EventIn(Object(fields)) == Some(EventOf(e).(topic := ""))
  {
    DigitsRead(e.causalTime);
  }

  /** Without a time it is 0. */
  lemma MissingTime(e: Entry, fields: map<string, Json>)
    requires Readable(e) && fields == EntryJson(e).fields - {"causal_time"}
    ensures EventIn(Object(fields)) == Some(EventOf(e).(time := 0))
  {
    ZeroIs();
  }

  /** Without a payload there is none. */
  lemma MissingPayload(e: Entry, fields: map<string, Json>)
    requires Readable(e) && fields == EntryJson(e).fields - {"payload"}
    ensures EventIn(Object(fields)) == Some(EventOf(e).(payload := Null))
  {
    DigitsRead(e.causalTime);
  }

  /** The keys of the event, the agent, the wall clock and the session are not asked for. */
  lemma NotAskedFor(e: Entry, fields: map<string, Json>)
    requires Readable(e) && fields == EntryJson(e).fields - {"event_id", "agent_id", "ts_wall", "session_id"}
    ensures EventIn(Object(fields)) == Some(EventOf(e))
  {
    var all := EntryJson(e).fields;
    assert all["v"] == Number("1") && all["topic"] == Str(e.topic) && all["payload"] == e.payload;
    assert all["causal_time"] == Number(Decimal(e.causalTime));
    forall key | key in ["v", "topic", "causal_time", "payload"] ensures key in fields && fields[key] == all[key] {
      assert key !in {"event_id", "agent_id", "ts_wall", "session_id"};
    }
    EventFrom(fields, e);
  }

  lemma EventFrom(fields: map<string, Json>, e: Entry)
    requires Readable(e) && "v" in fields && "topic" in fields && "causal_time" in fields && "payload" in fields
    requires fields["v"] == Number("1") && fields["topic"] == Str(e.topic)
    requires fields["causal_time"] == Number(Decimal(e.causalTime)) && fields["payload"] == e.payload
    ensures EventIn(Object(fields)) == Some(EventOf(e))
  {
    DigitsRead(e.causalTime);
  }

  lemma ZeroIs()
    ensures Digits("0") == Some(0)
  {
    assert "0"[..0] == "";
  }

  /** A printed line holds each of the entry's fields under its key, and no others; the session only if there
      is one. */
  lemma LineHolds(e: Entry)
    ensures ReadText(LineOf(e)) == Some(EntryJson(e))
    ensures Digits(Decimal(e.wallTime)) == Some(e.wallTime) && Digits(Decimal(e.causalTime)) == Some(e.causalTime)
    ensures EntryJson(e) ==
            Object(map["agent_id" := Str(e.agentId), "causal_time" := Number(Decimal(e.causalTime)),
                       "event_id" := Str(e.eventId), "payload" := e.payload, "topic" := Str(e.topic),
                       "ts_wall" := Number(Decimal(e.wallTime)), "v" := Number("1")]
                   + (if e.sessionId == "" then map[] else map["session_id" := Str(e.sessionId)]))
  {
    LineReads(e);
    DigitsRead(e.wallTime);
    DigitsRead(e.causalTime);
    FieldsAre(e);
  }

  lemma FieldsAre(e: Entry)
    ensures EntryJson(e) ==
            Object(map["agent_id" := Str(e.agentId), "causal_time" := Number(Decimal(e.causalTime)),
                       "event_id" := Str(e.eventId), "payload" := e.payload, "topic" := Str(e.topic),
                       "ts_wall" := Number(Decimal(e.wallTime)), "v" := Number("1")]
                   + (if e.sessionId == "" then map[] else map["session_id" := Str(e.sessionId)]))
  {
  }

  lemma LineReads(e: Entry)
    ensures ReadText(LineOf(e)) == Some(EntryJson(e))
  {
    TextRoundTrip(EntryJson(e));
  }

  /** The log of these entries. */
  ghost function LogOf(entries: seq<Entry>): seq<string> {
    seq(|entries|, i requires 0 <= i < |entries| => LineOf(entries[i]))
  }

  /** On the log of any entries a query with a safe glob returns the first matches of what a read
      returns. */
  lemma QueryOfEntries(entries: seq<Entry>, f: Filter, out: seq<Event>, maxCount: nat)
    requires PlainThenBackslashes(Literal(f.glob)) && AreFirst(out, Kept(LogOf(entries), ParseEntry, f), maxCount)
    ensures AreFirst(out, FilteredRead(LogOf(entries), ParseEntry, f), maxCount)
  {
    var lines := LogOf(entries);
    forall i | 0 <= i < |lines| ensures PrintedLine(lines[i], ParseEntry) {
      ParseEntryIs(entries[i]);
      assert lines[i] == LineOf(entries[i]);
    }
    QueryOfPrintedLog(lines, ParseEntry, f, out, maxCount);
  }
}
