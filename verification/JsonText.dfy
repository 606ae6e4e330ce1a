/** The text of JSON values, member by member: the compact form of section 2 of RFC 8259, keys ascending. */
module JsonText {
  import opened Sequences
  import opened JsonValues

  /** Texts with a comma between any two. */
  function Separated(texts: seq<string>): string {
    if texts == [] then ""
    else if |texts| == 1 then texts[0]
    else Separated(texts[..|texts| - 1]) + "," + texts[|texts| - 1]
  }

  lemma {:induction false} SeparatedFirst(texts: seq<string>)
    requires |texts| > 1
    ensures Separated(texts) == texts[0] + "," + Separated(texts[1..])
    decreases |texts|
  {
    var n := |texts| - 1;
    if n > 1 {
      SeparatedFirst(texts[..n]);
      assert texts[..n][1..] == texts[1..][..n - 1] && texts[..n][0] == texts[0];
      Around(texts[0] + ",", Separated(texts[1..][..n - 1]), texts[n]);
    } else {
      assert texts[..1] == [texts[0]] && texts[1..] == [texts[1]];
    }
  }

  lemma Around(a: string, b: string, c: string)
    ensures (a + b) + "," + c == a + (b + "," + c)
  {
  }

  /** The three names, and numbers and strings. */
  lemma ScalarText(b: bool, digits: NumberText, text: string)
    ensures Print(Null) == "null" && Print(Bool(true)) == "true" && Print(Bool(false)) == "false"
    ensures Print(Number(digits)) == digits
    ensures Print(Str(text)) == "\"" + Escape(text) + "\""
  {
  }

  /** What section 7 of RFC 8259 lets a string hold as it is, and how the rest is written. */
  lemma EscapedChar(c: char)
    ensures c >= ' ' && c != '"' && c != '\\' ==> EscapeChar(c) == [c]
    ensures c == '"' || c == '\\' ==> EscapeChar(c) == ['\\', c]
    ensures EscapeChar('\n') == "\\n" && EscapeChar('\r') == "\\r" && EscapeChar('\t') == "\\t"
    ensures EscapeChar('\U{08}') == "\\b" && EscapeChar('\U{0c}') == "\\f"
  {
  }

  lemma ControlChar(c: char)
    requires c < ' ' && c != '\n' && c != '\r' && c != '\t' && c != '\U{08}' && c != '\U{0c}'
    ensures var digits := [if c < '\U{10}' then '0' else '1', "0123456789abcdef"[c as int % 16]];
            EscapeChar(c) == "\\u00" + digits
  {
    assert c as int / 16 == if c < '\U{10}' then 0 else 1;
  }

  ghost function ItemTexts(items: seq<Json>): seq<string> {
    seq(|items|, i requires 0 <= i < |items| => Print(items[i]))
  }

  ghost function MemberTexts(fields: map<string, Json>, ks: seq<string>): seq<string>
    requires forall k :: k in ks ==> k in fields
  {
    seq(|ks|, i requires 0 <= i < |ks| => "\"" + Escape(ks[i]) + "\":" + Print(fields[ks[i]]))
  }

  lemma {:induction false} ItemsFrom(j: Json, i: nat, texts: seq<string>)
    requires j.Array? && i < |j.items| && texts == ItemTexts(j.items)[i..]
    ensures PrintItems(j, i) == Separated(texts) + "]"
    decreases |j.items| - i
  {
    if i + 1 < |j.items| {
      ItemsFrom(j, i + 1, texts[1..]);
      SeparatedFirst(texts);
      Then(texts[0], Separated(texts[1..]), "]");
    }
  }

  lemma Then(first: string, rest: string, end: string)
    ensures first + ("," + (rest + end)) == (first + "," + rest) + end
  {
  }

  /** An array is its items between brackets, in order, with commas. */
  lemma ArrayText(items: seq<Json>)
    ensures Print(Array(items)) == "[" + Separated(ItemTexts(items)) + "]"
  {
    if items == [] {
      assert Print(Array(items)) == "[" + "]";
      assert "[" + "" + "]" == "[" + "]";
    } else {
      ItemsFrom(Array(items), 0, ItemTexts(items));
      Associates("[", Separated(ItemTexts(items)), "]");
    }
  }

  lemma {:induction false} MembersFrom(j: Json, ks: seq<string>, i: nat, texts: seq<string>)
    requires j.Object? && i < |ks| && (forall k :: k in ks ==> k in j.fields) && texts == MemberTexts(j.fields, ks)[i..]
    ensures PrintFields(j, ks, i) == Separated(texts) + "}"
    decreases |ks| - i
  {
    MemberThen(ks[i], Print(j.fields[ks[i]]), texts[0]);
    if i + 1 < |ks| {
      MembersFrom(j, ks, i + 1, texts[1..]);
      SeparatedFirst(texts);
      Then(texts[0], Separated(texts[1..]), "}");
    }
  }

  lemma MemberThen(key: string, value: string, member: string)
    requires member == "\"" + Escape(key) + "\":" + value
    ensures forall end :: Quoted(key) + (":" + (value + end)) == member + end
  {
    assert "\":" == "\"" + ":";
  }

  lemma {:induction false} SortedAscends(keys: set<string>)
    ensures Ascending(Sorted(keys))
    decreases keys
  {
    if keys != {} {
      var ks := Sorted(keys);
      SortedStep(keys);
      SortedAscends(keys - {ks[0]});
      forall i, j | 0 <= i < j < |ks| ensures Less(ks[i], ks[j]) {
        if i == 0 { assert ks[j] in keys; } else { assert Less(ks[1..][i - 1], ks[1..][j - 1]); }
      }
    }
  }

  /** An object is its members between braces, each key once and in ascending order, with commas. */
  lemma ObjectText(fields: map<string, Json>) returns (ks: seq<string>)
    ensures forall k :: k in ks <==> k in fields
    ensures forall i, j :: 0 <= i < j < |ks| ==> Less(ks[i], ks[j])
    ensures Print(Object(fields)) == "{" + Separated(MemberTexts(fields, ks)) + "}"
  {
    ks := Sorted(fields.Keys);
    SortedAscends(fields.Keys);
    if fields == map[] {
      assert ks == [] && Print(Object(fields)) == "{" + "}";
      assert "{" + "" + "}" == "{" + "}";
    } else {
      assert ks != [];
      MembersFrom(Object(fields), ks, 0, MemberTexts(fields, ks));
      Associates("{", Separated(MemberTexts(fields, ks)), "}");
    }
  }
}
