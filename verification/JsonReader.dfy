/** Reading printed JSON back. White space, which the program never prints, is not accepted. */
module JsonReader {
  import opened Options
  import opened Sequences
  import opened JsonValues

  // ---- Strings ----

  function HexValue(c: char): Option<nat> {
    if '0' <= c <= '9' then Some(c as int - '0' as int)
    else if 'a' <= c <= 'f' then Some(c as int - 'a' as int + 10)
    else None
  }

  /** The character an escape stands for, and what follows it. */
  function ReadEscape(s: string): (r: Option<(char, string)>)
    ensures r.Some? ==> |r.value.1| < |s|
  {
    if s == "" then None
    else if s[0] == '"' || s[0] == '\\' || s[0] == '/' then Some((s[0], s[1..]))
    else if s[0] == 'b' then Some(('\U{08}', s[1..]))
    else if s[0] == 'f' then Some(('\U{0c}', s[1..]))
    else if s[0] == 'n' then Some(('\n', s[1..]))
    else if s[0] == 'r' then Some(('\r', s[1..]))
    else if s[0] == 't' then Some(('\t', s[1..]))
    else if s[0] != 'u' || |s| < 5 || s[1] != '0' || s[2] != '0' then None
    else
      match (HexValue(s[3]), HexValue(s[4]))
      case (Some(a), Some(b)) => Some(((16 * a + b) as char, s[5..]))
      case _ => None
  }

  /** The characters of a string up to its closing quote, and what follows that. */
  function ReadChars(s: string): (r: Option<(string, string)>)
    ensures r.Some? ==> |r.value.1| < |s|
    decreases |s|
  {
    if s == "" then None
    else if s[0] == '"' then Some(("", s[1..]))
    else if s[0] == '\\' then
      match ReadEscape(s[1..])
      case None => None
      case Some((c, rest)) => Before(c, ReadChars(rest))
    else if s[0] < ' ' then None
    else Before(s[0], ReadChars(s[1..]))
  }

  function Before(c: char, r: Option<(string, string)>): Option<(string, string)> {
    match r
    case None => None
    case Some((text, rest)) => Some(([c] + text, rest))
  }

  lemma EscapeReads(c: char, rest: string)
    requires !Plain(c)
    ensures ReadEscape(EscapeChar(c)[1..] + rest) == Some((c, rest))
  {
    if |EscapeChar(c)| == 6 {
      CodeReads(c, EscapeChar(c)[1..], rest);
    } else {
      LetterReads(c, EscapeChar(c)[1..], rest);
    }
  }

  lemma LetterReads(c: char, e: string, rest: string)
    requires !Plain(c) && |EscapeChar(c)| != 6 && e == EscapeChar(c)[1..]
    ensures ReadEscape(e + rest) == Some((c, rest))
  {
    assert (e + rest)[1..] == rest;
  }

  lemma CodeReads(c: char, e: string, rest: string)
    requires |EscapeChar(c)| == 6 && e == EscapeChar(c)[1..]
    ensures ReadEscape(e + rest) == Some((c, rest))
  {
    var s := e + rest;
    assert s[3] == e[3] && s[4] == e[4] && s[5..] == rest;
    assert 16 * (c as int / 16) + c as int % 16 == c as int;
  }

  lemma PlainReads(c: char, more: string)
    requires Plain(c)
    ensures ReadChars(EscapeChar(c) + more) == Before(c, ReadChars(more))
  {
    assert ([c] + more)[1..] == more;
  }

  lemma EscapedReads(c: char, more: string)
    requires !Plain(c)
    ensures ReadChars(EscapeChar(c) + more) == Before(c, ReadChars(more))
  {
    var e := EscapeChar(c);
    assert (e + more)[1..] == e[1..] + more && (e + more)[0] == '\\';
    EscapeReads(c, more);
  }

  lemma EscapeStep(text: string, tail: string)
    requires text != ""
    ensures Escape(text) + tail == EscapeChar(text[0]) + (Escape(text[1..]) + tail)
  {
  }

  lemma CharReads(c: char, more: string)
    ensures ReadChars(EscapeChar(c) + more) == Before(c, ReadChars(more))
  {
    if Plain(c) { PlainReads(c, more); } else { EscapedReads(c, more); }
  }

  lemma QuoteEnds(rest: string)
    ensures ReadChars(Escape("") + ("\"" + rest)) == Some(("", rest))
  {
    assert ("\"" + rest)[1..] == rest;
    assert Escape("") + ("\"" + rest) == "\"" + rest;
  }

  lemma {:induction false} CharsRead(text: string, rest: string)
    ensures ReadChars(Escape(text) + ("\"" + rest)) == Some((text, rest))
    decreases |text|
  {
    if text == "" {
      QuoteEnds(rest);
    } else {
      CharsRead(text[1..], rest);
      OneMoreChar(text, rest, Escape(text[1..]) + ("\"" + rest));
    }
  }

  lemma OneMoreChar(text: string, rest: string, more: string)
    requires text != "" && more == Escape(text[1..]) + ("\"" + rest) && ReadChars(more) == Some((text[1..], rest))
    ensures ReadChars(Escape(text) + ("\"" + rest)) == Some((text, rest))
  {
    EscapeStep(text, "\"" + rest);
    CharReads(text[0], more);
    assert [text[0]] + text[1..] == text;
  }

  /** What follows does not change what was read. */
  lemma EscapeReadsOn(s: string, more: string)
    requires ReadEscape(s).Some?
    ensures ReadEscape(s + more) == Some((ReadEscape(s).value.0, ReadEscape(s).value.1 + more))
  {
    assert (s + more)[1..] == s[1..] + more;
    if |s| >= 5 { assert (s + more)[5..] == s[5..] + more; }
  }

  lemma {:induction false} CharsReadOn(s: string, more: string)
    requires ReadChars(s).Some?
    ensures ReadChars(s + more) == Some((ReadChars(s).value.0, ReadChars(s).value.1 + more))
    decreases |s|
  {
    assert (s + more)[1..] == s[1..] + more;
    if s[0] == '"' {
    } else if s[0] == '\\' {
      EscapeReadsOn(s[1..], more);
      CharsReadOn(ReadEscape(s[1..]).value.1, more);
    } else {
      CharsReadOn(s[1..], more);
    }
  }

  // ---- Numbers and words ----

  function DigitsEnd(s: string, i: nat): (d: nat)
    requires i <= |s|
    ensures i <= d <= |s| && (d < |s| ==> !IsNumberChar(s[d])) && forall k :: i <= k < d ==> IsNumberChar(s[k])
    decreases |s| - i
  {
    if i == |s| || !IsNumberChar(s[i]) then i else DigitsEnd(s, i + 1)
  }

  lemma DigitsEndIs(s: string, i: nat, d: nat)
    requires i <= d <= |s| && (d < |s| ==> !IsNumberChar(s[d])) && forall k :: i <= k < d ==> IsNumberChar(s[k])
    ensures DigitsEnd(s, i) == d
  {
  }

  function Word(s: string, word: string, j: Json): Option<(Json, string)> {
    if word <= s then Some((j, s[|word|..])) else None
  }

  // ---- Values ----

  function ReadValue(s: string): (r: Option<(Json, string)>)
    ensures r.Some? ==> |r.value.1| < |s|
    decreases |s|, 1
  {
    if s == "" then None
    else if s[0] == 'n' then Word(s, "null", Null)
    else if s[0] == 't' then Word(s, "true", Bool(true))
    else if s[0] == 'f' then Word(s, "false", Bool(false))
    else if s[0] == '"' then AsString(ReadChars(s[1..]))
    else if s[0] == '[' then
      if |s| > 1 && s[1] == ']' then Some((Array([]), s[2..])) else AsArray(ReadItems(s[1..]))
    else if s[0] == '{' then
      if |s| > 1 && s[1] == '}' then Some((Object(map[]), s[2..])) else AsObject(ReadFields(s[1..]))
    else if IsNumberChar(s[0]) then Some((Number(s[..DigitsEnd(s, 0)]), s[DigitsEnd(s, 0)..]))
    else None
  }

  function AsString(r: Option<(string, string)>): Option<(Json, string)> {
    match r
    case None => None
    case Some((text, rest)) => Some((Str(text), rest))
  }

  function AsArray(r: Option<(seq<Json>, string)>): Option<(Json, string)> {
    match r
    case None => None
    case Some((items, rest)) => Some((Array(items), rest))
  }

  function AsObject(r: Option<(map<string, Json>, string)>): Option<(Json, string)> {
    match r
    case None => None
    case Some((fields, rest)) => Some((Object(fields), rest))
  }

  function ReadItems(s: string): (r: Option<(seq<Json>, string)>)
    ensures r.Some? ==> |r.value.1| < |s|
    decreases |s|, 2
  {
    match ReadValue(s)
    case None => None
    case Some((j, rest)) =>
      if rest == "" then None
      else if rest[0] == ']' then Some(([j], rest[1..]))
      else if rest[0] != ',' then None
      else
        match ReadItems(rest[1..])
        case None => None
        case Some((items, rest')) => Some(([j] + items, rest'))
  }

  /** The fields of an object; a key that comes again keeps its later value. */
  function ReadFields(s: string): (r: Option<(map<string, Json>, string)>)
    ensures r.Some? ==> |r.value.1| < |s|
    decreases |s|, 2
  {
    if s == "" || s[0] != '"' then None
    else
      match ReadChars(s[1..])
      case None => None
      case Some((key, after)) =>
        if after == "" || after[0] != ':' then None
        else
          match ReadValue(after[1..])
          case None => None
          case Some((j, rest)) =>
            if rest == "" then None
            else if rest[0] == '}' then Some((map[key := j], rest[1..]))
            else if rest[0] != ',' then None
            else
              match ReadFields(rest[1..])
              case None => None
              case Some((fields, rest')) => Some((map[key := j] + fields, rest'))
  }

  /** A whole text that is one value. */
  function ReadText(s: string): Option<Json> {
    match ReadValue(s)
    case None => None
    case Some((j, rest)) => if rest == "" then Some(j) else None
  }

  // ---- Printed values read back ----

  /** A number must not be followed by more of its characters. */
  predicate Ends(j: Json, rest: string) {
    j.Number? ==> rest == "" || !IsNumberChar(rest[0])
  }

  lemma NumberReads(t: NumberText, rest: string)
    requires rest == "" || !IsNumberChar(rest[0])
    ensures ReadValue(t + rest) == Some((Number(t), rest))
  {
    var s := t + rest;
    assert IsNumberChar(t[0]) && s[0] == t[0];
    DigitsEndIs(s, 0, |t|);
    assert s[..|t|] == t && s[|t|..] == rest;
  }

  lemma WordReads(word: string, rest: string, j: Json)
    ensures Word(word + rest, word, j) == Some((j, rest))
  {
    assert (word + rest)[|word|..] == rest;
  }

  lemma StringReads(text: string, rest: string)
    ensures ReadValue(Quoted(text) + rest) == Some((Str(text), rest))
  {
    var s := Quoted(text) + rest;
    assert s[0] == '"' && s[1..] == Escape(text) + ("\"" + rest);
    CharsRead(text, rest);
  }

  lemma {:induction false} PrintReads(j: Json, rest: string)
    requires Ends(j, rest)
    ensures ReadValue(Print(j) + rest) == Some((j, rest))
    decreases j, 2
  {
    match j
    case Null => WordReads("null", rest, j);
    case Bool(b) => WordReads(if b then "true" else "false", rest, j);
    case Number(t) => NumberReads(t, rest);
    case Str(text) => StringReads(text, rest);
    case Array(items) => ArrayReads(j, rest);
    case Object(fields) => ObjectReads(j, rest);
  }

  lemma {:induction false} ArrayReads(j: Json, rest: string)
    requires j.Array?
    ensures ReadValue(Print(j) + rest) == Some((j, rest))
    decreases j, 1, |j.items| + 1
  {
    if j.items == [] {
      EmptyReads(rest);
    } else {
      ItemsRead(j, 0, rest);
      ArrayText(j, rest);
    }
  }

  lemma EmptyReads(rest: string)
    ensures ReadValue("[]" + rest) == Some((Array([]), rest))
    ensures ReadValue("{}" + rest) == Some((Object(map[]), rest))
  {
    assert ("[]" + rest)[2..] == rest;
    assert ("{}" + rest)[2..] == rest;
  }

  lemma ArrayText(j: Json, rest: string)
    requires j.Array? && j.items != []
    requires ReadItems(PrintItems(j, 0) + rest) == Some((j.items[0..], rest))
    ensures ReadValue(Print(j) + rest) == Some((j, rest))
  {
    var inside := PrintItems(j, 0) + rest;
    PrintStarts(j.items[0]);
    assert inside[0] == Print(j.items[0])[0];
    OpenArray(inside);
    assert Print(j) + rest == "[" + inside;
    assert j.items[0..] == j.items;
  }

  lemma OpenArray(inside: string)
    requires inside != "" && inside[0] != ']'
    ensures ReadValue("[" + inside) == AsArray(ReadItems(inside))
  {
    assert ("[" + inside)[1..] == inside;
  }

  lemma {:induction false} ObjectReads(j: Json, rest: string)
    requires j.Object?
    ensures ReadValue(Print(j) + rest) == Some((j, rest))
    decreases j, 1, |Sorted(j.fields.Keys)| + 1
  {
    if j.fields == map[] {
      EmptyReads(rest);
    } else {
      ObjectIs(j, Sorted(j.fields.Keys));
      FieldsRead(j, Sorted(j.fields.Keys), 0, rest);
      ObjectText(j, Sorted(j.fields.Keys), rest);
    }
  }

  lemma ObjectText(j: Json, ks: seq<string>, rest: string)
    requires j.Object? && j.fields != map[] && ks == Sorted(j.fields.Keys) && ks != []
    requires ReadFields(PrintFields(j, ks, 0) + rest) == Some((Part(j.fields, ks, 0), rest))
    ensures ReadValue(Print(j) + rest) == Some((j, rest))
  {
    FieldsStart(j, ks);
    OpenObject(PrintFields(j, ks, 0) + rest);
    AllParts(j.fields, ks);
    ObjectIs(j, ks);
    Associates("{", PrintFields(j, ks, 0), rest);
  }

  lemma ObjectIs(j: Json, ks: seq<string>)
    requires j.Object? && j.fields != map[] && ks == Sorted(j.fields.Keys)
    ensures ks != [] && Print(j) == "{" + PrintFields(j, ks, 0)
  {
    var k :| k in j.fields;
    assert k in ks;
  }

  lemma FieldsStart(j: Json, ks: seq<string>)
    requires j.Object? && ks != [] && forall k :: k in ks ==> k in j.fields
    ensures PrintFields(j, ks, 0) != "" && PrintFields(j, ks, 0)[0] == '"'
  {
  }

  lemma OpenObject(inside: string)
    requires inside != "" && inside[0] == '"'
    ensures ReadValue("{" + inside) == AsObject(ReadFields(inside))
  {
    assert ("{" + inside)[1..] == inside;
  }

  lemma AllParts(fields: map<string, Json>, ks: seq<string>)
    requires forall k :: k in fields ==> k in ks
    ensures Part(fields, ks, 0) == fields
  {
    assert ks[0..] == ks;
  }

  lemma PrintStarts(j: Json)
    ensures Print(j) != "" && Print(j)[0] != ']'
  {
  }

  lemma {:induction false} ItemsRead(j: Json, i: nat, rest: string)
    requires j.Array? && i < |j.items|
    ensures ReadItems(PrintItems(j, i) + rest) == Some((j.items[i..], rest))
    decreases j, 1, |j.items| - i
  {
    if i + 1 == |j.items| {
      PrintReads(j.items[i], "]" + rest);
      LastItem(j, i, rest);
    } else {
      PrintReads(j.items[i], "," + (PrintItems(j, i + 1) + rest));
      ItemsRead(j, i + 1, rest);
      NextItem(j, i, rest);
    }
  }

  lemma LastItem(j: Json, i: nat, rest: string)
    requires j.Array? && i + 1 == |j.items|
    requires ReadValue(Print(j.items[i]) + ("]" + rest)) == Some((j.items[i], "]" + rest))
    ensures ReadItems(PrintItems(j, i) + rest) == Some((j.items[i..], rest))
  {
    assert PrintItems(j, i) + rest == Print(j.items[i]) + ("]" + rest);
    assert ("]" + rest)[1..] == rest && j.items[i..] == [j.items[i]];
  }

  lemma NextItem(j: Json, i: nat, rest: string)
    requires j.Array? && i + 1 < |j.items|
    requires var more := PrintItems(j, i + 1) + rest;
             ReadValue(Print(j.items[i]) + ("," + more)) == Some((j.items[i], "," + more)) &&
             ReadItems(more) == Some((j.items[i + 1..], rest))
    ensures ReadItems(PrintItems(j, i) + rest) == Some((j.items[i..], rest))
  {
    var more := PrintItems(j, i + 1) + rest;
    CommaThen(Print(j.items[i]), PrintItems(j, i + 1), rest);
    assert ("," + more)[1..] == more;
    assert j.items[i..] == [j.items[i]] + j.items[i + 1..];
  }

  lemma CommaThen(item: string, items: string, rest: string)
    ensures item + ("," + items) + rest == item + ("," + (items + rest))
  {
    Associates(item, "," + items, rest);
    Associates(",", items, rest);
  }

  /** The fields of the keys from the i-th on. */
  function Part(fields: map<string, Json>, ks: seq<string>, i: nat): map<string, Json>
    requires i <= |ks|
  {
    map k | k in fields && k in ks[i..] :: fields[k]
  }

  lemma PartStep(fields: map<string, Json>, ks: seq<string>, i: nat)
    requires i < |ks| && ks[i] in fields
    ensures map[ks[i] := fields[ks[i]]] + Part(fields, ks, i + 1) == Part(fields, ks, i)
  {
    assert ks[i..] == [ks[i]] + ks[i + 1..];
  }

  lemma {:induction false} FieldsRead(j: Json, ks: seq<string>, i: nat, rest: string)
    requires j.Object? && i < |ks| && forall k :: k in ks ==> k in j.fields
    ensures ReadFields(PrintFields(j, ks, i) + rest) == Some((Part(j.fields, ks, i), rest))
    decreases j, 1, |ks| - i
  {
    if i + 1 == |ks| {
      PrintReads(j.fields[ks[i]], "}" + rest);
      LastFieldRead(j, ks, i, rest);
    } else {
      PrintReads(j.fields[ks[i]], "," + (PrintFields(j, ks, i + 1) + rest));
      FieldsRead(j, ks, i + 1, rest);
      NextFieldRead(j, ks, i, rest);
    }
  }

  lemma LastFieldRead(j: Json, ks: seq<string>, i: nat, rest: string)
    requires j.Object? && i + 1 == |ks| && ks[i] in j.fields && forall k :: k in ks ==> k in j.fields
    requires ReadValue(Print(j.fields[ks[i]]) + ("}" + rest)) == Some((j.fields[ks[i]], "}" + rest))
    ensures ReadFields(PrintFields(j, ks, i) + rest) == Some((Part(j.fields, ks, i), rest))
  {
    var value := j.fields[ks[i]];
    Regroup(Quoted(ks[i]), Print(value), "}", rest);
    LastField(ks[i], value, rest);
    assert ks[i..] == [ks[i]];
    assert Part(j.fields, ks, i) == map[ks[i] := value];
  }

  lemma NextFieldRead(j: Json, ks: seq<string>, i: nat, rest: string)
    requires j.Object? && i + 1 < |ks| && ks[i] in j.fields && forall k :: k in ks ==> k in j.fields
    requires var more := PrintFields(j, ks, i + 1) + rest;
             ReadValue(Print(j.fields[ks[i]]) + ("," + more)) == Some((j.fields[ks[i]], "," + more)) &&
             ReadFields(more) == Some((Part(j.fields, ks, i + 1), rest))
    ensures ReadFields(PrintFields(j, ks, i) + rest) == Some((Part(j.fields, ks, i), rest))
  {
    NextFieldText(j, ks, i, rest);
    NextField(ks[i], j.fields[ks[i]], PrintFields(j, ks, i + 1) + rest);
    PartStep(j.fields, ks, i);
  }

  lemma NextFieldText(j: Json, ks: seq<string>, i: nat, rest: string)
    requires j.Object? && i + 1 < |ks| && forall k :: k in ks ==> k in j.fields
    ensures PrintFields(j, ks, i) + rest ==
            Quoted(ks[i]) + (":" + (Print(j.fields[ks[i]]) + ("," + (PrintFields(j, ks, i + 1) + rest))))
  {
    Regroup(Quoted(ks[i]), Print(j.fields[ks[i]]), "," + PrintFields(j, ks, i + 1), rest);
    Associates(",", PrintFields(j, ks, i + 1), rest);
  }

  lemma Regroup(key: string, value: string, tail: string, rest: string)
    ensures key + (":" + (value + tail)) + rest == key + (":" + (value + (tail + rest)))
  {
    assert key + (":" + (value + tail)) + rest == key + ((":" + (value + tail)) + rest);
    assert (":" + (value + tail)) + rest == ":" + ((value + tail) + rest);
  }

  lemma LastField(key: string, value: Json, rest: string)
    requires ReadValue(Print(value) + ("}" + rest)) == Some((value, "}" + rest))
    ensures ReadFields(Quoted(key) + (":" + (Print(value) + ("}" + rest)))) == Some((map[key := value], rest))
  {
    KeyReads(key, Print(value), "}" + rest, Quoted(key) + (":" + (Print(value) + ("}" + rest))));
    assert ("}" + rest)[1..] == rest;
  }

  lemma NextField(key: string, value: Json, more: string)
    requires ReadValue(Print(value) + ("," + more)) == Some((value, "," + more)) && ReadFields(more).Some?
    ensures ReadFields(Quoted(key) + (":" + (Print(value) + ("," + more)))) ==
            Some((map[key := value] + ReadFields(more).value.0, ReadFields(more).value.1))
  {
    KeyReads(key, Print(value), "," + more, Quoted(key) + (":" + (Print(value) + ("," + more))));
    assert ("," + more)[1..] == more;
  }

  lemma KeyReads(key: string, value: string, tail: string, s: string)
    requires s == Quoted(key) + (":" + (value + tail))
    ensures s != "" && s[0] == '"' && ReadChars(s[1..]) == Some((key, ":" + (value + tail)))
    ensures (":" + (value + tail))[1..] == value + tail
  {
    assert s[1..] == Escape(key) + ("\"" + (":" + (value + tail)));
    CharsRead(key, ":" + (value + tail));
  }

  // ---- What follows does not change what was read ----

  lemma WordReadsOn(s: string, more: string, word: string, j: Json)
    requires word <= s
    ensures Word(s + more, word, j) == Some((j, s[|word|..] + more))
  {
    assert (s + more)[|word|..] == s[|word|..] + more;
  }

  lemma {:induction false} ValueReadsOn(s: string, more: string)
    requires ReadValue(s).Some?
    requires ReadValue(s).value.0.Number? ==> ReadValue(s).value.1 != ""
    ensures ReadValue(s + more) == Some((ReadValue(s).value.0, ReadValue(s).value.1 + more))
    decreases |s|, 1
  {
    assert (s + more)[1..] == s[1..] + more && (s + more)[0] == s[0];
    if s[0] == 'n' { WordReadsOn(s, more, "null", Null); }
    else if s[0] == 't' { WordReadsOn(s, more, "true", Bool(true)); }
    else if s[0] == 'f' { WordReadsOn(s, more, "false", Bool(false)); }
    else if s[0] == '"' { CharsReadOn(s[1..], more); }
    else if s[0] == '[' {
      BracketReadsOn(s, more);
      if s[1] != ']' { ItemsReadOn(s[1..], more); }
    } else if s[0] == '{' {
      BracketReadsOn(s, more);
      if s[1] != '}' { FieldsReadOn(s[1..], more); }
    } else {
      NumberReadsOn(s, more);
    }
  }

  lemma BracketReadsOn(s: string, more: string)
    requires |s| > 1
    ensures |s + more| > 1 && (s + more)[1] == s[1] && (s + more)[2..] == s[2..] + more
  {
  }

  lemma NumberReadsOn(s: string, more: string)
    requires s != "" && IsNumberChar(s[0]) && DigitsEnd(s, 0) < |s|
    ensures DigitsEnd(s + more, 0) == DigitsEnd(s, 0)
    ensures (s + more)[..DigitsEnd(s, 0)] == s[..DigitsEnd(s, 0)]
    ensures (s + more)[DigitsEnd(s, 0)..] == s[DigitsEnd(s, 0)..] + more
  {
    DigitsEndIs(s + more, 0, DigitsEnd(s, 0));
  }

  lemma {:induction false} ItemsReadOn(s: string, more: string)
    requires ReadItems(s).Some?
    ensures ReadItems(s + more) == Some((ReadItems(s).value.0, ReadItems(s).value.1 + more))
    decreases |s|, 2
  {
    ValueReadsOn(s, more);
    var rest := ReadValue(s).value.1;
    assert (rest + more)[1..] == rest[1..] + more && (rest + more)[0] == rest[0];
    if rest[0] == ',' { ItemsReadOn(rest[1..], more); }
  }

  lemma {:induction false} FieldsReadOn(s: string, more: string)
    requires ReadFields(s).Some?
    ensures ReadFields(s + more) == Some((ReadFields(s).value.0, ReadFields(s).value.1 + more))
    decreases |s|, 2
  {
    TailOn(s, more);
    CharsReadOn(s[1..], more);
    var after := ReadChars(s[1..]).value.1;
    TailOn(after, more);
    ValueReadsOn(after[1..], more);
    var rest := ReadValue(after[1..]).value.1;
    TailOn(rest, more);
    if rest[0] == ',' { FieldsReadOn(rest[1..], more); }
  }

  lemma TailOn(s: string, more: string)
    requires s != ""
    ensures (s + more)[0] == s[0] && (s + more)[1..] == s[1..] + more
  {
  }

  // ---- Lines ----

  /** A printed value reads back, and no shorter piece of a printed object does. */
  lemma TextRoundTrip(j: Json)
    ensures ReadText(Print(j)) == Some(j)
  {
    PrintReads(j, "");
    assert Print(j) + "" == Print(j);
  }

  lemma PieceOfObject(j: Json, cut: nat)
    requires j.Object? && cut < |Print(j)|
    ensures ReadText(Print(j)[..cut]) == None
  {
    ObjectReads(j, "");
    assert Print(j) + "" == Print(j);
    PieceDoesNotRead(Print(j), j, cut);
  }

  lemma PieceDoesNotRead(text: string, j: Json, cut: nat)
    requires cut < |text| && text[0] == '{' && ReadValue(text) == Some((j, ""))
    ensures ReadText(text[..cut]) == None
  {
    var piece, more := text[..cut], text[cut..];
    assert piece + more == text;
    if ReadValue(piece).Some? {
      assert piece[0] == '{';
      ValueReadsOn(piece, more);
    }
  }

  // ---- What is never printed ----

  lemma VisibleJoin(a: string, b: string)
    requires Visible(a) && Visible(b)
    ensures Visible(a + b)
  {
  }

  lemma EscapeCharIsVisible(c: char)
    ensures Visible(EscapeChar(c))
  {
  }

  lemma {:induction false} EscapeIsVisible(s: string)
    ensures Visible(Escape(s))
    decreases |s|
  {
    if s != "" {
      EscapeIsVisible(s[1..]);
      EscapeCharIsVisible(s[0]);
      VisibleJoin(EscapeChar(s[0]), Escape(s[1..]));
    }
  }

  lemma QuotedIsVisible(s: string)
    ensures Visible(Quoted(s))
  {
    EscapeIsVisible(s);
    VisibleJoin(Escape(s), "\"");
    VisibleJoin("\"", Escape(s) + "\"");
  }

  /** Printed values hold no control characters: section 7 of RFC 8259 has them escaped in strings. */
  lemma {:induction false} PrintIsVisible(j: Json)
    ensures Visible(Print(j))
    decreases j, 2
  {
    match j
    case Str(text) => QuotedIsVisible(text);
    case Array(items) => if items != [] { ItemsAreVisible(j, 0); }
    case Object(fields) => if fields != map[] { FieldsAreVisible(j, Sorted(fields.Keys), 0); }
    case _ =>
  }

  lemma {:induction false} ItemsAreVisible(j: Json, i: nat)
    requires j.Array? && i < |j.items|
    ensures Visible(PrintItems(j, i))
    decreases j, 1, |j.items| - i
  {
    PrintIsVisible(j.items[i]);
    if i + 1 < |j.items| {
      ItemsAreVisible(j, i + 1);
      VisibleJoin(",", PrintItems(j, i + 1));
      VisibleJoin(Print(j.items[i]), "," + PrintItems(j, i + 1));
    }
  }

  lemma {:induction false} FieldsAreVisible(j: Json, ks: seq<string>, i: nat)
    requires j.Object? && i < |ks| && forall k :: k in ks ==> k in j.fields
    ensures Visible(PrintFields(j, ks, i))
    decreases j, 1, |ks| - i
  {
    QuotedIsVisible(ks[i]);
    PrintIsVisible(j.fields[ks[i]]);
    if i + 1 < |ks| {
      FieldsAreVisible(j, ks, i + 1);
      VisibleJoin(",", PrintFields(j, ks, i + 1));
    }
    FieldIsVisible(Quoted(ks[i]), Print(j.fields[ks[i]]),
                   if i + 1 == |ks| then "}" else "," + PrintFields(j, ks, i + 1));
  }

  lemma FieldIsVisible(key: string, value: string, tail: string)
    requires Visible(key) && Visible(value) && Visible(tail)
    ensures Visible(key + (":" + (value + tail)))
  {
    VisibleJoin(value, tail);
    VisibleJoin(":", value + tail);
    VisibleJoin(key, ":" + (value + tail));
  }

  lemma PrintIsOneLine(j: Json)
    ensures '\n' !in Print(j)
  {
    PrintIsVisible(j);
  }
}
