/** A piece of a printed object with another printed object after it: never a value. */
module JsonTears {
  import opened Options
  import opened Sequences
  import opened JsonValues
  import opened JsonReader

  /** A text that is one object whose first key starts with a letter. */
  ghost predicate NextLine(u: string) {
    && |u| > 2 && u[0] == '{' && u[1] == '"' && 'a' <= u[2] <= 'z'
    && ReadValue(u).Some? && ReadValue(u).value.1 == ""
  }

  /** What a reader that ran past the piece is left with: nothing, or a place in the next line where
      no separator stands. */
  predicate Lost(rest: string) {
    rest == "" || (rest[0] != ',' && rest[0] != ':' && rest[0] != ']' && rest[0] != '}')
  }

  ghost predicate LostValue(s: string) {
    ReadValue(s).Some? ==> Lost(ReadValue(s).value.1)
  }

  // ---- Inside a string ----

  lemma BrokenEscape(c: char, piece: string, u: string)
    requires NextLine(u) && piece < EscapeChar(c) && piece != ""
    ensures ReadChars(piece + u).None?
  {
    var s := piece + u;
    assert piece[0] == EscapeChar(c)[0];
    assert s[1..] == piece[1..] + u;
    assert s[|piece|] == '{';
    assert ReadEscape(s[1..]).None?;
  }

  lemma {:induction false} BrokenChars(text: string, piece: string, u: string)
    requires NextLine(u) && piece < Escape(text) + "\""
    ensures ReadChars(piece + u).Some? ==> Lost(ReadChars(piece + u).value.1)
    decreases |text|
  {
    if piece == "" {
      assert piece + u == u;
      ThroughBrace(u);
    } else {
      var e, tail := EscapeChar(text[0]), Escape(text[1..]) + "\"";
      EscapeStep(text, "\"");
      if |piece| < |e| {
        PieceOfFirst(e, tail, piece);
        BrokenEscape(text[0], piece, u);
      } else {
        var more := PieceOfRest(e, tail, piece);
        BrokenChars(text[1..], more, u);
        Associates(e, more, u);
        if Plain(text[0]) { PlainReads(text[0], more + u); } else { EscapedReads(text[0], more + u); }
      }
    }
  }

  lemma PieceOfFirst(first: string, rest: string, piece: string)
    requires piece < first + rest && |piece| < |first|
    ensures piece < first
  {
    assert piece == (first + rest)[..|piece|] == first[..|piece|];
  }

  lemma PieceOfRest(first: string, rest: string, piece: string) returns (more: string)
    requires piece < first + rest && |first| <= |piece|
    ensures piece == first + more && more < rest
  {
    more := piece[|first|..];
    assert piece == (first + rest)[..|piece|];
    assert piece[..|first|] == first;
    assert more == (first + rest)[|first|..|piece|] == rest[..|more|];
  }

  lemma ThroughBrace(u: string)
    requires NextLine(u)
    ensures ReadChars(u) == Some(("{", u[2..])) && Lost(u[2..])
  {
    assert u[1..][1..] == u[2..] && ['{'] + "" == "{";
    assert ReadChars(u[1..]) == Some(("", u[2..]));
  }

  // ---- Values ----

  lemma BrokenWord(word: string, piece: string, u: string, j: Json)
    requires NextLine(u) && piece < word && '{' !in word
    ensures Word(piece + u, word, j).None?
  {
    var s := piece + u;
    assert s[|piece|] == '{' && word[|piece|] in word;
  }

  lemma BrokenNumber(t: NumberText, piece: string, u: string)
    requires NextLine(u) && piece < t && piece != ""
    ensures LostValue(piece + u)
  {
    var s := piece + u;
    assert forall k :: 0 <= k < |piece| ==> s[k] == t[k];
    DigitsEndIs(s, 0, |piece|);
    assert s[|piece|..] == u;
  }

  lemma BrokenString(text: string, piece: string, u: string)
    requires NextLine(u) && piece < Quoted(text) && piece != ""
    ensures LostValue(piece + u)
  {
    var inside := PieceOfRest("\"", Escape(text) + "\"", piece);
    Associates("\"", inside, u);
    BrokenChars(text, inside, u);
    OpenString(inside + u);
  }

  lemma OpenString(inside: string)
    ensures ReadValue("\"" + inside) == AsString(ReadChars(inside))
  {
    assert ("\"" + inside)[1..] == inside;
  }

  lemma {:induction false} BrokenValue(j: Json, piece: string, u: string)
    requires NextLine(u) && piece < Print(j)
    ensures LostValue(piece + u)
    ensures piece != "" && (j.Array? || j.Object?) ==> ReadValue(piece + u).None?
    decreases j, 2
  {
    if piece == "" {
      assert piece + u == u;
    } else {
      assert piece[0] == Print(j)[0] == (piece + u)[0];
      match j
      case Null => BrokenWord("null", piece, u, j);
      case Bool(b) => BrokenWord(if b then "true" else "false", piece, u, j);
      case Number(t) => BrokenNumber(t, piece, u);
      case Str(text) => BrokenString(text, piece, u);
      case Array(items) => BrokenArray(j, piece, u);
      case Object(fields) => BrokenObject(j, piece, u);
    }
  }

  lemma {:induction false} BrokenArray(j: Json, piece: string, u: string)
    requires j.Array? && NextLine(u) && piece < Print(j) && piece != ""
    ensures ReadValue(piece + u).None?
    decreases j, 1, |j.items| + 1
  {
    var inside := piece[1..];
    assert piece == "[" + inside;
    assert piece + u == "[" + (inside + u);
    if j.items == [] {
      assert inside == "" && inside + u == u;
      assert ReadItems(u).None?;
    } else {
      assert inside < PrintItems(j, 0);
      PrintStarts(j.items[0]);
      if inside != "" { assert inside[0] == PrintItems(j, 0)[0] == Print(j.items[0])[0]; }
      BrokenItems(j, 0, inside, u);
    }
    OpenArray(inside + u);
  }

  lemma OpenAny(inside: string)
    requires inside != "" && inside[0] != '}'
    ensures ReadValue("{" + inside) == AsObject(ReadFields(inside))
  {
    assert ("{" + inside)[1..] == inside;
  }

  lemma {:induction false} BrokenItems(j: Json, i: nat, piece: string, u: string)
    requires j.Array? && i < |j.items| && NextLine(u) && piece < PrintItems(j, i)
    ensures ReadItems(piece + u).None?
    decreases j, 1, |j.items| - i
  {
    var first := Print(j.items[i]);
    if |piece| < |first| {
      PieceOfFirst(first, ItemEnd(j, i), piece);
      BrokenValue(j.items[i], piece, u);
    } else {
      var more := PieceOfRest(first, ItemEnd(j, i), piece);
      Associates(first, more, u);
      if more == "" {
        assert more + u == u;
        PrintReads(j.items[i], u);
      } else {
        var tail := PieceOfRest(",", PrintItems(j, i + 1), more);
        Associates(",", tail, u);
        BrokenItems(j, i + 1, tail, u);
        PastItem(j.items[i], tail + u);
      }
    }
  }

  ghost function ItemEnd(j: Json, i: nat): string
    requires j.Array? && i < |j.items|
  {
    if i + 1 == |j.items| then "]" else "," + PrintItems(j, i + 1)
  }

  lemma PastItem(value: Json, rest: string)
    requires ReadItems(rest).None?
    ensures ReadItems(Print(value) + ("," + rest)).None?
  {
    PrintReads(value, "," + rest);
    assert ("," + rest)[1..] == rest;
  }

  lemma {:induction false} BrokenObject(j: Json, piece: string, u: string)
    requires j.Object? && NextLine(u) && piece < Print(j) && piece != ""
    ensures ReadValue(piece + u).None?
    decreases j, 1, |Sorted(j.fields.Keys)| + 1, 1
  {
    var inside := piece[1..];
    assert piece[0] == '{' && piece == "{" + inside;
    Associates("{", inside, u);
    BrokenInside(j, inside, u);
    OpenAny(inside + u);
  }

  lemma {:induction false} BrokenInside(j: Json, inside: string, u: string)
    requires j.Object? && NextLine(u) && "{" + inside < Print(j)
    ensures ReadFields(inside + u).None? && (inside + u)[0] != '}'
    decreases j, 1, |Sorted(j.fields.Keys)| + 1, 0
  {
    if j.fields == map[] {
      assert inside == "" && inside + u == u;
    } else {
      var ks := Sorted(j.fields.Keys);
      ObjectIs(j, ks);
      FieldsStart(j, ks);
      InsideObject(PrintFields(j, ks, 0), inside);
      BrokenFields(j, ks, 0, inside, u);
      assert (inside + u)[0] == if inside == "" then '{' else '"';
    }
  }

  lemma InsideObject(fields: string, inside: string)
    requires fields != "" && "{" + inside < "{" + fields
    ensures inside < fields && (inside != "" ==> inside[0] == fields[0])
  {
    var more := PieceOfRest("{", fields, "{" + inside);
    assert ("{" + inside)[1..] == inside && ("{" + more)[1..] == more;
  }

  /** Reading a field's value and going on fails. */
  ghost predicate DeadEnd(s: string) {
    ReadValue(s).Some? ==>
      var rest := ReadValue(s).value.1;
      Lost(rest) || (rest[0] == ',' && ReadFields(rest[1..]).None?)
  }

  lemma BrokenKey(key: string, piece: string, u: string)
    requires NextLine(u) && piece < Quoted(key)
    ensures ReadFields(piece + u).None?
  {
    if piece == "" {
      assert piece + u == u;
    } else {
      assert piece[0] == '"' && piece == "\"" + piece[1..];
      var inside := PieceOfRest("\"", Escape(key) + "\"", piece);
      Associates("\"", inside, u);
      BrokenChars(key, inside, u);
      assert ("\"" + (inside + u))[1..] == inside + u;
    }
  }

  lemma KeyThen(key: string, tail: string)
    ensures var s := Quoted(key) + tail; s[0] == '"' && ReadChars(s[1..]) == Some((key, tail))
  {
    var s := Quoted(key) + tail;
    assert s[1..] == Escape(key) + ("\"" + tail);
    CharsRead(key, tail);
  }

  lemma AfterColon(key: string, s: string)
    requires DeadEnd(s)
    ensures ReadFields(Quoted(key) + (":" + s)).None?
  {
    KeyThen(key, ":" + s);
    assert (":" + s)[1..] == s;
  }

  lemma WithoutColon(key: string, u: string)
    requires NextLine(u)
    ensures ReadFields(Quoted(key) + u).None?
  {
    KeyThen(key, u);
  }

  lemma {:induction false} BrokenFields(j: Json, ks: seq<string>, i: nat, piece: string, u: string)
    requires j.Object? && i < |ks| && (forall k :: k in ks ==> k in j.fields)
    requires NextLine(u) && piece < PrintFields(j, ks, i)
    ensures ReadFields(piece + u).None?
    decreases j, 1, |ks| - i, 1
  {
    var key, after := Quoted(ks[i]), ":" + FieldTail(j, ks, i);
    if |piece| < |key| {
      PieceOfFirst(key, after, piece);
      BrokenKey(ks[i], piece, u);
    } else {
      var more := PieceOfRest(key, after, piece);
      Associates(key, more, u);
      if more == "" {
        assert more + u == u;
        WithoutColon(ks[i], u);
      } else {
        assert more[0] == ':' && more == ":" + more[1..];
        var tail := PieceOfRest(":", FieldTail(j, ks, i), more);
        Associates(":", tail, u);
        BrokenTail(j, ks, i, tail, u);
        AfterColon(ks[i], tail + u);
      }
    }
  }

  /** What is printed after a field's value, and after its colon. */
  ghost function FieldEnd(j: Json, ks: seq<string>, i: nat): string
    requires j.Object? && i < |ks| && forall k :: k in ks ==> k in j.fields
  {
    if i + 1 == |ks| then "}" else "," + PrintFields(j, ks, i + 1)
  }

  ghost function FieldTail(j: Json, ks: seq<string>, i: nat): string
    requires j.Object? && i < |ks| && forall k :: k in ks ==> k in j.fields
  {
    Print(j.fields[ks[i]]) + FieldEnd(j, ks, i)
  }

  lemma {:induction false} BrokenTail(j: Json, ks: seq<string>, i: nat, piece: string, u: string)
    requires j.Object? && i < |ks| && (forall k :: k in ks ==> k in j.fields)
    requires NextLine(u) && piece < FieldTail(j, ks, i)
    ensures DeadEnd(piece + u)
    decreases j, 1, |ks| - i, 0
  {
    var value := Print(j.fields[ks[i]]);
    if |piece| < |value| {
      PieceOfFirst(value, FieldEnd(j, ks, i), piece);
      BrokenValue(j.fields[ks[i]], piece, u);
    } else {
      var more := PieceOfRest(value, FieldEnd(j, ks, i), piece);
      Associates(value, more, u);
      if more == "" {
        assert more + u == u;
        PrintReads(j.fields[ks[i]], u);
      } else {
        var tail := PieceOfRest(",", PrintFields(j, ks, i + 1), more);
        Associates(",", tail, u);
        BrokenFields(j, ks, i + 1, tail, u);
        PastComma(j.fields[ks[i]], tail + u);
      }
    }
  }

  lemma PastComma(value: Json, rest: string)
    requires ReadFields(rest).None?
    ensures DeadEnd(Print(value) + ("," + rest))
  {
    PrintReads(value, "," + rest);
    assert ("," + rest)[1..] == rest;
  }
}
