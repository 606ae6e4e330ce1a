/** JSON values and the text the program prints for them: no white space, object keys in order,
    strings escaped by section 7 of RFC 8259. */
module JsonValues {

  predicate IsNumberChar(c: char) {
    '0' <= c <= '9' || c in "+-.eE"
  }

  /** A number stands by its printed form: a run of number characters. */
  predicate IsNumberText(t: string) {
    t != "" && forall i :: 0 <= i < |t| ==> IsNumberChar(t[i])
  }

  type NumberText = t: string | IsNumberText(t) witness "0"

  datatype Json =
    | Null
    | Bool(value: bool)
    | Number(digits: NumberText)
    | Str(text: string)
    | Array(items: seq<Json>)
    | Object(fields: map<string, Json>)

  // ---- Strings ----

  predicate Plain(c: char) {
    c != '"' && c != '\\' && c >= ' '
  }

  /** No control character. */
  predicate Visible(s: string) {
    forall c :: c in s ==> c >= ' '
  }

  function HexDigit(n: nat): char
    requires n < 16
  {
    "0123456789abcdef"[n]
  }

  function EscapeChar(c: char): (s: string)
    ensures Plain(c) ==> s == [c]
    ensures !Plain(c) ==> |s| >= 2 && s[0] == '\\' && forall k :: 2 <= k < |s| ==> Plain(s[k])
  {
    if Plain(c) then [c]
    else if c == '"' then "\\\""
    else if c == '\\' then "\\\\"
    else if c == '\U{08}' then "\\b"
    else if c == '\U{0c}' then "\\f"
    else if c == '\n' then "\\n"
    else if c == '\r' then "\\r"
    else if c == '\t' then "\\t"
    else "\\u00" + [HexDigit(c as int / 16), HexDigit(c as int % 16)]
  }

  function Escape(s: string): string {
    if s == "" then "" else EscapeChar(s[0]) + Escape(s[1..])
  }

  function Quoted(s: string): string {
    "\"" + (Escape(s) + "\"")
  }

  // ---- Keys in order ----

  /** The order of strings by their characters. */
  predicate Less(a: string, b: string) {
    b != "" && (a == "" || a[0] < b[0] || (a[0] == b[0] && Less(a[1..], b[1..])))
  }

  lemma {:induction false} LessIsTotal(a: string, b: string)
    ensures a == b || Less(a, b) || Less(b, a)
    ensures Less(a, b) ==> a != b && !Less(b, a)
    decreases |a|
  {
    if a != "" && b != "" {
      LessIsTotal(a[1..], b[1..]);
      assert a == [a[0]] + a[1..] && b == [b[0]] + b[1..];
    }
  }

  lemma {:induction false} LessIsTransitive(a: string, b: string, c: string)
    requires Less(a, b) && Less(b, c)
    ensures Less(a, c)
    decreases |a|
  {
    if a != "" && a[0] == b[0] == c[0] { LessIsTransitive(a[1..], b[1..], c[1..]); }
  }

  predicate IsLeast(keys: set<string>, k: string) {
    k in keys && forall o :: o in keys && o != k ==> Less(k, o)
  }

  lemma {:induction false} LeastExists(keys: set<string>)
    requires keys != {}
    ensures exists k :: IsLeast(keys, k)
    decreases keys
  {
    var k :| k in keys;
    var rest := keys - {k};
    if rest == {} {
      assert forall o :: o in keys && o != k ==> o in rest;
      assert IsLeast(keys, k);
    } else {
      LeastExists(rest);
      var m :| IsLeast(rest, m);
      LessIsTotal(k, m);
      if Less(k, m) {
        forall o | o in keys && o != k ensures Less(k, o) {
          if o != m { LessIsTransitive(k, m, o); }
        }
        assert IsLeast(keys, k);
      } else {
        assert IsLeast(keys, m);
      }
    }
  }

  lemma LeastIsUnique(keys: set<string>, a: string, b: string)
    requires IsLeast(keys, a) && IsLeast(keys, b)
    ensures a == b
  {
    LessIsTotal(a, b);
  }

  lemma OneLeast(keys: set<string>)
    ensures forall a, b :: IsLeast(keys, a) && IsLeast(keys, b) ==> a == b
  {
    forall a, b | IsLeast(keys, a) && IsLeast(keys, b) ensures a == b { LeastIsUnique(keys, a, b); }
  }

  function Sorted(keys: set<string>): (ks: seq<string>)
    ensures forall k :: k in ks <==> k in keys
    ensures forall i, j :: 0 <= i < j < |ks| ==> ks[i] != ks[j]
    decreases keys
  {
    if keys == {} then []
    else
      LeastExists(keys);
      OneLeast(keys);
      var k :| k in keys && IsLeast(keys, k);
      [k] + Sorted(keys - {k})
  }

  lemma SortedStep(keys: set<string>)
    requires keys != {}
    ensures var ks := Sorted(keys); ks != [] && IsLeast(keys, ks[0]) && ks[1..] == Sorted(keys - {ks[0]})
  {
    LeastExists(keys);
    var k :| k in keys && IsLeast(keys, k) && Sorted(keys) == [k] + Sorted(keys - {k});
  }

  ghost predicate Ascending(ks: seq<string>) {
    forall i, j :: 0 <= i < j < |ks| ==> Less(ks[i], ks[j])
  }

  ghost predicate Covers(ks: seq<string>, keys: set<string>) {
    forall k :: k in keys <==> k in ks
  }

  lemma FirstIsLeast(ks: seq<string>, keys: set<string>)
    requires Ascending(ks) && Covers(ks, keys) && ks != []
    ensures IsLeast(keys, ks[0])
  {
    forall o | o in keys && o != ks[0] ensures Less(ks[0], o) {
      var j :| 0 <= j < |ks| && ks[j] == o;
    }
  }

  lemma RestIsListed(ks: seq<string>, keys: set<string>)
    requires Ascending(ks) && Covers(ks, keys) && ks != []
    ensures Ascending(ks[1..]) && Covers(ks[1..], keys - {ks[0]})
  {
    forall k ensures k in keys - {ks[0]} <==> k in ks[1..] {
      if k in ks[1..] {
        var j :| 0 <= j < |ks[1..]| && ks[1..][j] == k;
        assert ks[j + 1] == k;
        LessIsTotal(ks[0], k);
      }
    }
  }

  /** There is only one ascending list of the same keys. */
  lemma {:induction false} SortedIs(ks: seq<string>, keys: set<string>)
    requires Ascending(ks) && Covers(ks, keys)
    ensures Sorted(keys) == ks
    decreases |ks|
  {
    if ks == [] {
      assert keys == {};
    } else {
      assert ks[0] in keys;
      SortedStep(keys);
      FirstIsLeast(ks, keys);
      LeastIsUnique(keys, ks[0], Sorted(keys)[0]);
      RestIsListed(ks, keys);
      SortedIs(ks[1..], keys - {ks[0]});
      assert Sorted(keys) == [ks[0]] + ks[1..] == ks;
    }
  }

  // ---- Printing ----

  function Print(j: Json): string
    decreases j, 2
  {
    match j
    case Null => "null"
    case Bool(b) => if b then "true" else "false"
    case Number(t) => t
    case Str(s) => Quoted(s)
    case Array(items) => "[" + (if items == [] then "]" else PrintItems(j, 0))
    case Object(fields) => "{" + (if fields == map[] then "}" else PrintFields(j, Sorted(fields.Keys), 0))
  }

  /** The items from the i-th on, and the bracket that ends the array. */
  function PrintItems(j: Json, i: nat): string
    requires j.Array? && i < |j.items|
    decreases j, 1, |j.items| - i
  {
    Print(j.items[i]) + (if i + 1 == |j.items| then "]" else "," + PrintItems(j, i + 1))
  }

  /** The fields from the i-th key on, and the bracket that ends the object. */
  function PrintFields(j: Json, ks: seq<string>, i: nat): string
    requires j.Object? && i < |ks| && forall k :: k in ks ==> k in j.fields
    decreases j, 1, |ks| - i
  {
    Quoted(ks[i]) + (":" + (Print(j.fields[ks[i]]) + (if i + 1 == |ks| then "}" else "," + PrintFields(j, ks, i + 1))))
  }
}
