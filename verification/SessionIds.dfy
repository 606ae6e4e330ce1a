/** Identifiers handed out by a session manager: a prefix and a counter in lower-case hex. */
module SessionIds {
  import opened Sequences

  const TWO_TO_64: nat := 0x1_0000_0000_0000_0000

  function Digit(d: nat): char
    requires d < 16
  {
    "0123456789abcdef"[d]
  }

  /** Lower-case hexadecimal without leading zeros, as `{:x}` prints it. */
  function Hex(v: nat): (s: string)
    ensures s != []
  {
    if v < 16 then [Digit(v)] else Hex(v / 16) + [Digit(v % 16)]
  }

  function DigitValue(c: char): nat {
    if '0' <= c <= '9' then (c - '0') as nat
    else if 'a' <= c <= 'f' then (c - 'a') as nat + 10
    else 0
  }

  function HexValue(s: string): nat {
    if s == [] then 0 else 16 * HexValue(s[..|s| - 1]) + DigitValue(s[|s| - 1])
  }

  lemma DigitRoundTrip(d: nat)
    requires d < 16
    ensures DigitValue(Digit(d)) == d
  {
  }

  lemma PushDigit(s: string, d: nat)
    requires d < 16
    ensures HexValue(s + [Digit(d)]) == 16 * HexValue(s) + d
  {
    DigitRoundTrip(d);
    assert (s + [Digit(d)])[..|s|] == s;
  }

  /** Reading a printed number gives the number back. */
  lemma {:induction false} HexRoundTrip(v: nat)
    ensures HexValue(Hex(v)) == v
  {
    if v < 16 {
      PushDigit([], v);
      assert [] + [Digit(v)] == Hex(v);
    } else {
      HexRoundTrip(v / 16);
      PushDigit(Hex(v / 16), v % 16);
    }
  }

  /** The conversion loop: digits are pushed lowest first and reversed at the end. */
  method ToHex(value: nat) returns (out: string)
    requires value < TWO_TO_64
    ensures out == Hex(value)
  {
    if value == 0 { return "0"; }
    var v := value;
    var pushed: string := [];
    while v > 0
      invariant v == 0 ==> pushed != []
      invariant Hex(value) == HexOrNothing(v) + Reversed(pushed)
    {
      OneDigit(v, pushed);
      pushed := pushed + [Digit(v % 16)];
      v := v / 16;
    }
    out := Reversed(pushed);
  }

  function HexOrNothing(v: nat): string {
    if v > 0 then Hex(v) else []
  }

  lemma OneDigit(v: nat, pushed: string)
    requires v > 0
    ensures HexOrNothing(v) + Reversed(pushed) == HexOrNothing(v / 16) + Reversed(pushed + [Digit(v % 16)])
  {
    LastDigit(v);
    ReversedPush(pushed, Digit(v % 16));
    Associates(HexOrNothing(v / 16), [Digit(v % 16)], Reversed(pushed));
  }

  lemma LastDigit(v: nat)
    requires v > 0
    ensures HexOrNothing(v) == HexOrNothing(v / 16) + [Digit(v % 16)]
  {
  }

  lemma ReversedPush(pushed: string, d: char)
    ensures Reversed(pushed + [d]) == [d] + Reversed(pushed)
  {
    assert (pushed + [d])[..|pushed|] == pushed;
  }

  function Reversed(s: string): (r: string)
    ensures |r| == |s|
  {
    if s == [] then [] else [s[|s| - 1]] + Reversed(s[..|s| - 1])
  }

  function NodeId(n: nat): string {
    "node_" + Hex(n)
  }

  function BranchId(n: nat): string {
    "branch_" + Hex(n)
  }

  /** The digits are 0 to 9 and then lower-case a to f, and only 0 itself begins with 0. */
  lemma {:induction false} HexDigits(v: nat)
    ensures forall i :: 0 <= i < |Hex(v)| ==> '0' <= Hex(v)[i] <= '9' || 'a' <= Hex(v)[i] <= 'f'
    ensures Hex(v)[0] == '0' <==> v == 0
    ensures v < 10 ==> Hex(v) == [('0' as int + v) as char]
    ensures 10 <= v < 16 ==> Hex(v) == [('a' as int + v - 10) as char]
  {
    if v >= 16 { HexDigits(v / 16); }
  }

  /** The two kinds of identifier begin differently, and so never meet. */
  lemma KindsDiffer(node: nat, branch: nat)
    ensures "node_" <= NodeId(node) && "branch_" <= BranchId(branch) && NodeId(node) != BranchId(branch)
  {
    assert NodeId(node)[0] == 'n' && BranchId(branch)[0] == 'b';
  }

  /** Different counter values give different identifiers. */
  lemma NodeIdsDiffer(a: nat, b: nat)
    requires NodeId(a) == NodeId(b)
    ensures a == b
  {
    assert NodeId(a)[5..] == Hex(a) && NodeId(b)[5..] == Hex(b);
    HexRoundTrip(a);
    HexRoundTrip(b);
  }

  /** The largest counter value is followed by 0, and every other by its successor. */
  lemma CounterWraps(counter: nat)
    ensures counter < 0xFFFF_FFFF_FFFF_FFFF ==> Next(counter) == counter + 1
    ensures Next(0xFFFF_FFFF_FFFF_FFFF) == 0
  {
  }

  /** The counters are 64 bits wide and wrap. */
  function Next(counter: nat): (next: nat)
    ensures next < TWO_TO_64
  {
    (counter + 1) % TWO_TO_64
  }
}
