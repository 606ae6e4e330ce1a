/** The session file as text: one record a line, and what is read back after a torn write. */
module SessionFile {
  import opened Options
  import opened SessionIds
  import opened SessionLog

  /** Printing a record as one line of JSON, and parsing a line. */
  datatype Codec = Codec(format: Record -> string, parse: string -> Option<Record>)

  /** A printed record holds no newline and parses back; a strict prefix of it does not parse. */
  ghost predicate Sound(c: Codec) {
    forall r: Record :: SoundOn(c, r)
  }

  ghost predicate SoundOn(c: Codec, r: Record) {
    && c.format(r) != [] && '\n' !in c.format(r) && c.parse(c.format(r)) == Some(r)
    && forall k :: 0 <= k < |c.format(r)| ==> c.parse(c.format(r)[..k]) == None
  }

  /** The file after the records of `log` were appended one by one. */
  function Text(c: Codec, log: seq<Record>): string {
    if log == [] then [] else c.format(log[0]) + "\n" + Text(c, log[1..])
  }

  function NewlineAt(s: string): (k: nat)
    ensures k <= |s| && (k < |s| ==> s[k] == '\n')
    ensures forall i :: 0 <= i < k ==> s[i] != '\n'
  {
    if s == [] || s[0] == '\n' then 0 else NewlineAt(s[1..]) + 1
  }

  /** Reading line by line: a last line without its newline is still delivered. */
  function Lines(s: string): seq<string> {
    if s == [] then []
    else
      var k := NewlineAt(s);
      if k == |s| then [s] else [s[..k]] + Lines(s[k + 1..])
  }

  /** Empty lines and lines that do not parse are skipped. */
  function Parsed(c: Codec, lines: seq<string>): seq<Record> {
    if lines == [] then []
    else
      var head := ParsedLine(c, lines[0]);
      (if head.Some? then [head.value] else []) + Parsed(c, lines[1..])
  }

  function Records(c: Codec, file: string): seq<Record> {
    Parsed(c, Lines(file))
  }

  /** Where reading goes on after the first line. */
  function AfterLine(s: string): (rest: string)
    requires s != []
    ensures |rest| < |s|
  {
    if NewlineAt(s) < |s| then s[NewlineAt(s) + 1..] else []
  }

  function ParsedLine(c: Codec, line: string): Option<Record> {
    if line == [] then None else c.parse(line)
  }

  lemma FirstLine(c: Codec, s: string)
    requires s != []
    ensures var r := ParsedLine(c, s[..NewlineAt(s)]);
            Records(c, s) == (if r.Some? then [r.value] else []) + Records(c, AfterLine(s))
  {
    var line := s[..NewlineAt(s)];
    assert NewlineAt(s) == |s| ==> line == s;
    assert Lines(s) == [line] + Lines(AfterLine(s));
    assert ([line] + Lines(AfterLine(s)))[1..] == Lines(AfterLine(s));
  }

  lemma NewlineAfter(line: string, rest: string)
    requires '\n' !in line
    ensures NewlineAt(line + "\n" + rest) == |line|
  {
    var s := line + "\n" + rest;
    var k := NewlineAt(s);
    assert s[|line|] == '\n' && s[..|line|] == line;
    assert forall i :: 0 <= i < |line| ==> s[i] == line[i] != '\n';
  }

  lemma {:induction false} TextThen(c: Codec, log: seq<Record>, tail: string)
    requires Sound(c)
    ensures Records(c, Text(c, log) + tail) == log + Records(c, tail)
    decreases |log|
  {
    if log == [] {
      assert Text(c, log) + tail == tail;
    } else {
      var line, rest := c.format(log[0]), Text(c, log[1..]) + tail;
      assert Text(c, log) + tail == line + "\n" + rest;
      RecordThen(c, log[0], rest);
      TextThen(c, log[1..], tail);
      assert log == [log[0]] + log[1..];
    }
  }

  lemma RecordThen(c: Codec, r: Record, rest: string)
    requires Sound(c)
    ensures Records(c, c.format(r) + "\n" + rest) == [r] + Records(c, rest)
  {
    assert SoundOn(c, r);
    var line := c.format(r);
    var text := line + "\n" + rest;
    NewlineAfter(line, rest);
    assert text[..|line|] == line && AfterLine(text) == rest;
    FirstLine(c, text);
  }

  lemma OneLine(c: Codec, line: string)
    requires '\n' !in line && line != []
    ensures Records(c, line) == if c.parse(line).Some? then [c.parse(line).value] else []
  {
    assert NewlineAt(line) == |line|;
    assert Lines(line) == [line] && [line][1..] == [];
    assert Parsed(c, [line][1..]) == [];
  }

  /** A whole file reads back as the records appended to it. */
  lemma ReadsBack(c: Codec, log: seq<Record>)
    requires Sound(c)
    ensures Records(c, Text(c, log)) == log
  {
    TextThen(c, log, []);
    assert Text(c, log) + [] == Text(c, log);
    assert log + Records(c, []) == log;
  }

  /** Cutting the last write anywhere loses the whole record or, once only the newline is
      missing, nothing. */
  lemma TornWrite(c: Codec, log: seq<Record>, r: Record, cut: nat)
    requires Sound(c) && cut <= |c.format(r) + "\n"|
    ensures Records(c, Text(c, log) + (c.format(r) + "\n")[..cut]) ==
            if cut < |c.format(r)| then log else log + [r]
  {
    var line := c.format(r);
    assert SoundOn(c, r);
    var tail := (line + "\n")[..cut];
    TextThen(c, log, tail);
    if cut == 0 {
      assert tail == [];
    } else if cut <= |line| {
      assert tail == line[..cut];
      assert cut == |line| ==> tail == line;
      OneLine(c, tail);
    } else {
      assert tail == Text(c, [r]) by { assert [r][1..] == []; }
      ReadsBack(c, [r]);
    }
  }

  /** One operation makes at most one write. */
  lemma OneWrite(s: Session, op: Op, s': Session)
    requires Step(s, op, s')
    ensures s'.log == s.log || (|s'.log| == |s.log| + 1 && s'.log == s.log + [s'.log[|s.log|]])
  {
  }

  lemma {:induction false} TextAppend(c: Codec, log: seq<Record>, r: Record)
    ensures Text(c, log + [r]) == Text(c, log) + c.format(r) + "\n"
    decreases |log|
  {
    if log == [] {
      assert log + [r] == [r] && [r][1..] == [];
    } else {
      assert (log + [r])[1..] == log[1..] + [r];
      TextAppend(c, log[1..], r);
    }
  }

  /** If the process dies in the middle of an operation's write, at any byte, a new manager
      rebuilds the indexes from just before or just after that operation. */
  lemma CrashIsAtomic(c: Codec, o: Origin, states: seq<Session>, ops: seq<Op>, clock: nat -> string, i: nat, size: nat)
    requires Sound(c)
    requires Run(states, ops) && states[0] == Start(o) && IdsUsed(o) + |ops| < TWO_TO_64
    requires i < |ops| && |Text(c, states[i].log)| <= size <= |Text(c, states[i + 1].log)|
    ensures var rebuilt := Load(OPENED, Records(c, Text(c, states[i + 1].log)[..size]), clock);
            rebuilt == states[i].ix || rebuilt == states[i + 1].ix
  {
    var s, s' := states[i], states[i + 1];
    ReplayRebuilds(o, states, ops, clock, i);
    ReplayRebuilds(o, states, ops, clock, i + 1);
    OneWrite(s, ops[i], s');
    if s'.log == s.log {
      assert Text(c, s'.log)[..size] == Text(c, s.log);
      ReadsBack(c, s.log);
    } else {
      var r := s'.log[|s.log|];
      TextAppend(c, s.log, r);
      var cut := size - |Text(c, s.log)|;
      assert Text(c, s'.log)[..size] == Text(c, s.log) + (c.format(r) + "\n")[..cut];
      TornWrite(c, s.log, r, cut);
    }
  }
}
