/** A line file that rotates when it has grown to its limit, as both event writers keep one.

    A path is a number: 0 is the file written to, k > 0 the file with rotation suffix k. A char
    stands for one byte, and a line takes its length and a newline. */
module RotatingFile {
  import opened Sequences

  // ---- What should be on disk ----

  /** The files closed by a rotation, oldest first, and the file being written. */
  datatype Files = Files(closed: seq<seq<string>>, current: seq<string>)

  function Bytes(lines: seq<string>): nat {
    if lines == [] then 0 else Bytes(lines[..|lines| - 1]) + |lines[|lines| - 1]| + 1
  }

  /** The lines written so far, cut into files: a file is closed by the line that brings it to the
      limit. */
  function History(written: seq<string>, limit: nat): Files {
    if written == [] then Files([], [])
    else
      var before := History(written[..|written| - 1], limit);
      Cut(before, written[|written| - 1], limit)
  }

  function Cut(f: Files, line: string, limit: nat): Files {
    var grown := f.current + [line];
    if Bytes(grown) >= limit then Files(f.closed + [grown], []) else Files(f.closed, grown)
  }

  /** The k-th newest file. */
  function FileAt(f: Files, k: nat): seq<string>
    requires k <= |f.closed|
  {
    if k == 0 then f.current else f.closed[|f.closed| - k]
  }

  /** The current file and the newest `keep` closed files. */
  function Layout(f: Files, keep: nat): map<nat, seq<string>> {
    map k: nat | 0 <= k <= keep && k <= |f.closed| :: FileAt(f, k)
  }

  /** The lines of `files[lo..hi]`, one file after the other. */
  function Joined(files: seq<seq<string>>, lo: nat, hi: nat): seq<string> {
    if hi <= lo || hi > |files| then [] else Joined(files, lo, hi - 1) + files[hi - 1]
  }

  /** What a reader finds on disk, from suffix `n` down to the current file. */
  function Reading(disk: map<nat, seq<string>>, n: nat): seq<string> {
    (if n in disk then disk[n] else []) + (if n == 0 then [] else Reading(disk, n - 1))
  }

  /** The text of a file: its lines, each with its newline. */
  function FileText(lines: seq<string>): string {
    if lines == [] then "" else FileText(lines[..|lines| - 1]) + (lines[|lines| - 1] + "\n")
  }

  /** The tracked size is the length of the text. */
  lemma {:induction false} BytesAreCounted(lines: seq<string>)
    ensures Bytes(lines) == |FileText(lines)|
    decreases |lines|
  {
    if lines != [] { BytesAreCounted(lines[..|lines| - 1]); }
  }

  // ---- The files are the history, cut at the limit ----

  lemma HistorySnoc(written: seq<string>, line: string, limit: nat)
    ensures History(written + [line], limit) == Cut(History(written, limit), line, limit)
  {
    assert (written + [line])[..|written|] == written;
  }

  lemma BytesSnoc(lines: seq<string>, line: string)
    ensures Bytes(lines + [line]) == Bytes(lines) + |line| + 1
  {
    assert (lines + [line])[..|lines|] == lines;
  }

  lemma {:induction false} JoinedStable(files: seq<seq<string>>, file: seq<string>, lo: nat, hi: nat)
    requires hi <= |files|
    ensures Joined(files + [file], lo, hi) == Joined(files, lo, hi)
    decreases hi
  {
    if lo < hi { JoinedStable(files, file, lo, hi - 1); }
  }

  lemma {:induction false} JoinedSplit(files: seq<seq<string>>, lo: nat, mid: nat, hi: nat)
    requires lo <= mid <= hi <= |files|
    ensures Joined(files, lo, hi) == Joined(files, lo, mid) + Joined(files, mid, hi)
    decreases hi
  {
    if mid < hi {
      JoinedSplit(files, lo, mid, hi - 1);
      Associates(Joined(files, lo, mid), Joined(files, mid, hi - 1), files[hi - 1]);
    }
  }

  ghost predicate Holds(f: Files, written: seq<string>) {
    Joined(f.closed, 0, |f.closed|) + f.current == written
  }

  lemma CutHolds(f: Files, written: seq<string>, line: string, limit: nat)
    requires Holds(f, written)
    ensures Holds(Cut(f, line, limit), written + [line])
  {
    var c, grown := |f.closed|, f.current + [line];
    Associates(Joined(f.closed, 0, c), f.current, [line]);
    if Bytes(grown) >= limit {
      JoinedStable(f.closed, grown, 0, c);
      assert Joined(f.closed + [grown], 0, c + 1) == Joined(f.closed, 0, c) + grown;
    }
  }

  /** No line is lost, repeated, split or moved by the cutting. */
  lemma {:induction false} HistoryIsWhole(written: seq<string>, limit: nat)
    ensures var f := History(written, limit); Joined(f.closed, 0, |f.closed|) + f.current == written
    decreases |written|
  {
    if written != [] {
      var n := |written| - 1;
      HistoryIsWhole(written[..n], limit);
      CutHolds(History(written[..n], limit), written[..n], written[n], limit);
      assert written[..n] + [written[n]] == written;
    }
  }

  /** A closed file reached the limit with its last line and not before. */
  ghost predicate ClosedAtLimit(file: seq<string>, limit: nat) {
    && file != [] && Bytes(file) >= limit
    && (|file| > 1 ==> Bytes(file[..|file| - 1]) < limit)
  }

  /** Between writes the current file is below the limit, or empty when the limit is 0; every closed
      file reached the limit and exceeds it by less than its last line. */
  lemma {:induction false} FilesRespectTheLimit(written: seq<string>, limit: nat)
    ensures var f := History(written, limit);
            && (Bytes(f.current) < limit || f.current == [])
            && (forall file :: file in f.closed ==> ClosedAtLimit(file, limit))
    decreases |written|
  {
    if written != [] {
      var n := |written| - 1;
      var before := History(written[..n], limit);
      FilesRespectTheLimit(written[..n], limit);
      var grown := before.current + [written[n]];
      assert grown[..|grown| - 1] == before.current;
    }
  }

  lemma ExcessIsLessThanALine(file: seq<string>, limit: nat)
    requires ClosedAtLimit(file, limit) && limit > 0
    ensures limit <= Bytes(file) < limit + |file[|file| - 1]| + 1
  {
    if |file| == 1 { assert file[..0] == []; }
  }

  // ---- What stays on disk ----

  function Min(a: nat, b: nat): nat { if a < b then a else b }

  /** Where the newest `n` closed files begin. */
  function From(f: Files, n: nat): nat {
    |f.closed| - Min(n, |f.closed|)
  }

  lemma JoinedFirst(files: seq<seq<string>>, lo: nat)
    requires lo < |files|
    ensures Joined(files, lo, |files|) == files[lo] + Joined(files, lo + 1, |files|)
  {
    JoinedSplit(files, lo, lo + 1, |files|);
    assert Joined(files, lo, lo + 1) == [] + files[lo] == files[lo];
  }

  lemma {:induction false} ReadingIs(f: Files, disk: map<nat, seq<string>>, keep: nat, n: nat)
    requires n <= keep && disk == Layout(f, keep)
    ensures Reading(disk, n) == Joined(f.closed, From(f, n), |f.closed|) + f.current
    decreases n
  {
    var c := |f.closed|;
    if n == 0 {
      assert disk[n] + [] == [] + f.current;
    } else {
      ReadingIs(f, disk, keep, n - 1);
      var rest := Joined(f.closed, From(f, n - 1), c);
      if n <= c {
        JoinedFirst(f.closed, c - n);
        assert disk[n] == f.closed[c - n];
        Associates(f.closed[c - n], rest, f.current);
      } else {
        assert [] + (rest + f.current) == rest + f.current;
      }
    }
  }

  /** Reading what is on disk, oldest file first, gives the end of everything written; what is gone
      is exactly the oldest closed files, whole. */
  lemma DiskIsASuffix(written: seq<string>, limit: nat, keep: nat)
    ensures var f := History(written, limit);
            written == Joined(f.closed, 0, From(f, keep)) + Reading(Layout(f, keep), keep)
  {
    var f := History(written, limit);
    var c, gone := |f.closed|, From(f, keep);
    HistoryIsWhole(written, limit);
    ReadingIs(f, Layout(f, keep), keep, keep);
    JoinedSplit(f.closed, 0, gone, c);
    Associates(Joined(f.closed, 0, gone), Joined(f.closed, gone, c), f.current);
  }

  /** Everything written is still on disk just as long as no more files were closed than are kept. */
  lemma NothingLostIffFewRotations(written: seq<string>, limit: nat, keep: nat)
    ensures var f := History(written, limit);
            Reading(Layout(f, keep), keep) == written <==> |f.closed| <= keep
  {
    var f := History(written, limit);
    DiskIsASuffix(written, limit, keep);
    var gone := From(f, keep);
    if gone > 0 {
      FilesRespectTheLimit(written, limit);
      assert f.closed[gone - 1] in f.closed;
      assert |written| == |Joined(f.closed, 0, gone)| + |Reading(Layout(f, keep), keep)|;
    } else {
      assert [] + Reading(Layout(f, keep), keep) == Reading(Layout(f, keep), keep);
    }
  }

  // ---- The two writers ----

  datatype Style = EventLog | Session

  /** The session writer always renames the file it closes to suffix 1, so it keeps one file even
      when told to keep none. */
  function Keeps(style: Style, maxFiles: nat): nat {
    if style.Session? && maxFiles == 0 then 1 else maxFiles
  }

  /** After the same writes the two keep the same files, unless something was rotated and the
      number of files to keep is 0: then the session writer alone still has the last one. */
  lemma WritersAgree(written: seq<string>, limit: nat, maxFiles: nat)
    ensures var f := History(written, limit);
            Layout(f, Keeps(EventLog, maxFiles)) == Layout(f, Keeps(Session, maxFiles)) <==>
                maxFiles > 0 || f.closed == []
  {
    var f := History(written, limit);
    if maxFiles == 0 && f.closed != [] {
      assert 1 in Layout(f, Keeps(Session, maxFiles)) && 1 !in Layout(f, Keeps(EventLog, maxFiles));
    }
  }

  function Rename(disk: map<nat, seq<string>>, from: nat, to: nat): map<nat, seq<string>>
    requires from != to
  {
    if from in disk then disk[to := disk[from]] - {from} else disk
  }

  predicate Occupied(f: Files, j: nat, k: nat) {
    (k < j && k <= |f.closed|) || (k > j && k - 1 <= |f.closed|)
  }

  function Shifts(f: Files, j: nat, k: nat): seq<string>
    requires Occupied(f, j, k)
  {
    if k < j then FileAt(f, k) else FileAt(f, k - 1)
  }

  /** The disk half-way through a rotation: suffixes above `j` are shifted, `j` is vacant. */
  function Shifting(f: Files, max: nat, j: nat): map<nat, seq<string>> {
    map k: nat | 0 <= k <= max && Occupied(f, j, k) :: Shifts(f, j, k)
  }

  lemma ShiftOne(f: Files, max: nat, j: nat)
    requires 0 < j <= max
    ensures Rename(Shifting(f, max, j), j - 1, j) == Shifting(f, max, j - 1)
  {
  }

  lemma ShiftFirst(f: Files, max: nat)
    requires max > 0
    ensures Rename(Layout(f, max), max - 1, max) == Shifting(f, max, max - 1)
  {
  }

  lemma Shifted(f: Files, max: nat)
    requires max > 0
    ensures Shifting(f, max, 0)[0 := []] == Layout(Files(f.closed + [f.current], []), max)
  {
    var g := Files(f.closed + [f.current], []);
    assert forall k: nat :: 0 < k <= |g.closed| ==> Occupied(f, 0, k) && FileAt(g, k) == Shifts(f, 0, k);
  }

  lemma CurrentGrows(f: Files, line: string, keep: nat)
    ensures Layout(f, keep)[0 := f.current + [line]] == Layout(Files(f.closed, f.current + [line]), keep)
  {
    var g := Files(f.closed, f.current + [line]);
    assert forall k: nat :: 0 < k <= |f.closed| ==> FileAt(g, k) == FileAt(f, k);
  }

  class Writer {
    const style: Style
    const limit: nat
    const maxFiles: nat
    var disk: map<nat, seq<string>>
    var size: nat
    ghost var written: seq<string>

    /** The disk holds what it should, and the tracked size is the current file's. */
    ghost predicate Valid()
      reads this
    {
      var f := History(written, limit);
      disk == Layout(f, Keeps(style, maxFiles)) && size == Bytes(f.current)
    }

    /** A writer on an empty log. */
    constructor (style: Style, limit: nat, maxFiles: nat)
      ensures Valid() && written == []
      ensures this.style == style && this.limit == limit && this.maxFiles == maxFiles
    {
      this.style, this.limit, this.maxFiles := style, limit, maxFiles;
      disk, size, written := map[0 := []], 0, [];
    }

    method Write(line: string)
      requires Valid()
      modifies this
      ensures Valid() && written == old(written) + [line]
    {
      ghost var f := History(written, limit);
      ghost var grown := Files(f.closed, f.current + [line]);
      BytesSnoc(f.current, line);
      HistorySnoc(written, line, limit);
      disk := disk[0 := disk[0] + [line]];
      size := size + |line| + 1;
      written := written + [line];
      CurrentGrows(f, line, Keeps(style, maxFiles));
      if size >= limit {
        match style
        case EventLog => RotateEventLog(grown);
        case Session => RotateSession(grown);
      }
    }

    /** Each file moves up one suffix, from the highest down, and the current file starts anew. A
        missing file is not an error. */
    method RotateEventLog(ghost f: Files)
      requires disk == Layout(f, maxFiles)
      modifies `disk, `size
      ensures disk == Layout(Files(f.closed + [f.current], []), maxFiles) && size == 0
    {
      var i := maxFiles;
      while i > 0
        invariant 0 <= i <= maxFiles
        invariant disk == if i == maxFiles then Layout(f, maxFiles) else Shifting(f, maxFiles, i)
      {
        if i == maxFiles { ShiftFirst(f, maxFiles); } else { ShiftOne(f, maxFiles, i); }
        disk := Rename(disk, i - 1, i);
        i := i - 1;
      }
      if maxFiles > 0 { Shifted(f, maxFiles); }
      disk := disk[0 := []];
      size := 0;
    }

    /** The oldest file is removed, the others move up, and the current file becomes suffix 1. */
    method RotateSession(ghost f: Files)
      requires disk == Layout(f, Keeps(Session, maxFiles))
      modifies `disk, `size
      ensures disk == Layout(Files(f.closed + [f.current], []), Keeps(Session, maxFiles)) && size == 0
    {
      ghost var max := Keeps(Session, maxFiles);
      if maxFiles == 0 {
        // Suffix 0 names no file, and there is nothing to shift.
        ShiftFirst(f, max);
      } else {
        disk := disk - {maxFiles};
        assert disk == Shifting(f, max, max);
        var i := maxFiles;
        while i > 1
          invariant 1 <= i <= maxFiles
          invariant disk == Shifting(f, max, i)
        {
          ShiftOne(f, max, i);
          disk := Rename(disk, i - 1, i);
          i := i - 1;
        }
        ShiftOne(f, max, i);
      }
      disk := Rename(disk, 0, 1);
      Shifted(f, max);
      disk := disk[0 := []];
      size := 0;
    }
  }
}
