/** JSON trees addressed by dotted paths, as LayeredContext addresses its layers. */
module JsonPaths {
  import opened Options
  import opened JsonValues

  // ---- Dotted paths ----

  /** Where the first dot is, or the length. */
  function Dot(s: string): (d: nat)
    ensures d <= |s| && (d < |s| ==> s[d] == '.') && '.' !in s[..d]
  {
    if s == "" || s[0] == '.' then 0
    else
      assert s[..Dot(s[1..]) + 1] == [s[0]] + s[1..][..Dot(s[1..])];
      Dot(s[1..]) + 1
  }

  function AfterDot(path: string): (rest: string)
    ensures path != "" ==> |rest| < |path|
  {
    if Dot(path) == |path| then "" else path[Dot(path) + 1..]
  }

  /** The segments of a path. Empty segments count, except that one dot at the end is ignored. */
  function Segments(path: string): seq<string>
    decreases |path|
  {
    if path == "" then [] else [path[..Dot(path)]] + Segments(AfterDot(path))
  }

  function Dotted(segments: seq<string>): string {
    if segments == [] then ""
    else if |segments| == 1 then segments[0]
    else segments[0] + "." + Dotted(segments[1..])
  }

  lemma {:induction false} DotIs(s: string, d: nat)
    requires d <= |s| && (d < |s| ==> s[d] == '.') && '.' !in s[..d]
    ensures Dot(s) == d
    decreases |s|
  {
    if d > 0 {
      assert s[0] in s[..d];
      assert s[..d] == [s[0]] + s[1..][..d - 1];
      DotIs(s[1..], d - 1);
    }
  }

  lemma NoDot(path: string)
    requires '.' !in path && path != ""
    ensures Segments(path) == [path]
  {
    DotIs(path, |path|);
    assert path[..Dot(path)] == path;
    assert Segments(AfterDot(path)) == [];
  }

  lemma FirstSegment(first: string, rest: string)
    requires '.' !in first
    ensures Segments(first + "." + rest) == [first] + Segments(rest)
  {
    var path := first + "." + rest;
    assert path[..|first|] == first && path[|first| + 1..] == rest;
    DotIs(path, |first|);
  }

  /** Every list of dot-free segments that does not end in an empty one has a path. */
  lemma {:induction false} DottedRoundTrip(segments: seq<string>)
    requires forall i :: 0 <= i < |segments| ==> '.' !in segments[i]
    requires segments != [] ==> segments[|segments| - 1] != ""
    ensures Segments(Dotted(segments)) == segments
    decreases |segments|
  {
    if |segments| == 1 {
      NoDot(segments[0]);
    } else if |segments| > 1 {
      FirstSegment(segments[0], Dotted(segments[1..]));
      DottedRoundTrip(segments[1..]);
    }
  }

  /** A dot at the end changes nothing, unless the path was empty or already ended in one. */
  lemma {:induction false} TrailingDot(path: string)
    ensures Segments(path + ".") == Segments(path) <==> path != "" && path[|path| - 1] != '.'
    decreases |path|
  {
    var d := Dot(path);
    if d == |path| {
      assert path[..d] == path && path + "." == path + "." + "";
      FirstSegment(path, "");
    } else {
      var first, rest := path[..d], path[d + 1..];
      assert path == first + "." + rest && path + "." == first + "." + (rest + ".");
      FirstSegment(first, rest);
      FirstSegment(first, rest + ".");
      TrailingDot(rest);
      assert [first] + Segments(rest + ".") == [first] + Segments(rest) ==> Segments(rest + ".") == Segments(rest) by {
        assert ([first] + Segments(rest + "."))[1..] == Segments(rest + ".");
        assert ([first] + Segments(rest))[1..] == Segments(rest);
      }
    }
  }

  // ---- Reading, creating, writing ----

  predicate Exists(j: Json, segs: seq<string>) {
    segs == [] || (j.Object? && segs[0] in j.fields && Exists(j.fields[segs[0]], segs[1..]))
  }

  /** The value at a path, null where there is none. */
  function Read(j: Json, segs: seq<string>): Json
    decreases |segs|
  {
    if segs == [] then j
    else if j.Object? && segs[0] in j.fields then Read(j.fields[segs[0]], segs[1..])
    else Null
  }

  function FieldsOf(j: Json): map<string, Json> {
    if j.Object? then j.fields else map[]
  }

  function Child(j: Json, key: string): Json {
    if j.Object? && key in j.fields then j.fields[key] else Null
  }

  /** The tree once the path has been made to exist: what is in its way becomes an object, and its
      end a null if there was nothing. */
  function Create(j: Json, segs: seq<string>): Json
    decreases |segs|
  {
    if segs == [] then j else Object(FieldsOf(j)[segs[0] := Create(Child(j, segs[0]), segs[1..])])
  }

  /** The tree with `v` at a path. */
  function Put(j: Json, segs: seq<string>, v: Json): Json
    decreases |segs|
  {
    if segs == [] then v else Object(FieldsOf(j)[segs[0] := Put(Child(j, segs[0]), segs[1..], v)])
  }

  lemma {:induction false} CreateThenPut(j: Json, segs: seq<string>, v: Json)
    ensures Put(Create(j, segs), segs, v) == Put(j, segs, v)
    decreases |segs|
  {
    if segs != [] {
      var child := Create(Child(j, segs[0]), segs[1..]);
      CreateThenPut(Child(j, segs[0]), segs[1..], v);
      assert Child(Create(j, segs), segs[0]) == child;
      assert FieldsOf(j)[segs[0] := child][segs[0] := Put(child, segs[1..], v)] ==
             FieldsOf(j)[segs[0] := Put(child, segs[1..], v)];
    }
  }

  lemma {:induction false} CreateMakesExist(j: Json, segs: seq<string>)
    ensures Exists(Create(j, segs), segs)
    decreases |segs|
  {
    if segs != [] { CreateMakesExist(Child(j, segs[0]), segs[1..]); }
  }

  /** Creating a path changes the tree exactly when the path was missing. */
  lemma {:induction false} CreateChangesIffMissing(j: Json, segs: seq<string>)
    ensures Create(j, segs) == j <==> Exists(j, segs)
    decreases |segs|
  {
    CreateMakesExist(j, segs);
    if segs != [] && j.Object? && segs[0] in j.fields {
      CreateChangesIffMissing(j.fields[segs[0]], segs[1..]);
      assert Exists(j, segs) ==> j.fields[segs[0] := j.fields[segs[0]]] == j.fields;
    }
  }

  predicate Comparable(p: seq<string>, q: seq<string>) {
    p <= q || q <= p
  }

  lemma {:induction false} ReadBelowPut(j: Json, p: seq<string>, v: Json, rest: seq<string>)
    ensures Read(Put(j, p, v), p + rest) == Read(v, rest)
    decreases |p|
  {
    if p == [] {
      assert p + rest == rest;
    } else {
      assert (p + rest)[1..] == p[1..] + rest;
      ReadBelowPut(Child(j, p[0]), p[1..], v, rest);
    }
  }

  lemma {:induction false} ReadAbovePut(j: Json, q: seq<string>, rest: seq<string>, v: Json)
    ensures Read(Put(j, q + rest, v), q) == Put(Read(j, q), rest, v)
    decreases |q|
  {
    if q == [] {
      assert q + rest == rest;
    } else {
      assert (q + rest)[1..] == q[1..] + rest;
      ReadAbovePut(Child(j, q[0]), q[1..], rest, v);
      NothingBelowNull(q[1..]);
    }
  }

  lemma {:induction false} ReadBesidePut(j: Json, p: seq<string>, v: Json, q: seq<string>)
    requires !Comparable(p, q)
    ensures Read(Put(j, p, v), q) == Read(j, q)
    decreases |p|
  {
    if p[0] == q[0] {
      TailsCompare(p, q);
      ReadBesidePut(Child(j, p[0]), p[1..], v, q[1..]);
      NothingBelowNull(q[1..]);
    }
  }

  /** Reading any path at all after a write: below the written path its value answers, above it the
      old value with the write inside, elsewhere nothing changed. */
  lemma ReadAfterPut(j: Json, p: seq<string>, v: Json, q: seq<string>)
    ensures p <= q ==> Read(Put(j, p, v), q) == Read(v, q[|p|..])
    ensures q <= p ==> Read(Put(j, p, v), q) == Put(Read(j, q), p[|q|..], v)
    ensures !Comparable(p, q) ==> Read(Put(j, p, v), q) == Read(j, q)
  {
    if p <= q {
      assert q == p + q[|p|..];
      ReadBelowPut(j, p, v, q[|p|..]);
    }
    if q <= p {
      assert p == q + p[|q|..];
      ReadAbovePut(j, q, p[|q|..], v);
    }
    if !Comparable(p, q) { ReadBesidePut(j, p, v, q); }
  }

  lemma TailsCompare(p: seq<string>, q: seq<string>)
    requires p != [] && q != [] && p[0] == q[0]
    ensures p <= q <==> p[1..] <= q[1..]
    ensures q <= p <==> q[1..] <= p[1..]
  {
    assert p == [p[0]] + p[1..] && q == [q[0]] + q[1..];
  }

  lemma NothingBelowNull(segs: seq<string>)
    ensures Read(Null, segs) == Null
  {
  }

  /** Creating a path without writing is invisible to reads, except to those of a shorter path on
      the way to it. */
  lemma {:induction false} ReadAfterCreate(j: Json, p: seq<string>, q: seq<string>)
    requires !(q < p)
    ensures Read(Create(j, p), q) == Read(j, q)
    decreases |p|
  {
    if p != [] && q != [] {
      if p[0] == q[0] {
        TailsCompare(p, q);
        ReadAfterCreate(Child(j, p[0]), p[1..], q[1..]);
        NothingBelowNull(q[1..]);
      }
    }
  }

  lemma {:induction false} PutAtExisting(j: Json, segs: seq<string>)
    requires Exists(j, segs)
    ensures Put(j, segs, Read(j, segs)) == j
    decreases |segs|
  {
    if segs != [] {
      PutAtExisting(j.fields[segs[0]], segs[1..]);
      assert j.fields[segs[0] := j.fields[segs[0]]] == j.fields;
    }
  }

  // ---- The walk ----

  /** One step down: the object passed, and the key taken. */
  datatype Frame = Frame(fields: map<string, Json>, key: string)

  /** A reference into a tree: what lies above it, and the value it refers to. */
  datatype Cursor = Cursor(above: seq<Frame>, focus: Json)

  /** The tree with `v` where the reference points. */
  function Rebuild(above: seq<Frame>, v: Json): Json
    decreases |above|
  {
    if above == [] then v
    else
      var f := above[|above| - 1];
      Rebuild(above[..|above| - 1], Object(f.fields[f.key := v]))
  }

  lemma RebuildSnoc(above: seq<Frame>, f: Frame, v: Json)
    ensures Rebuild(above + [f], v) == Rebuild(above, Object(f.fields[f.key := v]))
  {
    assert (above + [f])[..|above|] == above;
  }

  /** The walk that `at` makes: down the path from a slot, creating what is missing unless the slot
      is read-only; then a missing path is refused. Whatever is then stored through the reference
      is stored at that path of the slot. */
  method Navigate(slot: Json, readOnly: bool, path: string) returns (r: Option<Cursor>)
    ensures r.None? <==> readOnly && (path == "" || !Exists(slot, Segments(path)))
    ensures r.Some? ==> Rebuild(r.value.above, r.value.focus) == Create(slot, Segments(path))
    ensures r.Some? ==> r.value.focus == Read(Create(slot, Segments(path)), Segments(path))
    ensures r.Some? ==> forall v :: Rebuild(r.value.above, v) == Put(slot, Segments(path), v)
  {
    if path == "" {
      return if readOnly then None else Some(Cursor([], slot));
    }
    var above, focus, remaining := [], slot, path;
    while remaining != ""
      invariant readOnly ==> (Exists(focus, Segments(remaining)) <==> Exists(slot, Segments(path)))
      invariant Rebuild(above, Create(focus, Segments(remaining))) == Create(slot, Segments(path))
      invariant Read(Create(focus, Segments(remaining)), Segments(remaining)) ==
          Read(Create(slot, Segments(path)), Segments(path))
      invariant forall v :: Rebuild(above, Put(focus, Segments(remaining), v)) == Put(slot, Segments(path), v)
      decreases |remaining|
    {
      var dot := Dot(remaining);
      var seg := remaining[..dot];
      var rest := AfterDot(remaining);
      if readOnly && !(focus.Object? && seg in focus.fields) {
        return None;
      }
      var frame := Frame(FieldsOf(focus), seg);
      StepDown(above, focus, seg, Segments(rest));
      above, focus, remaining := above + [frame], Child(focus, seg), rest;
    }
    r := Some(Cursor(above, focus));
  }

  lemma StepDown(above: seq<Frame>, focus: Json, seg: string, rest: seq<string>)
    ensures var above' := above + [Frame(FieldsOf(focus), seg)];
            var focus' := Child(focus, seg);
            var segs := [seg] + rest;
            && Rebuild(above', Create(focus', rest)) == Rebuild(above, Create(focus, segs))
            && Read(Create(focus', rest), rest) == Read(Create(focus, segs), segs)
            && (forall v :: Rebuild(above', Put(focus', rest, v)) == Rebuild(above, Put(focus, segs, v)))
            && (Exists(focus, segs) <==> focus.Object? && seg in focus.fields && Exists(focus', rest))
  {
    var frame := Frame(FieldsOf(focus), seg);
    var focus' := Child(focus, seg);
    assert ([seg] + rest)[1..] == rest;
    RebuildSnoc(above, frame, Create(focus', rest));
    forall v ensures Rebuild(above + [frame], Put(focus', rest, v)) == Rebuild(above, Put(focus, [seg] + rest, v)) {
      RebuildSnoc(above, frame, Put(focus', rest, v));
    }
  }
}
