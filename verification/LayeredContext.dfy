/** The five-layer context: `at` by path, dump and load, and the append-only message record. */
module LayeredContext {
  import opened Options
  import opened JsonValues
  import opened JsonPaths

  datatype Layers = Layers(system: Json, recent: Json, working: Json, archive: Json, meta: Json)

  const EMPTY: Layers := Layers(Null, Null, Null, Null, Null)

  const KEYS: seq<string> := ["system", "recent", "working", "archive", "meta"]

  function Layer(path: string): string {
    path[..Dot(path)]
  }

  function Below(path: string): seq<string> {
    Segments(AfterDot(path))
  }

  function Slot(c: Layers, layer: string): Option<Json> {
    if layer == "system" then Some(c.system)
    else if layer == "recent" then Some(c.recent)
    else if layer == "working" then Some(c.working)
    else if layer == "archive" then Some(c.archive)
    else if layer == "meta" then Some(c.meta)
    else None
  }

  function WithSlot(c: Layers, layer: string, j: Json): Layers {
    if layer == "system" then c.(system := j)
    else if layer == "recent" then c.(recent := j)
    else if layer == "working" then c.(working := j)
    else if layer == "archive" then c.(archive := j)
    else if layer == "meta" then c.(meta := j)
    else c
  }

  // ---- at, without and with write access ----

  /** The const `at`. */
  function ReadAt(c: Layers, path: string): Json {
    match Slot(c, Layer(path))
    case None => Null
    case Some(slot) => Read(slot, Below(path))
  }

  /** What the other `at` does before it returns: it refuses, or answers a scratch value that
      belongs to no context, or refers to a place in these layers. */
  datatype Access = Refused | Scratch | Place(layers: Layers)

  predicate Refuses(c: Layers, path: string) {
    Layer(path) == "system" && (AfterDot(path) == "" || !Exists(c.system, Below(path)))
  }

  function At(c: Layers, path: string): Access {
    match Slot(c, Layer(path))
    case None => Scratch
    case Some(slot) =>
      if Refuses(c, path) then Refused else Place(WithSlot(c, Layer(path), Create(slot, Below(path))))
  }

  /** The layers after assigning through the reference that `at` returns. */
  function WriteAt(c: Layers, path: string, v: Json): Layers {
    if At(c, path).Place? then WithSlot(c, Layer(path), Put(Slot(c, Layer(path)).value, Below(path), v)) else c
  }

  /** A path as `at` sees it. */
  function Steps(path: string): seq<string> {
    [Layer(path)] + Below(path)
  }

  lemma SlotAfter(c: Layers, layer: string, j: Json, other: string)
    ensures Slot(c, layer).Some? ==> Slot(WithSlot(c, layer, j), layer) == Some(j)
    ensures other != layer ==> Slot(WithSlot(c, layer, j), other) == Slot(c, other)
    ensures Slot(c, layer) == Slot(WithSlot(c, layer, j), layer) ==> WithSlot(c, layer, j) == c
  {
  }

  /** What was written is what is read, exactly when the write lands or wrote what was there. */
  lemma WriteThenRead(c: Layers, path: string, v: Json)
    ensures ReadAt(WriteAt(c, path, v), path) == v <==> At(c, path).Place? || ReadAt(c, path) == v
  {
    if At(c, path).Place? {
      var slot := Slot(c, Layer(path)).value;
      SlotAfter(c, Layer(path), Put(slot, Below(path), v), Layer(path));
      ReadAfterPut(slot, Below(path), v, Below(path));
    }
  }

  lemma StepsCompare(p: string, q: string)
    ensures Steps(p) <= Steps(q) <==> Layer(p) == Layer(q) && Below(p) <= Below(q)
    ensures Steps(p) <= Steps(q) ==> Steps(q)[|Steps(p)|..] == Below(q)[|Below(p)|..]
  {
    var sp, sq := Steps(p), Steps(q);
    assert sp[0] == Layer(p) && sq[0] == Layer(q) && sp[1..] == Below(p) && sq[1..] == Below(q);
    if Layer(p) == Layer(q) { TailsCompare(sp, sq); }
  }

  lemma WriteSeenFrom(c: Layers, p: string, v: Json, q: string)
    requires At(c, p).Place?
    ensures Layer(p) != Layer(q) ==> ReadAt(WriteAt(c, p, v), q) == ReadAt(c, q)
    ensures Layer(p) == Layer(q) ==>
              ReadAt(WriteAt(c, p, v), q) == Read(Put(Slot(c, Layer(p)).value, Below(p), v), Below(q))
    ensures Layer(p) == Layer(q) ==> ReadAt(c, q) == Read(Slot(c, Layer(p)).value, Below(q))
  {
    SlotAfter(c, Layer(p), Put(Slot(c, Layer(p)).value, Below(p), v), Layer(q));
  }

  /** Reading any path after a write. Paths neither above nor below the written one, in the same
      layer or another, are unchanged, whatever was created on the way. */
  lemma WriteIsLocal(c: Layers, p: string, v: Json, q: string)
    requires At(c, p).Place?
    ensures !Comparable(Steps(p), Steps(q)) ==> ReadAt(WriteAt(c, p, v), q) == ReadAt(c, q)
    ensures Steps(p) <= Steps(q) ==> ReadAt(WriteAt(c, p, v), q) == Read(v, Steps(q)[|Steps(p)|..])
    ensures Steps(q) <= Steps(p) ==> ReadAt(WriteAt(c, p, v), q) == Put(ReadAt(c, q), Steps(p)[|Steps(q)|..], v)
  {
    StepsCompare(p, q);
    StepsCompare(q, p);
    WriteSeenFrom(c, p, v, q);
    if Layer(p) == Layer(q) {
      ReadAfterPut(Slot(c, Layer(p)).value, Below(p), v, Below(q));
    }
  }

  /** `at` by itself changes the context exactly when the path was missing, and never the system
      layer. */
  lemma AtAloneChangesIffMissing(c: Layers, path: string)
    requires At(c, path).Place?
    ensures At(c, path).layers == c <==> Exists(Slot(c, Layer(path)).value, Below(path))
    ensures At(c, path).layers.system == c.system
  {
    var slot := Slot(c, Layer(path)).value;
    CreateChangesIffMissing(slot, Below(path));
    SlotAfter(c, Layer(path), Create(slot, Below(path)), Layer(path));
  }

  /** And a reader can tell only on a path that is shorter than the one given. */
  lemma AtAloneIsHardlyVisible(c: Layers, p: string, q: string)
    requires At(c, p).Place? && !(Steps(q) < Steps(p))
    ensures ReadAt(At(c, p).layers, q) == ReadAt(c, q)
  {
    StepsCompare(q, p);
    var slot := Slot(c, Layer(p)).value;
    SlotAfter(c, Layer(p), Create(slot, Below(p)), Layer(q));
    if Layer(p) == Layer(q) {
      ReadAfterCreate(slot, Below(p), Below(q));
    }
  }

  // ---- The layers by name ----

  lemma PlainName(name: string)
    requires '.' !in name
    ensures Layer(name) == name && Below(name) == []
  {
    assert name[..|name|] == name;
  }

  /** A path without a dot names a whole layer: it is read, and replaced unless it is the read-only one or none. */
  lemma LayersByName(c: Layers, name: string, v: Json)
    requires '.' !in name
    ensures ReadAt(c, name) ==
            if name == "system" then c.system else if name == "recent" then c.recent
            else if name == "working" then c.working else if name == "archive" then c.archive
            else if name == "meta" then c.meta else Null
    ensures WriteAt(c, name, v) ==
            if name == "recent" then c.(recent := v) else if name == "working" then c.(working := v)
            else if name == "archive" then c.(archive := v) else if name == "meta" then c.(meta := v) else c
  {
    PlainName(name);
    assert AfterDot(name) == "";
  }

  /** A write changes the system layer only on a path that is there, and below the layer itself. */
  lemma SystemIsProtected(c: Layers, path: string, v: Json)
    requires WriteAt(c, path, v).system != c.system
    ensures Layer(path) == "system" && Below(path) != [] && Exists(c.system, Below(path))
  {
    assert AfterDot(path) != "";
  }

  /** On such a path it lands, and on any path of the other four layers. */
  lemma WriteLands(c: Layers, path: string, v: Json)
    requires Layer(path) == "system" ==> Below(path) != [] && Exists(c.system, Below(path))
    requires Layer(path) in ["system", "recent", "working", "archive", "meta"]
    ensures ReadAt(WriteAt(c, path, v), path) == v
  {
    assert Below(path) != [] ==> AfterDot(path) != "";
    assert !Refuses(c, path) && At(c, path).Place?;
    WriteThenRead(c, path, v);
  }

  // ---- Dump and load ----

  datatype LoadError = NotAnObject | MissingKey(key: string)

  datatype Loaded = Ok(value: Layers) | Err(error: LoadError)

  function Dump(c: Layers): Json {
    Object(map["system" := c.system, "recent" := c.recent, "working" := c.working, "archive" := c.archive,
               "meta" := c.meta])
  }

  function FirstMissing(fields: map<string, Json>, k: nat): Option<string>
    requires k <= |KEYS|
    decreases |KEYS| - k
  {
    if k == |KEYS| then None
    else if KEYS[k] !in fields then Some(KEYS[k])
    else FirstMissing(fields, k + 1)
  }

  predicate Complete(fields: map<string, Json>) {
    forall key :: key in KEYS ==> key in fields
  }

  lemma {:induction false} MissingIsFirst(fields: map<string, Json>, k: nat)
    requires k <= |KEYS| && forall i :: 0 <= i < k ==> KEYS[i] in fields
    ensures FirstMissing(fields, k).None? <==> Complete(fields)
    decreases |KEYS| - k
  {
    if k < |KEYS| && KEYS[k] in fields {
      MissingIsFirst(fields, k + 1);
    } else if k < |KEYS| {
      assert KEYS[k] in KEYS;
    }
  }

  function Load(j: Json): Loaded {
    if !j.Object? then Err(NotAnObject)
    else
      match FirstMissing(j.fields, 0)
      case Some(key) => Err(MissingKey(key))
      case None =>
        MissingIsFirst(j.fields, 0);
        KeysAre(j.fields);
        Ok(Layers(j.fields["system"], j.fields["recent"], j.fields["working"], j.fields["archive"], j.fields["meta"]))
  }

  lemma KeysAre(fields: map<string, Json>)
    ensures Complete(fields) <==> {"system", "recent", "working", "archive", "meta"} <= fields.Keys
  {
    assert KEYS[0] in KEYS && KEYS[1] in KEYS && KEYS[2] in KEYS && KEYS[3] in KEYS && KEYS[4] in KEYS;
    assert forall key :: key in KEYS ==> key in {"system", "recent", "working", "archive", "meta"};
  }

  /** Load undoes dump; a document loads just when it is an object with all five keys; and dump
      undoes load just when it has no others. */
  lemma DumpLoadRoundTrip(c: Layers, j: Json)
    ensures Load(Dump(c)) == Ok(c)
    ensures Load(j).Ok? <==> j.Object? && {"system", "recent", "working", "archive", "meta"} <= j.fields.Keys
    ensures Load(j).Ok? ==>
              (Dump(Load(j).value) == j <==> j.fields.Keys == {"system", "recent", "working", "archive", "meta"})
  {
    var all := {"system", "recent", "working", "archive", "meta"};
    var fields := Dump(c).fields;
    assert fields.Keys == all;
    MissingIsFirst(fields, 0);
    KeysAre(fields);
    if j.Object? {
      MissingIsFirst(j.fields, 0);
      KeysAre(j.fields);
      if Load(j).Ok? {
        var back := Dump(Load(j).value).fields;
        assert back.Keys == all;
        if j.fields.Keys == all {
          assert forall key :: key in all ==> back[key] == j.fields[key];
          assert back == j.fields;
        }
      }
    }
  }

  /** A dump holds each layer under the name that reads it. */
  lemma DumpHolds(c: Layers, name: string)
    requires name in {"system", "recent", "working", "archive", "meta"}
    ensures Dump(c).Object? && name in Dump(c).fields && Dump(c).fields[name] == ReadAt(c, name)
  {
    NoDots(name);
    PlainName(name);
    DumpedSlot(c, name);
  }

  lemma DumpedSlot(c: Layers, name: string)
    requires name in {"system", "recent", "working", "archive", "meta"}
    ensures name in Dump(c).fields && Slot(c, name) == Some(Dump(c).fields[name])
  {
  }

  lemma NoDots(name: string)
    requires name in {"system", "recent", "working", "archive", "meta"}
    ensures '.' !in name
  {
  }

  /** A document that does not load is no object, or the error names the first key it lacks. */
  lemma LoadFailsAtFirst(j: Json, key: string)
    ensures Load(j) == Err(NotAnObject) <==> !j.Object?
    ensures Load(j) == Err(MissingKey(key)) ==>
              j.Object? && key !in j.fields &&
              exists i :: 0 <= i < 5 && ["system", "recent", "working", "archive", "meta"][i] == key &&
                forall k :: 0 <= k < i ==> ["system", "recent", "working", "archive", "meta"][k] in j.fields
  {
    if j.Object? { FirstIsNamed(j.fields, 0); }
  }

  lemma {:induction false} FirstIsNamed(fields: map<string, Json>, k: nat)
    requires k <= |KEYS| && forall i :: 0 <= i < k ==> KEYS[i] in fields
    ensures FirstMissing(fields, k).Some? ==>
              exists i :: 0 <= i < |KEYS| && KEYS[i] == FirstMissing(fields, k).value && KEYS[i] !in fields &&
                forall l :: 0 <= l < i ==> KEYS[l] in fields
    decreases |KEYS| - k
  {
    if k < |KEYS| && KEYS[k] in fields { FirstIsNamed(fields, k + 1); }
  }

  // ---- Keyed writes ----

  const ORIGINALS := "original_messages"
  const VIEW := "view"

  /** The non-const subscript with a key: null becomes an object, anything else but an object
      throws. */
  predicate Subscripts(j: Json) {
    j.Null? || j.Object?
  }

  function SetKey(j: Json, key: string, v: Json): Json {
    Object(FieldsOf(j)[key := v])
  }

  /** The messages on record. */
  function Originals(meta: Json): seq<Json> {
    if Child(meta, ORIGINALS).Array? then Child(meta, ORIGINALS).items else []
  }

  datatype Change = Append(message: string) | SetView(view: string) | SetMetadata(key: string, value: Json)

  /** The context after a change, or none if it throws. */
  function Changed(c: Layers, change: Change): Option<Layers> {
    match change
    case Append(message) =>
      if !Subscripts(c.meta) then None
      else Some(c.(meta := SetKey(c.meta, ORIGINALS, Array(Originals(c.meta) + [Str(message)]))))
    case SetView(view) =>
      if !Subscripts(c.working) then None else Some(c.(working := SetKey(c.working, VIEW, Str(view))))
    case SetMetadata(key, value) =>
      if !Subscripts(c.meta) then None else Some(c.(meta := SetKey(c.meta, key, value)))
  }

  /** One that throws changes nothing. */
  function After(c: Layers, change: Change): Layers {
    match Changed(c, change)
    case None => c
    case Some(after) => after
  }

  function AfterAll(c: Layers, changes: seq<Change>): Layers {
    if changes == [] then c else After(AfterAll(c, changes[..|changes| - 1]), changes[|changes| - 1])
  }

  function Message(change: Change): seq<Json> {
    if change.Append? then [Str(change.message)] else []
  }

  function Appended(changes: seq<Change>): seq<Json> {
    if changes == [] then []
    else Appended(changes[..|changes| - 1]) + Message(changes[|changes| - 1])
  }

  lemma ChangeRecord(c: Layers, change: Change)
    requires Subscripts(c.meta) && (change.SetMetadata? ==> change.key != ORIGINALS)
    ensures Subscripts(After(c, change).meta)
    ensures Originals(After(c, change).meta) == Originals(c.meta) + Message(change)
    ensures After(c, change) == c.(working := After(c, change).working, meta := After(c, change).meta)
  {
    match change
    case Append(m) => assert Child(After(c, change).meta, ORIGINALS) == Array(Originals(c.meta) + [Str(m)]);
    case SetView(_) =>
    case SetMetadata(_, _) => assert Child(After(c, change).meta, ORIGINALS) == Child(c.meta, ORIGINALS);
  }

  /** What each change writes: the message at the end of the record, the view under its key, the metadata under the
      given one; every other key keeps its value, and so does every other layer. A layer that takes no keys is
      left alone. */
  lemma ChangeWrites(c: Layers, change: Change, other: string)
    ensures var after := After(c, change);
            match change
            case Append(message) =>
              if !Subscripts(c.meta) then after == c
              else
                && Child(after.meta, "original_messages") == Array(Originals(c.meta) + [Str(message)])
                && (other != "original_messages" ==> Child(after.meta, other) == Child(c.meta, other))
                && after == c.(meta := after.meta)
            case SetView(view) =>
              if !Subscripts(c.working) then after == c
              else
                && Child(after.working, "view") == Str(view)
                && (other != "view" ==> Child(after.working, other) == Child(c.working, other))
                && after == c.(working := after.working)
            case SetMetadata(key, value) =>
              if !Subscripts(c.meta) then after == c
              else
                && Child(after.meta, key) == value
                && (other != key ==> Child(after.meta, other) == Child(c.meta, other))
                && after == c.(meta := after.meta)
  {
  }

  /** The record is the list under its key, and empty if there is none. */
  lemma RecordIs(meta: Json)
    ensures meta.Object? && "original_messages" in meta.fields && meta.fields["original_messages"].Array? ==>
              Originals(meta) == meta.fields["original_messages"].items
    ensures !(meta.Object? && "original_messages" in meta.fields && meta.fields["original_messages"].Array?) ==>
              Originals(meta) == []
  {
  }

  /** In a context whose meta layer accepts keys, the record is exactly what was appended, in
      order, through any run of changes that does not set the record's own key; and the layers the
      changes do not name are untouched. */
  lemma {:induction false} RecordOnlyGrows(c: Layers, changes: seq<Change>)
    requires Subscripts(c.meta)
    requires forall i :: 0 <= i < |changes| ==> changes[i].SetMetadata? ==> changes[i].key != ORIGINALS
    ensures Subscripts(AfterAll(c, changes).meta)
    ensures Originals(AfterAll(c, changes).meta) == Originals(c.meta) + Appended(changes)
    ensures AfterAll(c, changes) == c.(working := AfterAll(c, changes).working, meta := AfterAll(c, changes).meta)
    decreases |changes|
  {
    if changes != [] {
      var n := |changes| - 1;
      var before := AfterAll(c, changes[..n]);
      RecordOnlyGrows(c, changes[..n]);
      ChangeRecord(before, changes[n]);
      assert Originals(c.meta) + Appended(changes[..n]) + Message(changes[n]) ==
             Originals(c.meta) + (Appended(changes[..n]) + Message(changes[n]));
    }
  }

  // ---- The object ----

  /** What completing a path in place comes to. */
  lemma PlaceIs(c: Layers, path: string, reference: Cursor)
    requires Slot(c, Layer(path)).Some? && !Refuses(c, path)
    requires var slot := Slot(c, Layer(path)).value;
             && Rebuild(reference.above, reference.focus) == Create(slot, Below(path))
             && reference.focus == Read(Create(slot, Below(path)), Below(path))
             && forall v :: Rebuild(reference.above, v) == Put(slot, Below(path), v)
    ensures var after := WithSlot(c, Layer(path), Rebuild(reference.above, reference.focus));
            && At(c, path) == Place(after) && reference.focus == ReadAt(after, path)
            && forall v :: WithSlot(after, Layer(path), Rebuild(reference.above, v)) == WriteAt(c, path, v)
  {
    var slot := Slot(c, Layer(path)).value;
    SlotAfter(c, Layer(path), Create(slot, Below(path)), Layer(path));
    forall v ensures WithSlot(WithSlot(c, Layer(path), Create(slot, Below(path))), Layer(path),
                              Put(slot, Below(path), v)) == WriteAt(c, path, v)
    {
      SetTwice(c, Layer(path), Create(slot, Below(path)), Put(slot, Below(path), v));
    }
  }

  lemma SetTwice(c: Layers, layer: string, first: Json, second: Json)
    ensures WithSlot(WithSlot(c, layer, first), layer, second) == WithSlot(c, layer, second)
  {
  }

  class Context {
    var system: Json
    var recent: Json
    var working: Json
    var archive: Json
    var meta: Json

    ghost function View(): Layers
      reads this
    {
      Layers(system, recent, working, archive, meta)
    }

    constructor ()
      ensures View() == EMPTY
    {
      system, recent, working, archive, meta := Null, Null, Null, Null, Null;
    }

    method Store(layers: Layers)
      modifies this
      ensures View() == layers
    {
      system, recent, working := layers.system, layers.recent, layers.working;
      archive, meta := layers.archive, layers.meta;
    }

    /** The non-const `at`: the access it grants, and for a place the reference. */
    method Refer(path: string) returns (access: Access, reference: Cursor)
      modifies this
      ensures access == At(old(View()), path)
      ensures View() == if access.Place? then access.layers else old(View())
      ensures access.Place? ==> reference.focus == ReadAt(View(), path)
      ensures access.Place? ==>
                forall v :: WithSlot(View(), Layer(path), Rebuild(reference.above, v)) == WriteAt(old(View()), path, v)
    {
      var layers := Layers(system, recent, working, archive, meta);
      var slot := Slot(layers, Layer(path));
      if slot == None { return Scratch, Cursor([], Null); }
      var found := Navigate(slot.value, Layer(path) == "system", AfterDot(path));
      if found == None { return Refused, Cursor([], Null); }
      reference := found.value;
      ghost var was := layers;
      PlaceIs(was, path, reference);
      layers := WithSlot(layers, Layer(path), Rebuild(reference.above, reference.focus));
      Store(layers);
      access := Place(layers);
    }

    /** `at(path) = v`. */
    method Assign(path: string, v: Json) returns (access: Access)
      modifies this
      ensures access == At(old(View()), path) && View() == WriteAt(old(View()), path, v)
    {
      var reference;
      access, reference := Refer(path);
      if access.Place? {
        var layers := Layers(system, recent, working, archive, meta);
        Store(WithSlot(layers, Layer(path), Rebuild(reference.above, v)));
      }
    }

    /** A record that is not a list is first replaced by an empty one. */
    method AppendOriginal(message: string) returns (ok: bool)
      modifies this
      ensures ok <==> Changed(old(View()), Append(message)).Some?
      ensures View() == if ok then Changed(old(View()), Append(message)).value else old(View())
    {
      if !Child(meta, ORIGINALS).Array? {
        if !Subscripts(meta) { return false; }
        meta := SetKey(meta, ORIGINALS, Array([]));
      }
      assert FieldsOf(old(meta))[ORIGINALS := Array([])][ORIGINALS := Array([Str(message)])] ==
             FieldsOf(old(meta))[ORIGINALS := Array([Str(message)])];
      assert [] + [Str(message)] == [Str(message)];
      meta := SetKey(meta, ORIGINALS, Array(Child(meta, ORIGINALS).items + [Str(message)]));
      ok := true;
    }

    method SetWorkingView(view: string) returns (ok: bool)
      modifies `working
      ensures ok <==> Changed(old(View()), SetView(view)).Some?
      ensures View() == if ok then Changed(old(View()), SetView(view)).value else old(View())
    {
      ok := Subscripts(working);
      if ok { working := SetKey(working, VIEW, Str(view)); }
    }

    method SetMeta(key: string, value: Json) returns (ok: bool)
      modifies `meta
      ensures ok <==> Changed(old(View()), SetMetadata(key, value)).Some?
      ensures View() == if ok then Changed(old(View()), SetMetadata(key, value)).value else old(View())
    {
      ok := Subscripts(meta);
      if ok { meta := SetKey(meta, key, value); }
    }
  }
}
