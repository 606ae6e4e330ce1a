/** The data two threads share while they move events from a buffer to a file: batches are cut
    from the buffer, held, and written. Who may do what when is the business of EventPipeline. */
module EventBatches {

  datatype Event = Event(topic: string, payload: string)

  datatype Who = Flusher | Client

  /** What a thread has in hand. `batch` counts the batches taken so far. */
  datatype Hand = Empty | Holds(batch: nat) | Writes(batch: nat, at: nat)

  datatype Data = Data(
    pushed: seq<Event>,
    buffer: seq<Event>,
    takes: seq<seq<Event>>,
    order: seq<nat>,
    file: seq<Event>,
    dropped: seq<Event>,
    flusher: Hand,
    client: Hand)

  const NOTHING: Data := Data([], [], [], [], [], [], Empty, Empty)

  function HandOf(d: Data, w: Who): Hand {
    if w.Flusher? then d.flusher else d.client
  }

  function Other(w: Who): Who {
    if w.Flusher? then Client else Flusher
  }

  function WithHand(d: Data, w: Who, h: Hand): Data {
    if w.Flusher? then d.(flusher := h) else d.(client := h)
  }

  function BatchAt(takes: seq<seq<Event>>, b: nat): seq<Event> {
    if b < |takes| then takes[b] else []
  }

  // ---- The moves ----

  function Push(d: Data, e: Event): Data {
    d.(pushed := d.pushed + [e], buffer := d.buffer + [e])
  }

  /** Everything in the buffer becomes one batch. */
  function Take(d: Data, w: Who): Data {
    WithHand(d.(takes := d.takes + [d.buffer], buffer := []), w, Holds(|d.takes|))
  }

  function Drop(d: Data, w: Who): Data
    requires HandOf(d, w).Holds?
  {
    WithHand(d.(dropped := d.dropped + BatchAt(d.takes, HandOf(d, w).batch)), w, Empty)
  }

  function Begin(d: Data, w: Who): Data
    requires HandOf(d, w).Holds?
  {
    WithHand(d.(order := d.order + [HandOf(d, w).batch]), w, Writes(HandOf(d, w).batch, 0))
  }

  predicate MoreToWrite(d: Data, w: Who) {
    HandOf(d, w).Writes? && HandOf(d, w).at < |BatchAt(d.takes, HandOf(d, w).batch)|
  }

  function WriteOne(d: Data, w: Who): Data
    requires MoreToWrite(d, w)
  {
    var h := HandOf(d, w);
    WithHand(d.(file := d.file + [BatchAt(d.takes, h.batch)[h.at]]), w, Writes(h.batch, h.at + 1))
  }

  predicate AllWritten(d: Data, w: Who) {
    HandOf(d, w).Writes? && HandOf(d, w).at == |BatchAt(d.takes, HandOf(d, w).batch)|
  }

  function Finish(d: Data, w: Who): Data {
    WithHand(d, w, Empty)
  }

  // ---- Conservation ----

  /** What a hand still has to write. */
  function Rest(takes: seq<seq<Event>>, h: Hand): seq<Event> {
    match h
    case Empty => []
    case Holds(b) => BatchAt(takes, b)
    case Writes(b, at) => if at <= |BatchAt(takes, b)| then BatchAt(takes, b)[at..] else []
  }

  /** How often an event occurs. */
  function Count(events: seq<Event>, e: Event): nat {
    multiset(events)[e]
  }

  function InHand(d: Data, e: Event): nat {
    Count(Rest(d.takes, d.flusher), e) + Count(Rest(d.takes, d.client), e)
  }

  ghost predicate ConservedFor(d: Data, e: Event) {
    Count(d.pushed, e) == Count(d.file, e) + InHand(d, e) + Count(d.buffer, e) + Count(d.dropped, e)
  }

  /** Every event pushed is in exactly one place. */
  ghost predicate Conserved(d: Data) {
    forall e :: ConservedFor(d, e)
  }

  lemma CountAppend(a: seq<Event>, b: seq<Event>, e: Event)
    ensures Count(a + b, e) == Count(a, e) + Count(b, e)
  {
  }

  ghost predicate InRange(d: Data, h: Hand) {
    !h.Empty? ==> h.batch < |d.takes|
  }

  lemma PushConserves(d: Data, x: Event, e: Event)
    requires ConservedFor(d, e)
    ensures ConservedFor(Push(d, x), e)
  {
    CountAppend(d.pushed, [x], e);
    CountAppend(d.buffer, [x], e);
  }

  lemma TakeConserves(d: Data, w: Who, e: Event)
    requires ConservedFor(d, e) && HandOf(d, w).Empty? && InRange(d, HandOf(d, Other(w)))
    ensures ConservedFor(Take(d, w), e)
  {
    var d' := Take(d, w);
    assert Rest(d'.takes, HandOf(d', w)) == d.buffer;
    assert Rest(d'.takes, HandOf(d', Other(w))) == Rest(d.takes, HandOf(d, Other(w)));
  }

  lemma DropConserves(d: Data, w: Who, e: Event)
    requires ConservedFor(d, e) && HandOf(d, w).Holds?
    ensures ConservedFor(Drop(d, w), e)
  {
    CountAppend(d.dropped, BatchAt(d.takes, HandOf(d, w).batch), e);
  }

  lemma BeginConserves(d: Data, w: Who, e: Event)
    requires ConservedFor(d, e) && HandOf(d, w).Holds?
    ensures ConservedFor(Begin(d, w), e)
  {
    var batch := BatchAt(d.takes, HandOf(d, w).batch);
    assert batch[0..] == batch;
  }

  lemma RestSplits(batch: seq<Event>, at: nat, e: Event)
    requires at < |batch|
    ensures Count(batch[at..], e) == Count([batch[at]], e) + Count(batch[at + 1..], e)
  {
    assert batch[at..] == [batch[at]] + batch[at + 1..];
    CountAppend([batch[at]], batch[at + 1..], e);
  }

  lemma RestAfterWrite(d: Data, w: Who, e: Event)
    requires MoreToWrite(d, w)
    ensures var h := HandOf(d, w);
            var x := BatchAt(d.takes, h.batch)[h.at];
            Count(Rest(d.takes, h), e) == Count([x], e) + Count(Rest(d.takes, HandOf(WriteOne(d, w), w)), e)
  {
    var h := HandOf(d, w);
    RestSplits(BatchAt(d.takes, h.batch), h.at, e);
  }

  lemma WriteConserves(d: Data, w: Who, e: Event)
    requires ConservedFor(d, e) && MoreToWrite(d, w)
    ensures ConservedFor(WriteOne(d, w), e)
  {
    var h := HandOf(d, w);
    RestAfterWrite(d, w, e);
    CountAppend(d.file, [BatchAt(d.takes, h.batch)[h.at]], e);
  }

  lemma FinishConserves(d: Data, w: Who, e: Event)
    requires ConservedFor(d, e) && AllWritten(d, w)
    ensures ConservedFor(Finish(d, w), e)
  {
  }

  // ---- Batches ----

  function Flatten(batches: seq<seq<Event>>): seq<Event> {
    if batches == [] then [] else Flatten(batches[..|batches| - 1]) + batches[|batches| - 1]
  }

  lemma {:induction false} FlattenPrefix(batches: seq<seq<Event>>, n: nat)
    requires n <= |batches|
    ensures Flatten(batches[..n]) <= Flatten(batches)
    decreases |batches|
  {
    var k := |batches| - 1;
    if n <= k {
      FlattenPrefix(batches[..k], n);
      assert batches[..k][..n] == batches[..n];
    } else {
      assert batches[..n] == batches;
    }
  }

  lemma CountPrefix(a: seq<Event>, b: seq<Event>, e: Event)
    requires a <= b
    ensures Count(a, e) <= Count(b, e)
  {
    assert b == a + b[|a|..];
    CountAppend(a, b[|a|..], e);
  }

  /** The batches named by `order`, one after the other. */
  function Batches(takes: seq<seq<Event>>, order: seq<nat>): seq<Event> {
    if order == [] then [] else Batches(takes, order[..|order| - 1]) + BatchAt(takes, order[|order| - 1])
  }

  /** Batches are cut from what was pushed, in push order. */
  ghost predicate CutInOrder(d: Data) {
    Flatten(d.takes) + d.buffer == d.pushed
  }

  /** Without the batch under way, if there is one. */
  function Before(d: Data): seq<nat>
    requires d.order != []
  {
    d.order[..|d.order| - 1]
  }

  ghost predicate WritingLast(d: Data, h: Hand) {
    && h.Writes? && d.order != [] && d.order[|d.order| - 1] == h.batch && h.at <= |BatchAt(d.takes, h.batch)|
    && d.file == Batches(d.takes, Before(d)) + BatchAt(d.takes, h.batch)[..h.at]
  }

  /** The file is whole batches in the order their writing began, then the part written so far of
      the batch under way; at most one thread writes. */
  ghost predicate WholeBatches(d: Data) {
    if d.flusher.Writes? then !d.client.Writes? && WritingLast(d, d.flusher)
    else if d.client.Writes? then WritingLast(d, d.client)
    else d.file == Batches(d.takes, d.order)
  }

  /** No batch is written twice, or by two threads. */
  ghost predicate Apart(d: Data) {
    && InRange(d, d.flusher) && InRange(d, d.client)
    && (forall i :: 0 <= i < |d.order| ==> d.order[i] < |d.takes|)
    && (forall i, j :: 0 <= i < j < |d.order| ==> d.order[i] != d.order[j])
    && (forall i :: 0 <= i < |d.order| ==> d.flusher != Holds(d.order[i]) && d.client != Holds(d.order[i]))
    && (d.flusher.Holds? ==> d.client != d.flusher)
  }

  lemma TakeCuts(d: Data, w: Who)
    requires CutInOrder(d)
    ensures CutInOrder(Take(d, w))
    ensures Flatten(Take(d, w).takes) == Flatten(d.takes) + d.buffer
  {
    assert (d.takes + [d.buffer])[..|d.takes|] == d.takes;
  }

  lemma {:induction false} BatchesStable(takes: seq<seq<Event>>, more: seq<seq<Event>>, order: seq<nat>)
    requires forall i :: 0 <= i < |order| ==> order[i] < |takes|
    ensures Batches(takes + more, order) == Batches(takes, order)
    decreases |order|
  {
    if order != [] { BatchesStable(takes, more, order[..|order| - 1]); }
  }

  lemma TakeKeepsWhole(d: Data, w: Who)
    requires WholeBatches(d) && Apart(d) && HandOf(d, w).Empty?
    ensures WholeBatches(Take(d, w)) && Apart(Take(d, w))
  {
    BatchesStable(d.takes, [d.buffer], d.order);
    if d.order != [] { BatchesStable(d.takes, [d.buffer], Before(d)); }
  }

  lemma BeginKeepsWhole(d: Data, w: Who)
    requires WholeBatches(d) && Apart(d) && HandOf(d, w).Holds? && !HandOf(d, Other(w)).Writes?
    ensures WholeBatches(Begin(d, w)) && Apart(Begin(d, w))
  {
    var b := HandOf(d, w).batch;
    assert (d.order + [b])[..|d.order|] == d.order;
    assert BatchAt(d.takes, b)[..0] == [];
    assert Batches(d.takes, d.order) + [] == Batches(d.takes, d.order);
  }

  lemma WriteKeepsWhole(d: Data, w: Who)
    requires WholeBatches(d) && Apart(d) && MoreToWrite(d, w)
    ensures WholeBatches(WriteOne(d, w)) && Apart(WriteOne(d, w))
  {
    var h := HandOf(d, w);
    var batch := BatchAt(d.takes, h.batch);
    assert batch[..h.at + 1] == batch[..h.at] + [batch[h.at]];
    assert d.file + [batch[h.at]] == Batches(d.takes, Before(d)) + (batch[..h.at] + [batch[h.at]]);
  }

  lemma FinishKeepsWhole(d: Data, w: Who)
    requires WholeBatches(d) && Apart(d) && AllWritten(d, w)
    ensures WholeBatches(Finish(d, w)) && Apart(Finish(d, w))
  {
    var h := HandOf(d, w);
    var batch := BatchAt(d.takes, h.batch);
    assert batch[..|batch|] == batch;
  }

  // ---- Where a batch is ----

  /** Nothing to write, begun, or waiting in a hand. */
  predicate Placed(d: Data, b: nat) {
    BatchAt(d.takes, b) == [] || b in d.order || d.flusher == Holds(b) || d.client == Holds(b)
  }

  ghost predicate AllPlaced(d: Data) {
    forall b: nat :: Placed(d, b)
  }

  ghost predicate NoEmptyBatch(d: Data) {
    forall b :: b in d.order ==> BatchAt(d.takes, b) != []
  }

  lemma TakeKeepsPlaced(d: Data, w: Who)
    requires AllPlaced(d) && NoEmptyBatch(d) && Apart(d) && HandOf(d, w).Empty?
    ensures AllPlaced(Take(d, w)) && NoEmptyBatch(Take(d, w))
  {
    forall b: nat ensures Placed(Take(d, w), b) { assert Placed(d, b); }
  }

  lemma BeginKeepsPlaced(d: Data, w: Who)
    requires AllPlaced(d) && HandOf(d, w).Holds?
    ensures AllPlaced(Begin(d, w))
  {
    forall b: nat ensures Placed(Begin(d, w), b) { assert Placed(d, b); }
  }

  lemma DropKeepsPlaced(d: Data, w: Who)
    requires AllPlaced(d) && HandOf(d, w).Holds? && BatchAt(d.takes, HandOf(d, w).batch) == []
    ensures AllPlaced(Drop(d, w))
  {
    forall b: nat ensures Placed(Drop(d, w), b) { assert Placed(d, b); }
  }

  /** Writing on, and letting go of a batch that was begun, move no batch. */
  lemma WritingKeepsPlaced(d: Data, d': Data, w: Who)
    requires AllPlaced(d) && HandOf(d, w).Writes? && d'.takes == d.takes && d'.order == d.order
    requires HandOf(d', Other(w)) == HandOf(d, Other(w))
    ensures AllPlaced(d')
  {
    forall b: nat ensures Placed(d', b) { assert Placed(d, b); }
  }

  // ---- Together ----

  ghost predicate Sound(d: Data) {
    Conserved(d) && CutInOrder(d) && WholeBatches(d) && Apart(d)
  }

  lemma PushSound(d: Data, e: Event)
    requires Sound(d)
    ensures Sound(Push(d, e))
  {
    forall x ensures ConservedFor(Push(d, e), x) { PushConserves(d, e, x); }
    assert Flatten(d.takes) + (d.buffer + [e]) == Flatten(d.takes) + d.buffer + [e];
  }

  lemma TakeSound(d: Data, w: Who)
    requires Sound(d) && HandOf(d, w).Empty?
    ensures Sound(Take(d, w)) && Flatten(Take(d, w).takes) == d.pushed
  {
    forall x ensures ConservedFor(Take(d, w), x) { TakeConserves(d, w, x); }
    TakeCuts(d, w);
    TakeKeepsWhole(d, w);
  }

  lemma DropSound(d: Data, w: Who)
    requires Sound(d) && HandOf(d, w).Holds?
    ensures Sound(Drop(d, w))
  {
    forall x ensures ConservedFor(Drop(d, w), x) { DropConserves(d, w, x); }
  }

  lemma BeginSound(d: Data, w: Who)
    requires Sound(d) && HandOf(d, w).Holds? && !HandOf(d, Other(w)).Writes?
    ensures Sound(Begin(d, w))
  {
    forall x ensures ConservedFor(Begin(d, w), x) { BeginConserves(d, w, x); }
    BeginKeepsWhole(d, w);
  }

  lemma WriteSound(d: Data, w: Who)
    requires Sound(d) && MoreToWrite(d, w)
    ensures Sound(WriteOne(d, w))
  {
    forall x ensures ConservedFor(WriteOne(d, w), x) { WriteConserves(d, w, x); }
    WriteKeepsWhole(d, w);
  }

  lemma FinishSound(d: Data, w: Who)
    requires Sound(d) && AllWritten(d, w)
    ensures Sound(Finish(d, w))
  {
    forall x ensures ConservedFor(Finish(d, w), x) { FinishConserves(d, w, x); }
    FinishKeepsWhole(d, w);
  }

  /** What was taken was written, is in hand, or was dropped. */
  lemma TakenIsSomewhere(d: Data, e: Event)
    requires Sound(d)
    ensures Count(Flatten(d.takes), e) == Count(d.file, e) + InHand(d, e) + Count(d.dropped, e)
  {
    CountAppend(Flatten(d.takes), d.buffer, e);
    assert ConservedFor(d, e);
  }

  /** With nothing dropped, what was taken is what was written and what is in hand. */
  lemma TakenIsWrittenOrHeld(d: Data, e: Event)
    requires Sound(d) && d.dropped == []
    ensures Count(Flatten(d.takes), e) == Count(d.file, e) + InHand(d, e)
  {
    TakenIsSomewhere(d, e);
  }

  /** Equal counts are equal multisets. */
  lemma SameCounts(a: seq<Event>, b: seq<Event>)
    requires forall e :: Count(a, e) == Count(b, e)
    ensures multiset(a) == multiset(b)
  {
    forall e ensures multiset(a)[e] == multiset(b)[e] { assert Count(a, e) == Count(b, e); }
  }
}
