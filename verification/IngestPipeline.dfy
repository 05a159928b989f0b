/** Ingest: events go to the episodic store, their vectors to the semantic store, and a flag says which have one. */
module IngestPipeline {
  import opened Options
  import opened ReplicatedEngine

  type Text = Event -> Blob

  /** A semantic entry: the text it was made from and what the provider returned for it. */
  datatype Entry = Entry(content: Blob, embedding: Blob)

  /** What the provider answers to each chunk, of any length, and how each upsert and the final mark end. */
  datatype World = World(reply: nat -> Option<seq<Blob>>, upsert: nat -> Write, mark: Write)

  // ---------- what one call does, event by event ----------

  /** The embedding for event `i` of the batch: entry `i % size` of the answer to chunk `i / size`. */
  function EmbeddingOf(w: World, size: nat, i: nat): Option<Blob>
    requires 0 < size
  {
    var r := w.reply(i / size);
    if r.Some? && i % size < |r.value| then Some(r.value[i % size]) else None
  }

  predicate Lands(w: World, size: nat, i: nat)
    requires 0 < size
  {
    EmbeddingOf(w, size, i).Some? && w.upsert(i).Applied()
  }

  predicate Succeeds(w: World, size: nat, i: nat)
    requires 0 < size
  {
    EmbeddingOf(w, size, i).Some? && w.upsert(i).Done?
  }

  /** The semantic store after the first `n` events of the batch. */
  function VectorsAfter(vectors: map<Id, Entry>, batch: seq<Event>, text: Text, w: World, size: nat, n: nat): map<Id, Entry>
    requires 0 < size && n <= |batch|
  {
    if n == 0 then vectors
    else
      var before, e := VectorsAfter(vectors, batch, text, w, size, n - 1), batch[n - 1];
      if Lands(w, size, n - 1) then before[e.id := Entry(text(e), EmbeddingOf(w, size, n - 1).value)] else before
  }

  function SucceededAfter(batch: seq<Event>, w: World, size: nat, n: nat): seq<Id>
    requires 0 < size && n <= |batch|
  {
    if n == 0 then []
    else SucceededAfter(batch, w, size, n - 1) + (if Succeeds(w, size, n - 1) then [batch[n - 1].id] else [])
  }

  function Texts(batch: seq<Event>, text: Text): seq<Blob> {
    seq(|batch|, i requires 0 <= i < |batch| => text(batch[i]))
  }

  function Concat(chunks: seq<seq<Blob>>): seq<Blob> {
    if chunks == [] then [] else Concat(chunks[..|chunks| - 1]) + chunks[|chunks| - 1]
  }

  // ---------- the flag and the vector ----------

  /** Every flagged event is stored and has a vector made from its own text. */
  predicate Sound(events: map<Id, Event>, flagged: set<Id>, vectors: map<Id, Entry>, text: Text) {
    forall id :: id in flagged ==> id in events && id in vectors && vectors[id].content == text(events[id])
  }

  /** The stored event under an id of the batch has the text of the batch's event. */
  predicate OwnTexts(events: map<Id, Event>, batch: seq<Event>, text: Text) {
    forall i :: 0 <= i < |batch| && batch[i].id in events ==> text(events[batch[i].id]) == text(batch[i])
  }

  lemma {:induction false} VectorsStaySound(events: map<Id, Event>, flagged: set<Id>, vectors: map<Id, Entry>, batch: seq<Event>, text: Text, w: World, size: nat, n: nat)
    requires 0 < size && n <= |batch| && Sound(events, flagged, vectors, text) && OwnTexts(events, batch, text)
    ensures Sound(events, flagged, VectorsAfter(vectors, batch, text, w, size, n), text)
    ensures forall id :: id in SucceededAfter(batch, w, size, n) && id in events ==>
              var after := VectorsAfter(vectors, batch, text, w, size, n); id in after && after[id].content == text(events[id])
  {
    if 0 < n {
      VectorsStaySound(events, flagged, vectors, batch, text, w, size, n - 1);
    }
  }

  /** What an append leaves: the old rows as they were, and new ones from the batch. */
  ghost predicate GrownFrom(events: map<Id, Event>, after: map<Id, Event>, batch: seq<Event>) {
    && (forall id :: id in events ==> id in after && after[id] == events[id])
    && (forall id :: id in after && id !in events ==> after[id].id == id && after[id] in batch)
  }

  lemma {:induction false} InsertGrows(events: map<Id, Event>, batch: seq<Event>)
    ensures GrownFrom(events, InsertOrIgnore(events, batch), batch)
    decreases |batch|
  {
    if batch != [] {
      var e := batch[0];
      InsertGrows(if Ignored(events, e) then events else events[e.id := e], batch[1..]);
    }
  }

  lemma {:induction false} BulkGrows(events: map<Id, Event>, batch: seq<Event>)
    requires BulkLoad(events, batch).Some?
    ensures GrownFrom(events, BulkLoad(events, batch).value, batch)
    decreases |batch|
  {
    if batch != [] {
      var e := batch[0];
      BulkGrows(events[e.id := e], batch[1..]);
    }
  }

  lemma AppendGrows(events: map<Id, Event>, batch: seq<Event>)
    requires Append(events, batch).Some?
    ensures GrownFrom(events, Append(events, batch).value, batch)
  {
    if batch != [] {
      if Keyless(batch) {
        BulkGrows(events, batch);
      } else {
        InsertGrows(events, batch);
      }
    }
  }

  /** Ids are unique per event: `name` gives the one text an id stands for. */
  ghost predicate Named(batch: seq<Event>, text: Text, name: Id -> Blob) {
    forall i :: 0 <= i < |batch| ==> text(batch[i]) == name(batch[i].id)
  }

  ghost predicate StoredNamed(events: map<Id, Event>, text: Text, name: Id -> Blob) {
    forall id :: id in events ==> text(events[id]) == name(id)
  }

  lemma NamedOwnTexts(events: map<Id, Event>, batch: seq<Event>, text: Text, name: Id -> Blob)
    requires Named(batch, text, name) && StoredNamed(events, text, name)
    ensures OwnTexts(events, batch, text)
  {
  }

  lemma NamedGrows(events: map<Id, Event>, after: map<Id, Event>, batch: seq<Event>, text: Text, name: Id -> Blob)
    requires GrownFrom(events, after, batch) && Named(batch, text, name) && StoredNamed(events, text, name)
    ensures StoredNamed(after, text, name)
  {
    forall id | id in after
      ensures text(after[id]) == name(id)
    {
      if id !in events {
        var i :| 0 <= i < |batch| && batch[i] == after[id];
      }
    }
  }

  lemma {:induction false} MarkingStaysSound(events: map<Id, Event>, flagged: set<Id>, vectors: map<Id, Entry>, batch: seq<Event>, text: Text, w: World, size: nat)
    requires 0 < size && Sound(events, flagged, vectors, text) && OwnTexts(events, batch, text)
    ensures Sound(events, flagged + Marked(events, batch, w, size), VectorsAfter(vectors, batch, text, w, size, |batch|), text)
  {
    VectorsStaySound(events, flagged, vectors, batch, text, w, size, |batch|);
  }

  // ---------- when nothing fails ----------

  /** Every chunk is answered in full, every upsert lands and the mark is set. */
  ghost predicate Unfailing(w: World, size: nat, n: nat)
    requires 0 < size
  {
    w.mark.Done? && forall i :: 0 <= i < n ==> Succeeds(w, size, i)
  }

  /** The last of the first `n` events that carries the id. */
  function LastAt(batch: seq<Event>, n: nat, id: Id): (r: Option<nat>)
    requires n <= |batch|
    ensures r.Some? ==> r.value < n && batch[r.value].id == id && forall k :: r.value < k < n ==> batch[k].id != id
    ensures r.None? ==> forall k :: 0 <= k < n ==> batch[k].id != id
  {
    if n == 0 then None else if batch[n - 1].id == id then Some(n - 1) else LastAt(batch, n - 1, id)
  }

  lemma {:induction false} AllSucceed(batch: seq<Event>, w: World, size: nat, n: nat)
    requires 0 < size && n <= |batch| && forall i :: 0 <= i < n ==> Succeeds(w, size, i)
    ensures |SucceededAfter(batch, w, size, n)| == n
    ensures forall i :: 0 <= i < n ==> SucceededAfter(batch, w, size, n)[i] == batch[i].id
  {
    if 0 < n {
      AllSucceed(batch, w, size, n - 1);
    }
  }

  lemma {:induction false} LastWins(vectors: map<Id, Entry>, batch: seq<Event>, text: Text, w: World, size: nat, n: nat, id: Id)
    requires 0 < size && n <= |batch| && forall i :: 0 <= i < n ==> Succeeds(w, size, i)
    ensures var after, last := Lookup(VectorsAfter(vectors, batch, text, w, size, n), id), LastAt(batch, n, id);
            if last.Some? then after.Some? && after.value.content == text(batch[last.value]) else after == Lookup(vectors, id)
    decreases n
  {
    if 0 < n {
      LastWins(vectors, batch, text, w, size, n - 1, id);
      AfterNext(vectors, batch, text, w, size, n);
    }
  }

  lemma AfterNext(vectors: map<Id, Entry>, batch: seq<Event>, text: Text, w: World, size: nat, n: nat)
    requires 0 < size && 0 < n <= |batch| && Succeeds(w, size, n - 1)
    ensures var before, e := VectorsAfter(vectors, batch, text, w, size, n - 1), batch[n - 1];
            VectorsAfter(vectors, batch, text, w, size, n) == before[e.id := Entry(text(e), EmbeddingOf(w, size, n - 1).value)]
  {
  }

  lemma {:induction false} MarkedIs(events: map<Id, Event>, batch: seq<Event>, w: World, size: nat, id: Id)
    requires 0 < size && Unfailing(w, size, |batch|)
    ensures id in Marked(events, batch, w, size) <==> id in events && LastAt(batch, |batch|, id).Some?
  {
    AllSucceed(batch, w, size, |batch|);
    var done := SucceededAfter(batch, w, size, |batch|);
    if LastAt(batch, |batch|, id).Some? {
      assert done[LastAt(batch, |batch|, id).value] == id;
    }
    if id in done {
      var k :| 0 <= k < |done| && done[k] == id;
      assert batch[k].id == id;
    }
  }

  /** The last event of the batch under each stored id carries the text that is stored under it. */
  ghost predicate LastTexts(events: map<Id, Event>, batch: seq<Event>, text: Text) {
    forall id :: id in events && LastAt(batch, |batch|, id).Some? ==> text(events[id]) == text(batch[LastAt(batch, |batch|, id).value])
  }

  predicate SoundAt(events: map<Id, Event>, vectors: map<Id, Entry>, text: Text, id: Id) {
    id in events && id in vectors && vectors[id].content == text(events[id])
  }

  /** With no failure at all, the flags stay sound exactly if the last event under each stored id has its stored text. */
  lemma {:induction false} SoundIff(events: map<Id, Event>, flagged: set<Id>, vectors: map<Id, Entry>, batch: seq<Event>, text: Text, w: World, size: nat)
    requires 0 < size && Sound(events, flagged, vectors, text) && Unfailing(w, size, |batch|)
    ensures Sound(events, flagged + Marked(events, batch, w, size), VectorsAfter(vectors, batch, text, w, size, |batch|), text)
       <==> LastTexts(events, batch, text)
  {
    var after, marked := VectorsAfter(vectors, batch, text, w, size, |batch|), Marked(events, batch, w, size);
    forall id
      ensures id in flagged + marked ==> (SoundAt(events, after, text, id) <==> AgreesLast(events, batch, text, id))
      ensures id in events && LastAt(batch, |batch|, id).Some? ==> id in marked
    {
      LastWins(vectors, batch, text, w, size, |batch|, id);
      MarkedIs(events, batch, w, size, id);
      assert id in flagged ==> SoundAt(events, vectors, text, id);
    }
    assert LastTexts(events, batch, text) <==> forall id :: id in events ==> AgreesLast(events, batch, text, id);
    if LastTexts(events, batch, text) {
      forall id | id in flagged + marked
        ensures SoundAt(events, after, text, id)
      {
        MarkedIs(events, batch, w, size, id);
      }
    }
  }

  predicate AgreesLast(events: map<Id, Event>, batch: seq<Event>, text: Text, id: Id) {
    var last := LastAt(batch, |batch|, id);
    id in events && last.Some? ==> text(events[id]) == text(batch[last.value])
  }

  /** A batch with an idempotency key may reuse a stored id: the row keeps its text, the vector gets the new one. */
  lemma ReusedIdFlagsForeignVector(id: Id, key: string, stored: Event, text: Text, w: World, size: nat)
    requires 0 < size && Unfailing(w, size, 1) && text(stored) != text(Event(id, Some(key), ""))
    ensures var events, batch := map[id := stored], [Event(id, Some(key), "")];
            && Append(events, batch) == Some(events)
            && !Sound(events, Marked(events, batch, w, size), VectorsAfter(map[], batch, text, w, size, 1), text)
  {
    var events, batch := map[id := stored], [Event(id, Some(key), "")];
    assert batch[1..] == [] && InsertOrIgnore(events, batch[1..]) == events;
    assert batch[0] in batch && !Keyless(batch) && Ignored(events, batch[0]);
    assert LastAt(batch, 1, id) == Some(0);
    SoundIff(events, {}, map[], batch, text, w, size);
    assert {} + Marked(events, batch, w, size) == Marked(events, batch, w, size);
  }

  // ---------- vectors of events that were not stored ----------

  lemma {:induction false} InsertAppend(events: map<Id, Event>, a: seq<Event>, b: seq<Event>)
    ensures InsertOrIgnore(events, a + b) == InsertOrIgnore(InsertOrIgnore(events, a), b)
    decreases |a|
  {
    if a == [] {
      assert a + b == b;
    } else {
      assert (a + b)[1..] == a[1..] + b;
      InsertAppend(if Ignored(events, a[0]) then events else events[a[0].id := a[0]], a[1..], b);
    }
  }

  /** The table when event `i` of the batch has its turn. */
  function AtTurn(events: map<Id, Event>, batch: seq<Event>, i: nat): map<Id, Event>
    requires i <= |batch|
  {
    InsertOrIgnore(events, batch[..i])
  }

  /** Event `i` finds its id free but its idempotency key taken. */
  predicate ShutOut(events: map<Id, Event>, batch: seq<Event>, i: nat)
    requires i < |batch|
  {
    var e, table := batch[i], AtTurn(events, batch, i);
    e.id !in table && e.key.Some? && KeyTaken(table, e.key.value)
  }

  lemma TurnNext(events: map<Id, Event>, batch: seq<Event>, i: nat)
    requires i < |batch|
    ensures var e, table := batch[i], AtTurn(events, batch, i);
            AtTurn(events, batch, i + 1) == if Ignored(table, e) then table else table[e.id := e]
  {
    var e := batch[i];
    assert batch[..i + 1] == batch[..i] + [e];
    InsertAppend(events, batch[..i], [e]);
    assert [e][1..] == [];
  }

  /** Some event of the batch brings the id in, or finds it in: one that is not shut out. */
  ghost predicate Enters(events: map<Id, Event>, batch: seq<Event>, n: nat, id: Id)
    requires n <= |batch|
  {
    exists i :: 0 <= i < n && batch[i].id == id && !ShutOut(events, batch, i)
  }

  lemma {:induction false} StoredIff(events: map<Id, Event>, batch: seq<Event>, n: nat, id: Id)
    requires n <= |batch|
    ensures id in AtTurn(events, batch, n) <==> id in events || Enters(events, batch, n, id)
  {
    if 0 < n {
      StoredIff(events, batch, n - 1, id);
      TurnNext(events, batch, n - 1);
      assert Enters(events, batch, n, id) <==> Enters(events, batch, n - 1, id) || (batch[n - 1].id == id && !ShutOut(events, batch, n - 1));
    }
  }

  lemma {:induction false} BulkLoadStores(events: map<Id, Event>, batch: seq<Event>)
    requires BulkLoad(events, batch).Some?
    ensures forall i :: 0 <= i < |batch| ==> batch[i].id in BulkLoad(events, batch).value
    decreases |batch|
  {
    if batch != [] {
      var e := batch[0];
      BulkLoadStores(events[e.id := e], batch[1..]);
      BulkGrows(events[e.id := e], batch[1..]);
      forall i | 0 <= i < |batch|
        ensures batch[i].id in BulkLoad(events, batch).value
      {
        assert 0 < i ==> batch[i] == batch[1..][i - 1];
      }
    }
  }

  /** Each id of the batch is stored, or an event that carries it is not shut out by its key. */
  ghost predicate NoneShutOut(events: map<Id, Event>, batch: seq<Event>) {
    Keyless(batch) || forall i :: 0 <= i < |batch| ==> batch[i].id in events || Enters(events, batch, |batch|, batch[i].id)
  }

  lemma BatchStoredIff(events: map<Id, Event>, batch: seq<Event>)
    requires Append(events, batch).Some?
    ensures (forall i :: 0 <= i < |batch| ==> batch[i].id in Append(events, batch).value) <==> NoneShutOut(events, batch)
  {
    if Keyless(batch) {
      BulkLoadStores(events, batch);
    } else {
      assert batch[..|batch|] == batch;
      forall i | 0 <= i < |batch|
        ensures batch[i].id in Append(events, batch).value <==> batch[i].id in events || Enters(events, batch, |batch|, batch[i].id)
      {
        StoredIff(events, batch, |batch|, batch[i].id);
      }
    }
  }

  lemma VectorKeys(vectors: map<Id, Entry>, batch: seq<Event>, text: Text, w: World, size: nat, id: Id)
    requires 0 < size && Unfailing(w, size, |batch|)
    ensures id in VectorsAfter(vectors, batch, text, w, size, |batch|) <==> id in vectors || LastAt(batch, |batch|, id).Some?
  {
    LastWins(vectors, batch, text, w, size, |batch|, id);
  }

  /**
   Every vector belongs to a stored event after a failure-free ingest exactly if no event of the batch
   was shut out by its idempotency key alone; a batch without keys that is accepted always qualifies.
   */
  lemma {:induction false} VectorsAreStoredIff(events: map<Id, Event>, vectors: map<Id, Entry>, batch: seq<Event>, text: Text, w: World, size: nat)
    requires 0 < size && Unfailing(w, size, |batch|) && vectors.Keys <= events.Keys && Append(events, batch).Some?
    ensures VectorsAfter(vectors, batch, text, w, size, |batch|).Keys <= Append(events, batch).value.Keys <==> NoneShutOut(events, batch)
  {
    var stored, after := Append(events, batch).value, VectorsAfter(vectors, batch, text, w, size, |batch|);
    BatchStoredIff(events, batch);
    AppendGrows(events, batch);
    forall id
      ensures id in after <==> id in vectors || LastAt(batch, |batch|, id).Some?
    {
      VectorKeys(vectors, batch, text, w, size, id);
    }
    if after.Keys <= stored.Keys {
      forall i | 0 <= i < |batch|
        ensures batch[i].id in stored
      {
        assert LastAt(batch, |batch|, batch[i].id).Some?;
        assert batch[i].id in after.Keys;
      }
    }
  }

  /** With ids that occur once in the batch and not in the table, that is exactly: no event is shut out. */
  lemma FreshIdsShutOut(events: map<Id, Event>, batch: seq<Event>)
    requires forall i :: 0 <= i < |batch| ==> batch[i].id !in events
    requires forall i, k :: 0 <= i < k < |batch| ==> batch[i].id != batch[k].id
    ensures NoneShutOut(events, batch) <==> Keyless(batch) || forall i :: 0 <= i < |batch| ==> !ShutOut(events, batch, i)
  {
    forall i | 0 <= i < |batch|
      ensures Enters(events, batch, |batch|, batch[i].id) <==> !ShutOut(events, batch, i)
    {
    }
  }

  /** For instance: an event ignored for its key still gets a vector, under an id the store does not have. */
  lemma IgnoredEventIsIndexed(kept: Event, e: Event, text: Text, w: World, size: nat)
    requires 0 < size && Unfailing(w, size, 1) && e.key.Some? && kept.key == e.key && kept.id != e.id
    ensures var events := map[kept.id := kept];
            Append(events, [e]) == Some(events) && e.id !in events && e.id in VectorsAfter(map[], [e], text, w, size, 1)
  {
    var events := map[kept.id := kept];
    assert [e][0] in [e] && !Keyless([e]);
    assert KeyTaken(events, e.key.value) by { assert kept.id in events; }
    assert [e][1..] == [] && InsertOrIgnore(events, [e][1..]) == events;
    AfterNext(map[], [e], text, w, size, 1);
  }

  predicate Finds(found: seq<Event>, id: Id) {
    exists i :: 0 <= i < |found| && found[i].id == id
  }

  // ---------- the vector returned for a text ----------

  /** The texts sent and what came back for each, position by position, as far as both go. */
  ghost function Pairs(asked: seq<seq<Blob>>, w: World): set<(Blob, Blob)> {
    set c, k | 0 <= c < |asked| && w.reply(c).Some? && 0 <= k < |asked[c]| && k < |w.reply(c).value| :: (asked[c][k], w.reply(c).value[k])
  }

  /** Every vector in the store was returned by the provider for the text beside it. */
  predicate Earned(vectors: map<Id, Entry>, answers: set<(Blob, Blob)>) {
    forall id :: id in vectors ==> (vectors[id].content, vectors[id].embedding) in answers
  }

  /** A flagged event has the vector that was returned for its own text. */
  lemma FlaggedHasItsAnswer(events: map<Id, Event>, flagged: set<Id>, vectors: map<Id, Entry>, text: Text, answers: set<(Blob, Blob)>, id: Id)
    requires Sound(events, flagged, vectors, text) && Earned(vectors, answers) && id in flagged
    ensures id in events && id in vectors && (text(events[id]), vectors[id].embedding) in answers
  {
  }

  /** Text `i` was sent at place `i % size` of chunk `i / size`. */
  ghost predicate SentAt(asked: seq<seq<Blob>>, texts: seq<Blob>, size: nat, i: nat)
    requires 0 < size && i < |texts|
  {
    i / size < |asked| && i % size < |asked[i / size]| && asked[i / size][i % size] == texts[i]
  }

  ghost predicate Covered(asked: seq<seq<Blob>>, texts: seq<Blob>, size: nat, n: nat)
    requires 0 < size && n <= |texts|
  {
    forall i :: 0 <= i < n ==> SentAt(asked, texts, size, i)
  }

  lemma {:induction false} CoverGrows(asked: seq<seq<Blob>>, texts: seq<Blob>, size: nat, start: nat, end: nat)
    requires 0 < size && start <= end <= |texts| && end <= start + size && start % size == 0 && |asked| == start / size
    requires Covered(asked, texts, size, start)
    ensures Covered(asked + [texts[start..end]], texts, size, end)
  {
    var more := asked + [texts[start..end]];
    forall i | 0 <= i < end
      ensures SentAt(more, texts, size, i)
    {
      if i < start {
        assert SentAt(asked, texts, size, i);
      } else {
        InChunk(start, i - start, size);
      }
    }
  }

  lemma {:induction false} PairIn(asked: seq<seq<Blob>>, texts: seq<Blob>, w: World, size: nat, i: nat)
    requires 0 < size && i < |texts| && SentAt(asked, texts, size, i) && EmbeddingOf(w, size, i).Some?
    ensures (texts[i], EmbeddingOf(w, size, i).value) in Pairs(asked, w)
  {
    var c, k := i / size, i % size;
    assert (asked[c][k], w.reply(c).value[k]) in Pairs(asked, w);
  }

  lemma {:induction false} EarnedAfter(vectors: map<Id, Entry>, answers: set<(Blob, Blob)>, batch: seq<Event>, text: Text, w: World, size: nat, n: nat, asked: seq<seq<Blob>>)
    requires 0 < size && n <= |batch| && Earned(vectors, answers) && Covered(asked, Texts(batch, text), size, |batch|)
    ensures Earned(VectorsAfter(vectors, batch, text, w, size, n), answers + Pairs(asked, w))
    decreases n
  {
    if 0 < n {
      EarnedAfter(vectors, answers, batch, text, w, size, n - 1, asked);
      if Lands(w, size, n - 1) {
        assert SentAt(asked, Texts(batch, text), size, n - 1);
        PairIn(asked, Texts(batch, text), w, size, n - 1);
      }
    }
  }

  /** The provider's reply reaches as far as event `j`. */
  predicate Answered(w: World, size: nat, j: nat)
    requires 0 < size
  {
    w.reply(j / size).Some? && j % size < |w.reply(j / size).value|
  }

  /** No upsert after the `i`-th that took effect carries its id. */
  predicate LastUpsert(batch: seq<Event>, w: World, size: nat, i: nat, n: nat)
    requires 0 < size && i < n <= |batch|
  {
    forall j :: i < j < n && batch[j].id == batch[i].id ==> !(w.upsert(j).Applied() && Answered(w, size, j))
  }

  lemma {:induction false} EntryStays(vectors: map<Id, Entry>, batch: seq<Event>, text: Text, w: World, size: nat, i: nat, n: nat, entry: Entry)
    requires 0 < size && i < n <= |batch| && LastUpsert(batch, w, size, i, n)
    requires Lookup(VectorsAfter(vectors, batch, text, w, size, i + 1), batch[i].id) == Some(entry)
    ensures Lookup(VectorsAfter(vectors, batch, text, w, size, n), batch[i].id) == Some(entry)
    decreases n
  {
    if i + 1 < n {
      EntryStays(vectors, batch, text, w, size, i, n - 1, entry);
      assert batch[n - 1].id == batch[i].id ==> !(w.upsert(n - 1).Applied() && Answered(w, size, n - 1));
    }
  }

  /** The `k`-th embedding returned for chunk `c` becomes the vector of the `k`-th event of that chunk. */
  lemma {:induction false} VectorIsItsAnswer(vectors: map<Id, Entry>, batch: seq<Event>, text: Text, w: World, size: nat, c: nat, k: nat, i: nat)
    requires 0 < size && k < size && i == c * size + k < |batch|
    requires w.reply(c).Some? && k < |w.reply(c).value| && w.upsert(i).Applied() && LastUpsert(batch, w, size, i, |batch|)
    ensures Lookup(VectorsAfter(vectors, batch, text, w, size, |batch|), batch[i].id) == Some(Entry(text(batch[i]), w.reply(c).value[k]))
  {
    DivUnique(i, c, k, size);
    assert Lookup(VectorsAfter(vectors, batch, text, w, size, i + 1), batch[i].id) == Some(Entry(text(batch[i]), w.reply(c).value[k]));
    EntryStays(vectors, batch, text, w, size, i, |batch|, Entry(text(batch[i]), w.reply(c).value[k]));
  }

  class Pipeline {
    const text: Text
    const provider: bool
    const batchSize: nat
    var events: map<Id, Event>
    var flagged: set<Id>
    var vectors: map<Id, Entry>
    /** Every text ever sent with the embedding that came back for it. */
    ghost var answers: set<(Blob, Blob)>

    ghost predicate Valid()
    {
      0 < batchSize
    }

    /**
     A flag never runs ahead of the vector it stands for, every vector is what the provider returned for
     its text, and every stored event has the text its id stands for.
     */
    ghost predicate InStep(name: Id -> Blob)
      reads this
    {
      Sound(events, flagged, vectors, text) && Earned(vectors, answers) && StoredNamed(events, text, name)
    }

    constructor (text: Text, provider: bool, batchSize: nat)
      ensures Valid() && events == map[] && flagged == {} && vectors == map[] && answers == {}
      ensures this.text == text && this.provider == provider && this.batchSize == if batchSize == 0 then 64 else batchSize
    {
      this.text, this.provider, this.batchSize := text, provider, if batchSize == 0 then 64 else batchSize;
      events, flagged, vectors, answers := map[], {}, map[], {};
    }

    /** One chunk: pair its events with the embeddings that came back, as far as both go. */
    method IndexChunk(batch: seq<Event>, start: nat, end: nat, embeddings: seq<Blob>, w: World, done: seq<Id>, ghost vectors0: map<Id, Entry>)
      returns (succeeded: seq<Id>)
      requires 0 < batchSize && start <= end <= |batch| && end <= start + batchSize && start % batchSize == 0
      requires w.reply(start / batchSize) == Some(embeddings)
      requires vectors == VectorsAfter(vectors0, batch, text, w, batchSize, start) && done == SucceededAfter(batch, w, batchSize, start)
      modifies this`vectors
      ensures vectors == VectorsAfter(vectors0, batch, text, w, batchSize, end) && succeeded == SucceededAfter(batch, w, batchSize, end)
    {
      succeeded := done;
      var pairs := if |embeddings| < end - start then |embeddings| else end - start;
      for k := 0 to pairs
        invariant vectors == VectorsAfter(vectors0, batch, text, w, batchSize, start + k)
        invariant succeeded == SucceededAfter(batch, w, batchSize, start + k)
      {
        InChunk(start, k, batchSize);
        var e := batch[start + k];
        var entry := Entry(text(e), embeddings[k]);
        if w.upsert(start + k).Applied() {
          vectors := vectors[e.id := entry];
        }
        if w.upsert(start + k).Done? {
          succeeded := succeeded + [e.id];
        }
      }
      forall i | start + pairs <= i < end
        ensures EmbeddingOf(w, batchSize, i).None?
      {
        InChunk(start, i - start, batchSize);
      }
      SkipRest(vectors0, batch, text, w, batchSize, start + pairs, end);
    }

    /** The loop over the chunks: ask for embeddings, index what comes back. */
    method EmbedChunks(batch: seq<Event>, w: World) returns (succeeded: seq<Id>, asked: seq<seq<Blob>>)
      requires Valid()
      modifies this`vectors
      ensures vectors == VectorsAfter(old(vectors), batch, text, w, batchSize, |batch|)
      ensures succeeded == SucceededAfter(batch, w, batchSize, |batch|)
      ensures Concat(asked) == Texts(batch, text) && Chunked(asked, batchSize)
      ensures Covered(asked, Texts(batch, text), batchSize, |batch|)
    {
      asked, succeeded := [], [];
      var start := 0;
      while start < |batch|
        invariant start <= |batch| && (start < |batch| ==> start % batchSize == 0)
        invariant vectors == VectorsAfter(old(vectors), batch, text, w, batchSize, start)
        invariant succeeded == SucceededAfter(batch, w, batchSize, start)
        invariant Concat(asked) == Texts(batch, text)[..start] && Chunked(asked, batchSize)
        invariant start < |batch| ==> Full(asked, batchSize) && |asked| == start / batchSize
        invariant Covered(asked, Texts(batch, text), batchSize, start)
        decreases |batch| - start
      {
        var end := if start + batchSize < |batch| then start + batchSize else |batch|;
        AskedGrows(asked, Texts(batch, text), start, end, batchSize);
        CoverGrows(asked, Texts(batch, text), batchSize, start, end);
        asked := asked + [Texts(batch, text)[start..end]];
        var reply := w.reply(start / batchSize);
        if reply.Some? {
          succeeded := IndexChunk(batch, start, end, reply.value, w, succeeded, old(vectors));
        } else {
          SkipChunk(old(vectors), batch, text, w, batchSize, start, end);
        }
        NextStart(start, batchSize);
        start := end;
      }
      assert Texts(batch, text)[..|batch|] == Texts(batch, text);
    }

    /**
     Embed a batch chunk by chunk and flag what landed. `asked` are the texts sent to the provider.
     Each event is sent once, in order, in chunks of `batchSize` and a shorter last one.
     */
    method EmbedAndIndex(batch: seq<Event>, w: World) returns (count: nat, asked: seq<seq<Blob>>)
      requires Valid()
      modifies this`vectors, this`flagged, this`answers
      ensures !provider ==> count == 0 && asked == [] && vectors == old(vectors) && flagged == old(flagged)
      ensures answers == old(answers) + Pairs(asked, w)
      ensures old(Earned(vectors, answers)) ==> Earned(vectors, answers)
      ensures provider ==> vectors == VectorsAfter(old(vectors), batch, text, w, batchSize, |batch|)
      ensures provider ==> count == |SucceededAfter(batch, w, batchSize, |batch|)|
      ensures provider ==> flagged == old(flagged) + Marked(events, batch, w, batchSize)
      ensures provider ==> Concat(asked) == Texts(batch, text) && Chunked(asked, batchSize)
    {
      if !provider {
        return 0, [];
      }
      var succeeded;
      succeeded, asked := EmbedChunks(batch, w);
      if Earned(old(vectors), answers) {
        EarnedAfter(old(vectors), answers, batch, text, w, batchSize, |batch|, asked);
      }
      answers := answers + Pairs(asked, w);
      count := |succeeded|;
      if succeeded != [] && w.mark.Applied() {
        flagged := flagged + set id | id in succeeded && id in events;
      }
    }

    /** Append, then embed as far as it goes; only the append can fail the call. */
    method Ingest(batch: seq<Event>, stored: bool, w: World, ghost name: Id -> Blob) returns (ok: bool)
      requires Valid()
      modifies this
      ensures ok == (batch == [] || (stored && Append(old(events), batch).Some?))
      ensures events == if ok then Append(old(events), batch).value else old(events)
      ensures old(InStep(name)) && Named(batch, text, name) ==> InStep(name)
      ensures old(flagged) <= flagged
    {
      ok := IngestEpisodicOnly(batch, stored);
      ghost var before := flagged;
      if ok && batch != [] {
        ghost var vectors0 := vectors;
        var count, asked := EmbedAndIndex(batch, w);
        if provider && old(InStep(name)) && Named(batch, text, name) {
          AppendGrows(old(events), batch);
          NamedGrows(old(events), events, batch, text, name);
          NamedOwnTexts(events, batch, text, name);
          MarkingStaysSound(events, before, vectors0, batch, text, w, batchSize);
        }
      }
      if old(InStep(name)) && Named(batch, text, name) && ok {
        AppendGrows(old(events), batch);
        NamedGrows(old(events), events, batch, text, name);
      }
    }

    /** The deterministic half: append without embedding. */
    method IngestEpisodicOnly(batch: seq<Event>, stored: bool) returns (ok: bool)
      modifies this`events
      ensures ok == (batch == [] || (stored && Append(old(events), batch).Some?))
      ensures events == if ok then Append(old(events), batch).value else old(events)
    {
      if batch == [] {
        return true;
      }
      var after := Append(events, batch);
      ok := stored && after.Some?;
      if ok {
        events := after.value;
      }
    }

    /** Embed again events found unflagged. If they are all of them and nothing fails, every event is flagged. */
    method Reindex(found: seq<Event>, w: World, ghost name: Id -> Blob) returns (count: nat)
      requires Valid() && forall i :: 0 <= i < |found| ==> found[i].id in events && events[found[i].id] == found[i] && found[i].id !in flagged
      modifies this`vectors, this`flagged, this`answers
      ensures old(InStep(name)) ==> InStep(name)
      ensures old(flagged) <= flagged
      ensures provider && Unfailing(w, batchSize, |found|) ==>
                count == |found| && flagged == old(flagged) + set i | 0 <= i < |found| :: found[i].id
      ensures provider && Unfailing(w, batchSize, |found|) && (forall id :: id in events ==> id in old(flagged) || Finds(found, id)) ==>
                events.Keys <= flagged
    {
      var asked;
      count, asked := EmbedAndIndex(found, w);
      if provider {
        if Sound(events, old(flagged), old(vectors), text) {
          MarkingStaysSound(events, old(flagged), old(vectors), found, text, w, batchSize);
        }
        if Unfailing(w, batchSize, |found|) {
          AllSucceed(found, w, batchSize, |found|);
        }
      }
    }
  }

  /** The ids whose flag one call sets. */
  function Marked(events: map<Id, Event>, batch: seq<Event>, w: World, size: nat): set<Id>
    requires 0 < size
  {
    if w.mark.Applied() then set id | id in SucceededAfter(batch, w, size, |batch|) && id in events else {}
  }

  predicate Full(chunks: seq<seq<Blob>>, size: nat) {
    forall c :: 0 <= c < |chunks| ==> |chunks[c]| == size
  }

  /** Every chunk but the last is full, and none is empty. */
  predicate Chunked(chunks: seq<seq<Blob>>, size: nat) {
    forall c :: 0 <= c < |chunks| ==> 0 < |chunks[c]| <= size && (c < |chunks| - 1 ==> |chunks[c]| == size)
  }

  lemma AskedGrows(asked: seq<seq<Blob>>, texts: seq<Blob>, start: nat, end: nat, size: nat)
    requires start < end <= |texts| && end <= start + size && Full(asked, size) && Concat(asked) == texts[..start]
    ensures Concat(asked + [texts[start..end]]) == texts[..end] && Chunked(asked + [texts[start..end]], size)
    ensures end == start + size ==> Full(asked + [texts[start..end]], size)
  {
    var more := asked + [texts[start..end]];
    assert more[..|asked|] == asked;
    assert texts[..end] == texts[..start] + texts[start..end];
  }

  lemma {:induction false} Multiple(j: nat, k: nat, size: nat)
    requires j < k
    ensures j * size + size <= k * size
  {
    assert k * size == j * size + (k - j) * size;
    AtLeast(k - j, size);
  }

  lemma AtLeast(j: nat, size: nat)
    requires 0 < j
    ensures size <= j * size
  {
  }

  lemma {:induction false} DivUnique(x: nat, q: nat, r: nat, size: nat)
    requires 0 < size && x == q * size + r && r < size
    ensures x / size == q && x % size == r
  {
    var q' := x / size;
    assert x == q' * size + x % size;
    if q' < q {
      Multiple(q', q, size);
    } else if q < q' {
      Multiple(q, q', size);
    }
  }

  lemma {:induction false} InChunk(start: nat, k: nat, size: nat)
    requires 0 < size && start % size == 0 && k < size
    ensures (start + k) / size == start / size && (start + k) % size == k
  {
    assert start == start / size * size;
    DivUnique(start + k, start / size, k, size);
  }

  lemma {:induction false} NextStart(start: nat, size: nat)
    requires 0 < size && start % size == 0
    ensures (start + size) % size == 0 && (start + size) / size == start / size + 1
  {
    assert start + size == (start / size + 1) * size + 0;
    DivUnique(start + size, start / size + 1, 0, size);
  }

  lemma {:induction false} SkipRest(vectors: map<Id, Entry>, batch: seq<Event>, text: Text, w: World, size: nat, a: nat, b: nat)
    requires 0 < size && a <= b <= |batch| && forall i :: a <= i < b ==> EmbeddingOf(w, size, i).None?
    ensures VectorsAfter(vectors, batch, text, w, size, b) == VectorsAfter(vectors, batch, text, w, size, a)
    ensures SucceededAfter(batch, w, size, b) == SucceededAfter(batch, w, size, a)
    decreases b
  {
    if a < b {
      SkipRest(vectors, batch, text, w, size, a, b - 1);
    }
  }

  lemma {:induction false} SkipChunk(vectors: map<Id, Entry>, batch: seq<Event>, text: Text, w: World, size: nat, start: nat, end: nat)
    requires 0 < size && start <= end <= |batch| && end <= start + size && start % size == 0 && w.reply(start / size).None?
    ensures VectorsAfter(vectors, batch, text, w, size, end) == VectorsAfter(vectors, batch, text, w, size, start)
    ensures SucceededAfter(batch, w, size, end) == SucceededAfter(batch, w, size, start)
  {
    forall i | start <= i < end
      ensures EmbeddingOf(w, size, i).None?
    {
      InChunk(start, i - start, size);
    }
    SkipRest(vectors, batch, text, w, size, start, end);
  }
}
