/**
 Replaying a committed log over an engine that may already hold part of it.

 `At(log, i)` is the engine after straight replay of the first `i` entries.  After a crash between an
 engine write and the `last_applied` write, or after installing a snapshot whose stores were dumped
 while entries were still being applied, a node resumes at a position its stores have already passed.
 The lemmas here say which stores come out right, and exactly when one does not.
 */
module Replay {
  import opened Options
  import opened ReplicatedEngine
  import opened RunLedger

  // Straight replay, one store at a time; only the episodic append can refuse an entry.

  function EventsAt(log: seq<Payload>, i: nat): map<Id, Event>
    requires i <= |log|
  {
    if i == 0 then map[]
    else
      var prev := EventsAt(log, i - 1);
      var next := EventsAfter(prev, log[i - 1]);
      if next.Some? then next.value else prev
  }

  function RowsAt(log: seq<Payload>, i: nat): map<RowKey, Blob>
    requires i <= |log|
  {
    if i == 0 then map[] else RowsAfter(RowsAt(log, i - 1), log[i - 1])
  }

  function VersionsAt(log: seq<Payload>, i: nat): map<RowKey, nat>
    requires i <= |log|
  {
    if i == 0 then map[] else VersionsAfter(VersionsAt(log, i - 1), log[i - 1])
  }

  function EdgesAt(log: seq<Payload>, i: nat): map<Id, Edge>
    requires i <= |log|
  {
    if i == 0 then map[] else EdgesAfter(EdgesAt(log, i - 1), log[i - 1])
  }

  function At(log: seq<Payload>, i: nat): Engine
    requires i <= |log|
  {
    Engine(EventsAt(log, i), RowsAt(log, i), VersionsAt(log, i), EdgesAt(log, i), RunsAt(log, i))
  }

  /** Straight replay never rejects an entry: some node applied the whole log once. */
  ghost predicate Applicable(log: seq<Payload>) {
    forall i {:trigger EventsAt(log, i)} :: 0 <= i < |log| ==> EventsAfter(EventsAt(log, i), log[i]).Some?
  }

  function ReplayFrom(e: Engine, log: seq<Payload>, i: nat, j: nat): Option<Engine>
    requires i <= j <= |log|
    decreases j - i
  {
    if i == j then Some(e)
    else
      var next := ApplyPayload(e, log[i]);
      if next.None? then None else ReplayFrom(next.value, log, i + 1, j)
  }

  lemma {:induction false} ReplaySnoc(e: Engine, log: seq<Payload>, i: nat, j: nat)
    requires i < j <= |log|
    ensures var init := ReplayFrom(e, log, i, j - 1);
            ReplayFrom(e, log, i, j) == if init.None? then None else ApplyPayload(init.value, log[j - 1])
    decreases j - i
  {
    if i + 1 < j {
      var next := ApplyPayload(e, log[i]);
      if next.Some? {
        ReplaySnoc(next.value, log, i + 1, j);
      }
    }
  }

  /** `At` is the plain fold of the log over empty stores. */
  lemma {:induction false} AtIsReplay(log: seq<Payload>, i: nat)
    requires i <= |log| && Applicable(log)
    ensures ReplayFrom(EMPTY, log, 0, i) == Some(At(log, i))
  {
    if 0 < i {
      AtIsReplay(log, i - 1);
      ReplaySnoc(EMPTY, log, 0, i);
      assert EventsAfter(EventsAt(log, i - 1), log[i - 1]).Some?;
    }
  }

  // ---------- last-writer-wins rows ----------

  ghost predicate Touched(log: seq<Payload>, i: nat, m: nat, k: RowKey)
    requires i <= m <= |log|
  {
    exists j :: i <= j < m && k in RowsTouched(log[j])
  }

  /** Every row that entries `i..m` leave alone already has its value after entry `i`. */
  ghost predicate RowsAgree(rows: map<RowKey, Blob>, log: seq<Payload>, i: nat, m: nat)
    requires i <= m <= |log|
  {
    forall k :: !Touched(log, i, m, k) ==> Lookup(rows, k) == Lookup(RowsAt(log, i), k)
  }

  lemma {:induction false} RowFrame(log: seq<Payload>, i: nat, j: nat, k: RowKey)
    requires i <= j <= |log|
    requires !Touched(log, i, j, k)
    ensures Lookup(RowsAt(log, i), k) == Lookup(RowsAt(log, j), k)
    decreases j - i
  {
    if i < j {
      assert k !in RowsTouched(log[j - 1]);
      RowFrame(log, i, j - 1, k);
      RowEffect(RowsAt(log, j - 1), log[j - 1], k);
    }
  }

  lemma RowsStep(rows: map<RowKey, Blob>, log: seq<Payload>, i: nat, m: nat)
    requires i <= m <= |log| && i < |log| && RowsAgree(rows, log, i, m)
    ensures RowsAgree(RowsAfter(rows, log[i]), log, i + 1, Max(m, i + 1))
  {
    forall k | !Touched(log, i + 1, Max(m, i + 1), k)
      ensures Lookup(RowsAfter(rows, log[i]), k) == Lookup(RowsAt(log, i + 1), k)
    {
      RowEffect(rows, log[i], k);
      RowEffect(RowsAt(log, i), log[i], k);
      if k !in RowsTouched(log[i]) {
        assert !Touched(log, i, m, k);
      }
    }
  }

  lemma RowsBack(rows: map<RowKey, Blob>, log: seq<Payload>, i: nat, j: nat, m: nat, m': nat)
    requires i <= j <= m <= m' <= |log|
    requires RowsAgree(rows, log, j, m)
    ensures RowsAgree(rows, log, i, m')
  {
    forall k | !Touched(log, i, m', k)
      ensures Lookup(rows, k) == Lookup(RowsAt(log, i), k)
    {
      assert !Touched(log, j, m, k) && !Touched(log, i, j, k);
      RowFrame(log, i, j, k);
    }
  }

  lemma RowsDone(rows: map<RowKey, Blob>, log: seq<Payload>, i: nat)
    requires i <= |log| && RowsAgree(rows, log, i, i)
    ensures rows == RowsAt(log, i)
  {
    forall k
      ensures Lookup(rows, k) == Lookup(RowsAt(log, i), k)
    {
      assert !Touched(log, i, i, k);
    }
    LookupsEqual(rows, RowsAt(log, i));
  }

  // ---------- episodic events ----------

  /** `KeyTaken` and `Ignored` only ever become true as the table grows. */
  ghost predicate Extends(a: map<Id, Event>, b: map<Id, Event>) {
    forall id :: id in a ==> id in b && b[id] == a[id]
  }

  lemma IgnoredMonotone(a: map<Id, Event>, b: map<Id, Event>, e: Event)
    requires Extends(a, b) && Ignored(a, e)
    ensures Ignored(b, e)
  {
  }

  lemma {:induction false} InsertSettles(events: map<Id, Event>, batch: seq<Event>)
    ensures var after := InsertOrIgnore(events, batch);
            Extends(events, after) && forall e :: e in batch ==> Ignored(after, e)
    decreases |batch|
  {
    if batch != [] {
      var e := batch[0];
      var mid := if Ignored(events, e) then events else events[e.id := e];
      InsertSettles(mid, batch[1..]);
      var after := InsertOrIgnore(mid, batch[1..]);
      assert Ignored(mid, e);
      IgnoredMonotone(mid, after, e);
      forall x | x in batch
        ensures Ignored(after, x)
      {
        assert x == e || x in batch[1..];
      }
    }
  }

  lemma {:induction false} InsertIgnored(events: map<Id, Event>, batch: seq<Event>)
    requires forall e :: e in batch ==> Ignored(events, e)
    ensures InsertOrIgnore(events, batch) == events
    decreases |batch|
  {
    if batch != [] {
      assert batch[0] in batch;
      InsertIgnored(events, batch[1..]);
    }
  }

  lemma {:induction false} BulkLoadSettles(events: map<Id, Event>, batch: seq<Event>)
    requires BulkLoad(events, batch).Some?
    ensures var after := BulkLoad(events, batch).value;
            Extends(events, after) && forall e :: e in batch ==> e.id in after
    decreases |batch|
  {
    if batch != [] {
      var e := batch[0];
      BulkLoadSettles(events[e.id := e], batch[1..]);
      var after := BulkLoad(events, batch).value;
      forall x | x in batch
        ensures x.id in after
      {
        assert x == e || x in batch[1..];
      }
    }
  }

  ghost predicate BulkIngest(p: Payload) {
    p.Normal? && p.request.Ingest? && p.request.events != [] && Keyless(p.request.events)
  }

  lemma {:induction false} EventsGrow(log: seq<Payload>, i: nat, j: nat)
    requires i <= j <= |log| && Applicable(log)
    ensures Extends(EventsAt(log, i), EventsAt(log, j))
    decreases j - i
  {
    if i < j {
      EventsGrow(log, i, j - 1);
      AppendSettles(EventsAt(log, j - 1), log[j - 1]);
    }
  }

  /** After any history, accepted or rejected ingests alike, no idempotency key is stored twice. */
  lemma {:induction false} KeysUniqueAlways(log: seq<Payload>, n: nat)
    requires n <= |log|
    ensures KeysUnique(EventsAt(log, n))
  {
    if 0 < n {
      KeysUniqueAlways(log, n - 1);
      if EventsAfter(EventsAt(log, n - 1), log[n - 1]).Some? {
        AppendKeepsUnique(EventsAt(log, n - 1), log[n - 1]);
      }
    }
  }

  /** After an ingest its whole batch is in the table, or shut out by a row that is. */
  lemma AppendSettles(events: map<Id, Event>, p: Payload)
    requires EventsAfter(events, p).Some?
    ensures var after := EventsAfter(events, p).value;
            && Extends(events, after)
            && (p.Normal? && p.request.Ingest? ==> forall x :: x in p.request.events ==> Ignored(after, x))
            && (BulkIngest(p) ==> p.request.events[0].id in after)
  {
    if p.Normal? && p.request.Ingest? {
      var batch := p.request.events;
      if batch != [] && Keyless(batch) {
        BulkLoadSettles(events, batch);
      } else {
        InsertSettles(events, batch);
      }
    }
  }

  /**
   Re-applying entry `i` to an episodic table that already holds entries `0..h`, `i < h`: an ingest
   with idempotency keys changes nothing, a bulk one is rejected, and nothing else is.
   */
  lemma EventsReplay(log: seq<Payload>, i: nat, h: nat)
    requires i < h <= |log| && Applicable(log)
    ensures var again := EventsAfter(EventsAt(log, h), log[i]);
            && (again.None? <==> BulkIngest(log[i]))
            && (again.Some? ==> again.value == EventsAt(log, h))
  {
    var p, events := log[i], EventsAt(log, h);
    AppendSettles(EventsAt(log, i), p);
    EventsGrow(log, i + 1, h);
    if p.Normal? && p.request.Ingest? && !BulkIngest(p) {
      var batch := p.request.events;
      forall x | x in batch
        ensures Ignored(events, x)
      {
        IgnoredMonotone(EventsAt(log, i + 1), events, x);
      }
      InsertIgnored(events, batch);
    }
  }

  // ---------- graph edges ----------

  function ReplayEdges(edges: map<Id, Edge>, log: seq<Payload>, i: nat, j: nat): map<Id, Edge>
    requires i <= j <= |log|
    decreases j - i
  {
    if i == j then edges else ReplayEdges(EdgesAfter(edges, log[i]), log, i + 1, j)
  }

  lemma {:induction false} EdgesStay(log: seq<Payload>, i: nat, j: nat, id: Id)
    requires i <= j <= |log|
    requires id in EdgesAt(log, i)
    ensures id in EdgesAt(log, j)
    decreases j - i
  {
    if i < j {
      EdgesStay(log, i, j - 1, id);
    }
  }

  /** Some supersede among entries `i..h` matches an edge that is still active after entry `h`. */
  ghost predicate SupersedeHitsActive(log: seq<Payload>, i: nat, h: nat)
    requires i <= h <= |log|
  {
    exists j, id ::
      i <= j < h && id in EdgesAt(log, h)
      && log[j].Normal? && log[j].request.GraphSupersede?
      && ActiveIn(EdgesAt(log, h)[id], log[j].request.scope)
  }

  lemma {:induction false} ClosedStays(edges: map<Id, Edge>, log: seq<Payload>, i: nat, j: nat, id: Id)
    requires i <= j <= |log|
    requires id in edges && edges[id].closed.Some?
    ensures var after := ReplayEdges(edges, log, i, j);
            id in after && after[id].closed.Some?
    decreases j - i
  {
    if i < j {
      ClosedStays(EdgesAfter(edges, log[i]), log, i + 1, j, id);
    }
  }

  /** Whatever the start, an active edge is closed once a matching supersede has been replayed. */
  lemma {:induction false} SupersedeCloses(edges: map<Id, Edge>, log: seq<Payload>, i: nat, j: nat, h: nat, id: Id)
    requires i <= j < h <= |log|
    requires id in edges
    requires log[j].Normal? && log[j].request.GraphSupersede? && edges[id].scope == log[j].request.scope
    ensures var after := ReplayEdges(edges, log, i, h);
            id in after && after[id].closed.Some?
    decreases j - i
  {
    if edges[id].closed.Some? {
      ClosedStays(edges, log, i, h, id);
    } else if i == j {
      ClosedStays(EdgesAfter(edges, log[i]), log, i + 1, h, id);
    } else {
      SupersedeCloses(EdgesAfter(edges, log[i]), log, i + 1, j, h, id);
    }
  }

  lemma {:induction false} EdgesUnchanged(log: seq<Payload>, i: nat, j: nat, h: nat)
    requires i <= j <= h <= |log|
    requires !SupersedeHitsActive(log, i, h)
    ensures ReplayEdges(EdgesAt(log, h), log, j, h) == EdgesAt(log, h)
    decreases h - j
  {
    if j < h {
      var edges, p := EdgesAt(log, h), log[j];
      if p.Normal? && p.request.GraphAddEdge? {
        EdgesStay(log, j + 1, h, p.request.id);
      }
      assert EdgesAfter(edges, p) == edges;
      EdgesUnchanged(log, i, j + 1, h);
    }
  }

  /**
   A graph dumped after `h` entries and replayed from entry `i` survives unchanged exactly when no
   supersede in the overlap matches an edge that is active in the dump.
   */
  lemma GraphReplayIff(log: seq<Payload>, i: nat, h: nat)
    requires i <= h <= |log|
    ensures ReplayEdges(EdgesAt(log, h), log, i, h) == EdgesAt(log, h) <==> !SupersedeHitsActive(log, i, h)
  {
    if SupersedeHitsActive(log, i, h) {
      var j, id :| i <= j < h && id in EdgesAt(log, h)
                   && log[j].Normal? && log[j].request.GraphSupersede?
                   && ActiveIn(EdgesAt(log, h)[id], log[j].request.scope);
      SupersedeCloses(EdgesAt(log, h), log, i, j, h, id);
    } else {
      EdgesUnchanged(log, i, i, h);
    }
  }

  predicate Adds(p: Payload, id: Id) {
    p.Normal? && p.request.GraphAddEdge? && p.request.id == id
  }

  predicate Closes(p: Payload, scope: Scope) {
    p.Normal? && p.request.GraphSupersede? && p.request.scope == scope
  }

  /** Entry `j` is the first one after `i` that supersedes the scope. */
  ghost predicate ClosedFirstBy(log: seq<Payload>, i: nat, j: nat, scope: Scope) {
    i < j < |log| && Closes(log[j], scope) && forall m :: i < m < j ==> !Closes(log[m], scope)
  }

  lemma {:induction false} NeverAdded(log: seq<Payload>, n: nat, id: Id)
    requires n <= |log| && forall m :: 0 <= m < n ==> !Adds(log[m], id)
    ensures id !in EdgesAt(log, n)
  {
    if 0 < n {
      NeverAdded(log, n - 1, id);
      EdgeEffect(EdgesAt(log, n - 1), log[n - 1], id);
    }
  }

  /**
   The graph after any history: an edge is what the first entry adding its id carried, closed by the first
   later supersede of its scope if it was added open, and by nothing else.
   */
  lemma {:induction false} EdgeHistory(log: seq<Payload>, i: nat, n: nat, id: Id)
    requires i < n <= |log| && Adds(log[i], id) && forall m :: 0 <= m < i ==> !Adds(log[m], id)
    ensures id in EdgesAt(log, n)
    ensures var added, now := log[i].request.edge, EdgesAt(log, n)[id];
            && now.scope == added.scope && now.dst == added.dst
            && (added.closed.Some? ==> now.closed == added.closed)
            && ((forall m :: i < m < n ==> !Closes(log[m], added.scope)) ==> now.closed == added.closed)
            && (added.closed.None? ==> forall j: nat :: j < n && ClosedFirstBy(log, i, j, added.scope) ==>
                  now.closed == Some((log[j].request.at, log[j].request.closer)))
  {
    EdgeEffect(EdgesAt(log, n - 1), log[n - 1], id);
    if i + 1 == n {
      NeverAdded(log, i, id);
    } else {
      EdgeHistory(log, i, n - 1, id);
    }
  }

  // ---------- state versions ----------

  predicate Sets(p: Payload, k: RowKey) {
    p.Normal? && p.request.StateSet? && k == StateKey(p.request.agent, p.request.key)
  }

  predicate Deletes(p: Payload, k: RowKey) {
    p.Normal? && p.request.StateDelete? && k == StateKey(p.request.agent, p.request.key)
  }

  ghost predicate DeletedIn(log: seq<Payload>, i: nat, j: nat, k: RowKey)
    requires i <= j <= |log|
  {
    exists n :: i <= n < j && Deletes(log[n], k)
  }

  function SetCount(log: seq<Payload>, i: nat, j: nat, k: RowKey): nat
    requires i <= j <= |log|
    decreases j - i
  {
    if i == j then 0 else SetCount(log, i, j - 1, k) + (if Sets(log[j - 1], k) then 1 else 0)
  }

  function Version(versions: map<RowKey, nat>, k: RowKey): nat {
    if k in versions then versions[k] else 0
  }

  lemma VersionAfter(versions: map<RowKey, nat>, p: Payload, k: RowKey)
    ensures var v := Version(versions, k);
            Version(VersionsAfter(versions, p), k) == if Deletes(p, k) then 0 else if Sets(p, k) then v + 1 else v
  {
  }

  /** Replaying entries `i..j` over any engine: a delete resets the version, each later set adds one. */
  lemma {:induction false} VersionReplay(e: Engine, log: seq<Payload>, i: nat, j: nat, k: RowKey)
    requires i <= j <= |log|
    requires ReplayFrom(e, log, i, j).Some?
    ensures var v := Version(ReplayFrom(e, log, i, j).value.versions, k);
            v == if DeletedIn(log, i, j, k) then Version(VersionsAt(log, j), k)
                 else Version(e.versions, k) + SetCount(log, i, j, k)
    decreases j - i
  {
    if i < j {
      ReplaySnoc(e, log, i, j);
      VersionReplay(e, log, i, j - 1, k);
      VersionAfter(ReplayFrom(e, log, i, j - 1).value.versions, log[j - 1], k);
      VersionAfter(VersionsAt(log, j - 1), log[j - 1], k);
      assert DeletedIn(log, i, j, k) <==> DeletedIn(log, i, j - 1, k) || Deletes(log[j - 1], k);
    }
  }

  /**
   The version a replayed overlap leaves behind is the straight one exactly for keys the overlap
   deletes or never sets; otherwise it is too high by the number of sets.
   */
  lemma VersionDrift(log: seq<Payload>, i: nat, h: nat, k: RowKey)
    requires i <= h <= |log|
    requires ReplayFrom(At(log, h), log, i, h).Some?
    ensures var replayed, straight := Version(ReplayFrom(At(log, h), log, i, h).value.versions, k), Version(VersionsAt(log, h), k);
            && replayed == straight + (if DeletedIn(log, i, h, k) then 0 else SetCount(log, i, h, k))
            && (replayed == straight <==> DeletedIn(log, i, h, k) || SetCount(log, i, h, k) == 0)
  {
    VersionReplay(At(log, h), log, i, h, k);
  }

  // ---------- all stores together ----------

  /** How many log entries each group of stores already holds. */
  datatype Marks = Marks(events: nat, rows: nat, edges: nat)

  function Advance(m: Marks, pos: nat): Marks {
    Marks(Max(m.events, pos), Max(m.rows, pos), Max(m.edges, pos))
  }

  ghost predicate NoSupersede(log: seq<Payload>) {
    forall j {:trigger log[j]} :: 0 <= j < |log| && log[j].Normal? ==> !log[j].request.GraphSupersede?
  }

  /** The engine of a node whose next entry is `pos` and whose stores have reached `m`. */
  ghost predicate Reflects(e: Engine, log: seq<Payload>, pos: nat, m: Marks) {
    && pos <= m.events <= |log| && pos <= m.rows <= |log| && pos <= m.edges <= |log|
    && e.events == EventsAt(log, m.events)
    && RowsAgree(e.rows, log, pos, m.rows)
    && (NoSupersede(log) ==> e.edges == EdgesAt(log, m.edges))
  }

  lemma EventsStep(log: seq<Payload>, i: nat, h: nat)
    requires i <= h <= |log| && i < |log| && Applicable(log)
    ensures var next := EventsAfter(EventsAt(log, h), log[i]);
            && (next.None? <==> i < h && BulkIngest(log[i]))
            && (next.Some? ==> next.value == EventsAt(log, Max(h, i + 1)))
  {
    if i < h {
      EventsReplay(log, i, h);
    } else {
      assert EventsAfter(EventsAt(log, i), log[i]).Some?;
    }
  }

  lemma EdgesStep(log: seq<Payload>, i: nat, h: nat)
    requires i <= h <= |log| && i < |log| && NoSupersede(log)
    ensures EdgesAfter(EdgesAt(log, h), log[i]) == EdgesAt(log, Max(h, i + 1))
  {
    if i < h && log[i].Normal? && log[i].request.GraphAddEdge? {
      EdgesStay(log, i + 1, h, log[i].request.id);
    }
  }

  /** The next entry is rejected exactly when it is a bulk ingest the event table already holds. */
  lemma RejectedIff(e: Engine, log: seq<Payload>, pos: nat, m: Marks)
    requires pos < |log| && Applicable(log) && Reflects(e, log, pos, m)
    ensures ApplyPayload(e, log[pos]).None? <==> pos < m.events && BulkIngest(log[pos])
  {
    EventsStep(log, pos, m.events);
  }

  lemma ReflectsStep(e: Engine, log: seq<Payload>, pos: nat, m: Marks)
    requires pos < |log| && Applicable(log) && Reflects(e, log, pos, m)
    requires ApplyPayload(e, log[pos]).Some?
    ensures Reflects(ApplyPayload(e, log[pos]).value, log, pos + 1, Advance(m, pos + 1))
  {
    EventsStep(log, pos, m.events);
    RowsStep(e.rows, log, pos, m.rows);
    if NoSupersede(log) {
      EdgesStep(log, pos, m.edges);
    }
  }

  /** A durable position that lags behind the stores is still one the log can be replayed from. */
  lemma ReflectsBack(e: Engine, log: seq<Payload>, pos: nat, later: nat, m: Marks)
    requires pos <= later && Reflects(e, log, later, m)
    ensures Reflects(e, log, pos, m)
  {
    RowsBack(e.rows, log, pos, later, m.rows, m.rows);
  }

  /** Once the position has passed every mark the stores are exactly those of straight replay. */
  lemma ReflectsDone(e: Engine, log: seq<Payload>, pos: nat, m: Marks)
    requires Reflects(e, log, pos, m) && m.events <= pos && m.rows <= pos && m.edges <= pos
    ensures e.events == EventsAt(log, pos) && e.rows == RowsAt(log, pos)
    ensures NoSupersede(log) ==> e.edges == EdgesAt(log, pos)
  {
    RowsDone(e.rows, log, pos);
  }

  ghost predicate BulkIngestIn(log: seq<Payload>, i: nat, j: nat)
    requires j <= |log|
  {
    exists n :: i <= n < j && BulkIngest(log[n])
  }

  function Min(a: nat, b: nat): nat {
    if a < b then a else b
  }

  lemma {:induction false} ReplayReflects(e: Engine, log: seq<Payload>, i: nat, j: nat, m: Marks)
    requires i <= j <= |log| && Applicable(log) && Reflects(e, log, i, m)
    ensures ReplayFrom(e, log, i, j).None? <==> BulkIngestIn(log, i, Min(j, m.events))
    ensures ReplayFrom(e, log, i, j).Some? ==> Reflects(ReplayFrom(e, log, i, j).value, log, j, Advance(m, j))
    decreases j - i
  {
    if i < j {
      RejectedIff(e, log, i, m);
      var next := ApplyPayload(e, log[i]);
      if next.None? {
        assert BulkIngest(log[i]);
      } else {
        ReflectsStep(e, log, i, m);
        ReplayReflects(next.value, log, i + 1, j, Advance(m, i + 1));
        assert BulkIngestIn(log, i, Min(j, m.events)) <==> BulkIngestIn(log, i + 1, Min(j, m.events));
      }
    }
  }

  // ---------- fuzzy snapshots ----------

  function RowsOfKind(log: seq<Payload>, vectors: nat, memories: nat, state: nat): map<RowKey, Blob>
    requires vectors <= |log| && memories <= |log| && state <= |log|
  {
    var v, m, s := RowsAt(log, vectors), RowsAt(log, memories), RowsAt(log, state);
    (map k | k in v && k.VectorKey? :: v[k])
    + (map k | k in m && k.MemoryKey? :: m[k])
    + (map k | k in s && k.StateKey? :: s[k])
  }

  /**
   A snapshot: each store is exported at its own moment, so each may hold a different number of
   entries.  The run ledger is not exported; `runs` is whatever the installing node had.
   */
  function Dump(log: seq<Payload>, events: nat, vectors: nat, memories: nat, state: nat, runs: map<Id, Run>): Engine
    requires events <= |log| && vectors <= |log| && memories <= |log| && state <= |log|
  {
    Engine(EventsAt(log, events), RowsOfKind(log, vectors, memories, state),
           VersionsAt(log, state), EdgesAt(log, memories), runs)
  }

  lemma DumpReflects(log: seq<Payload>, start: nat, events: nat, vectors: nat, memories: nat, state: nat, runs: map<Id, Run>)
    requires start <= events <= |log| && start <= vectors <= |log|
    requires start <= memories <= |log| && start <= state <= |log|
    ensures Reflects(Dump(log, events, vectors, memories, state, runs), log, start,
                     Marks(events, Max(vectors, Max(memories, state)), memories))
  {
    var rows, top := RowsOfKind(log, vectors, memories, state), Max(vectors, Max(memories, state));
    forall k | !Touched(log, start, top, k)
      ensures Lookup(rows, k) == Lookup(RowsAt(log, start), k)
    {
      var pos := match k case VectorKey(_) => vectors case MemoryKey(_) => memories case StateKey(_, _) => state;
      assert Lookup(rows, k) == Lookup(RowsAt(log, pos), k);
      assert !Touched(log, start, pos, k);
      RowFrame(log, start, pos, k);
    }
  }

  lemma {:induction false} ReplayFromRuns(e: Engine, log: seq<Payload>, i: nat, j: nat)
    requires i <= j <= |log| && ReplayFrom(e, log, i, j).Some?
    ensures ReplayFrom(e, log, i, j).value.runs == ReplayRuns(e.runs, log, i, j)
    decreases j
  {
    if i < j {
      ReplaySnoc(e, log, i, j);
      ReplayFromRuns(e, log, i, j - 1);
    }
  }

  lemma {:induction false} ReplayFromEdges(e: Engine, log: seq<Payload>, i: nat, j: nat)
    requires i <= j <= |log| && ReplayFrom(e, log, i, j).Some?
    ensures ReplayFrom(e, log, i, j).value.edges == ReplayEdges(e.edges, log, i, j)
    decreases j - i
  {
    if i < j {
      ReplayFromEdges(ApplyPayload(e, log[i]).value, log, i + 1, j);
    }
  }

  lemma {:induction false} EdgesAtReplay(log: seq<Payload>, i: nat, j: nat)
    requires i <= j <= |log|
    ensures ReplayEdges(EdgesAt(log, i), log, i, j) == EdgesAt(log, j)
    decreases j - i
  {
    if i < j {
      EdgesAtReplay(log, i + 1, j);
    }
  }

  lemma {:induction false} ReplayEdgesConcat(edges: map<Id, Edge>, log: seq<Payload>, i: nat, m: nat, j: nat)
    requires i <= m <= j <= |log|
    ensures ReplayEdges(edges, log, i, j) == ReplayEdges(ReplayEdges(edges, log, i, m), log, m, j)
    decreases j - i
  {
    if i < m {
      ReplayEdgesConcat(EdgesAfter(edges, log[i]), log, i + 1, m, j);
    }
  }

  /** A graph the overlap leaves alone comes out as in straight replay. */
  lemma GraphCatchesUp(log: seq<Payload>, start: nat, memories: nat, j: nat)
    requires start <= memories <= j <= |log| && !SupersedeHitsActive(log, start, memories)
    ensures ReplayEdges(EdgesAt(log, memories), log, start, j) == EdgesAt(log, j)
  {
    ReplayEdgesConcat(EdgesAt(log, memories), log, start, memories, j);
    GraphReplayIff(log, start, memories);
    EdgesAtReplay(log, memories, j);
  }

  /**
   Installing a snapshot labelled `start` whose stores were exported anywhere up to entry `j`, then
   replaying entries `start..j`: the replay is rejected exactly when a bulk ingest lies between the
   label and the event export, and otherwise it ends in the events and rows of straight replay, in
   its edges if no supersede of the overlap hits one, and in a ledger that replays the node's own.
   */
  lemma FuzzySnapshot(log: seq<Payload>, start: nat, events: nat, vectors: nat, memories: nat, state: nat,
                      runs: map<Id, Run>, j: nat)
    requires start <= events <= j && start <= vectors <= j && start <= memories <= j && start <= state <= j
    requires j <= |log| && Applicable(log)
    ensures var after := ReplayFrom(Dump(log, events, vectors, memories, state, runs), log, start, j);
            && (after.None? <==> BulkIngestIn(log, start, events))
            && (after.Some? ==> after.value.events == EventsAt(log, j) && after.value.rows == RowsAt(log, j))
            && (after.Some? && !SupersedeHitsActive(log, start, memories) ==> after.value.edges == EdgesAt(log, j))
            && (after.Some? ==> after.value.runs == ReplayRuns(runs, log, start, j))
  {
    var dump := Dump(log, events, vectors, memories, state, runs);
    var m := Marks(events, Max(vectors, Max(memories, state)), memories);
    DumpReflects(log, start, events, vectors, memories, state, runs);
    ReplayReflects(dump, log, start, j, m);
    if ReplayFrom(dump, log, start, j).Some? {
      ReflectsDone(ReplayFrom(dump, log, start, j).value, log, j, Advance(m, j));
      ReplayFromEdges(dump, log, start, j);
      ReplayFromRuns(dump, log, start, j);
      if !SupersedeHitsActive(log, start, memories) {
        GraphCatchesUp(log, start, memories, j);
      }
    }
  }

  // ---------- logs on which a second application is visible ----------

  /** A bulk ingest applied and then replayed is rejected. */
  lemma BulkIngestRejectedAgain(id: Id, body: Blob)
    ensures var log := [Normal(Ingest([Event(id, None, body)]))];
            Applicable(log) && ReplayFrom(At(log, 1), log, 0, 1).None?
  {
    var e := Event(id, None, body);
    var log := [Normal(Ingest([e]))];
    assert BulkLoad(map[], [e]) == BulkLoad(map[id := e], [e][1..]) == Some(map[id := e]);
    assert At(log, 0) == EMPTY && EventsAt(log, 1) == map[id := e];
    assert ApplyPayload(At(log, 1), log[0]).None?;
  }

  /** Supersede-then-add, the order a functional link is proposed in: the replay closes the new edge. */
  lemma NewEdgeClosedByReplay(id: Id, scope: Scope, dst: Blob, at: Blob)
    ensures var log := [Normal(GraphSupersede(scope, at, Some(id))), Normal(GraphAddEdge(id, Edge(scope, dst, None)))];
            && Applicable(log)
            && ActiveIn(EdgesAt(log, 2)[id], scope)
            && SupersedeHitsActive(log, 0, 2)
            && ReplayEdges(EdgesAt(log, 2), log, 0, 2) != EdgesAt(log, 2)
  {
    var log := [Normal(GraphSupersede(scope, at, Some(id))), Normal(GraphAddEdge(id, Edge(scope, dst, None)))];
    assert At(log, 0) == EMPTY && EdgesAt(log, 1) == map[];
    assert EdgesAt(log, 2) == map[id := Edge(scope, dst, None)];
    assert log[0].request.GraphSupersede? && id in EdgesAt(log, 2);
    GraphReplayIff(log, 0, 2);
  }

  function Max(a: nat, b: nat): nat {
    if a < b then b else a
  }
}
