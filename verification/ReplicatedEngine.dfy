/**
 The state every replica keeps, and what one committed request does to it.

 Each store is a keyed table.  A request is applied in one atomic step that either succeeds or is
 rejected and leaves every table as it was.
 */
module ReplicatedEngine {
  import opened Options

  type Id = string
  type Blob = string

  /** An episodic event.  `id` is the table's primary key, `key` its UNIQUE idempotency key. */
  datatype Event = Event(id: Id, key: Option<string>, body: Blob)

  /** Rows of the three last-writer-wins tables.  `agent` is the tenant-scoped agent id. */
  datatype RowKey = StateKey(agent: string, key: string) | VectorKey(id: Id) | MemoryKey(id: Id)

  datatype Scope = Scope(tenant: string, src: string, relation: string)

  /** A graph edge; `closed` holds the (valid_to, invalidated_by) pair once it is superseded. */
  datatype Edge = Edge(scope: Scope, dst: Blob, closed: Option<(Blob, Option<Id>)>)

  datatype Field = RunStatus | RunResult | RunError | RunCursor | StartedAt | EndedAt | UpdatedAt
  type Run = map<Field, Blob>

  datatype Request =
    | Ingest(events: seq<Event>)
    | StateSet(agent: string, key: string, value: Blob)
    | StateDelete(agent: string, key: string)
    | SemanticUpsert(id: Id, entry: Blob)
    | SemanticDelete(id: Id)
    | MemoryUpsert(rows: seq<(Id, Blob)>)
    | MemoryDelete(id: Id)
    | GraphAddEdge(id: Id, edge: Edge)
    | GraphSupersede(scope: Scope, at: Blob, closer: Option<Id>)
    | RunCreate(id: Id, run: Run)
    | RunUpdate(id: Id, patch: Run)

  datatype Payload = Blank | Membership(config: Blob) | Normal(request: Request)

  /** `versions` is the version column of the state table, kept apart from its value column. */
  datatype Engine = Engine(events: map<Id, Event>,
                           rows: map<RowKey, Blob>,
                           versions: map<RowKey, nat>,
                           edges: map<Id, Edge>,
                           runs: map<Id, Run>)

  const EMPTY := Engine(map[], map[], map[], map[], map[])

  // ---------- episodic append ----------

  predicate KeyTaken(events: map<Id, Event>, key: string) {
    exists id :: id in events && events[id].key == Some(key)
  }

  /** `INSERT OR IGNORE` skips a row that collides on the primary key or on the idempotency key. */
  predicate Ignored(events: map<Id, Event>, e: Event) {
    e.id in events || (e.key.Some? && KeyTaken(events, e.key.value))
  }

  function InsertOrIgnore(events: map<Id, Event>, batch: seq<Event>): map<Id, Event>
    decreases |batch|
  {
    if batch == [] then events
    else
      var e := batch[0];
      InsertOrIgnore(if Ignored(events, e) then events else events[e.id := e], batch[1..])
  }

  /** The bulk Appender has no `OR IGNORE`: a duplicate primary key fails the whole batch. */
  function BulkLoad(events: map<Id, Event>, batch: seq<Event>): Option<map<Id, Event>>
    decreases |batch|
  {
    if batch == [] then Some(events)
    else
      var e := batch[0];
      if e.id in events then None else BulkLoad(events[e.id := e], batch[1..])
  }

  predicate Keyless(batch: seq<Event>) {
    forall e :: e in batch ==> e.key.None?
  }

  function Append(events: map<Id, Event>, batch: seq<Event>): Option<map<Id, Event>> {
    if batch == [] then Some(events)
    else if Keyless(batch) then BulkLoad(events, batch)
    else Some(InsertOrIgnore(events, batch))
  }

  // ---------- the other stores ----------

  function UpsertMemories(rows: map<RowKey, Blob>, batch: seq<(Id, Blob)>): map<RowKey, Blob>
    decreases |batch|
  {
    if batch == [] then rows
    else UpsertMemories(rows[MemoryKey(batch[0].0) := batch[0].1], batch[1..])
  }

  predicate ActiveIn(edge: Edge, scope: Scope) {
    edge.scope == scope && edge.closed.None?
  }

  function Supersede(edges: map<Id, Edge>, scope: Scope, at: Blob, closer: Option<Id>): map<Id, Edge> {
    map id | id in edges ::
      if ActiveIn(edges[id], scope) then edges[id].(closed := Some((at, closer))) else edges[id]
  }

  function BumpVersion(versions: map<RowKey, nat>, k: RowKey): map<RowKey, nat> {
    versions[k := (if k in versions then versions[k] else 0) + 1]
  }

  // ---------- one committed entry ----------

  function EventsAfter(events: map<Id, Event>, p: Payload): Option<map<Id, Event>> {
    match p
    case Normal(Ingest(batch)) => Append(events, batch)
    case _ => Some(events)
  }

  function RowsAfter(rows: map<RowKey, Blob>, p: Payload): map<RowKey, Blob> {
    match p
    case Normal(StateSet(agent, key, value)) => rows[StateKey(agent, key) := value]
    case Normal(StateDelete(agent, key)) => rows - {StateKey(agent, key)}
    case Normal(SemanticUpsert(id, entry)) => rows[VectorKey(id) := entry]
    case Normal(SemanticDelete(id)) => rows - {VectorKey(id)}
    case Normal(MemoryUpsert(batch)) => UpsertMemories(rows, batch)
    case Normal(MemoryDelete(id)) => rows - {MemoryKey(id)}
    case _ => rows
  }

  function VersionsAfter(versions: map<RowKey, nat>, p: Payload): map<RowKey, nat> {
    match p
    case Normal(StateSet(agent, key, _)) => BumpVersion(versions, StateKey(agent, key))
    case Normal(StateDelete(agent, key)) => versions - {StateKey(agent, key)}
    case _ => versions
  }

  function EdgesAfter(edges: map<Id, Edge>, p: Payload): map<Id, Edge> {
    match p
    case Normal(GraphAddEdge(id, edge)) => if id in edges then edges else edges[id := edge]
    case Normal(GraphSupersede(scope, at, closer)) => Supersede(edges, scope, at, closer)
    case _ => edges
  }

  function RunsAfter(runs: map<Id, Run>, p: Payload): map<Id, Run> {
    match p
    case Normal(RunCreate(id, run)) => if id in runs then runs else runs[id := run]
    case Normal(RunUpdate(id, patch)) => if id in runs then runs[id := runs[id] + patch] else runs
    case _ => runs
  }

  /**
   One committed entry, store by store; blank and membership entries change nothing.  `None` means
   the engine returned an error, which only the episodic append can, and nothing changed.
   */
  function ApplyPayload(e: Engine, p: Payload): Option<Engine> {
    var events := EventsAfter(e.events, p);
    if events.None? then None
    else Some(Engine(events.value, RowsAfter(e.rows, p), VersionsAfter(e.versions, p),
                     EdgesAfter(e.edges, p), RunsAfter(e.runs, p)))
  }

  // ---------- what a request can change ----------

  function RowsTouched(p: Payload): set<RowKey> {
    match p
    case Normal(StateSet(agent, key, _)) => {StateKey(agent, key)}
    case Normal(StateDelete(agent, key)) => {StateKey(agent, key)}
    case Normal(SemanticUpsert(id, _)) => {VectorKey(id)}
    case Normal(SemanticDelete(id)) => {VectorKey(id)}
    case Normal(MemoryUpsert(batch)) => set i | 0 <= i < |batch| :: MemoryKey(batch[i].0)
    case Normal(MemoryDelete(id)) => {MemoryKey(id)}
    case _ => {}
  }

  function LastMemory(batch: seq<(Id, Blob)>, k: RowKey): Option<Blob> {
    if batch == [] then None
    else if MemoryKey(batch[|batch| - 1].0) == k then Some(batch[|batch| - 1].1)
    else LastMemory(batch[..|batch| - 1], k)
  }

  /** The value a request leaves in a row it touches: a function of the request alone. */
  function RowWritten(p: Payload, k: RowKey): Option<Blob> {
    match p
    case Normal(StateSet(_, _, value)) => Some(value)
    case Normal(SemanticUpsert(_, entry)) => Some(entry)
    case Normal(MemoryUpsert(batch)) => LastMemory(batch, k)
    case _ => None
  }

  lemma {:induction false} UpsertMemoriesLast(rows: map<RowKey, Blob>, batch: seq<(Id, Blob)>, k: RowKey)
    ensures var w := LastMemory(batch, k);
            Lookup(UpsertMemories(rows, batch), k) == if w.Some? then w else Lookup(rows, k)
    ensures LastMemory(batch, k).Some? <==> exists i :: 0 <= i < |batch| && MemoryKey(batch[i].0) == k
    decreases |batch|
  {
    if batch != [] {
      var init, last := batch[..|batch| - 1], batch[|batch| - 1];
      UpsertMemoriesLast(rows, init, k);
      UpsertMemoriesSnoc(rows, init, last);
      assert batch == init + [last];
    }
  }

  lemma {:induction false} UpsertMemoriesSnoc(rows: map<RowKey, Blob>, batch: seq<(Id, Blob)>, last: (Id, Blob))
    ensures UpsertMemories(rows, batch + [last]) == UpsertMemories(rows, batch)[MemoryKey(last.0) := last.1]
    decreases |batch|
  {
    if batch == [] {
      assert [] + [last] == [last];
      assert UpsertMemories(rows[MemoryKey(last.0) := last.1], [last][1..]) == rows[MemoryKey(last.0) := last.1];
    } else {
      assert (batch + [last])[1..] == batch[1..] + [last];
      UpsertMemoriesSnoc(rows[MemoryKey(batch[0].0) := batch[0].1], batch[1..], last);
    }
  }

  /** A request rewrites the rows it touches without looking at them, and no other row. */
  lemma RowEffect(rows: map<RowKey, Blob>, p: Payload, k: RowKey)
    ensures Lookup(RowsAfter(rows, p), k) == if k in RowsTouched(p) then RowWritten(p, k) else Lookup(rows, k)
  {
    if p.Normal? && p.request.MemoryUpsert? {
      UpsertMemoriesLast(rows, p.request.rows, k);
    }
  }

  /** Row by row, what each request leaves behind. */
  lemma RowSays(rows: map<RowKey, Blob>, p: Payload, k: RowKey)
    ensures var now := Lookup(RowsAfter(rows, p), k);
            match p
            case Normal(StateSet(agent, key, value)) => now == if k == StateKey(agent, key) then Some(value) else Lookup(rows, k)
            case Normal(StateDelete(agent, key)) => now == if k == StateKey(agent, key) then None else Lookup(rows, k)
            case Normal(SemanticUpsert(id, entry)) => now == if k == VectorKey(id) then Some(entry) else Lookup(rows, k)
            case Normal(SemanticDelete(id)) => now == if k == VectorKey(id) then None else Lookup(rows, k)
            case Normal(MemoryDelete(id)) => now == if k == MemoryKey(id) then None else Lookup(rows, k)
            case Normal(MemoryUpsert(batch)) =>
              if k.MemoryKey? && exists i :: 0 <= i < |batch| && batch[i].0 == k.id
              then exists i :: 0 <= i < |batch| && batch[i].0 == k.id && now == Some(batch[i].1)
                               && forall j :: i < j < |batch| ==> batch[j].0 != k.id
              else now == Lookup(rows, k)
            case _ => now == Lookup(rows, k)
  {
    if p.Normal? && p.request.MemoryUpsert? {
      UpsertMemoriesLast(rows, p.request.rows, k);
      if k.MemoryKey? && exists i :: 0 <= i < |p.request.rows| && p.request.rows[i].0 == k.id {
        var i := LastMemoryAt(p.request.rows, k.id);
      }
    }
  }

  /** The last upsert of a memory in a batch is the one that stays. */
  lemma {:induction false} LastMemoryAt(batch: seq<(Id, Blob)>, id: Id) returns (i: nat)
    requires exists i :: 0 <= i < |batch| && batch[i].0 == id
    ensures i < |batch| && batch[i].0 == id && LastMemory(batch, MemoryKey(id)) == Some(batch[i].1)
    ensures forall j :: i < j < |batch| ==> batch[j].0 != id
  {
    i := |batch| - 1;
    if batch[i].0 != id {
      i := LastMemoryAt(batch[..i], id);
    }
  }

  /** A set writes the next version of its row, 1 for a new one; a delete starts the count afresh. */
  lemma VersionSays(versions: map<RowKey, nat>, p: Payload, k: RowKey)
    ensures var now := Lookup(VersionsAfter(versions, p), k);
            match p
            case Normal(StateSet(agent, key, _)) =>
              now == if k != StateKey(agent, key) then Lookup(versions, k)
                     else if k in versions then Some(versions[k] + 1) else Some(1)
            case Normal(StateDelete(agent, key)) => now == if k == StateKey(agent, key) then None else Lookup(versions, k)
            case _ => now == Lookup(versions, k)
  {
  }

  /**
   Edge by edge: an added edge is stored as given unless its id is taken; a supersede gives every open
   edge of its scope the time and the closer and leaves its destination; no edge is ever removed.
   */
  lemma EdgeEffect(edges: map<Id, Edge>, p: Payload, id: Id)
    ensures var now := Lookup(EdgesAfter(edges, p), id);
            match p
            case Normal(GraphAddEdge(added, edge)) =>
              now == if id == added && id !in edges then Some(edge) else Lookup(edges, id)
            case Normal(GraphSupersede(scope, at, closer)) =>
              now == if id in edges && edges[id].scope == scope && edges[id].closed == None
                     then Some(Edge(scope, edges[id].dst, Some((at, closer)))) else Lookup(edges, id)
            case _ => now == Lookup(edges, id)
  {
  }

  /** Run by run and field by field: a create keeps a run that is there, an update patches only such a run. */
  lemma RunEffect(runs: map<Id, Run>, p: Payload, id: Id, f: Field)
    ensures var now := Lookup(RunsAfter(runs, p), id);
            match p
            case Normal(RunCreate(added, run)) => now == if id == added && id !in runs then Some(run) else Lookup(runs, id)
            case Normal(RunUpdate(patched, patch)) =>
              if id == patched && id in runs
              then now.Some? && Lookup(now.value, f) == if f in patch then Some(patch[f]) else Lookup(runs[id], f)
              else now == Lookup(runs, id)
            case _ => now == Lookup(runs, id)
  {
  }

  // ---------- what an append keeps ----------

  /** Rows sit under their own ids, and no two rows carry one idempotency key. */
  ghost predicate KeysUnique(events: map<Id, Event>) {
    && (forall id :: id in events ==> events[id].id == id)
    && (forall a, b :: a in events && b in events && events[a].key.Some? && events[a].key == events[b].key ==> a == b)
  }

  lemma {:induction false} InsertKeepsUnique(events: map<Id, Event>, batch: seq<Event>)
    requires KeysUnique(events)
    ensures KeysUnique(InsertOrIgnore(events, batch))
    decreases |batch|
  {
    if batch != [] {
      var e := batch[0];
      InsertKeepsUnique(if Ignored(events, e) then events else events[e.id := e], batch[1..]);
    }
  }

  lemma {:induction false} BulkKeepsUnique(events: map<Id, Event>, batch: seq<Event>)
    requires KeysUnique(events) && Keyless(batch) && BulkLoad(events, batch).Some?
    ensures KeysUnique(BulkLoad(events, batch).value)
    decreases |batch|
  {
    if batch != [] {
      var e := batch[0];
      assert e in batch;
      BulkKeepsUnique(events[e.id := e], batch[1..]);
    }
  }

  /** Whatever the batch, an accepted append stores no idempotency key twice. */
  lemma AppendKeepsUnique(events: map<Id, Event>, p: Payload)
    requires KeysUnique(events) && EventsAfter(events, p).Some?
    ensures KeysUnique(EventsAfter(events, p).value)
  {
    if p.Normal? && p.request.Ingest? {
      var batch := p.request.events;
      if Keyless(batch) && batch != [] {
        BulkKeepsUnique(events, batch);
      } else {
        InsertKeepsUnique(events, batch);
      }
    }
  }

  /** Nothing stored and nothing earlier in the batch has the id or the idempotency key of event `i`. */
  ghost predicate Fresh(events: map<Id, Event>, batch: seq<Event>, i: nat)
    requires i < |batch|
  {
    var e := batch[i];
    && (forall id :: id in events ==> id != e.id && (e.key.Some? ==> events[id].key != e.key))
    && (forall j :: 0 <= j < i ==> batch[j].id != e.id && (e.key.Some? ==> batch[j].key != e.key))
  }

  lemma {:induction false} StoredStays(events: map<Id, Event>, batch: seq<Event>, id: Id)
    requires id in events
    ensures var after := InsertOrIgnore(events, batch); id in after && after[id] == events[id]
    decreases |batch|
  {
    if batch != [] {
      var e := batch[0];
      StoredStays(if Ignored(events, e) then events else events[e.id := e], batch[1..], id);
    }
  }

  /** Only a collision shuts an event out: a fresh one is stored as it came. */
  lemma {:induction false} FreshIsStored(events: map<Id, Event>, batch: seq<Event>, i: nat)
    requires i < |batch| && Fresh(events, batch, i)
    ensures var after := InsertOrIgnore(events, batch); batch[i].id in after && after[batch[i].id] == batch[i]
    decreases |batch|
  {
    var e := batch[0];
    var mid := if Ignored(events, e) then events else events[e.id := e];
    if i == 0 {
      StoredStays(mid, batch[1..], e.id);
    } else {
      assert Fresh(mid, batch[1..], i - 1);
      FreshIsStored(mid, batch[1..], i - 1);
    }
  }

  /** A bulk load is accepted exactly if its ids are new and distinct; then it is the table plus the batch. */
  ghost predicate IdsNew(events: map<Id, Event>, batch: seq<Event>) {
    forall i :: 0 <= i < |batch| ==> batch[i].id !in events && forall j :: 0 <= j < i ==> batch[j].id != batch[i].id
  }

  lemma {:induction false} BulkLoadIff(events: map<Id, Event>, batch: seq<Event>)
    ensures BulkLoad(events, batch).Some? <==> IdsNew(events, batch)
    ensures BulkLoad(events, batch).Some? ==>
              && (forall id :: id in BulkLoad(events, batch).value <==> id in events || exists i :: 0 <= i < |batch| && batch[i].id == id)
              && (forall id :: id in events ==> BulkLoad(events, batch).value[id] == events[id])
              && (forall i :: 0 <= i < |batch| ==> BulkLoad(events, batch).value[batch[i].id] == batch[i])
    decreases |batch|
  {
    if batch != [] {
      var e, rest := batch[0], batch[1..];
      assert batch == [e] + rest;
      if e.id !in events {
        var mid := events[e.id := e];
        BulkLoadIff(mid, rest);
        RestNew(events, e, rest);
      }
    }
  }

  lemma RestNew(events: map<Id, Event>, e: Event, rest: seq<Event>)
    requires e.id !in events
    ensures IdsNew(events[e.id := e], rest) <==> IdsNew(events, [e] + rest)
  {
    var batch := [e] + rest;
    assert forall i :: 0 <= i < |rest| ==> batch[i + 1] == rest[i];
    if IdsNew(events, batch) {
      forall i | 0 <= i < |rest|
        ensures rest[i].id !in events[e.id := e] && forall j :: 0 <= j < i ==> rest[j].id != rest[i].id
      {
        assert batch[i + 1].id !in events && batch[0].id != batch[i + 1].id;
        forall j | 0 <= j < i
          ensures rest[j].id != rest[i].id
        {
          assert batch[j + 1].id != batch[i + 1].id;
        }
      }
    }
  }
}
