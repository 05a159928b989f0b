/**
 A cluster of nodes replaying one committed log, over every run of apply batches, write errors,
 crashes between any two statements, reopens, snapshots exported store by store while entries are
 still being applied, and snapshot installs.
 */
module Recovery {
  import opened Options
  import opened ReplicatedEngine
  import opened RaftStore
  import opened Replay
  import opened RunLedger

  /** Entry `i` of the committed log has index `i`. */
  ghost predicate Indexed(log: seq<Entry>) {
    forall i :: 0 <= i < |log| ==> log[i].id.index == i
  }

  /** A log that straight replay never rejects; the theorems are stated for all logs at the end. */
  ghost predicate Committed(log: seq<Entry>) {
    Indexed(log) && Applicable(Payloads(log))
  }

  function Payloads(log: seq<Entry>): (ps: seq<Payload>)
    ensures |ps| == |log| && forall i :: 0 <= i < |log| ==> ps[i] == log[i].payload
  {
    seq(|log|, i requires 0 <= i < |log| => log[i].payload)
  }

  /** How many entries a `last_applied` id stands for. */
  function Pos(id: Option<LogId>): nat {
    if id.Some? then id.value.index + 1 else 0
  }

  function Applied(d: Durable): Option<LogId> {
    LoadLogId(d.meta, LastAppliedKey)
  }

  // ---------- one apply call ----------

  /** How many of the entries have had their effect after `n` statements of the apply program. */
  function Fed(entries: seq<Entry>, n: nat): nat {
    if entries == [] || n == 0 then 0
    else
      var width := |EntryProgram(entries[0])|;
      if width <= n then 1 + Fed(entries[1..], n - width) else 1
  }

  /** The entry whose effect is in but whose mark is not: at most one, and the very next one. */
  lemma {:induction false} FirstEntry(d: Durable, e: Entry, n: nat, d': Durable)
    requires n <= |EntryProgram(e)| && ExecAll(d, EntryProgram(e)[..n]) == Some(d')
    ensures n == 0 ==> d' == d
    ensures 0 < n ==> ApplyPayload(d.engine, e.payload) == Some(d'.engine)
    ensures Applied(d') == if n == |EntryProgram(e)| then Some(e.id) else Applied(d)
  {
    var p := EntryProgram(e);
    ExecPair(d, p[..n]);
    match e.payload
    case Blank => assert p == [PutMeta(LastAppliedKey, LogIdValue(Some(e.id)))];
    case Normal(request) =>
      assert 0 < n ==> p[..n][0] == ApplyToEngine(request);
      assert 1 < n ==> p[..n][1] == PutMeta(LastAppliedKey, LogIdValue(Some(e.id)));
    case Membership(config) =>
      assert 0 < n ==> p[..n][0].PutMeta? && p[..n][0].key == MembershipKey;
      assert 1 < n ==> p[..n][1] == PutMeta(LastAppliedKey, LogIdValue(Some(e.id)));
  }

  /**
   An apply call cut off after any number of statements has fed the engine an initial run of its
   entries, in order and without a gap, and has marked all of them or all but the last.
   */
  lemma {:induction false} ApplyFeedsInOrder(log: seq<Entry>, pos: nat, k: nat, n: nat, d: Durable, d': Durable)
    requires pos + k <= |log| && (forall i :: 0 <= i < |log| ==> log[i].id.index == i)
    requires Pos(Applied(d)) == pos
    requires n <= |ApplyProgram(log[pos..pos + k])| && ExecAll(d, ApplyProgram(log[pos..pos + k])[..n]) == Some(d')
    ensures var q := Fed(log[pos..pos + k], n);
            && q <= k && ReplayFrom(d.engine, Payloads(log), pos, pos + q) == Some(d'.engine)
            && (Pos(Applied(d')) == pos + q || (0 < q && Pos(Applied(d')) + 1 == pos + q))
    decreases k
  {
    if k != 0 && n != 0 {
      var entries, rest := log[pos..pos + k], log[pos + 1..pos + k];
      var first := EntryProgram(entries[0]);
      assert entries[1..] == rest;
      if |first| <= n {
        var mid := FirstEntryDone(d, entries, n, d');
        ApplyFeedsInOrder(log, pos + 1, k - 1, n - |first|, mid, d');
      } else {
        assert ApplyProgram(entries)[..n] == first[..n];
        FirstEntry(d, entries[0], n, d');
        assert ReplayFrom(d'.engine, Payloads(log), pos + 1, pos + 1) == Some(d'.engine);
      }
    }
  }

  lemma {:induction false} FirstEntryDone(d: Durable, entries: seq<Entry>, n: nat, d': Durable) returns (mid: Durable)
    requires entries != [] && |EntryProgram(entries[0])| <= n <= |ApplyProgram(entries)|
    requires ExecAll(d, ApplyProgram(entries)[..n]) == Some(d')
    ensures ApplyPayload(d.engine, entries[0].payload) == Some(mid.engine) && Applied(mid) == Some(entries[0].id)
    ensures var m := n - |EntryProgram(entries[0])|;
            m <= |ApplyProgram(entries[1..])| && ExecAll(mid, ApplyProgram(entries[1..])[..m]) == Some(d')
  {
    var first, rest := EntryProgram(entries[0]), ApplyProgram(entries[1..]);
    assert ApplyProgram(entries)[..n] == first + rest[..n - |first|];
    ExecAllConcat(d, first, rest[..n - |first|]);
    mid := ExecAll(d, first).value;
    assert first[..|first|] == first;
    FirstEntry(d, entries[0], |first|, mid);
  }

  // ---------- a second application of the entry just applied ----------

  /** Equal stores; the version column of the state table may differ. */
  ghost predicate SameStores(a: Engine, b: Engine) {
    a.events == b.events && a.rows == b.rows && a.edges == b.edges && a.runs == b.runs
  }

  lemma {:induction false} RowsTwice(rows: map<RowKey, Blob>, p: Payload)
    ensures RowsAfter(RowsAfter(rows, p), p) == RowsAfter(rows, p)
  {
    var once := RowsAfter(rows, p);
    forall k
      ensures Lookup(RowsAfter(once, p), k) == Lookup(once, k)
    {
      RowEffect(rows, p, k);
      RowEffect(once, p, k);
    }
    LookupsEqual(RowsAfter(once, p), once);
  }

  lemma {:induction false} EdgesTwice(edges: map<Id, Edge>, p: Payload)
    ensures EdgesAfter(EdgesAfter(edges, p), p) == EdgesAfter(edges, p)
  {
  }

  lemma {:induction false} RunsTwice(runs: map<Id, Run>, p: Payload)
    ensures RunsAfter(RunsAfter(runs, p), p) == RunsAfter(runs, p)
  {
    if p.Normal? && p.request.RunUpdate? && p.request.id in runs {
      assert (runs[p.request.id] + p.request.patch) + p.request.patch == runs[p.request.id] + p.request.patch;
    }
  }

  /**
   Applying entry `i` to stores that are at `i`, or at `i + 1` because the entry was already applied:
   rejected exactly when it is a bulk ingest applied a second time, and otherwise the stores end at
   `i + 1`.
   */
  lemma {:induction false} ExactStep(e: Engine, log: seq<Payload>, i: nat, h: nat)
    requires i < |log| && Applicable(log) && i <= h <= i + 1
    requires SameStores(e, At(log, h))
    ensures ApplyPayload(e, log[i]).None? <==> h == i + 1 && BulkIngest(log[i])
    ensures ApplyPayload(e, log[i]).Some? ==> SameStores(ApplyPayload(e, log[i]).value, At(log, i + 1))
  {
    EventsStep(log, i, h);
    RowsTwice(RowsAt(log, i), log[i]);
    EdgesTwice(EdgesAt(log, i), log[i]);
    RunsTwice(RunsAt(log, i), log[i]);
  }

  lemma {:induction false} ExactReplay(e: Engine, log: seq<Payload>, i: nat, j: nat, h: nat)
    requires i < j <= |log| && Applicable(log) && i <= h <= i + 1
    requires SameStores(e, At(log, h)) && ReplayFrom(e, log, i, j).Some?
    ensures SameStores(ReplayFrom(e, log, i, j).value, At(log, j))
    decreases j - i
  {
    ExactStep(e, log, i, h);
    var next := ApplyPayload(e, log[i]).value;
    if i + 1 < j {
      ExactReplay(next, log, i + 1, j, i + 1);
    } else {
      assert ReplayFrom(next, log, j, j) == Some(next);
    }
  }

  // ---------- the cluster ----------

  /**
   `fed` lists, in order, the log positions whose effect reached the engine since the node started
   from empty stores; it stops being kept once a snapshot has been installed.  `marks` says how many
   entries each group of stores holds.  `base` is the run ledger as the last install found it, and
   `from` the position of that install.  All are bookkeeping: no step looks at them.
   */
  datatype Node = Node(store: Store, running: bool, installed: bool, fed: seq<nat>, marks: Marks, base: map<Id, Run>, from: nat)

  /** A snapshot under construction on `node`: labelled first, then exported one store at a time. */
  datatype Build = Build(node: nat, last: Option<LogId>, stored: StoredMembership, stage: nat, dump: Engine, marks: Marks)

  datatype Cluster = Cluster(nodes: seq<Node>, builds: seq<Build>)

  function Count(from: nat, upto: nat): seq<nat>
    requires from <= upto
  {
    seq(upto - from, i requires 0 <= i < upto - from => from + i)
  }

  ghost predicate ApplyStep(log: seq<Entry>, a: Node, k: nat, n: nat, out: Outcome, b: Node) {
    var pos := Pos(a.store.cache.lastApplied);
    a.running && pos + k <= |log| && ApplyEffect(a, pos, log[pos..pos + k], n, out, b)
  }

  ghost predicate ApplyEffect(a: Node, pos: nat, entries: seq<Entry>, n: nat, out: Outcome, b: Node) {
    && CallRel(a.store, ApplyEntries(entries), n, b.store, out)
    && var q := Fed(entries, n);
       b == a.(store := b.store, running := out == Ok,
               fed := a.fed + Count(pos, pos + q), marks := Advance(a.marks, if q == 0 then 0 else pos + q))
  }

  /** Votes, commit marks and log maintenance. */
  ghost predicate LogStep(a: Node, c: Call, n: nat, out: Outcome, b: Node) {
    && a.running && !c.ApplyEntries? && !c.InstallSnapshot?
    && CallRel(a.store, c, n, b.store, out)
    && b == a.(store := b.store, running := out == Ok)
  }

  ghost predicate ReopenStep(a: Node, b: Node) {
    b == a.(store := Store(a.store.durable, Hydrate(a.store.durable)), running := true)
  }

  /** Snapshots are only installed when they are ahead of the node. */
  ghost predicate InstallStep(a: Node, s: Build, n: nat, out: Outcome, b: Node) {
    && a.running && s.stage == 4 && Pos(a.store.cache.lastApplied) <= Pos(s.last)
    && CallRel(a.store, InstallSnapshot(s.last, s.stored, Some(s.dump)), n, b.store, out)
    && var written := a.(store := b.store, running := out == Ok);
       var restored := written.(installed := true, fed := [], marks := s.marks);
       b == if n == 0 then written
            else if n == 1 then restored
            else restored.(base := a.store.durable.engine.runs, from := Pos(s.last))
  }

  ghost predicate NodeStep(log: seq<Entry>, c: Cluster, a: Node, b: Node) {
    || ReopenStep(a, b)
    || (exists k, n, out :: ApplyStep(log, a, k, n, out, b))
    || (exists call, n, out :: LogStep(a, call, n, out, b))
    || (exists s, n, out :: s in c.builds && InstallStep(a, s, n, out, b))
  }

  function OfKind(rows: map<RowKey, Blob>, stage: nat): map<RowKey, Blob> {
    map k | k in rows && Kind(k) == stage :: rows[k]
  }

  /** The export that carries a row: vectors, then memories, then state. */
  function Kind(k: RowKey): nat {
    match k case VectorKey(_) => 1 case MemoryKey(_) => 2 case StateKey(_, _) => 3
  }

  /** The next export, read from the node as it is now. */
  function Export(s: Build, n: Node): Build {
    var e := n.store.durable.engine;
    if s.stage == 0 then
      s.(stage := 1, dump := s.dump.(events := e.events), marks := s.marks.(events := n.marks.events))
    else
      var rows := s.(stage := s.stage + 1,
                     dump := s.dump.(rows := s.dump.rows + OfKind(e.rows, s.stage)),
                     marks := s.marks.(rows := Max(s.marks.rows, n.marks.rows)));
      if s.stage == 2 then rows.(dump := rows.dump.(edges := e.edges), marks := rows.marks.(edges := n.marks.edges))
      else if s.stage == 3 then rows.(dump := rows.dump.(versions := e.versions))
      else rows
  }

  function Label(n: nat, a: Node): Build {
    var id := a.store.cache.lastApplied;
    Build(n, id, a.store.cache.membership, 0, EMPTY, Marks(Pos(id), Pos(id), Pos(id)))
  }

  ghost predicate Step(log: seq<Entry>, a: Cluster, b: Cluster) {
    || (exists i :: 0 <= i < |a.nodes| && |b.nodes| == |a.nodes| && NodeStep(log, a, a.nodes[i], b.nodes[i])
          && b == Cluster(a.nodes[i := b.nodes[i]], a.builds))
    || (exists i :: 0 <= i < |a.nodes| && a.nodes[i].running && b == Cluster(a.nodes, a.builds + [Label(i, a.nodes[i])]))
    || (exists j :: 0 <= j < |a.builds| && a.builds[j].stage < 4 && a.builds[j].node < |a.nodes|
          && b == Cluster(a.nodes, a.builds[j := Export(a.builds[j], a.nodes[a.builds[j].node])]))
  }

  ghost predicate Init(c: Cluster) {
    && c.builds == []
    && forall n :: n in c.nodes ==>
         && n.store.durable == Durable(map[], map[], EMPTY) && n.store.cache == Hydrate(n.store.durable)
         && n.running && !n.installed && n.fed == [] && n.marks == Marks(0, 0, 0) && n.base == map[] && n.from == 0
  }

  ghost predicate RunOf(log: seq<Entry>, tr: seq<Cluster>) {
    && tr != [] && Init(tr[0])
    && forall i :: 0 <= i < |tr| - 1 ==> Step(log, tr[i], tr[i + 1])
  }

  // ---------- invariants ----------

  /** Each fed position repeats the one before it or follows it, starting at 0; `h` is one past the last. */
  ghost predicate Stutters(fed: seq<nat>, h: nat) {
    && (fed == [] ==> h == 0)
    && (fed != [] ==> fed[0] == 0 && h == fed[|fed| - 1] + 1)
    && forall t :: 0 <= t < |fed| - 1 ==> fed[t + 1] == fed[t] || fed[t + 1] == fed[t] + 1
  }

  ghost predicate Exact(a: Node, ps: seq<Payload>, h: nat) {
    && h <= |ps| && Stutters(a.fed, h)
    && Pos(Applied(a.store.durable)) <= h <= Pos(Applied(a.store.durable)) + 1
    && SameStores(a.store.durable.engine, At(ps, h))
  }

  ghost predicate NodeInv(log: seq<Entry>, a: Node) {
    && (a.running ==> a.store.cache.lastApplied == Applied(a.store.durable))
    && Reflects(a.store.durable.engine, Payloads(log), Pos(Applied(a.store.durable)), a.marks)
    && (!a.installed ==> exists h :: Exact(a, Payloads(log), h))
    && (exists h :: LedgerAt(a, Payloads(log), h))
  }

  /** The run ledger is that found by the last install, replayed to the durable position or one further. */
  ghost predicate LedgerAt(a: Node, ps: seq<Payload>, h: nat) {
    var pos := Pos(Applied(a.store.durable));
    && a.from <= pos <= h <= pos + 1 && h <= |ps|
    && a.store.durable.engine.runs == ReplayRuns(a.base, ps, a.from, h)
  }

  /** The rows of one export agree, like those of a whole engine. */
  ghost predicate KindAgrees(rows: map<RowKey, Blob>, kind: nat, ps: seq<Payload>, i: nat, m: nat)
    requires i <= m <= |ps|
  {
    forall k :: Kind(k) == kind && !Touched(ps, i, m, k) ==> Lookup(rows, k) == Lookup(RowsAt(ps, i), k)
  }

  ghost predicate RowsExported(ps: seq<Payload>, s: Build) {
    && Pos(s.last) <= s.marks.rows <= |ps|
    && (forall kind :: 1 <= kind < s.stage ==> KindAgrees(s.dump.rows, kind, ps, Pos(s.last), s.marks.rows))
    && (forall k :: k in s.dump.rows ==> Kind(k) < s.stage)
  }

  ghost predicate BuildInv(log: seq<Entry>, c: Cluster, s: Build) {
    var ps, at := Payloads(log), Pos(s.last);
    && s.node < |c.nodes| && at <= Pos(Applied(c.nodes[s.node].store.durable))
    && at <= s.marks.events <= |ps| && at <= s.marks.edges <= |ps|
    && (1 <= s.stage ==> s.dump.events == EventsAt(ps, s.marks.events))
    && RowsExported(ps, s)
    && (3 <= s.stage && NoSupersede(ps) ==> s.dump.edges == EdgesAt(ps, s.marks.edges))
  }

  ghost predicate Inv(log: seq<Entry>, c: Cluster) {
    && (forall i :: 0 <= i < |c.nodes| ==> NodeInv(log, c.nodes[i]))
    && (forall j :: 0 <= j < |c.builds| ==> BuildInv(log, c, c.builds[j]))
  }

  // ---------- the durable position and its cached copy ----------

  lemma {:induction false} AppliedTracks(d: Durable, c: Cache, p: seq<Statement>)
    requires (forall st :: st in p ==> WellTyped(st)) && c.lastApplied == Applied(d) && ExecAll(d, p).Some?
    ensures MirrorAll(c, p).lastApplied == Applied(ExecAll(d, p).value)
    decreases |p|
  {
    if p != [] {
      assert p[0] in p;
      AppliedTracks(Exec(d, p[0]).value, Mirror(c, p[0]), p[1..]);
    }
  }

  lemma {:induction false} CallTracks(s: Store, c: Call, n: nat, s': Store)
    requires s.cache.lastApplied == Applied(s.durable) && CallRel(s, c, n, s', Ok)
    ensures s'.cache.lastApplied == Applied(s'.durable)
  {
    var p := Program(c);
    assert p[..n] == p;
    ProgramTyped(c);
    AppliedTracks(s.durable, s.cache, p);
  }

  lemma {:induction false} LogStatementsKeepApplied(d: Durable, p: seq<Statement>)
    requires forall st :: st in p ==>
               st.PutEntry? || st.DeleteFrom? || st.DeleteUpto? || (st.PutMeta? && st.key != LastAppliedKey)
    ensures ExecAll(d, p).Some? && ExecAll(d, p).value.engine == d.engine && Applied(ExecAll(d, p).value) == Applied(d)
    decreases |p|
  {
    if p != [] {
      assert p[0] in p;
      LogStatementsKeepApplied(Exec(d, p[0]).value, p[1..]);
    }
  }

  // ---------- each kind of step ----------

  lemma {:induction false} FedStutters(fed: seq<nat>, h: nat, pos: nat, q: nat)
    requires Stutters(fed, h) && pos <= h <= pos + 1 && 0 < q
    ensures Stutters(fed + Count(pos, pos + q), pos + q)
  {
    var all := fed + Count(pos, pos + q);
    forall t | 0 <= t < |all| - 1
      ensures all[t + 1] == all[t] || all[t + 1] == all[t] + 1
    {
      if t + 1 < |fed| {
        assert fed[t + 1] == fed[t] || fed[t + 1] == fed[t] + 1;
      }
    }
  }

  lemma {:induction false} FeedKeepsReflects(ps: seq<Payload>, e: Engine, pos: nat, m: Marks, q: nat, e': Engine, pos': nat)
    requires Applicable(ps) && pos + q <= |ps| && Reflects(e, ps, pos, m)
    requires ReplayFrom(e, ps, pos, pos + q) == Some(e') && pos' <= pos + q
    ensures Reflects(e', ps, pos', Advance(m, if q == 0 then 0 else pos + q))
  {
    if q == 0 {
      ReflectsBack(e, ps, pos', pos, m);
    } else {
      ReplayReflects(e, ps, pos, pos + q, m);
      ReflectsBack(e', ps, pos', pos + q, Advance(m, pos + q));
    }
  }

  lemma {:induction false} FeedKeepsExact(ps: seq<Payload>, e: Engine, fed: seq<nat>, pos: nat, h: nat, q: nat, e': Engine) returns (h': nat)
    requires Applicable(ps) && pos + q <= |ps| && h <= |ps| && pos <= h <= pos + 1
    requires Stutters(fed, h) && SameStores(e, At(ps, h)) && ReplayFrom(e, ps, pos, pos + q) == Some(e')
    ensures h' <= |ps| && Stutters(fed + Count(pos, pos + q), h') && SameStores(e', At(ps, h'))
    ensures h' == if q == 0 then h else pos + q
  {
    if q == 0 {
      assert fed + Count(pos, pos) == fed;
      h' := h;
    } else {
      ExactReplay(e, ps, pos, pos + q, h);
      FedStutters(fed, h, pos, q);
      h' := pos + q;
    }
  }

  lemma {:induction false} ApplyCallRuns(s: Store, entries: seq<Entry>, n: nat, s': Store, out: Outcome)
    requires CallRel(s, ApplyEntries(entries), n, s', out)
    ensures n <= |ApplyProgram(entries)| && ExecAll(s.durable, ApplyProgram(entries)[..n]) == Some(s'.durable)
  {
  }

  /** The statements an apply step has run on the disk. */
  lemma {:induction false} ApplyStepRuns(log: seq<Entry>, a: Node, k: nat, n: nat, out: Outcome, b: Node, pos: nat, entries: seq<Entry>)
    requires ApplyStep(log, a, k, n, out, b) && pos == Pos(a.store.cache.lastApplied)
    requires pos + k <= |log| && entries == log[pos..pos + k]
    ensures n <= |ApplyProgram(entries)| && ExecAll(a.store.durable, ApplyProgram(entries)[..n]) == Some(b.store.durable)
  {
    EffectOfStep(log, a, k, n, out, b, pos, entries);
    ApplyCallRuns(a.store, entries, n, b.store, out);
  }

  lemma {:induction false} ApplyStepBooks(log: seq<Entry>, a: Node, k: nat, n: nat, out: Outcome, b: Node, pos: nat)
    requires ApplyStep(log, a, k, n, out, b) && pos == Pos(a.store.cache.lastApplied)
    ensures pos + k <= |log|
    ensures var q := Fed(log[pos..pos + k], n);
            && b.fed == a.fed + Count(pos, pos + q) && b.marks == Advance(a.marks, if q == 0 then 0 else pos + q)
            && b.installed == a.installed && b.running == (out == Ok) && b.base == a.base && b.from == a.from
  {
  }

  lemma {:induction false} DurableFeeds(log: seq<Entry>, k: nat, n: nat, d: Durable, d': Durable) returns (q: nat)
    requires Committed(log) && Pos(Applied(d)) + k <= |log|
    requires var entries := log[Pos(Applied(d))..Pos(Applied(d)) + k];
             n <= |ApplyProgram(entries)| && ExecAll(d, ApplyProgram(entries)[..n]) == Some(d')
    ensures var pos, pos' := Pos(Applied(d)), Pos(Applied(d'));
            && q == Fed(log[pos..pos + k], n) && pos + q <= |log| && pos <= pos' && (pos' == pos + q || (0 < q && pos' + 1 == pos + q))
            && ReplayFrom(d.engine, Payloads(log), pos, pos + q) == Some(d'.engine)
  {
    var pos := Pos(Applied(d));
    q := Fed(log[pos..pos + k], n);
    ApplyFeedsInOrder(log, pos, k, n, d, d');
  }

  lemma {:induction false} ApplyStepTracks(log: seq<Entry>, a: Node, k: nat, n: nat, b: Node)
    requires ApplyStep(log, a, k, n, Ok, b) && a.store.cache.lastApplied == Applied(a.store.durable)
    ensures b.store.cache.lastApplied == Applied(b.store.durable)
  {
    var pos := Pos(a.store.cache.lastApplied);
    CallTracks(a.store, ApplyEntries(log[pos..pos + k]), n, b.store);
  }

  /** What an apply step does to a node: it feeds `q` entries and moves the durable position past all or all but one. */
  ghost predicate FedBy(log: seq<Entry>, a: Node, b: Node, q: nat) {
    var pos, pos' := Pos(Applied(a.store.durable)), Pos(Applied(b.store.durable));
    && pos + q <= |log| && pos <= pos' && (pos' == pos + q || (0 < q && pos' + 1 == pos + q))
    && ReplayFrom(a.store.durable.engine, Payloads(log), pos, pos + q) == Some(b.store.durable.engine)
    && b.fed == a.fed + Count(pos, pos + q) && b.marks == Advance(a.marks, if q == 0 then 0 else pos + q)
    && b.installed == a.installed && b.base == a.base && b.from == a.from
  }

  lemma {:induction false} ApplyStepFeeds(log: seq<Entry>, a: Node, k: nat, n: nat, b: Node, pos: nat) returns (q: nat)
    requires Committed(log) && pos == Pos(Applied(a.store.durable)) && pos + k <= |log| && n <= |ApplyProgram(log[pos..pos + k])|
    requires ExecAll(a.store.durable, ApplyProgram(log[pos..pos + k])[..n]) == Some(b.store.durable)
    requires var q := Fed(log[pos..pos + k], n);
             && b.fed == a.fed + Count(pos, pos + q) && b.marks == Advance(a.marks, if q == 0 then 0 else pos + q)
             && b.installed == a.installed && b.base == a.base && b.from == a.from
    ensures FedBy(log, a, b, q)
  {
    q := DurableFeeds(log, k, n, a.store.durable, b.store.durable);
  }

  lemma {:induction false} ApplyKeepsInv(log: seq<Entry>, a: Node, k: nat, n: nat, out: Outcome, b: Node)
    requires Committed(log) && NodeInv(log, a) && ApplyStep(log, a, k, n, out, b)
    ensures NodeInv(log, b) && Pos(Applied(a.store.durable)) <= Pos(Applied(b.store.durable))
  {
    var pos := Pos(a.store.cache.lastApplied);
    ApplyStepRuns(log, a, k, n, out, b, pos, log[pos..pos + k]);
    ApplyStepBooks(log, a, k, n, out, b, pos);
    var q := ApplyStepFeeds(log, a, k, n, b, pos);
    if out == Ok {
      ApplyStepTracks(log, a, k, n, b);
    }
    FedKeepsInv(log, a, b, q);
  }

  lemma {:induction false} FedKeepsInv(log: seq<Entry>, a: Node, b: Node, q: nat)
    requires Committed(log) && NodeInv(log, a) && FedBy(log, a, b, q)
    requires b.running ==> b.store.cache.lastApplied == Applied(b.store.durable)
    ensures NodeInv(log, b)
  {
    var d, d' := a.store.durable, b.store.durable;
    FeedKeepsReflects(Payloads(log), d.engine, Pos(Applied(d)), a.marks, q, d'.engine, Pos(Applied(d')));
    if !a.installed {
      FedKeepsExact(log, a, b, q);
    }
    FedKeepsLedger(log, a, b, q);
  }

  /** Feeding the ledger on from where it stands, or once more from one entry back. */
  lemma {:induction false} LedgerFeeds(base: map<Id, Run>, ps: seq<Payload>, from: nat, pos: nat, h: nat, q: nat)
    requires from <= pos <= h <= pos + 1 && 0 < q && pos + q <= |ps| && h <= |ps|
    ensures ReplayRuns(ReplayRuns(base, ps, from, h), ps, pos, pos + q) == ReplayRuns(base, ps, from, pos + q)
  {
    if h == pos {
      ReplayRunsConcat(base, ps, from, pos, pos + q);
    } else {
      var runs := ReplayRuns(base, ps, from, h);
      RunsTwice(ReplayRuns(base, ps, from, pos), ps[pos]);
      assert ReplayRuns(runs, ps, pos, pos) == runs;
      assert ReplayRuns(runs, ps, pos, h) == runs;
      ReplayRunsConcat(runs, ps, pos, h, pos + q);
      ReplayRunsConcat(base, ps, from, h, pos + q);
    }
  }

  lemma {:induction false} FedKeepsLedger(log: seq<Entry>, a: Node, b: Node, q: nat)
    requires FedBy(log, a, b, q) && exists h :: LedgerAt(a, Payloads(log), h)
    ensures exists h :: LedgerAt(b, Payloads(log), h)
  {
    var ps, pos := Payloads(log), Pos(Applied(a.store.durable));
    var h: nat :| LedgerAt(a, ps, h);
    if q == 0 {
      assert LedgerAt(b, ps, h);
    } else {
      ReplayFromRuns(a.store.durable.engine, ps, pos, pos + q);
      LedgerFeeds(a.base, ps, a.from, pos, h, q);
      assert LedgerAt(b, ps, pos + q);
    }
  }

  lemma {:induction false} FedKeepsExact(log: seq<Entry>, a: Node, b: Node, q: nat)
    requires Committed(log) && FedBy(log, a, b, q) && exists h :: Exact(a, Payloads(log), h)
    ensures exists h :: Exact(b, Payloads(log), h)
  {
    var ps, d := Payloads(log), a.store.durable;
    var h: nat :| Exact(a, ps, h);
    var h' := FeedKeepsExact(ps, d.engine, a.fed, Pos(Applied(d)), h, q, b.store.durable.engine);
    assert Exact(b, ps, h');
  }

  lemma {:induction false} LogKeepsInv(log: seq<Entry>, a: Node, c: Call, n: nat, out: Outcome, b: Node)
    requires Committed(log) && NodeInv(log, a) && LogStep(a, c, n, out, b)
    ensures NodeInv(log, b) && Pos(Applied(a.store.durable)) <= Pos(Applied(b.store.durable))
  {
    LogStatementsKeepApplied(a.store.durable, Program(c)[..n]);
    if out == Ok {
      CallTracks(a.store, c, n, b.store);
    }
    SameEngineKeeps(log, a, b);
  }

  /** A step that leaves engine and durable position alone. */
  lemma {:induction false} SameEngineKeeps(log: seq<Entry>, a: Node, b: Node)
    requires NodeInv(log, a) && b.store.durable.engine == a.store.durable.engine && Applied(b.store.durable) == Applied(a.store.durable)
    requires b == a.(store := b.store, running := b.running) && (b.running ==> b.store.cache.lastApplied == Applied(b.store.durable))
    ensures NodeInv(log, b)
  {
    var ps := Payloads(log);
    if !a.installed {
      var h: nat :| Exact(a, ps, h);
      assert Exact(b, ps, h);
    }
    var h: nat :| LedgerAt(a, ps, h);
    assert LedgerAt(b, ps, h);
  }

  /** The three statements of an install: engine, then position, then membership. */
  lemma {:induction false} InstallPrefix(d: Durable, s: Build, n: nat, d': Durable)
    requires n <= 3 && ExecAll(d, Program(InstallSnapshot(s.last, s.stored, Some(s.dump)))[..n]) == Some(d')
    ensures n == 0 ==> d' == d
    ensures 0 < n ==> d'.engine == s.dump.(runs := d.engine.runs)
    ensures Applied(d') == if n <= 1 then Applied(d) else s.last
  {
    var p := Program(InstallSnapshot(s.last, s.stored, Some(s.dump)));
    if 0 < n {
      var d1 := d.(engine := s.dump.(runs := d.engine.runs));
      assert p[..n][0] == p[0];
      assert ExecAll(d, p[..n]) == ExecAll(d1, p[..n][1..]);
      LogPutsOnly(d1, s, p[..n][1..], n);
    }
  }

  lemma {:induction false} LogPutsOnly(d: Durable, s: Build, q: seq<Statement>, n: nat)
    requires 1 <= n <= 3
    requires q == [PutMeta(LastAppliedKey, LogIdValue(s.last)), PutMeta(MembershipKey, MembershipValue(s.stored))][..n - 1]
    ensures ExecAll(d, q).Some? && ExecAll(d, q).value.engine == d.engine
    ensures Applied(ExecAll(d, q).value) == if n == 1 then Applied(d) else s.last
  {
    if n > 1 {
      var d1 := d.(meta := d.meta[LastAppliedKey := LogIdValue(s.last)]);
      assert q[0] == PutMeta(LastAppliedKey, LogIdValue(s.last));
      assert ExecAll(d, q) == ExecAll(d1, q[1..]);
      LogStatementsKeepApplied(d1, q[1..]);
    }
  }

  lemma {:induction false} DumpIsWhole(log: seq<Entry>, c: Cluster, s: Build, runs: map<Id, Run>)
    requires Committed(log) && BuildInv(log, c, s) && s.stage == 4
    ensures Reflects(s.dump.(runs := runs), Payloads(log), Pos(s.last), s.marks)
  {
    var ps, at := Payloads(log), Pos(s.last);
    forall k | !Touched(ps, at, s.marks.rows, k)
      ensures Lookup(s.dump.rows, k) == Lookup(RowsAt(ps, at), k)
    {
      assert KindAgrees(s.dump.rows, Kind(k), ps, at, s.marks.rows);
    }
  }

  lemma {:induction false} InstalledReflects(log: seq<Entry>, c: Cluster, s: Build, e: Engine, pos: nat)
    requires Committed(log) && BuildInv(log, c, s) && s.stage == 4 && e == s.dump.(runs := e.runs) && pos <= Pos(s.last)
    ensures Reflects(e, Payloads(log), pos, s.marks)
  {
    DumpIsWhole(log, c, s, e.runs);
    ReflectsBack(e, Payloads(log), pos, Pos(s.last), s.marks);
  }

  lemma {:induction false} InstallKeepsLedger(ps: seq<Payload>, a: Node, s: Build, n: nat, b: Node)
    requires 0 < n <= 3 && Pos(s.last) <= |ps| && exists h :: LedgerAt(a, ps, h)
    requires b.store.durable.engine.runs == a.store.durable.engine.runs
    requires Applied(b.store.durable) == if n <= 1 then Applied(a.store.durable) else s.last
    requires if n == 1 then b.base == a.base && b.from == a.from else b.base == a.store.durable.engine.runs && b.from == Pos(s.last)
    ensures exists h :: LedgerAt(b, ps, h)
  {
    if n == 1 {
      var h: nat :| LedgerAt(a, ps, h);
      assert LedgerAt(b, ps, h);
    } else {
      assert LedgerAt(b, ps, Pos(s.last));
    }
  }

  lemma {:induction false} InstallKeepsInv(log: seq<Entry>, c: Cluster, a: Node, s: Build, n: nat, out: Outcome, b: Node)
    requires Committed(log) && NodeInv(log, a) && BuildInv(log, c, s) && InstallStep(a, s, n, out, b)
    ensures NodeInv(log, b) && Pos(Applied(a.store.durable)) <= Pos(Applied(b.store.durable))
  {
    var ps, d, d' := Payloads(log), a.store.durable, b.store.durable;
    InstallPrefix(d, s, n, d');
    if out == Ok {
      CallTracks(a.store, InstallSnapshot(s.last, s.stored, Some(s.dump)), n, b.store);
    }
    if n == 0 {
      SameEngineKeeps(log, a, b);
    } else {
      InstalledReflects(log, c, s, d'.engine, Pos(Applied(d')));
      InstallKeepsLedger(ps, a, s, n, b);
    }
  }

  lemma {:induction false} NodeStepKeepsInv(log: seq<Entry>, c: Cluster, a: Node, b: Node)
    requires Committed(log) && NodeInv(log, a) && NodeStep(log, c, a, b)
    requires forall j :: 0 <= j < |c.builds| ==> BuildInv(log, c, c.builds[j])
    ensures NodeInv(log, b) && Pos(Applied(a.store.durable)) <= Pos(Applied(b.store.durable))
  {
    if k: nat, n: nat, out :| ApplyStep(log, a, k, n, out, b) {
      ApplyKeepsInv(log, a, k, n, out, b);
    } else if call, n: nat, out :| LogStep(a, call, n, out, b) {
      LogKeepsInv(log, a, call, n, out, b);
    } else if s, n: nat, out :| s in c.builds && InstallStep(a, s, n, out, b) {
      InstallKeepsInv(log, c, a, s, n, out, b);
    } else {
      SameEngineKeeps(log, a, b);
    }
  }

  /** Adding the rows of one kind to a dump of the kinds before it. */
  lemma {:induction false} AddKind(dump: map<RowKey, Blob>, rows: map<RowKey, Blob>, stage: nat, k: RowKey)
    requires (forall x :: x in dump ==> Kind(x) < stage) && Kind(k) <= stage
    ensures Lookup(dump + OfKind(rows, stage), k) == if Kind(k) == stage then Lookup(rows, k) else Lookup(dump, k)
  {
  }

  lemma ThreeKinds(r1: map<RowKey, Blob>, r2: map<RowKey, Blob>, r3: map<RowKey, Blob>, k: RowKey)
    ensures Lookup(map[] + OfKind(r1, 1) + OfKind(r2, 2) + OfKind(r3, 3), k)
         == match k case VectorKey(_) => Lookup(r1, k) case MemoryKey(_) => Lookup(r2, k) case StateKey(_, _) => Lookup(r3, k)
  {
  }

  ghost function Built(i: nat, a: Node, n0: Node, n1: Node, n2: Node, n3: Node): Build {
    Export(Export(Export(Export(Label(i, a), n0), n1), n2), n3)
  }

  lemma {:induction false} BuiltFields(i: nat, a: Node, n0: Node, n1: Node, n2: Node, n3: Node)
    ensures var s := Built(i, a, n0, n1, n2, n3);
            && s.stage == 4 && s.last == a.store.cache.lastApplied && s.stored == a.store.cache.membership
            && s.dump.events == n0.store.durable.engine.events && s.dump.edges == n2.store.durable.engine.edges
            && s.dump.versions == n3.store.durable.engine.versions && s.dump.runs == map[]
            && s.dump.rows == map[] + OfKind(n1.store.durable.engine.rows, 1) + OfKind(n2.store.durable.engine.rows, 2)
                              + OfKind(n3.store.durable.engine.rows, 3)
  {
  }

  /** A finished build: label first, then events, vectors, memories with the graph, and state, each as it was at its own moment. */
  lemma {:induction false} DumpIs(i: nat, a: Node, n0: Node, n1: Node, n2: Node, n3: Node, k: RowKey)
    ensures var s := Built(i, a, n0, n1, n2, n3);
            && s.stage == 4 && s.last == a.store.cache.lastApplied && s.stored == a.store.cache.membership
            && s.dump.events == n0.store.durable.engine.events && s.dump.edges == n2.store.durable.engine.edges
            && s.dump.versions == n3.store.durable.engine.versions && s.dump.runs == map[]
    ensures Lookup(Built(i, a, n0, n1, n2, n3).dump.rows, k)
         == match k
            case VectorKey(_) => Lookup(n1.store.durable.engine.rows, k)
            case MemoryKey(_) => Lookup(n2.store.durable.engine.rows, k)
            case StateKey(_, _) => Lookup(n3.store.durable.engine.rows, k)
  {
    BuiltFields(i, a, n0, n1, n2, n3);
    ThreeKinds(n1.store.durable.engine.rows, n2.store.durable.engine.rows, n3.store.durable.engine.rows, k);
  }

  lemma {:induction false} ExportRow(ps: seq<Payload>, a: Node, s: Build, k: RowKey)
    requires 1 <= s.stage < 4 && RowsExported(ps, s) && Kind(k) < s.stage + 1
    requires Export(s, a).marks.rows <= |ps| && !Touched(ps, Pos(s.last), Export(s, a).marks.rows, k)
    requires RowsAgree(a.store.durable.engine.rows, ps, Pos(s.last), Export(s, a).marks.rows)
    ensures Lookup(Export(s, a).dump.rows, k) == Lookup(RowsAt(ps, Pos(s.last)), k)
  {
    AddKind(s.dump.rows, a.store.durable.engine.rows, s.stage, k);
    if Kind(k) != s.stage {
      assert KindAgrees(s.dump.rows, Kind(k), ps, Pos(s.last), s.marks.rows);
      assert !Touched(ps, Pos(s.last), s.marks.rows, k);
    }
  }

  lemma {:induction false} ExportKind(ps: seq<Payload>, a: Node, s: Build, kind: nat)
    requires 1 <= kind <= s.stage < 4 && RowsExported(ps, s) && s.marks.rows <= Export(s, a).marks.rows <= |ps|
    requires RowsAgree(a.store.durable.engine.rows, ps, Pos(s.last), Export(s, a).marks.rows)
    ensures KindAgrees(Export(s, a).dump.rows, kind, ps, Pos(s.last), Export(s, a).marks.rows)
  {
    forall k | Kind(k) == kind && !Touched(ps, Pos(s.last), Export(s, a).marks.rows, k)
      ensures Lookup(Export(s, a).dump.rows, k) == Lookup(RowsAt(ps, Pos(s.last)), k)
    {
      ExportRow(ps, a, s, k);
    }
  }

  lemma {:induction false} ExportRows(log: seq<Entry>, a: Node, s: Build)
    requires Committed(log) && NodeInv(log, a) && 1 <= s.stage < 4
    requires Pos(s.last) <= Pos(Applied(a.store.durable)) && RowsExported(Payloads(log), s)
    ensures RowsExported(Payloads(log), Export(s, a))
  {
    var b, ps := Export(s, a), Payloads(log);
    RowsBack(a.store.durable.engine.rows, ps, Pos(s.last), Pos(Applied(a.store.durable)), a.marks.rows, b.marks.rows);
    ExportKinds(ps, a, s);
  }

  lemma {:induction false} ExportKinds(ps: seq<Payload>, a: Node, s: Build)
    requires 1 <= s.stage < 4 && RowsExported(ps, s) && s.marks.rows <= Export(s, a).marks.rows <= |ps|
    requires RowsAgree(a.store.durable.engine.rows, ps, Pos(s.last), Export(s, a).marks.rows)
    ensures RowsExported(ps, Export(s, a))
  {
    var b := Export(s, a);
    forall kind: nat | 1 <= kind < b.stage
      ensures KindAgrees(b.dump.rows, kind, ps, Pos(s.last), b.marks.rows)
    {
      ExportKind(ps, a, s, kind);
    }
  }

  lemma {:induction false} ExportKeepsInv(log: seq<Entry>, c: Cluster, s: Build)
    requires Committed(log) && BuildInv(log, c, s) && s.stage < 4 && NodeInv(log, c.nodes[s.node])
    ensures BuildInv(log, c, Export(s, c.nodes[s.node]))
  {
    var a := c.nodes[s.node];
    if 1 <= s.stage {
      ExportRows(log, a, s);
    }
  }

  /** A node's position never goes back, so what was true of a snapshot's label stays true. */
  lemma {:induction false} BuildsSurvive(log: seq<Entry>, a: Cluster, i: nat, n: Node, s: Build)
    requires i < |a.nodes| && BuildInv(log, a, s)
    requires Pos(Applied(a.nodes[i].store.durable)) <= Pos(Applied(n.store.durable))
    ensures BuildInv(log, Cluster(a.nodes[i := n], a.builds), s)
  {
  }

  lemma {:induction false} NodeMoves(log: seq<Entry>, a: Cluster, i: nat, n: Node)
    requires Committed(log) && Inv(log, a) && i < |a.nodes| && NodeStep(log, a, a.nodes[i], n)
    ensures Inv(log, Cluster(a.nodes[i := n], a.builds))
  {
    NodeStepKeepsInv(log, a, a.nodes[i], n);
    forall j | 0 <= j < |a.builds|
      ensures BuildInv(log, Cluster(a.nodes[i := n], a.builds), a.builds[j])
    {
      BuildsSurvive(log, a, i, n, a.builds[j]);
    }
  }

  lemma {:induction false} BuildStarts(log: seq<Entry>, a: Cluster, i: nat)
    requires Committed(log) && Inv(log, a) && i < |a.nodes| && a.nodes[i].running
    ensures Inv(log, Cluster(a.nodes, a.builds + [Label(i, a.nodes[i])]))
  {
    var b := Cluster(a.nodes, a.builds + [Label(i, a.nodes[i])]);
    assert NodeInv(log, a.nodes[i]);
    forall j | 0 <= j < |b.builds|
      ensures BuildInv(log, b, b.builds[j])
    {
      assert j < |a.builds| ==> BuildInv(log, a, a.builds[j]);
    }
  }

  lemma {:induction false} BuildExports(log: seq<Entry>, a: Cluster, j: nat)
    requires Committed(log) && Inv(log, a) && j < |a.builds| && a.builds[j].stage < 4 && a.builds[j].node < |a.nodes|
    ensures Inv(log, Cluster(a.nodes, a.builds[j := Export(a.builds[j], a.nodes[a.builds[j].node])]))
  {
    var b := Cluster(a.nodes, a.builds[j := Export(a.builds[j], a.nodes[a.builds[j].node])]);
    assert BuildInv(log, a, a.builds[j]);
    ExportKeepsInv(log, a, a.builds[j]);
    forall t | 0 <= t < |b.builds|
      ensures BuildInv(log, b, b.builds[t])
    {
      assert BuildInv(log, a, a.builds[t]);
    }
  }

  lemma {:induction false} StepKeepsInv(log: seq<Entry>, a: Cluster, b: Cluster)
    requires Committed(log) && Inv(log, a) && Step(log, a, b)
    ensures Inv(log, b)
  {
    if i: nat :| i < |a.nodes| && |b.nodes| == |a.nodes| && NodeStep(log, a, a.nodes[i], b.nodes[i])
                 && b == Cluster(a.nodes[i := b.nodes[i]], a.builds) {
      NodeMoves(log, a, i, b.nodes[i]);
    } else if i: nat :| i < |a.nodes| && a.nodes[i].running && b == Cluster(a.nodes, a.builds + [Label(i, a.nodes[i])]) {
      BuildStarts(log, a, i);
    } else {
      var j: nat :| j < |a.builds| && a.builds[j].stage < 4 && a.builds[j].node < |a.nodes|
                    && b == Cluster(a.nodes, a.builds[j := Export(a.builds[j], a.nodes[a.builds[j].node])]);
      BuildExports(log, a, j);
    }
  }

  lemma {:induction false} InitInv(log: seq<Entry>, c: Cluster)
    requires Committed(log) && Init(c)
    ensures Inv(log, c)
  {
    var ps := Payloads(log);
    assert RowsAgree(map[], ps, 0, 0);
    forall i | 0 <= i < |c.nodes|
      ensures NodeInv(log, c.nodes[i])
    {
      assert c.nodes[i] in c.nodes;
      assert Exact(c.nodes[i], ps, 0) && LedgerAt(c.nodes[i], ps, 0);
    }
  }

  lemma {:induction false} StepOfRun(log: seq<Entry>, tr: seq<Cluster>, i: nat)
    requires RunOf(log, tr) && i + 1 < |tr|
    ensures Step(log, tr[i], tr[i + 1])
  {
  }

  lemma {:induction false} InvInEveryRun(log: seq<Entry>, tr: seq<Cluster>, i: nat)
    requires Committed(log) && RunOf(log, tr) && i < |tr|
    ensures Inv(log, tr[i])
    decreases i
  {
    if i == 0 {
      InitInv(log, tr[0]);
    } else {
      InvInEveryRun(log, tr, i - 1);
      StepOfRun(log, tr, i - 1);
      StepKeepsInv(log, tr[i - 1], tr[i]);
    }
  }

  // ---------- logs with an entry that straight replay rejects ----------

  lemma {:induction false} AtPrefix(ps: seq<Payload>, g: nat, h: nat)
    requires h <= g <= |ps|
    ensures At(ps[..g], h) == At(ps, h)
  {
    if 0 < h {
      AtPrefix(ps, g, h - 1);
    }
  }

  /** How many leading entries straight replay accepts. */
  ghost function Accepted(ps: seq<Payload>): (g: nat)
    ensures g <= |ps|
  {
    if ps == [] then 0
    else
      var n := |ps| - 1;
      var g := Accepted(ps[..n]);
      if g == n && EventsAfter(EventsAt(ps, n), ps[n]).Some? then n + 1 else g
  }

  lemma {:induction false} AcceptedIs(ps: seq<Payload>)
    ensures Applicable(ps[..Accepted(ps)])
    ensures Accepted(ps) < |ps| ==> EventsAfter(EventsAt(ps, Accepted(ps)), ps[Accepted(ps)]).None?
  {
    var g := Accepted(ps);
    if ps != [] {
      var n := |ps| - 1;
      AcceptedIs(ps[..n]);
      AtPrefix(ps, n, Accepted(ps[..n]));
      if g == |ps| {
        assert ps[..g] == ps && ps[..n][..n] == ps[..n];
        forall i | 0 <= i < |ps|
          ensures EventsAfter(EventsAt(ps, i), ps[i]).Some?
        {
          if i < n {
            AtPrefix(ps, n, i);
            assert EventsAfter(EventsAt(ps[..n], i), ps[..n][i]).Some?;
          }
        }
      } else {
        assert ps[..n][..g] == ps[..g];
      }
    }
  }

  /** The part of a log that can ever be applied. */
  ghost function Good(log: seq<Entry>): seq<Entry> {
    log[..Accepted(Payloads(log))]
  }

  lemma {:induction false} GoodIs(log: seq<Entry>)
    requires Indexed(log)
    ensures Committed(Good(log)) && Payloads(Good(log)) == Payloads(log)[..|Good(log)|]
    ensures |Good(log)| < |log| ==> EventsAfter(EventsAt(Payloads(log), |Good(log)|), log[|Good(log)|].payload).None?
  {
    AcceptedIs(Payloads(log));
    assert Payloads(Good(log)) == Payloads(log)[..|Good(log)|];
  }

  lemma {:induction false} ApplyProgramConcat(a: seq<Entry>, b: seq<Entry>)
    ensures ApplyProgram(a + b) == ApplyProgram(a) + ApplyProgram(b)
  {
    if a == [] {
      assert a + b == b;
    } else {
      assert (a + b)[1..] == a[1..] + b;
      ApplyProgramConcat(a[1..], b);
    }
  }

  lemma {:induction false} FedConcat(a: seq<Entry>, b: seq<Entry>, n: nat)
    requires n <= |ApplyProgram(a)|
    ensures Fed(a + b, n) == Fed(a, n)
    ensures n == |ApplyProgram(a)| ==> Fed(a, n) == |a|
  {
    if a == [] {
    } else {
      assert (a + b)[1..] == a[1..] + b;
      var width := |EntryProgram(a[0])|;
      if 0 < n && width <= n {
        FedConcat(a[1..], b, n - width);
      }
    }
  }

  /** The entry that straight replay rejects is rejected by a node that has applied everything before it. */
  lemma {:induction false} RejectedByAll(log: seq<Entry>, e: Engine, m: Marks)
    requires Indexed(log) && |Good(log)| < |log| && Reflects(e, Payloads(Good(log)), |Good(log)|, m)
    ensures ApplyPayload(e, log[|Good(log)|].payload).None?
  {
    GoodIs(log);
    AtPrefix(Payloads(log), |Good(log)|, |Good(log)|);
  }

  lemma {:induction false} ExecReaches(d: Durable, c: Cache, p: seq<Statement>, w: nat, n: nat)
    requires w < n <= |p| && ExecAll(d, p[..n]).Some?
    ensures ExecAll(d, p[..w]).Some? && Exec(ExecAll(d, p[..w]).value, p[w]).Some?
  {
    assert p[..n] == p[..w + 1] + p[w + 1..n];
    ExecAllConcat(d, p[..w + 1], p[w + 1..n]);
    StepOne(d, c, p, w);
  }

  /** Running every statement of the rest of a log replays it to the end. */
  lemma {:induction false} ProgramReplays(good: seq<Entry>, d: Durable, pos: nat, k: nat, n: nat, mid: Durable)
    requires Indexed(good) && pos == Pos(Applied(d)) && pos + k == |good|
    requires n == |ApplyProgram(good[pos..pos + k])| && Fed(good[pos..pos + k], n) == k
    requires ExecAll(d, ApplyProgram(good[pos..pos + k])[..n]) == Some(mid)
    ensures ReplayFrom(d.engine, Payloads(good), pos, |good|) == Some(mid.engine)
  {
    ApplyFeedsInOrder(good, pos, k, n, d, mid);
  }

  lemma {:induction false} WholeProgram(head: seq<Entry>)
    ensures var n := |ApplyProgram(head)|; ApplyProgram(head)[..n] == ApplyProgram(head) && Fed(head, n) == |head|
  {
    FedConcat(head, [], |ApplyProgram(head)|);
  }

  /** Having run every statement of the good part, the engine rejects the next entry. */
  lemma {:induction false} HeadRejects(log: seq<Entry>, d: Durable, m: Marks, mid: Durable)
    requires Indexed(log) && |Good(log)| < |log| && Reflects(d.engine, Payloads(Good(log)), Pos(Applied(d)), m)
    requires Pos(Applied(d)) <= |Good(log)| && ExecAll(d, ApplyProgram(Good(log)[Pos(Applied(d))..])) == Some(mid)
    ensures ApplyPayload(mid.engine, log[|Good(log)|].payload).None?
  {
    var good, pos := Good(log), Pos(Applied(d));
    GoodIs(log);
    var head := good[pos..];
    assert head == good[pos..pos + |head|];
    HeadReplays(good, d, pos, head, mid);
    ReplayedRejects(log, d.engine, pos, m, mid.engine);
  }

  lemma {:induction false} HeadReplays(good: seq<Entry>, d: Durable, pos: nat, head: seq<Entry>, mid: Durable)
    requires Indexed(good) && pos == Pos(Applied(d)) && pos + |head| == |good| && head == good[pos..pos + |head|]
    requires ExecAll(d, ApplyProgram(head)) == Some(mid)
    ensures ReplayFrom(d.engine, Payloads(good), pos, |good|) == Some(mid.engine)
  {
    WholeProgram(head);
    ProgramReplays(good, d, pos, |head|, |ApplyProgram(head)|, mid);
  }

  lemma {:induction false} ReplayedRejects(log: seq<Entry>, e: Engine, pos: nat, m: Marks, e': Engine)
    requires Indexed(log) && pos <= |Good(log)| < |log| && Reflects(e, Payloads(Good(log)), pos, m)
    requires ReplayFrom(e, Payloads(Good(log)), pos, |Good(log)|) == Some(e')
    ensures ApplyPayload(e', log[|Good(log)|].payload).None?
  {
    GoodIs(log);
    ReplayReflects(e, Payloads(Good(log)), pos, |Good(log)|, m);
    RejectedByAll(log, e', Advance(m, |Good(log)|));
  }

  lemma {:induction false} FirstStatement(e: Entry, engine: Engine)
    requires ApplyPayload(engine, e.payload).None?
    ensures forall d: Durable :: d.engine == engine ==> Exec(d, EntryProgram(e)[0]).None?
  {
    assert e.payload.Normal?;
    assert EntryProgram(e)[0] == ApplyToEngine(e.payload.request);
  }

  /** An apply call that reaches past the good part of the log stops before the entry that is rejected. */
  lemma {:induction false} StopsAtRejected(log: seq<Entry>, d: Durable, m: Marks, head: seq<Entry>, tail: seq<Entry>, n: nat)
    requires Indexed(log) && |Good(log)| < |log| && Reflects(d.engine, Payloads(Good(log)), Pos(Applied(d)), m)
    requires Pos(Applied(d)) <= |Good(log)| && head == Good(log)[Pos(Applied(d))..] && tail != [] && tail[0] == log[|Good(log)|]
    requires n <= |ApplyProgram(head + tail)| && ExecAll(d, ApplyProgram(head + tail)[..n]).Some?
    ensures n <= |ApplyProgram(head)|
  {
    var p, w := ApplyProgram(head + tail), |ApplyProgram(head)|;
    ApplyProgramConcat(head, tail);
    if w < n {
      assert p[..w] == ApplyProgram(head) && p[w] == EntryProgram(tail[0])[0];
      ExecReaches(d, Hydrate(d), p, w, n);
      var mid := ExecAll(d, p[..w]).value;
      HeadRejects(log, d, m, mid);
      FirstStatement(tail[0], mid.engine);
      assert false;
    }
  }

  /** An apply call on more entries, cut off within the first of them, is one on those that a crash cut off. */
  lemma {:induction false} CallWithin(s: Store, head: seq<Entry>, tail: seq<Entry>, n: nat, s': Store, out: Outcome)
    requires CallRel(s, ApplyEntries(head + tail), n, s', out) && tail != [] && n <= |ApplyProgram(head)|
    ensures CallRel(s, ApplyEntries(head), n, s', Crashed) && out != Ok && Fed(head + tail, n) == Fed(head, n)
  {
    ApplyProgramConcat(head, tail);
    FedConcat(head, tail, n);
    ApplyCallRuns(s, head + tail, n, s', out);
    assert ApplyProgram(head + tail)[..n] == ApplyProgram(head)[..n];
    assert |EntryProgram(tail[0])| > 0 && |ApplyProgram(tail)| > 0;
  }

  lemma {:induction false} EffectWithin(a: Node, pos: nat, head: seq<Entry>, tail: seq<Entry>, n: nat, out: Outcome, b: Node)
    requires ApplyEffect(a, pos, head + tail, n, out, b) && tail != [] && n <= |ApplyProgram(head)|
    ensures ApplyEffect(a, pos, head, n, Crashed, b)
  {
    CallWithin(a.store, head, tail, n, b.store, out);
  }

  lemma {:induction false} EffectStops(log: seq<Entry>, a: Node, pos: nat, head: seq<Entry>, tail: seq<Entry>, n: nat, out: Outcome, b: Node)
    requires Indexed(log) && |Good(log)| < |log| && pos == Pos(Applied(a.store.durable)) <= |Good(log)|
    requires Reflects(a.store.durable.engine, Payloads(Good(log)), pos, a.marks) && ApplyEffect(a, pos, head + tail, n, out, b)
    requires head == Good(log)[pos..] && tail != [] && tail[0] == log[|Good(log)|]
    ensures ApplyEffect(a, pos, head, n, Crashed, b)
  {
    ApplyCallRuns(a.store, head + tail, n, b.store, out);
    StopsAtRejected(log, a.store.durable, a.marks, head, tail, n);
    EffectWithin(a, pos, head, tail, n, out, b);
  }

  lemma {:induction false} SliceSplit(log: seq<Entry>, pos: nat, g: nat, e: nat)
    requires pos <= g <= e <= |log|
    ensures log[pos..e] == log[pos..g] + log[g..e] && log[..g][pos..] == log[pos..g] == log[..g][pos..pos + (g - pos)]
  {
  }

  lemma {:induction false} WithinShort(log: seq<Entry>, g: nat, a: Node, k: nat, n: nat, out: Outcome, b: Node)
    requires ApplyStep(log, a, k, n, out, b) && Pos(a.store.cache.lastApplied) + k <= g <= |log|
    ensures ApplyStep(log[..g], a, k, n, out, b)
  {
    var pos := Pos(a.store.cache.lastApplied);
    assert log[pos..pos + k] == log[..g][pos..pos + k];
  }

  lemma {:induction false} StepOfEffect(good: seq<Entry>, a: Node, pos: nat, head: seq<Entry>, n: nat, out: Outcome, b: Node)
    requires a.running && pos == Pos(a.store.cache.lastApplied) && pos + |head| <= |good| && good[pos..pos + |head|] == head
    requires ApplyEffect(a, pos, head, n, out, b)
    ensures ApplyStep(good, a, |head|, n, out, b)
  {
  }

  lemma {:induction false} EffectOfStep(log: seq<Entry>, a: Node, k: nat, n: nat, out: Outcome, b: Node, pos: nat, entries: seq<Entry>)
    requires ApplyStep(log, a, k, n, out, b) && pos == Pos(a.store.cache.lastApplied)
    requires pos + k <= |log| ==> log[pos..pos + k] == entries
    ensures a.running && pos + k <= |log| && ApplyEffect(a, pos, entries, n, out, b)
  {
  }

  /** A batch reaching past the good part has the effect of its good head followed by a crash. */
  lemma {:induction false} LongEffect(log: seq<Entry>, a: Node, k: nat, n: nat, out: Outcome, b: Node, pos: nat, head: seq<Entry>, tail: seq<Entry>)
    requires Indexed(log) && |Good(log)| < |log| && pos == Pos(Applied(a.store.durable)) == Pos(a.store.cache.lastApplied) <= |Good(log)|
    requires Reflects(a.store.durable.engine, Payloads(Good(log)), pos, a.marks) && ApplyStep(log, a, k, n, out, b)
    requires pos + k <= |log| && log[pos..pos + k] == head + tail && head == Good(log)[pos..] && tail != [] && tail[0] == log[|Good(log)|]
    ensures a.running && ApplyEffect(a, pos, head, n, Crashed, b)
  {
    EffectOfStep(log, a, k, n, out, b, pos, head + tail);
    EffectStops(log, a, pos, head, tail, n, out, b);
  }

  lemma {:induction false} StepOfGood(log: seq<Entry>, a: Node, pos: nat, head: seq<Entry>, k: nat, n: nat, b: Node)
    requires a.running && pos == Pos(a.store.cache.lastApplied) <= |Good(log)| && head == Good(log)[pos..] && k == |head|
    requires ApplyEffect(a, pos, head, n, Crashed, b)
    ensures ApplyStep(Good(log), a, k, n, Crashed, b)
  {
    assert Good(log)[pos..pos + |head|] == head;
    StepOfEffect(Good(log), a, pos, head, n, Crashed, b);
  }

  /** A batch that reaches past the good part: its good head, and a tail that begins with the first rejected entry. */
  lemma {:induction false} SplitAtGood(log: seq<Entry>, pos: nat, e: nat) returns (head: seq<Entry>, tail: seq<Entry>)
    requires pos <= |Good(log)| < e <= |log|
    ensures log[pos..e] == head + tail && head == Good(log)[pos..] && |head| == |Good(log)| - pos
    ensures tail != [] && tail[0] == log[|Good(log)|]
  {
    var g := |Good(log)|;
    head, tail := log[pos..g], log[g..e];
    SliceSplit(log, pos, g, e);
  }

  lemma {:induction false} LongStep(log: seq<Entry>, a: Node, k: nat, n: nat, out: Outcome, b: Node, pos: nat, head: seq<Entry>, tail: seq<Entry>)
    requires Indexed(log) && |Good(log)| < |log| && pos == Pos(Applied(a.store.durable)) == Pos(a.store.cache.lastApplied) <= |Good(log)|
    requires Reflects(a.store.durable.engine, Payloads(Good(log)), pos, a.marks) && ApplyStep(log, a, k, n, out, b)
    requires pos + k <= |log| && log[pos..pos + k] == head + tail && head == Good(log)[pos..] && tail != [] && tail[0] == log[|Good(log)|]
    ensures ApplyStep(Good(log), a, |head|, n, Crashed, b)
  {
    LongEffect(log, a, k, n, out, b, pos, head, tail);
    StepOfGood(log, a, pos, head, |head|, n, b);
  }

  lemma {:induction false} WithinLong(log: seq<Entry>, a: Node, k: nat, n: nat, out: Outcome, b: Node, pos: nat) returns (j: nat)
    requires Indexed(log) && pos == Pos(Applied(a.store.durable)) == Pos(a.store.cache.lastApplied) <= |Good(log)| < pos + k <= |log|
    requires Reflects(a.store.durable.engine, Payloads(Good(log)), pos, a.marks) && ApplyStep(log, a, k, n, out, b)
    ensures ApplyStep(Good(log), a, j, n, Crashed, b)
  {
    var head, tail := SplitAtGood(log, pos, pos + k);
    LongStep(log, a, k, n, out, b, pos, head, tail);
    j := |head|;
  }

  lemma {:induction false} StepWithin(log: seq<Entry>, a: Cluster, b: Cluster)
    requires Indexed(log) && Inv(Good(log), a) && Step(log, a, b)
    ensures Step(Good(log), a, b)
  {
    if i: nat :| i < |a.nodes| && |b.nodes| == |a.nodes| && NodeStep(log, a, a.nodes[i], b.nodes[i])
                 && b == Cluster(a.nodes[i := b.nodes[i]], a.builds) {
      NodeStepWithin(log, a, a.nodes[i], b.nodes[i]);
    }
  }

  lemma {:induction false} NodeStepWithin(log: seq<Entry>, c: Cluster, a: Node, b: Node)
    requires Indexed(log) && NodeInv(Good(log), a) && NodeStep(log, c, a, b)
    ensures NodeStep(Good(log), c, a, b)
  {
    if k: nat, n: nat, out :| ApplyStep(log, a, k, n, out, b) {
      var pos, g := Pos(Applied(a.store.durable)), |Good(log)|;
      if pos + k <= g {
        WithinShort(log, g, a, k, n, out, b);
      } else {
        var j := WithinLong(log, a, k, n, out, b, pos);
      }
    }
  }

  /** Every run over a log is a run over its good part: no node ever gets past an entry that straight replay rejects. */
  lemma {:induction false} RunWithin(log: seq<Entry>, tr: seq<Cluster>)
    requires Indexed(log) && RunOf(log, tr)
    ensures RunOf(Good(log), tr)
    decreases |tr|
  {
    if |tr| > 1 {
      var n := |tr| - 1;
      var init := tr[..n];
      assert RunOf(log, init);
      RunWithin(log, init);
      GoodIs(log);
      InvInEveryRun(Good(log), init, n - 1);
      StepOfRun(log, tr, n - 1);
      StepWithin(log, tr[n - 1], tr[n]);
      RunExtends(Good(log), tr);
    }
  }

  lemma {:induction false} RunExtends(log: seq<Entry>, tr: seq<Cluster>)
    requires |tr| > 1 && RunOf(log, tr[..|tr| - 1]) && Step(log, tr[|tr| - 2], tr[|tr| - 1])
    ensures RunOf(log, tr)
  {
    var init := tr[..|tr| - 1];
    forall i | 0 <= i < |tr| - 1
      ensures Step(log, tr[i], tr[i + 1])
    {
      if i < |tr| - 2 {
        StepOfRun(log, init, i);
      }
    }
  }

  // ---------- the theorems ----------

  lemma {:induction false} GoodInEveryRun(log: seq<Entry>, tr: seq<Cluster>, i: nat, n: nat)
    requires Indexed(log) && RunOf(log, tr) && i < |tr| && n < |tr[i].nodes|
    ensures Committed(Good(log)) && NodeInv(Good(log), tr[i].nodes[n]) && Payloads(Good(log)) == Payloads(log)[..|Good(log)|]
    ensures Pos(Applied(tr[i].nodes[n].store.durable)) <= |Good(log)|
  {
    GoodIs(log);
    RunWithin(log, tr);
    InvInEveryRun(Good(log), tr, i);
  }

  /**
   Crash recovery refines straight replay.  In every run over every log, a node that has not installed
   a snapshot has fed its engine the log in order, skipping nothing and repeating only the entry just
   after its durable position, and its stores are those of straight replay at that position or one
   further; it never gets past an entry that straight replay rejects.
   */
  lemma {:induction false} CrashRecovery(log: seq<Entry>, tr: seq<Cluster>, i: nat, n: nat)
    requires Indexed(log) && RunOf(log, tr) && i < |tr| && n < |tr[i].nodes|
    requires !tr[i].nodes[n].installed
    ensures var a := tr[i].nodes[n];
            var pos := Pos(Applied(a.store.durable));
            exists h :: pos <= h <= pos + 1 && h <= Accepted(Payloads(log)) && Stutters(a.fed, h)
                        && SameStores(a.store.durable.engine, At(Payloads(log), h))
  {
    GoodInEveryRun(log, tr, i, n);
    var a, ps := tr[i].nodes[n], Payloads(log);
    var h: nat :| Exact(a, Payloads(Good(log)), h);
    AtPrefix(ps, |Good(log)|, h);
  }

  /**
   Snapshots are harmless to events and rows, and to edges when nothing is superseded.  In every run,
   any two nodes that stand at the same position, past everything their stores had already absorbed,
   hold those of straight replay; so does a single one.
   */
  lemma {:induction false} Convergence(log: seq<Entry>, tr: seq<Cluster>, i: nat, n: nat, m: nat)
    requires Indexed(log) && RunOf(log, tr) && i < |tr| && n < |tr[i].nodes| && m < |tr[i].nodes|
    requires var a, b := tr[i].nodes[n], tr[i].nodes[m];
             Pos(Applied(a.store.durable)) == Pos(Applied(b.store.durable)) && CaughtUp(a) && CaughtUp(b)
    ensures var a, b := tr[i].nodes[n].store.durable, tr[i].nodes[m].store.durable;
            var pos := Pos(Applied(a));
            && pos <= Accepted(Payloads(log))
            && a.engine.events == b.engine.events == At(Payloads(log), pos).events
            && a.engine.rows == b.engine.rows == At(Payloads(log), pos).rows
            && (NoSupersede(Payloads(log)) ==> a.engine.edges == b.engine.edges == At(Payloads(log), pos).edges)
  {
    NodeCaughtUp(log, tr, i, n);
    NodeCaughtUp(log, tr, i, m);
  }

  lemma {:induction false} NodeCaughtUp(log: seq<Entry>, tr: seq<Cluster>, i: nat, n: nat)
    requires Indexed(log) && RunOf(log, tr) && i < |tr| && n < |tr[i].nodes| && CaughtUp(tr[i].nodes[n])
    ensures var a := tr[i].nodes[n].store.durable;
            var pos := Pos(Applied(a));
            && pos <= Accepted(Payloads(log))
            && a.engine.events == At(Payloads(log), pos).events && a.engine.rows == At(Payloads(log), pos).rows
            && (NoSupersede(Payloads(log)) ==> a.engine.edges == At(Payloads(log), pos).edges)
  {
    GoodInEveryRun(log, tr, i, n);
    var a, good := tr[i].nodes[n], Payloads(Good(log));
    var pos := Pos(Applied(a.store.durable));
    ReflectsDone(a.store.durable.engine, good, pos, a.marks);
    AtPrefix(Payloads(log), |Good(log)|, pos);
    if NoSupersede(Payloads(log)) {
      assert NoSupersede(good) by {
        forall j | 0 <= j < |good| && good[j].Normal?
          ensures !good[j].request.GraphSupersede?
        {
          assert good[j] == Payloads(log)[j];
        }
      }
    }
  }

  ghost predicate CaughtUp(a: Node) {
    var pos := Pos(Applied(a.store.durable));
    a.marks.events <= pos && a.marks.rows <= pos && a.marks.edges <= pos
  }

  /**
   The run ledger in every run.  It is the ledger the last install found, replayed from the position
   of that install to the durable position or one further; so it is that of straight replay exactly
   if every run of that ledger, or of the log up to there, is brought together by what was replayed.
   */
  lemma {:induction false} LedgerInEveryRun(log: seq<Entry>, tr: seq<Cluster>, i: nat, n: nat) returns (h: nat)
    requires Indexed(log) && RunOf(log, tr) && i < |tr| && n < |tr[i].nodes|
    ensures var a, ps := tr[i].nodes[n], Payloads(log);
            var pos := Pos(Applied(a.store.durable));
            && a.from <= pos <= h <= pos + 1 && h <= |ps|
            && a.store.durable.engine.runs == ReplayRuns(a.base, ps, a.from, h)
            && (a.store.durable.engine.runs == RunsAt(ps, h)
                <==> forall id :: RunAgrees(ps, a.from, h, id, Lookup(RunsAt(ps, a.from), id), Lookup(a.base, id)))
  {
    GoodInEveryRun(log, tr, i, n);
    var a, ps, g := tr[i].nodes[n], Payloads(log), |Good(log)|;
    h :| LedgerAt(a, ps[..g], h);
    ReplayRunsPrefix(a.base, ps, g, a.from, h);
    LedgerIff(ps, a.from, h, a.base);
  }

  lemma {:induction false} ReplayRunsPrefix(runs: map<Id, Run>, ps: seq<Payload>, g: nat, i: nat, j: nat)
    requires i <= j <= g <= |ps|
    ensures ReplayRuns(runs, ps[..g], i, j) == ReplayRuns(runs, ps, i, j)
    decreases j
  {
    if i < j {
      ReplayRunsPrefix(runs, ps, g, i, j - 1);
    }
  }

  /** If the engine rejects the next entry, no apply call starting there succeeds or writes anything. */
  lemma {:induction false} RejectedGoesNowhere(s: Store, entries: seq<Entry>, n: nat, s': Store, out: Outcome)
    requires entries != [] && ApplyPayload(s.durable.engine, entries[0].payload).None?
    requires CallRel(s, ApplyEntries(entries), n, s', out)
    ensures out != Ok && s'.durable == s.durable
  {
    var e, p := entries[0], ApplyProgram(entries);
    assert e.payload.Normal?;
    assert p[0] == EntryProgram(e)[0] == ApplyToEngine(e.payload.request);
  }

  lemma {:induction false} RejectsIff(log: seq<Entry>, a: Node, pos: nat)
    requires Indexed(log) && Committed(Good(log)) && Payloads(Good(log)) == Payloads(log)[..|Good(log)|]
    requires pos < |log| && pos <= |Good(log)| && Reflects(a.store.durable.engine, Payloads(Good(log)), pos, a.marks)
    ensures ApplyPayload(a.store.durable.engine, log[pos].payload).None?
       <==> (pos < a.marks.events && BulkIngest(log[pos].payload)) || EventsAfter(EventsAt(Payloads(log), pos), log[pos].payload).None?
  {
    var good := Payloads(Good(log));
    AtPrefix(Payloads(log), |good|, pos);
    if pos < |good| {
      RejectedIff(a.store.durable.engine, good, pos, a.marks);
      assert EventsAfter(EventsAt(good, pos), good[pos]).Some?;
    } else {
      GoodIs(log);
    }
  }

  /**
   When a node is stuck.  In every run over every log, the engine rejects a running node's next entry
   exactly when that entry is a bulk ingest its event table already holds or one that straight replay
   rejects too, and then every apply call fails.
   */
  lemma {:induction false} StuckIff(log: seq<Entry>, tr: seq<Cluster>, i: nat, n: nat, a: Node, pos: nat, k: nat, m: nat, s': Store, out: Outcome)
    requires Indexed(log) && RunOf(log, tr) && i < |tr| && n < |tr[i].nodes| && a == tr[i].nodes[n] && a.running
    requires pos == Pos(Applied(a.store.durable)) && 0 < k && pos + k <= |log|
    requires CallRel(a.store, ApplyEntries(log[pos..pos + k]), m, s', out)
    ensures ApplyPayload(a.store.durable.engine, log[pos].payload).None?
       <==> (pos < a.marks.events && BulkIngest(log[pos].payload)) || EventsAfter(EventsAt(Payloads(log), pos), log[pos].payload).None?
    ensures ApplyPayload(a.store.durable.engine, log[pos].payload).None? ==> out != Ok && s'.durable == a.store.durable
  {
    RejectsInRun(log, tr, i, n, a, pos);
    RejectedCall(a.store, log, pos, k, m, s', out);
  }

  lemma {:induction false} RejectsInRun(log: seq<Entry>, tr: seq<Cluster>, i: nat, n: nat, a: Node, pos: nat)
    requires Indexed(log) && RunOf(log, tr) && i < |tr| && n < |tr[i].nodes| && a == tr[i].nodes[n]
    requires pos == Pos(Applied(a.store.durable)) < |log|
    ensures ApplyPayload(a.store.durable.engine, log[pos].payload).None?
       <==> (pos < a.marks.events && BulkIngest(log[pos].payload)) || EventsAfter(EventsAt(Payloads(log), pos), log[pos].payload).None?
  {
    GoodInEveryRun(log, tr, i, n);
    RejectsIff(log, a, pos);
  }

  lemma {:induction false} RejectedCall(s: Store, log: seq<Entry>, pos: nat, k: nat, m: nat, s': Store, out: Outcome)
    requires 0 < k && pos + k <= |log| && CallRel(s, ApplyEntries(log[pos..pos + k]), m, s', out)
    ensures ApplyPayload(s.durable.engine, log[pos].payload).None? ==> out != Ok && s'.durable == s.durable
  {
    assert log[pos..pos + k][0] == log[pos];
    if ApplyPayload(s.durable.engine, log[pos].payload).None? {
      RejectedGoesNowhere(s, log[pos..pos + k], m, s', out);
    }
  }
}
