/**
 The Raft log store: an in-memory cache over two SQLite tables and the engine.

 Every durable write is one atomic statement that succeeds, fails, or is cut short by a crash (in
 which case it may or may not have taken effect).  `Program(c)` is the list of statements a call issues;
 `CallRel` says what disk, engine and cache may look like after the call, however it ended.
 */
module RaftStore {
  import opened Options
  import opened ReplicatedEngine

  type i64 = x: int | -TWO_63 <= x < TWO_63

  /** Rust's `as i64` and `as u64`: the same 64 bits read with and without a sign. */
  function AsI64(x: u64): i64 {
    if x < TWO_63 then x else x - TWO_64
  }

  function AsU64(x: i64): u64 {
    if 0 <= x then x else x + TWO_64
  }

  datatype LogId = LogId(term: u64, node: u64, index: u64)
  datatype Vote = Vote(term: u64, node: u64, committed: bool)
  datatype Entry = Entry(id: LogId, payload: Payload)
  datatype StoredMembership = StoredMembership(logId: Option<LogId>, config: Blob)

  const NO_MEMBERSHIP := StoredMembership(None, "")

  datatype MetaKey = VoteKey | CommittedKey | LastPurgedKey | LastAppliedKey | MembershipKey

  /** A decoded `raft_meta` blob. */
  datatype MetaValue = VoteValue(vote: Vote) | LogIdValue(logId: Option<LogId>) | MembershipValue(stored: StoredMembership)

  datatype Durable = Durable(log: map<i64, Entry>, meta: map<MetaKey, MetaValue>, engine: Engine)

  datatype Cache = Cache(log: map<u64, Entry>,
                         vote: Option<Vote>,
                         committed: Option<LogId>,
                         lastPurged: Option<LogId>,
                         lastApplied: Option<LogId>,
                         membership: StoredMembership)

  datatype Store = Store(durable: Durable, cache: Cache)

  // ---------- hydrate ----------

  function HydrateLog(rows: map<i64, Entry>): map<u64, Entry> {
    map k | k in rows :: AsU64(k) := rows[k]
  }

  function LoadLogId(meta: map<MetaKey, MetaValue>, key: MetaKey): Option<LogId> {
    if key in meta && meta[key].LogIdValue? then meta[key].logId else None
  }

  /** The cache a fresh process rebuilds from SQLite. */
  function Hydrate(d: Durable): Cache {
    Cache(HydrateLog(d.log),
          if VoteKey in d.meta && d.meta[VoteKey].VoteValue? then Some(d.meta[VoteKey].vote) else None,
          LoadLogId(d.meta, CommittedKey),
          LoadLogId(d.meta, LastPurgedKey),
          LoadLogId(d.meta, LastAppliedKey),
          if MembershipKey in d.meta && d.meta[MembershipKey].MembershipValue?
          then d.meta[MembershipKey].stored else NO_MEMBERSHIP)
  }

  /** Cache and disk agree on everything but the applied state. */
  predicate LogAgrees(s: Store) {
    var h := Hydrate(s.durable);
    && s.cache.log == h.log && s.cache.vote == h.vote
    && s.cache.committed == h.committed && s.cache.lastPurged == h.lastPurged
  }

  // ---------- statements ----------

  datatype Statement =
    | PutMeta(key: MetaKey, value: MetaValue)
    | PutEntry(entry: Entry)
    | DeleteFrom(index: u64)
    | DeleteUpto(index: u64)
    | ApplyToEngine(request: Request)
    | RestoreEngine(dump: Engine)

  function RowsBelow(rows: map<i64, Entry>, cut: i64): map<i64, Entry> {
    map k | k in rows && k < cut :: rows[k]
  }

  function RowsAbove(rows: map<i64, Entry>, cut: i64): map<i64, Entry> {
    map k | k in rows && cut < k :: rows[k]
  }

  function Below(log: map<u64, Entry>, cut: u64): map<u64, Entry> {
    map k | k in log && k < cut :: log[k]
  }

  function Above(log: map<u64, Entry>, cut: u64): map<u64, Entry> {
    map k | k in log && cut < k :: log[k]
  }

  /** The durable effect; `None` when the engine rejects the request. */
  function Exec(d: Durable, st: Statement): Option<Durable> {
    match st
    case PutMeta(key, value) => Some(d.(meta := d.meta[key := value]))
    case PutEntry(entry) => Some(d.(log := d.log[AsI64(entry.id.index) := entry]))
    case DeleteFrom(index) => Some(d.(log := RowsBelow(d.log, AsI64(index))))
    case DeleteUpto(index) => Some(d.(log := RowsAbove(d.log, AsI64(index))))
    case ApplyToEngine(request) =>
      var e := ApplyPayload(d.engine, Normal(request));
      if e.None? then None else Some(d.(engine := e.value))
    case RestoreEngine(dump) => Some(d.(engine := dump.(runs := d.engine.runs)))
  }

  function ExecAll(d: Durable, program: seq<Statement>): Option<Durable>
    decreases |program|
  {
    if program == [] then Some(d)
    else
      var next := Exec(d, program[0]);
      if next.None? then None else ExecAll(next.value, program[1..])
  }

  /** The cache update that goes with a statement. */
  function Mirror(c: Cache, st: Statement): Cache {
    match st
    case PutMeta(VoteKey, VoteValue(v)) => c.(vote := Some(v))
    case PutMeta(CommittedKey, LogIdValue(id)) => c.(committed := id)
    case PutMeta(LastPurgedKey, LogIdValue(id)) => c.(lastPurged := id)
    case PutMeta(LastAppliedKey, LogIdValue(id)) => c.(lastApplied := id)
    case PutMeta(MembershipKey, MembershipValue(m)) => c.(membership := m)
    case PutEntry(entry) => c.(log := c.log[entry.id.index := entry])
    case DeleteFrom(index) => c.(log := Below(c.log, index))
    case DeleteUpto(index) => c.(log := Above(c.log, index))
    case _ => c
  }

  function MirrorAll(c: Cache, program: seq<Statement>): Cache
    decreases |program|
  {
    if program == [] then c else MirrorAll(Mirror(c, program[0]), program[1..])
  }

  // ---------- calls ----------

  datatype Call =
    | SaveVote(vote: Vote)
    | SaveCommitted(committed: Option<LogId>)
    | AppendToLog(entries: seq<Entry>)
    | DeleteConflictsSince(logId: LogId)
    | PurgeUpto(logId: LogId)
    | ApplyEntries(entries: seq<Entry>)
    | InstallSnapshot(last: Option<LogId>, stored: StoredMembership, data: Option<Engine>)

  datatype Outcome = Ok | Err | Crashed

  function AppendProgram(entries: seq<Entry>): seq<Statement> {
    seq(|entries|, i requires 0 <= i < |entries| => PutEntry(entries[i]))
  }

  /** The effect first, the `last_applied` mark second. */
  function EntryProgram(e: Entry): seq<Statement> {
    (match e.payload
     case Blank => []
     case Normal(request) => [ApplyToEngine(request)]
     case Membership(config) => [PutMeta(MembershipKey, MembershipValue(StoredMembership(Some(e.id), config)))])
    + [PutMeta(LastAppliedKey, LogIdValue(Some(e.id)))]
  }

  function ApplyProgram(entries: seq<Entry>): seq<Statement> {
    if entries == [] then [] else EntryProgram(entries[0]) + ApplyProgram(entries[1..])
  }

  function Program(c: Call): seq<Statement> {
    match c
    case SaveVote(v) => [PutMeta(VoteKey, VoteValue(v))]
    case SaveCommitted(id) => [PutMeta(CommittedKey, LogIdValue(id))]
    case AppendToLog(entries) => AppendProgram(entries)
    case DeleteConflictsSince(id) => [DeleteFrom(id.index)]
    case PurgeUpto(id) => [PutMeta(LastPurgedKey, LogIdValue(Some(id))), DeleteUpto(id.index)]
    case ApplyEntries(entries) => ApplyProgram(entries)
    case InstallSnapshot(last, stored, data) =>
      (if data.Some? then [RestoreEngine(data.value)] else [])
      + [PutMeta(LastAppliedKey, LogIdValue(last)), PutMeta(MembershipKey, MembershipValue(stored))]
  }

  /** A snapshot that names a last log id but carries no data is turned away. */
  predicate Refused(c: Call) {
    c.InstallSnapshot? && c.last.Some? && c.data.None?
  }

  /**
   The cache after `n` statements of `c`.  It mirrors them one by one, except that the membership
   branch of apply and the whole of install update memory before they write.
   */
  function CacheAt(cache: Cache, c: Call, n: nat): Cache
    requires n <= |Program(c)|
  {
    var p := Program(c);
    var mirrored := MirrorAll(cache, p[..n]);
    if n == |p| then mirrored
    else if c.ApplyEntries? && p[n].PutMeta? && p[n].key == MembershipKey then Mirror(mirrored, p[n])
    else if c.InstallSnapshot? && (c.data.Some? ==> 0 < n) then MirrorAll(mirrored, p[n..])
    else mirrored
  }

  /** `s'` is a state the call `c` may leave behind after exactly `n` durable statements. */
  predicate CallRel(s: Store, c: Call, n: nat, s': Store, out: Outcome) {
    && n <= |Program(c)|
    && ExecAll(s.durable, Program(c)[..n]) == Some(s'.durable)
    && (Refused(c) ==> out != Ok && n == 0 && (out == Err ==> s' == s))
    && (!Refused(c) && out == Ok ==> n == |Program(c)|)
    && (!Refused(c) && out == Err ==> n < |Program(c)|)
    && (!Refused(c) && out != Crashed ==> s'.cache == CacheAt(s.cache, c, n))
  }

  // ---------- programs and caches, statement by statement ----------

  lemma {:induction false} ExecAllConcat(d: Durable, p: seq<Statement>, q: seq<Statement>)
    ensures var mid := ExecAll(d, p);
            ExecAll(d, p + q) == if mid.None? then None else ExecAll(mid.value, q)
    decreases |p|
  {
    if p == [] {
      assert p + q == q;
    } else {
      assert (p + q)[1..] == p[1..] + q;
      var next := Exec(d, p[0]);
      if next.Some? {
        ExecAllConcat(next.value, p[1..], q);
      }
    }
  }

  lemma {:induction false} MirrorAllConcat(c: Cache, p: seq<Statement>, q: seq<Statement>)
    ensures MirrorAll(c, p + q) == MirrorAll(MirrorAll(c, p), q)
    decreases |p|
  {
    if p == [] {
      assert p + q == q;
    } else {
      assert (p + q)[1..] == p[1..] + q;
      MirrorAllConcat(Mirror(c, p[0]), p[1..], q);
    }
  }

  /** One statement further. */
  lemma {:induction false} StepOne(d: Durable, c: Cache, p: seq<Statement>, n: nat)
    requires n < |p|
    ensures var mid := ExecAll(d, p[..n]);
            ExecAll(d, p[..n + 1]) == if mid.None? then None else Exec(mid.value, p[n])
    ensures MirrorAll(c, p[..n + 1]) == Mirror(MirrorAll(c, p[..n]), p[n])
  {
    assert p[..n + 1] == p[..n] + [p[n]];
    ExecAllConcat(d, p[..n], [p[n]]);
    MirrorAllConcat(c, p[..n], [p[n]]);
    assert [p[n]][1..] == [];
    var mid := ExecAll(d, p[..n]);
    if mid.Some? {
      var next := Exec(mid.value, p[n]);
      assert ExecAll(mid.value, [p[n]]) == next;
    }
  }

  // ---------- cache equals disk ----------

  /** A metadata blob always holds the type its key calls for. */
  predicate WellTyped(st: Statement) {
    st.PutMeta? ==>
      match st.key
      case VoteKey => st.value.VoteValue?
      case MembershipKey => st.value.MembershipValue?
      case _ => st.value.LogIdValue?
  }

  /** The signed comparison SQLite makes on the cast index is the unsigned one made on the cache. */
  predicate CutIsSigned(rows: map<u64, Entry>, index: u64) {
    forall k: u64 :: k in rows ==> (k < index <==> AsI64(k) < AsI64(index))
  }

  predicate SafeCut(d: Durable, st: Statement) {
    st.DeleteFrom? || st.DeleteUpto? ==> CutIsSigned(HydrateLog(d.log), st.index)
  }

  lemma {:induction false} HydrateLookup(rows: map<i64, Entry>, k: u64)
    ensures k in HydrateLog(rows) <==> AsI64(k) in rows
    ensures k in HydrateLog(rows) ==> HydrateLog(rows)[k] == rows[AsI64(k)]
  {
    assert AsU64(AsI64(k)) == k;
  }

  lemma {:induction false} PutLookup(rows: map<i64, Entry>, index: u64, e: Entry, k: u64)
    ensures Lookup(HydrateLog(rows)[index := e], k) == Lookup(HydrateLog(rows[AsI64(index) := e]), k)
  {
    HydrateLookup(rows, k);
    HydrateLookup(rows[AsI64(index) := e], k);
  }

  lemma {:induction false} PutIsHydrate(rows: map<i64, Entry>, index: u64, e: Entry)
    ensures HydrateLog(rows)[index := e] == HydrateLog(rows[AsI64(index) := e])
  {
    var cached, stored := HydrateLog(rows)[index := e], HydrateLog(rows[AsI64(index) := e]);
    forall k: u64
      ensures Lookup(cached, k) == Lookup(stored, k)
    {
      PutLookup(rows, index, e, k);
    }
    LookupsEqual(cached, stored);
  }

  lemma {:induction false} CutLookup(rows: map<i64, Entry>, index: u64, k: u64)
    requires CutIsSigned(HydrateLog(rows), index)
    ensures Lookup(Below(HydrateLog(rows), index), k) == Lookup(HydrateLog(RowsBelow(rows, AsI64(index))), k)
    ensures Lookup(Above(HydrateLog(rows), index), k) == Lookup(HydrateLog(RowsAbove(rows, AsI64(index))), k)
  {
    HydrateLookup(rows, k);
    HydrateLookup(RowsBelow(rows, AsI64(index)), k);
    HydrateLookup(RowsAbove(rows, AsI64(index)), k);
  }

  lemma {:induction false} CutIsHydrate(rows: map<i64, Entry>, index: u64)
    requires CutIsSigned(HydrateLog(rows), index)
    ensures Below(HydrateLog(rows), index) == HydrateLog(RowsBelow(rows, AsI64(index)))
    ensures Above(HydrateLog(rows), index) == HydrateLog(RowsAbove(rows, AsI64(index)))
  {
    var kept, rest := HydrateLog(RowsBelow(rows, AsI64(index))), HydrateLog(RowsAbove(rows, AsI64(index)));
    forall k: u64
      ensures Lookup(Below(HydrateLog(rows), index), k) == Lookup(kept, k)
      ensures Lookup(Above(HydrateLog(rows), index), k) == Lookup(rest, k)
    {
      CutLookup(rows, index, k);
    }
    LookupsEqual(Below(HydrateLog(rows), index), kept);
    LookupsEqual(Above(HydrateLog(rows), index), rest);
  }

  lemma {:induction false} MirrorIsHydrate(d: Durable, st: Statement)
    requires WellTyped(st) && SafeCut(d, st) && Exec(d, st).Some?
    ensures Mirror(Hydrate(d), st) == Hydrate(Exec(d, st).value)
  {
    match st
    case PutEntry(e) => PutIsHydrate(d.log, e.id.index, e);
    case DeleteFrom(index) => CutIsHydrate(d.log, index);
    case DeleteUpto(index) => CutIsHydrate(d.log, index);
    case _ =>
  }

  predicate IsCut(st: Statement) {
    st.DeleteFrom? || st.DeleteUpto?
  }

  /** After a cut, cache and disk keep the same log exactly when every comparison came out the same. */
  lemma {:induction false} CutAgreesIff(d: Durable, st: Statement)
    requires IsCut(st)
    ensures Mirror(Hydrate(d), st) == Hydrate(Exec(d, st).value) <==> CutIsSigned(HydrateLog(d.log), st.index)
  {
    var after := Exec(d, st).value;
    if CutIsSigned(HydrateLog(d.log), st.index) {
      MirrorIsHydrate(d, st);
    } else {
      var k: u64 :| k in HydrateLog(d.log) && !(k < st.index <==> AsI64(k) < AsI64(st.index));
      HydrateLookup(d.log, k);
      HydrateLookup(after.log, k);
      assert k in Mirror(Hydrate(d), st).log <==> if st.DeleteFrom? then k < st.index else st.index < k;
      assert k in HydrateLog(after.log) <==> if st.DeleteFrom? then AsI64(k) < AsI64(st.index) else AsI64(st.index) < AsI64(k);
    }
  }

  /** The cut a call makes, if any, compares the cached indices as SQLite compares the stored ones. */
  predicate CutAgrees(log: map<u64, Entry>, c: Call) {
    c.DeleteConflictsSince? || c.PurgeUpto? ==> CutIsSigned(log, c.logId.index)
  }

  lemma {:induction false} ApplyProgramTyped(entries: seq<Entry>)
    ensures forall st :: st in ApplyProgram(entries) ==>
              WellTyped(st) && (st.ApplyToEngine? || (st.PutMeta? && st.key in {LastAppliedKey, MembershipKey}))
  {
    if entries != [] {
      ApplyProgramTyped(entries[1..]);
    }
  }

  /** Only truncate and purge cut the log, and the cut is their last statement. */
  lemma {:induction false} ProgramTyped(c: Call)
    ensures forall st :: st in Program(c) ==> WellTyped(st)
    ensures forall n :: 0 <= n < |Program(c)| && IsCut(Program(c)[n]) ==> n == |Program(c)| - 1
    ensures c.DeleteConflictsSince? || c.PurgeUpto? <==> Program(c) != [] && IsCut(Program(c)[|Program(c)| - 1])
    ensures c.DeleteConflictsSince? || c.PurgeUpto? ==> Program(c)[|Program(c)| - 1].index == c.logId.index
  {
    if c.ApplyEntries? {
      ApplyProgramTyped(c.entries);
      forall n | 0 <= n < |Program(c)|
        ensures !IsCut(Program(c)[n])
      {
        assert Program(c)[n] in ApplyProgram(c.entries);
      }
    }
  }

  lemma {:induction false} MirrorAllIsHydrate(d: Durable, p: seq<Statement>)
    requires forall st :: st in p ==> WellTyped(st) && !IsCut(st)
    requires ExecAll(d, p).Some?
    ensures MirrorAll(Hydrate(d), p) == Hydrate(ExecAll(d, p).value)
    decreases |p|
  {
    if p != [] {
      assert p[0] in p;
      MirrorIsHydrate(d, p[0]);
      MirrorAllIsHydrate(Exec(d, p[0]).value, p[1..]);
    }
  }

  /** Only the applied state of the cache depends on statements that are written after it. */
  lemma {:induction false} AppliedOnly(c: Cache, p: seq<Statement>)
    requires forall st :: st in p ==> st.RestoreEngine? || (st.PutMeta? && st.key in {LastAppliedKey, MembershipKey})
    ensures var after := MirrorAll(c, p);
            after == c.(lastApplied := after.lastApplied, membership := after.membership)
    decreases |p|
  {
    if p != [] {
      AppliedOnly(Mirror(c, p[0]), p[1..]);
    }
  }

  /** What an interrupted call leaves in the cache differs from the mirrored statements in applied state only. */
  lemma {:induction false} CacheAtLog(cache: Cache, c: Call, n: nat)
    requires n <= |Program(c)|
    ensures var at, mirrored := CacheAt(cache, c, n), MirrorAll(cache, Program(c)[..n]);
            && at == mirrored.(lastApplied := at.lastApplied, membership := at.membership)
            && (n == |Program(c)| || (!c.ApplyEntries? && !c.InstallSnapshot?) ==> at == mirrored)
  {
    var p := Program(c);
    if n < |p| && c.InstallSnapshot? {
      AppliedOnly(MirrorAll(cache, p[..n]), p[n..]);
    }
  }

  /** Up to its cut a call mirrors what it writes. */
  lemma {:induction false} BeforeCut(s: Store, c: Call, n: nat, d: Durable)
    requires s.cache == Hydrate(s.durable) && n <= |Program(c)| && ExecAll(s.durable, Program(c)[..n]) == Some(d)
    requires n < |Program(c)| || !(c.DeleteConflictsSince? || c.PurgeUpto?)
    ensures MirrorAll(s.cache, Program(c)[..n]) == Hydrate(d)
  {
    var p := Program(c);
    ProgramTyped(c);
    forall st | st in p[..n]
      ensures WellTyped(st) && !IsCut(st)
    {
      var i :| 0 <= i < n && p[i] == st;
    }
    MirrorAllIsHydrate(s.durable, p[..n]);
  }

  /** A cut call carried through mirrors what it wrote exactly if the comparisons agree. */
  lemma {:induction false} AfterCut(s: Store, c: Call, d: Durable)
    requires s.cache == Hydrate(s.durable) && (c.DeleteConflictsSince? || c.PurgeUpto?) && ExecAll(s.durable, Program(c)) == Some(d)
    ensures MirrorAll(s.cache, Program(c)) == Hydrate(d) <==> CutAgrees(s.cache.log, c)
  {
    var p := Program(c);
    var n := |p| - 1;
    assert p[..n + 1] == p;
    StepOne(s.durable, s.cache, p, n);
    var mid := ExecAll(s.durable, p[..n]).value;
    BeforeCut(s, c, n, mid);
    assert mid.log == s.durable.log by {
      ExecPair(s.durable, p[..n]);
    }
    CutAgreesIff(mid, p[n]);
  }

  lemma {:induction false} DurablePrefix(s: Store, c: Call, n: nat, d: Durable)
    requires s.cache == Hydrate(s.durable) && CutAgrees(s.cache.log, c)
    requires n <= |Program(c)| && ExecAll(s.durable, Program(c)[..n]) == Some(d)
    ensures MirrorAll(s.cache, Program(c)[..n]) == Hydrate(d)
  {
    if n == |Program(c)| && (c.DeleteConflictsSince? || c.PurgeUpto?) {
      assert Program(c)[..n] == Program(c);
      AfterCut(s, c, d);
    } else {
      BeforeCut(s, c, n, d);
    }
  }

  /**
   Cache equals disk.  From a cache that is exactly what `hydrate` would rebuild, every call that
   fails part way leaves log, vote, committed and last_purged equal to disk, and every call that
   succeeds leaves the whole cache equal to disk, a truncation or purge exactly if its comparisons
   on the cast index agree.
   */
  lemma {:induction false} CacheEqualsDisk(s: Store, c: Call, n: nat, s': Store, out: Outcome)
    requires s.cache == Hydrate(s.durable) && CallRel(s, c, n, s', out)
    ensures out == Ok ==> (s'.cache == Hydrate(s'.durable) <==> CutAgrees(s.cache.log, c))
    ensures out == Err ==> LogAgrees(s')
    ensures out == Err && !c.ApplyEntries? && !c.InstallSnapshot? ==> s'.cache == Hydrate(s'.durable)
  {
    if out != Crashed && !Refused(c) {
      CacheAtLog(s.cache, c, n);
      if out == Ok && (c.DeleteConflictsSince? || c.PurgeUpto?) {
        assert Program(c)[..n] == Program(c);
        AfterCut(s, c, s'.durable);
      } else {
        BeforeCut(s, c, n, s'.durable);
      }
    }
  }

  /** The next write of an apply is one that memory has already seen. */
  predicate MembershipPending(c: Call, n: nat) {
    c.ApplyEntries? && n < |Program(c)| && Program(c)[n].PutMeta? && Program(c)[n].key == MembershipKey
  }

  /** An install that has restored the engine has already put the snapshot's applied state in memory. */
  predicate InstallPending(c: Call, n: nat) {
    c.InstallSnapshot? && (c.data.Some? ==> 0 < n)
  }

  /**
   When memory runs ahead.  After an error at statement `n` the cache is what disk holds exactly if
   the membership about to be written, or the snapshot's position and membership, is there already.
   */
  lemma {:induction false} AgreesAfterErrorIff(s: Store, c: Call, n: nat, s': Store)
    requires s.cache == Hydrate(s.durable) && CallRel(s, c, n, s', Err) && !Refused(c)
    ensures var h := Hydrate(s'.durable);
            s'.cache == h <==>
              && (MembershipPending(c, n) ==> Program(c)[n].value == MembershipValue(h.membership))
              && (InstallPending(c, n) ==> c.last == h.lastApplied && c.stored == h.membership)
  {
    BeforeCut(s, c, n, s'.durable);
    CacheAtLog(s.cache, c, n);
    ProgramTyped(c);
    if InstallPending(c, n) {
      InstallCache(s.cache, c, n);
      InstallKeepsRest(s.cache, c, n);
    }
    if MembershipPending(c, n) {
      assert Program(c)[n] in Program(c);
    }
  }

  lemma {:induction false} InstallKeepsRest(cache: Cache, c: Call, n: nat)
    requires c.InstallSnapshot? && n <= |Program(c)|
    ensures var at := MirrorAll(cache, Program(c)[..n]); at == cache.(lastApplied := at.lastApplied, membership := at.membership)
  {
    AppliedOnly(cache, Program(c)[..n]);
  }

  /** Memory first: a failed membership write leaves a cache that disk knows nothing of. */
  lemma {:induction false} MembershipRunsAhead(id: LogId, config: Blob, s': Store)
    requires StoredMembership(Some(id), config) != NO_MEMBERSHIP
    requires var d := Durable(map[], map[], EMPTY);
             CallRel(Store(d, Hydrate(d)), ApplyEntries([Entry(id, Membership(config))]), 0, s', Err)
    ensures s'.cache != Hydrate(s'.durable) && LogAgrees(s')
  {
    var e, d := Entry(id, Membership(config)), Durable(map[], map[], EMPTY);
    var c := ApplyEntries([e]);
    assert [e][1..] == [] && ApplyProgram([e]) == EntryProgram(e);
    assert Program(c)[0] == PutMeta(MembershipKey, MembershipValue(StoredMembership(Some(id), config)));
    AgreesAfterErrorIff(Store(d, Hydrate(d)), c, 0, s');
    CacheEqualsDisk(Store(d, Hydrate(d)), c, 0, s', Err);
  }

  // ---------- what each call comes to ----------

  /** The entries put into the log one after another. */
  function InsertAll(log: map<u64, Entry>, entries: seq<Entry>): map<u64, Entry> {
    if entries == [] then log
    else
      var last := entries[|entries| - 1];
      InsertAll(log, entries[..|entries| - 1])[last.id.index := last]
  }

  /** The last of the entries with this index. */
  function LastEntryAt(entries: seq<Entry>, k: u64): (r: Option<Entry>)
    ensures r.Some? ==> r.value in entries && r.value.id.index == k
    ensures r.None? <==> forall e :: e in entries ==> e.id.index != k
  {
    if entries == [] then None
    else
      var last := entries[|entries| - 1];
      assert entries == entries[..|entries| - 1] + [last];
      if last.id.index == k then Some(last) else LastEntryAt(entries[..|entries| - 1], k)
  }

  /** The last entry appended at an index is the one there; every other index keeps what it had. */
  lemma {:induction false} InsertAllAt(log: map<u64, Entry>, entries: seq<Entry>, k: u64)
    ensures var last := LastEntryAt(entries, k);
            Lookup(InsertAll(log, entries), k) == if last.Some? then last else Lookup(log, k)
  {
    if entries != [] {
      InsertAllAt(log, entries[..|entries| - 1], k);
    }
  }

  lemma {:induction false} AppendIs(d: Durable, c: Cache, entries: seq<Entry>, n: nat)
    requires n <= |entries|
    ensures ExecAll(d, AppendProgram(entries)[..n]).Some?
    ensures var d' := ExecAll(d, AppendProgram(entries)[..n]).value;
            d' == d.(log := d'.log) && HydrateLog(d'.log) == InsertAll(HydrateLog(d.log), entries[..n])
    ensures MirrorAll(c, AppendProgram(entries)[..n]) == c.(log := InsertAll(c.log, entries[..n]))
  {
    if 0 < n {
      AppendIs(d, c, entries, n - 1);
      StepOne(d, c, AppendProgram(entries), n - 1);
      var before := ExecAll(d, AppendProgram(entries)[..n - 1]).value;
      PutIsHydrate(before.log, entries[n - 1].id.index, entries[n - 1]);
      assert entries[..n][..n - 1] == entries[..n - 1];
    }
  }

  lemma {:induction false} ExecThree(d: Durable, q: seq<Statement>)
    requires |q| == 3 && Exec(d, q[0]).Some?
    ensures ExecAll(d, q) == ExecAll(Exec(d, q[0]).value, [q[1], q[2]])
  {
    assert q[1..] == [q[1], q[2]];
  }

  /** An install carried through: engine, position and membership are the snapshot's, all else is as it was. */
  lemma {:induction false} InstallIs(d: Durable, last: Option<LogId>, stored: StoredMembership, data: Option<Engine>, d': Durable)
    requires ExecAll(d, Program(InstallSnapshot(last, stored, data))) == Some(d')
    ensures d'.log == d.log && d'.engine == if data.Some? then data.value.(runs := d.engine.runs) else d.engine
    ensures forall k :: k != LastAppliedKey && k != MembershipKey ==> Lookup(d'.meta, k) == Lookup(d.meta, k)
    ensures Hydrate(d') == Hydrate(d).(lastApplied := last, membership := stored)
  {
    var p := Program(InstallSnapshot(last, stored, data));
    var puts := [PutMeta(LastAppliedKey, LogIdValue(last)), PutMeta(MembershipKey, MembershipValue(stored))];
    var mid := if data.Some? then d.(engine := data.value.(runs := d.engine.runs)) else d;
    if data.Some? {
      ExecThree(d, p);
      assert [p[1], p[2]] == puts;
    } else {
      assert p == puts;
    }
    ExecPair(mid, puts);
  }

  /** Everything but the log is as it was. */
  predicate OnlyLog(s: Store, s': Store) {
    s'.cache == s.cache.(log := s'.cache.log) && s'.durable == s.durable.(log := s'.durable.log)
  }

  /** An append that returns has put an initial run of its entries into cache and table, all of them on success. */
  lemma {:induction false} AppendEffect(s: Store, entries: seq<Entry>, n: nat, s': Store, out: Outcome)
    requires CallRel(s, AppendToLog(entries), n, s', out) && out != Crashed
    ensures n <= |entries| && (out == Ok ==> n == |entries|) && OnlyLog(s, s')
    ensures s'.cache.log == InsertAll(s.cache.log, entries[..n]) && HydrateLog(s'.durable.log) == InsertAll(HydrateLog(s.durable.log), entries[..n])
  {
    AppendIs(s.durable, s.cache, entries, n);
  }

  /** A purge carried through marks the point given and drops exactly what is at or below it. */
  lemma {:induction false} PurgeEffect(s: Store, id: LogId, n: nat, s': Store)
    requires CallRel(s, PurgeUpto(id), n, s', Ok)
    ensures s'.cache == s.cache.(lastPurged := Some(id), log := map k | k in s.cache.log && id.index < k :: s.cache.log[k])
    ensures s'.durable.engine == s.durable.engine && s'.durable.log == map k | k in s.durable.log && AsI64(id.index) < k :: s.durable.log[k]
    ensures Lookup(s'.durable.meta, LastPurgedKey) == Some(LogIdValue(Some(id)))
    ensures forall k :: k != LastPurgedKey ==> Lookup(s'.durable.meta, k) == Lookup(s.durable.meta, k)
  {
    var p := Program(PurgeUpto(id));
    assert p[..n] == p;
    ExecPair(s.durable, p);
    MirrorPair(s.cache, p);
  }

  /** Cut off after its first statement, a purge has set the mark and dropped nothing. */
  lemma {:induction false} PurgeHalf(s: Store, id: LogId, s': Store, out: Outcome)
    requires CallRel(s, PurgeUpto(id), 1, s', out)
    ensures s'.durable == s.durable.(meta := s.durable.meta[LastPurgedKey := LogIdValue(Some(id))])
    ensures out == Err ==> s'.cache == s.cache.(lastPurged := Some(id))
  {
    var p := Program(PurgeUpto(id));
    ExecPair(s.durable, p[..1]);
    MirrorPair(s.cache, p[..1]);
  }

  /** Disk, read back, and cache both changed in the same way, and neither the log rows nor the engine did. */
  ghost predicate MetaChanged(s: Store, s': Store, key: MetaKey, change: Cache -> Cache) {
    && s'.cache == change(s.cache) && OnlyKey(s.durable, s'.durable, key)
    && Hydrate(s'.durable) == change(Hydrate(s.durable))
  }

  predicate OnlyKey(d: Durable, d': Durable, key: MetaKey) {
    d'.log == d.log && d'.engine == d.engine && forall k :: k != key ==> Lookup(d'.meta, k) == Lookup(d.meta, k)
  }

  // ---------- the store itself ----------

  class MemStore {
    var log: map<i64, Entry>
    var meta: map<MetaKey, MetaValue>
    var engine: Engine
    var cache: Cache

    function View(): Store
      reads this
    {
      Store(Durable(log, meta, engine), cache)
    }

    /** Opens the database: an empty cache, then `hydrate`. */
    constructor (rows: map<i64, Entry>, blobs: map<MetaKey, MetaValue>, engine: Engine)
      ensures View().durable == Durable(rows, blobs, engine)
      ensures View().cache == Hydrate(View().durable)
    {
      this.log, this.meta, this.engine := rows, blobs, engine;
      cache := Cache(map[], None, None, None, None, NO_MEMBERSHIP);
      new;
      HydrateCache();
    }

    /** Reload after a crash; whatever the old process had cached is gone. */
    method Reopen()
      modifies this`cache
      ensures View() == Store(old(View()).durable, Hydrate(old(View()).durable))
    {
      cache := Cache(map[], None, None, None, None, NO_MEMBERSHIP);
      HydrateCache();
    }

    method HydrateCache()
      requires cache == Cache(map[], None, None, None, None, NO_MEMBERSHIP)
      modifies this`cache
      ensures View() == Store(old(View()).durable, Hydrate(old(View()).durable))
    {
      var read := LoadLog(log);
      cache := cache.(log := read);
      if VoteKey in meta {
        cache := cache.(vote := if meta[VoteKey].VoteValue? then Some(meta[VoteKey].vote) else None);
      }
      cache := cache.(committed := LoadLogId(meta, CommittedKey));
      cache := cache.(lastPurged := LoadLogId(meta, LastPurgedKey));
      cache := cache.(lastApplied := LoadLogId(meta, LastAppliedKey));
      if MembershipKey in meta && meta[MembershipKey].MembershipValue? {
        cache := cache.(membership := meta[MembershipKey].stored);
      }
    }

    /** The row loop of `hydrate`. */
    static method LoadLog(rows: map<i64, Entry>) returns (read: map<u64, Entry>)
      ensures read == HydrateLog(rows)
    {
      var todo := rows.Keys;
      read := map[];
      while todo != {}
        invariant todo <= rows.Keys
        invariant forall k: u64 :: k in read <==> AsI64(k) in rows && AsI64(k) !in todo
        invariant forall k: u64 :: k in read ==> read[k] == rows[AsI64(k)]
        decreases |todo|
      {
        var idx :| idx in todo;
        assert forall k: u64 :: AsI64(k) == idx <==> k == AsU64(idx);
        read := read[AsU64(idx) := rows[idx]];
        todo := todo - {idx};
      }
      forall k: u64
        ensures Lookup(read, k) == Lookup(HydrateLog(rows), k)
      {
        HydrateLookup(rows, k);
      }
      LookupsEqual(read, HydrateLog(rows));
    }

    /** One SQLite statement or engine call, with every way it can end. */
    method Execute(st: Statement) returns (out: Outcome)
      modifies this`log, this`meta, this`engine
      ensures out == Ok ==> Exec(old(View()).durable, st) == Some(View().durable)
      ensures out == Err ==> View().durable == old(View()).durable
      ensures out == Crashed ==> View().durable == old(View()).durable || Exec(old(View()).durable, st) == Some(View().durable)
    {
      var after := Exec(Durable(log, meta, engine), st);
      out := *;
      var landed: bool := *;
      if after.None? && out == Ok {
        out := Err;
      }
      if after.Some? && (out == Ok || (out == Crashed && landed)) {
        log, meta, engine := after.value.log, after.value.meta, after.value.engine;
      }
    }

    method SaveVote(v: Vote) returns (out: Outcome, ghost n: nat)
      modifies this
      ensures CallRel(old(View()), Call.SaveVote(v), n, View(), out)
      ensures out == Ok ==> MetaChanged(old(View()), View(), VoteKey, (c: Cache) => c.(vote := Some(v)))
      ensures out == Err ==> View() == old(View())
      ensures out == Crashed ==>
                OnlyKey(old(View()).durable, View().durable, VoteKey) && Hydrate(View().durable).vote in {Hydrate(old(View()).durable).vote, Some(v)}
    {
      ghost var p := Program(Call.SaveVote(v));
      out := Execute(PutMeta(VoteKey, VoteValue(v)));
      n := AfterStatement(old(View()), p, 0, old(View()).durable, View().durable, out);
      if out == Ok {
        cache := cache.(vote := Some(v));
      }
    }

    method SaveCommitted(committed: Option<LogId>) returns (out: Outcome, ghost n: nat)
      modifies this
      ensures CallRel(old(View()), Call.SaveCommitted(committed), n, View(), out)
      ensures out == Ok ==> MetaChanged(old(View()), View(), CommittedKey, (c: Cache) => c.(committed := committed))
      ensures out == Err ==> View() == old(View())
      ensures out == Crashed ==>
                OnlyKey(old(View()).durable, View().durable, CommittedKey) && Hydrate(View().durable).committed in {Hydrate(old(View()).durable).committed, committed}
    {
      ghost var p := Program(Call.SaveCommitted(committed));
      out := Execute(PutMeta(CommittedKey, LogIdValue(committed)));
      n := AfterStatement(old(View()), p, 0, old(View()).durable, View().durable, out);
      if out == Ok {
        cache := cache.(committed := committed);
      }
    }

    method AppendToLog(entries: seq<Entry>) returns (out: Outcome, ghost n: nat)
      modifies this
      ensures CallRel(old(View()), Call.AppendToLog(entries), n, View(), out)
    {
      ghost var p := AppendProgram(entries);
      n := 0;
      for i := 0 to |entries|
        invariant n == i
        invariant ExecAll(old(View()).durable, p[..n]) == Some(View().durable)
        invariant cache == MirrorAll(old(cache), p[..n])
      {
        var entry := entries[i];
        ghost var before := View().durable;
        out := Execute(PutEntry(entry));
        n := AfterStatement(old(View()), p, n, before, View().durable, out);
        if out != Ok {
          return;
        }
        cache := cache.(log := cache.log[entry.id.index := entry]);
      }
      out := Ok;
    }

    method DeleteConflictsSince(logId: LogId) returns (out: Outcome, ghost n: nat)
      modifies this
      ensures CallRel(old(View()), Call.DeleteConflictsSince(logId), n, View(), out)
      ensures out == Err ==> View() == old(View())
      ensures out == Ok ==> OnlyLog(old(View()), View())
      ensures out == Ok ==> cache.log == map k | k in old(cache.log) && k < logId.index :: old(cache.log)[k]
      ensures out == Ok ==> log == map k | k in old(log) && k < AsI64(logId.index) :: old(log)[k]
    {
      ghost var p := Program(Call.DeleteConflictsSince(logId));
      out := Execute(DeleteFrom(logId.index));
      n := AfterStatement(old(View()), p, 0, old(View()).durable, View().durable, out);
      if out == Ok {
        var kept := RemoveAll(cache.log, set k | k in cache.log && logId.index <= k);
        assert kept == Below(cache.log, logId.index);
        cache := cache.(log := kept);
      }
    }

    method PurgeUpto(logId: LogId) returns (out: Outcome, ghost n: nat)
      modifies this
      ensures CallRel(old(View()), Call.PurgeUpto(logId), n, View(), out)
    {
      ghost var p := Program(Call.PurgeUpto(logId));
      out := Execute(PutMeta(LastPurgedKey, LogIdValue(Some(logId))));
      n := AfterStatement(old(View()), p, 0, old(View()).durable, View().durable, out);
      if out != Ok {
        return;
      }
      cache := cache.(lastPurged := Some(logId));
      ghost var before := View().durable;
      out := Execute(DeleteUpto(logId.index));
      n := AfterStatement(old(View()), p, n, before, View().durable, out);
      if out == Ok {
        var kept := RemoveAll(cache.log, set k | k in cache.log && k <= logId.index);
        assert kept == Above(cache.log, logId.index);
        cache := cache.(log := kept);
      }
    }

    /** The removal loop both deletions end with. */
    method RemoveAll(log: map<u64, Entry>, keys: set<u64>) returns (kept: map<u64, Entry>)
      ensures kept == log - keys
    {
      var todo := keys;
      kept := log;
      while todo != {}
        invariant todo <= keys
        invariant kept == log - (keys - todo)
        decreases |todo|
      {
        var k :| k in todo;
        kept := kept - {k};
        todo := todo - {k};
      }
    }

    method ApplyEntries(entries: seq<Entry>) returns (out: Outcome, ghost n: nat)
      modifies this
      ensures CallRel(old(View()), Call.ApplyEntries(entries), n, View(), out)
    {
      ghost var p := ApplyProgram(entries);
      n := 0;
      for i := 0 to |entries|
        invariant n <= |p| && p[n..] == ApplyProgram(entries[i..])
        invariant ExecAll(old(View()).durable, p[..n]) == Some(View().durable)
        invariant cache == MirrorAll(old(cache), p[..n])
      {
        assert entries[i..][0] == entries[i] && entries[i..][1..] == entries[i + 1..];
        ghost var width := |EntryProgram(entries[i])|;
        assert p[n..n + width] == p[n..][..width] == EntryProgram(entries[i]);
        assert p[n + width..] == p[n..][width..] == ApplyProgram(entries[i + 1..]);
        out, n := ApplyEntry(entries[i], old(View()), p, n);
        if out != Ok {
          return;
        }
      }
      out := Ok;
    }

    /** One turn of the apply loop, at statement `n` of the call's program. */
    method ApplyEntry(entry: Entry, ghost s: Store, ghost p: seq<Statement>, ghost n: nat) returns (out: Outcome, ghost m: nat)
      requires n + |EntryProgram(entry)| <= |p| && p[n..n + |EntryProgram(entry)|] == EntryProgram(entry)
      requires ExecAll(s.durable, p[..n]) == Some(View().durable) && cache == MirrorAll(s.cache, p[..n])
      modifies this
      ensures n <= m <= n + |EntryProgram(entry)| && ExecAll(s.durable, p[..m]) == Some(View().durable)
      ensures out == Ok ==> m == n + |EntryProgram(entry)| && cache == MirrorAll(s.cache, p[..m])
      ensures out == Err ==> m < n + |EntryProgram(entry)|
      ensures out == Err ==>
                cache == if p[m].PutMeta? && p[m].key == MembershipKey
                         then Mirror(MirrorAll(s.cache, p[..m]), p[m]) else MirrorAll(s.cache, p[..m])
    {
      ghost var q := EntryProgram(entry);
      assert forall k :: 0 <= k < |q| ==> p[n + k] == q[k] by {
        forall k | 0 <= k < |q| ensures p[n + k] == q[k] { assert p[n..n + |q|][k] == q[k]; }
      }
      m := n;
      match entry.payload {
        case Blank =>
        case Normal(request) =>
          assert p[n + 0] == q[0];
          out := Execute(ApplyToEngine(request));
          m := AfterStatement(s, p, n, old(View()).durable, View().durable, out);
          if out != Ok {
            return;
          }
        case Membership(config) =>
          assert p[n + 0] == q[0];
          cache := cache.(membership := StoredMembership(Some(entry.id), config));
          out := Execute(PutMeta(MembershipKey, MembershipValue(cache.membership)));
          m := AfterStatement(s, p, n, old(View()).durable, View().durable, out);
          if out != Ok {
            return;
          }
      }
      ghost var before := View().durable;
      assert p[n + (m - n)] == q[m - n];
      ghost var at := m;
      out := Execute(PutMeta(LastAppliedKey, LogIdValue(Some(entry.id))));
      m := AfterStatement(s, p, at, before, View().durable, out);
      if out == Ok {
        cache := cache.(lastApplied := Some(entry.id));
      }
    }

    method InstallSnapshot(last: Option<LogId>, stored: StoredMembership, data: Option<Engine>) returns (out: Outcome, ghost n: nat)
      modifies this
      ensures CallRel(old(View()), Call.InstallSnapshot(last, stored, data), n, View(), out)
      ensures out == Ok ==> cache == old(cache).(lastApplied := last, membership := stored)
      ensures out == Ok ==> Hydrate(View().durable) == Hydrate(old(View()).durable).(lastApplied := last, membership := stored)
      ensures out == Ok ==> engine == if data.Some? then data.value.(runs := old(engine).runs) else old(engine)
      ensures out == Ok ==> log == old(log) && forall k :: k != LastAppliedKey && k != MembershipKey ==> Lookup(meta, k) == Lookup(old(meta), k)
    {
      ghost var p := Program(Call.InstallSnapshot(last, stored, data));
      n := 0;
      if data.None? && last.Some? {
        return Err, 0;
      }
      ghost var before := View().durable;
      if data.Some? {
        out := Execute(RestoreEngine(data.value));
        n := AfterStatement(old(View()), p, 0, before, View().durable, out);
        if out != Ok {
          return;
        }
      }
      cache := cache.(lastApplied := last);
      cache := cache.(membership := stored);
      InstallCache(old(cache), Call.InstallSnapshot(last, stored, data), n);
      before := View().durable;
      out := Execute(PutMeta(LastAppliedKey, LogIdValue(last)));
      n := AfterStatement(old(View()), p, n, before, View().durable, out);
      if out != Ok {
        return;
      }
      before := View().durable;
      InstallCache(old(cache), Call.InstallSnapshot(last, stored, data), n);
      out := Execute(PutMeta(MembershipKey, MembershipValue(stored)));
      n := AfterStatement(old(View()), p, n, before, View().durable, out);
      InstallCache(old(cache), Call.InstallSnapshot(last, stored, data), n);
      if out == Ok {
        assert p[..n] == p;
        InstallIs(old(View()).durable, last, stored, data, View().durable);
      }
    }

    /** `(last_purged, last_log_id)`: the highest cached entry, else the purge point. */
    method GetLogState() returns (purged: Option<LogId>, last: Option<LogId>)
      ensures purged == cache.lastPurged
      ensures cache.log == map[] ==> last == cache.lastPurged
      ensures cache.log != map[] ==> exists k :: k in cache.log && last == Some(cache.log[k].id) && forall i :: i in cache.log ==> i <= k
    {
      purged := cache.lastPurged;
      last := LastLogId(cache);
    }
  }

  function LastKey(log: map<u64, Entry>): (k: u64)
    requires log != map[]
    ensures k in log && forall i :: i in log ==> i <= k
  {
    assert exists k :: k in log && forall i :: i in log ==> i <= k by {
      var k := GreatestKey(log.Keys);
      assert k in log;
    }
    var k :| k in log && forall i :: i in log ==> i <= k;
    k
  }

  lemma {:induction false} GreatestKey(keys: set<u64>) returns (k: u64)
    requires keys != {}
    ensures k in keys && forall i :: i in keys ==> i <= k
    decreases |keys|
  {
    var x :| x in keys;
    var rest := keys - {x};
    k := x;
    if rest != {} {
      var y := GreatestKey(rest);
      k := if x < y then y else x;
    }
    forall i | i in keys
      ensures i <= k
    {
      assert i == x || i in rest;
    }
  }

  function LastLogId(c: Cache): Option<LogId> {
    if c.log != map[] then Some(c.log[LastKey(c.log)].id) else c.lastPurged
  }

  lemma {:induction false} MirrorPair(c: Cache, q: seq<Statement>)
    requires |q| <= 2
    ensures |q| == 1 ==> MirrorAll(c, q) == Mirror(c, q[0])
    ensures |q| == 2 ==> MirrorAll(c, q) == Mirror(Mirror(c, q[0]), q[1])
  {
    if |q| == 2 {
      assert q[1..] == [q[1]] && [q[1]][1..] == [];
      assert MirrorAll(Mirror(c, q[0]), q[1..]) == Mirror(Mirror(c, q[0]), q[1]);
    }
  }

  /** Once the engine is restored the cache already holds the snapshot's applied state. */
  lemma {:induction false} InstallCache(cache: Cache, c: Call, n: nat)
    requires c.InstallSnapshot? && n <= |Program(c)| && (c.data.Some? ==> 0 < n)
    ensures CacheAt(cache, c, n) == cache.(lastApplied := c.last, membership := c.stored)
  {
    var p := Program(c);
    var puts := [PutMeta(LastAppliedKey, LogIdValue(c.last)), PutMeta(MembershipKey, MembershipValue(c.stored))];
    MirrorAllConcat(cache, p[..n], p[n..]);
    assert p[..n] + p[n..] == p && p[..|p|] == p;
    MirrorPair(cache, puts);
    if c.data.Some? {
      assert p == [RestoreEngine(c.data.value)] + puts;
      MirrorAllConcat(cache, [RestoreEngine(c.data.value)], puts);
      MirrorPair(cache, [RestoreEngine(c.data.value)]);
    } else {
      assert p == puts;
    }
  }

  lemma {:induction false} ExecPair(d: Durable, q: seq<Statement>)
    requires |q| <= 2
    ensures |q| == 0 ==> ExecAll(d, q) == Some(d)
    ensures |q| == 1 ==> ExecAll(d, q) == Exec(d, q[0])
    ensures |q| == 2 ==> ExecAll(d, q) == if Exec(d, q[0]).None? then None else Exec(Exec(d, q[0]).value, q[1])
  {
    if |q| == 1 {
      ExecLone(d, q);
    } else if |q| == 2 && Exec(d, q[0]).Some? {
      assert q[1..][0] == q[1];
      ExecLone(Exec(d, q[0]).value, q[1..]);
    }
  }

  lemma {:induction false} ExecLone(d: Durable, q: seq<Statement>)
    requires |q| == 1
    ensures ExecAll(d, q) == Exec(d, q[0])
  {
    var next := Exec(d, q[0]);
    if next.Some? {
      assert ExecAll(next.value, q[1..]) == next;
    }
  }

  /** How far into its program a call has got once statement `n` has ended one way or another. */
  lemma {:induction false} AfterStatement(s: Store, p: seq<Statement>, n: nat, d: Durable, d': Durable, out: Outcome) returns (m: nat)
    requires n < |p| && ExecAll(s.durable, p[..n]) == Some(d)
    requires out == Ok ==> Exec(d, p[n]) == Some(d')
    requires out == Err ==> d' == d
    requires out == Crashed ==> d' == d || Exec(d, p[n]) == Some(d')
    ensures n <= m <= n + 1 && ExecAll(s.durable, p[..m]) == Some(d')
    ensures (out == Ok ==> m == n + 1) && (out == Err ==> m == n)
    ensures MirrorAll(s.cache, p[..n + 1]) == Mirror(MirrorAll(s.cache, p[..n]), p[n])
  {
    m := if out == Err || (out == Crashed && d' == d) then n else n + 1;
    StepOne(s.durable, s.cache, p, n);
  }
}
