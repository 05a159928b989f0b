/**
 The shape of the Raft log over every run of the store: any calls the Raft core may make, each ending
 in success, in an error part way, or in a crash, with a reopen whenever one is needed.
 */
module LogShape {
  import opened Options
  import opened ReplicatedEngine
  import opened RaftStore

  /**
   `running` is false from an error or crash until the next reopen.  `kept` records the entries that
   were durably appended and not truncated since; purging does not remove them from it.
   */
  datatype Node = Node(store: Store, running: bool, kept: map<u64, Entry>)

  /** The first index above the purge point. */
  function Floor(purged: Option<LogId>): nat {
    if purged.Some? then purged.value.index + 1 else 0
  }

  function NextIndex(c: Cache): nat {
    Floor(LastLogId(c))
  }

  // ---------- what the Raft core promises its storage ----------

  /** No index of the call reaches 2^63. */
  predicate SmallCall(c: Call) {
    match c
    case AppendToLog(entries) => forall e :: e in entries ==> e.id.index < TWO_63
    case DeleteConflictsSince(id) => id.index < TWO_63
    case PurgeUpto(id) => id.index < TWO_63
    case _ => true
  }

  /** Appends continue the log, truncation stays above the purge point, purge points do not go back. */
  predicate Legal(c: Cache, call: Call) {
    && SmallCall(call)
    && match call
       case AppendToLog(entries) => forall i :: 0 <= i < |entries| ==> entries[i].id.index == NextIndex(c) + i
       case DeleteConflictsSince(id) => Floor(c.lastPurged) <= id.index
       case PurgeUpto(id) => Floor(c.lastPurged) <= id.index + 1
       case _ => true
  }

  /** A purge point that the log still holds, or an empty log. */
  predicate PurgeInside(c: Cache, call: Call) {
    call.PurgeUpto? && c.log != map[] ==> call.logId.index <= LastKey(c.log)
  }

  function KeptAfter(kept: map<u64, Entry>, call: Call, n: nat): map<u64, Entry> {
    match call
    case AppendToLog(entries) => if n <= |entries| then InsertAll(kept, entries[..n]) else kept
    case DeleteConflictsSince(id) => if n == 0 then kept else Below(kept, id.index)
    case _ => kept
  }

  ghost predicate CallStep(a: Node, call: Call, n: nat, out: Outcome, b: Node) {
    && a.running
    && Legal(a.store.cache, call)
    && CallRel(a.store, call, n, b.store, out)
    && b.running == (out == Ok)
    && b.kept == KeptAfter(a.kept, call, n)
  }

  ghost predicate ReopenStep(a: Node, b: Node) {
    b == Node(Store(a.store.durable, Hydrate(a.store.durable)), true, a.kept)
  }

  /** With `inside`, purge points additionally lie inside the log. */
  ghost predicate Step(a: Node, b: Node, inside: bool) {
    || ReopenStep(a, b)
    || exists call, n, out :: CallStep(a, call, n, out, b) && (inside ==> PurgeInside(a.store.cache, call))
  }

  ghost predicate Init(a: Node) {
    a.store.durable.log == map[] && a.store.durable.meta == map[]
    && a.store.cache == Hydrate(a.store.durable) && a.running && a.kept == map[]
  }

  ghost predicate Run(tr: seq<Node>, inside: bool) {
    && tr != [] && Init(tr[0])
    && forall i :: 0 <= i < |tr| - 1 ==> Step(tr[i], tr[i + 1], inside)
  }

  // ---------- the shape ----------

  /** The log is the range `lo..hi`, reaching down to the purge point; above it, exactly what was kept. */
  ghost predicate Shape(c: Cache, kept: map<u64, Entry>, lo: nat, hi: nat) {
    && lo <= hi <= TWO_63 && lo <= Floor(c.lastPurged) <= TWO_63
    && (lo == hi ==> hi == Floor(c.lastPurged))
    && (forall k: u64 :: k in c.log <==> lo <= k < hi)
    && (forall k: u64 :: k in c.log ==> c.log[k].id.index == k)
    && (forall k: u64 :: Floor(c.lastPurged) <= k ==>
          (k in c.log <==> k in kept) && (k in c.log ==> c.log[k] == kept[k]))
  }

  /** The reported last log id is not below the reported purge point. */
  ghost predicate ReportsSane(c: Cache) {
    c.lastPurged.Some? ==> LastLogId(c).Some? && c.lastPurged.value.index <= LastLogId(c).value.index
  }

  lemma ShapeLast(c: Cache, kept: map<u64, Entry>, lo: nat, hi: nat)
    requires Shape(c, kept, lo, hi)
    ensures NextIndex(c) == hi && (c.log == map[] <==> lo == hi)
    ensures lo < hi ==> LastKey(c.log) == hi - 1
    ensures ReportsSane(c) <==> Floor(c.lastPurged) <= hi
  {
    if lo < hi {
      var last: u64 := hi - 1;
      assert last in c.log;
    } else {
      assert forall k: u64 :: k !in c.log;
    }
  }

  lemma {:induction false} AppendKeepsShape(c: Cache, kept: map<u64, Entry>, entries: seq<Entry>, lo: nat, hi: nat)
    requires Shape(c, kept, lo, hi)
    requires forall i :: 0 <= i < |entries| ==> entries[i].id.index == hi + i && entries[i].id.index < TWO_63
    ensures Shape(MirrorAll(c, AppendProgram(entries)), InsertAll(kept, entries), lo, hi + |entries|)
    ensures MirrorAll(c, AppendProgram(entries)).lastPurged == c.lastPurged
  {
    if entries != [] {
      var init, last := entries[..|entries| - 1], entries[|entries| - 1];
      AppendKeepsShape(c, kept, init, lo, hi);
      assert AppendProgram(entries) == AppendProgram(init) + [PutEntry(last)];
      MirrorAllConcat(c, AppendProgram(init), [PutEntry(last)]);
      MirrorPair(MirrorAll(c, AppendProgram(init)), [PutEntry(last)]);
      PutKeepsShape(MirrorAll(c, AppendProgram(init)), InsertAll(kept, init), last, lo, hi + |init|);
    }
  }

  lemma PutKeepsShape(c: Cache, kept: map<u64, Entry>, e: Entry, lo: nat, hi: nat)
    requires Shape(c, kept, lo, hi) && e.id.index == hi < TWO_63
    ensures Shape(Mirror(c, PutEntry(e)), kept[e.id.index := e], lo, hi + 1)
  {
  }

  lemma TruncateKeepsShape(c: Cache, kept: map<u64, Entry>, index: u64, lo: nat, hi: nat) returns (hi': nat)
    requires Shape(c, kept, lo, hi) && Floor(c.lastPurged) <= index
    ensures lo <= hi' && Shape(Mirror(c, DeleteFrom(index)), Below(kept, index), if lo < hi' then lo else hi', hi')
    ensures Floor(c.lastPurged) <= hi ==> Floor(c.lastPurged) <= hi'
  {
    hi' := if hi <= index then hi else index;
    if hi' <= lo {
      hi' := Floor(c.lastPurged);
    }
  }

  /** The first purge statement alone, as after a crash between the two. */
  lemma PurgeMarkKeepsShape(c: Cache, kept: map<u64, Entry>, id: LogId, lo: nat, hi: nat)
    requires Shape(c, kept, lo, hi) && Floor(c.lastPurged) <= id.index + 1 && id.index < TWO_63
    ensures var c' := c.(lastPurged := Some(id));
            if lo < hi then Shape(c', kept, lo, hi) else Shape(c', kept, id.index + 1, id.index + 1)
  {
  }

  lemma PurgeKeepsShape(c: Cache, kept: map<u64, Entry>, id: LogId, lo: nat, hi: nat)
    requires Shape(c, kept, lo, hi) && Floor(c.lastPurged) <= id.index + 1 && id.index < TWO_63
    ensures var c', top := Mirror(c.(lastPurged := Some(id)), DeleteUpto(id.index)), id.index + 1;
            Shape(c', kept, top, if top < hi then hi else top)
  {
  }

  /** Every other statement leaves log and purge point alone. */
  lemma {:induction false} OtherKeepsLog(c: Cache, p: seq<Statement>)
    requires forall st :: st in p ==>
               st.ApplyToEngine? || st.RestoreEngine? || (st.PutMeta? && st.key != LastPurgedKey)
    ensures var c' := MirrorAll(c, p);
            c'.log == c.log && c'.lastPurged == c.lastPurged
    decreases |p|
  {
    if p != [] {
      assert p[0] in p;
      OtherKeepsLog(Mirror(c, p[0]), p[1..]);
    }
  }

  lemma PurgeCallKeepsShape(c: Cache, kept: map<u64, Entry>, id: LogId, n: nat, lo: nat, hi: nat) returns (lo': nat, hi': nat)
    requires Shape(c, kept, lo, hi) && Legal(c, PurgeUpto(id)) && n <= 2
    ensures Shape(MirrorAll(c, Program(PurgeUpto(id))[..n]), kept, lo', hi')
    ensures PurgeInside(c, PurgeUpto(id)) && Floor(c.lastPurged) <= hi ==>
              Floor(MirrorAll(c, Program(PurgeUpto(id))[..n]).lastPurged) <= hi'
  {
    var p, top := Program(PurgeUpto(id)), id.index + 1;
    ShapeLast(c, kept, lo, hi);
    MirrorPair(c, p[..n]);
    lo', hi' := lo, hi;
    if n == 1 {
      PurgeMarkKeepsShape(c, kept, id, lo, hi);
      if lo == hi { lo', hi' := top, top; }
    } else if n == 2 {
      PurgeKeepsShape(c, kept, id, lo, hi);
      lo', hi' := top, if top < hi then hi else top;
    }
  }

  lemma CallKeepsShape(c: Cache, kept: map<u64, Entry>, call: Call, n: nat, lo: nat, hi: nat) returns (lo': nat, hi': nat)
    requires Shape(c, kept, lo, hi) && Legal(c, call) && n <= |Program(call)|
    ensures Shape(MirrorAll(c, Program(call)[..n]), KeptAfter(kept, call, n), lo', hi')
    ensures PurgeInside(c, call) && Floor(c.lastPurged) <= hi ==>
              Floor(MirrorAll(c, Program(call)[..n]).lastPurged) <= hi'
  {
    var p := Program(call);
    ShapeLast(c, kept, lo, hi);
    lo', hi' := lo, hi;
    match call
    case AppendToLog(entries) =>
      assert p[..n] == AppendProgram(entries[..n]);
      AppendKeepsShape(c, kept, entries[..n], lo, hi);
      hi' := hi + n;
    case DeleteConflictsSince(id) =>
      MirrorPair(c, p[..n]);
      if n == 1 {
        hi' := TruncateKeepsShape(c, kept, id.index, lo, hi);
        lo' := if lo < hi' then lo else hi';
      }
    case PurgeUpto(id) =>
      lo', hi' := PurgeCallKeepsShape(c, kept, id, n, lo, hi);
    case ApplyEntries(entries) =>
      ApplyProgramTyped(entries);
      OtherKeepsLog(c, p[..n]);
    case _ =>
      OtherKeepsLog(c, p[..n]);
  }

  // ---------- every reachable state ----------

  /** Below 2^63 a signed comparison is the unsigned one. */
  lemma SmallCutsAgree(c: Cache, kept: map<u64, Entry>, lo: nat, hi: nat, call: Call)
    requires Shape(c, kept, lo, hi) && SmallCall(call)
    ensures CutAgrees(c.log, call)
  {
  }

  /** Stated of what disk holds; while the node runs, the cache is exactly that. */
  ghost predicate Inv(a: Node, inside: bool) {
    var h := Hydrate(a.store.durable);
    && (exists lo, hi :: Shape(h, a.kept, lo, hi))
    && (a.running ==> a.store.cache == h)
    && (inside ==> ReportsSane(h))
  }

  lemma CallKeepsInv(a: Node, call: Call, n: nat, out: Outcome, b: Node, inside: bool)
    requires Inv(a, inside) && CallStep(a, call, n, out, b)
    requires inside ==> PurgeInside(a.store.cache, call)
    ensures Inv(b, inside)
  {
    var c := a.store.cache;
    var lo: nat, hi: nat :| Shape(c, a.kept, lo, hi);
    var lo', hi' := CallKeepsShape(c, a.kept, call, n, lo, hi);
    SmallCutsAgree(c, a.kept, lo, hi, call);
    DurablePrefix(a.store, call, n, b.store.durable);
    ShapeLast(c, a.kept, lo, hi);
    ShapeLast(Hydrate(b.store.durable), b.kept, lo', hi');
    CacheEqualsDisk(a.store, call, n, b.store, out);
  }

  lemma {:induction false} StepKeepsInv(a: Node, b: Node, inside: bool)
    requires Inv(a, inside) && Step(a, b, inside)
    ensures Inv(b, inside)
  {
    if !ReopenStep(a, b) {
      var call, n: nat, out :| CallStep(a, call, n, out, b) && (inside ==> PurgeInside(a.store.cache, call));
      CallKeepsInv(a, call, n, out, b, inside);
    }
  }

  /**
   In every state of every run the log on disk is one contiguous range reaching down to the purge
   point and above it holds exactly the entries appended and not truncated; a running node's cache
   is the same log; and with purge points inside the log the reported ids are in order.
   */
  lemma {:induction false} LogShapeInEveryRun(tr: seq<Node>, i: nat, inside: bool)
    requires Run(tr, inside) && i < |tr|
    ensures Inv(tr[i], inside)
    decreases i
  {
    if i == 0 {
      assert HydrateLog(map[]) == map[];
      assert Shape(Hydrate(tr[0].store.durable), map[], 0, 0);
    } else {
      LogShapeInEveryRun(tr, i - 1, inside);
      assert Step(tr[i - 1], tr[i - 1 + 1], inside);
      StepKeepsInv(tr[i - 1], tr[i], inside);
    }
  }

  lemma PurgeMarked(d: Durable, id: LogId, d': Durable)
    requires ExecAll(d, Program(PurgeUpto(id))[..1]) == Some(d')
    ensures Hydrate(d') == Hydrate(d).(lastPurged := Some(id))
  {
    var st := PutMeta(LastPurgedKey, LogIdValue(Some(id)));
    assert Program(PurgeUpto(id))[..1] == [st] && [st][1..] == [];
    assert ExecAll(d.(meta := d.meta[LastPurgedKey := LogIdValue(Some(id))]), []).Some?;
    MirrorIsHydrate(d, st);
  }

  /**
   A purge cut short between its two writes: the reopened store reports ids in order exactly when the
   log was empty or still held the purge point.
   */
  lemma {:induction false} PurgeCutShort(a: Node, id: LogId, s': Store, out: Outcome)
    requires Inv(a, false) && a.running && Legal(a.store.cache, PurgeUpto(id))
    requires CallRel(a.store, PurgeUpto(id), 1, s', out)
    ensures ReportsSane(Hydrate(s'.durable)) <==> PurgeInside(a.store.cache, PurgeUpto(id))
  {
    var c := a.store.cache;
    var lo: nat, hi: nat :| Shape(c, a.kept, lo, hi);
    PurgeMarked(a.store.durable, id, s'.durable);
    PurgeMarkKeepsShape(c, a.kept, id, lo, hi);
    ShapeLast(c, a.kept, lo, hi);
    if lo < hi {
      ShapeLast(c.(lastPurged := Some(id)), a.kept, lo, hi);
    } else {
      ShapeLast(c.(lastPurged := Some(id)), a.kept, id.index + 1, id.index + 1);
    }
  }

  /** One entry at index 0 and purge point 5: a legal call whose first write alone does it. */
  lemma PurgeBeyondEnd(term: u64, node: u64)
    ensures var e, id := Entry(LogId(term, node, 0), Blank), LogId(term, node, 5);
            var c := Cache(map[0 := e], None, None, None, None, NO_MEMBERSHIP);
            Shape(c, map[0 := e], 0, 1) && Legal(c, PurgeUpto(id)) && !ReportsSane(c.(lastPurged := Some(id)))
  {
    var e, id := Entry(LogId(term, node, 0), Blank), LogId(term, node, 5);
    var c := Cache(map[0 := e], None, None, None, None, NO_MEMBERSHIP);
    ShapeLast(c, map[0 := e], 0, 1);
    PurgeMarkKeepsShape(c, map[0 := e], id, 0, 1);
    ShapeLast(c.(lastPurged := Some(id)), map[0 := e], 0, 1);
  }
}
