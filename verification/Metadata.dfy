/**
 What a node's vote, commit mark, membership, applied position and purge point are after any sequence
 of calls, write errors, crashes and reopens: those of the last call whose write took effect.
 */
module Metadata {
  import opened Options
  import opened ReplicatedEngine
  import opened RaftStore

  /** The last five fields are bookkeeping: what was last written, whether or not the call reported it. */
  datatype Node = Node(
    store: Store,
    running: bool,
    vote: Option<Vote>,
    committed: Option<LogId>,
    membership: StoredMembership,
    applied: Option<LogId>,
    purged: Option<LogId>)

  /** Statements of one entry: its effect, if it has one, and the `last_applied` mark. */
  function Width(e: Entry): nat {
    if e.payload.Blank? then 1 else 2
  }

  /** The membership after `n` statements of an apply call: that of the last membership entry whose write was made. */
  function MembershipAfter(m: StoredMembership, entries: seq<Entry>, n: nat): StoredMembership
    decreases |entries|
  {
    if entries == [] || n == 0 then m
    else
      var e := entries[0];
      var next := if e.payload.Membership? then StoredMembership(Some(e.id), e.payload.config) else m;
      if n <= Width(e) then next else MembershipAfter(next, entries[1..], n - Width(e))
  }

  /** The applied position after `n` statements of an apply call: the id of the last entry carried through. */
  function AppliedAfter(id: Option<LogId>, entries: seq<Entry>, n: nat): Option<LogId>
    decreases |entries|
  {
    if entries == [] || n < Width(entries[0]) then id
    else AppliedAfter(Some(entries[0].id), entries[1..], n - Width(entries[0]))
  }

  /** The bookkeeping after `n` statements of a call. */
  function Written(a: Node, c: Call, n: nat): Node {
    match c
    case SaveVote(v) => if n == 0 then a else a.(vote := Some(v))
    case SaveCommitted(id) => if n == 0 then a else a.(committed := id)
    case PurgeUpto(id) => if n == 0 then a else a.(purged := Some(id))
    case ApplyEntries(entries) =>
      a.(membership := MembershipAfter(a.membership, entries, n), applied := AppliedAfter(a.applied, entries, n))
    case InstallSnapshot(last, stored, data) =>
      var first := if data.Some? then 1 else 0;
      a.(applied := if n <= first then a.applied else last, membership := if n <= first + 1 then a.membership else stored)
    case _ => a
  }

  ghost predicate CallStep(a: Node, c: Call, n: nat, out: Outcome, b: Node) {
    && a.running && CallRel(a.store, c, n, b.store, out)
    && b == Written(a, c, n).(store := b.store, running := out == Ok)
  }

  ghost predicate ReopenStep(a: Node, b: Node) {
    b == a.(store := Store(a.store.durable, Hydrate(a.store.durable)), running := true)
  }

  ghost predicate Step(a: Node, b: Node) {
    ReopenStep(a, b) || exists c, n, out :: CallStep(a, c, n, out, b)
  }

  /** A store just opened, whatever its tables hold. */
  ghost predicate Init(a: Node) {
    var h := Hydrate(a.store.durable);
    && a.store.cache == h && a.running && a.vote == h.vote && a.committed == h.committed
    && a.membership == h.membership && a.applied == h.lastApplied && a.purged == h.lastPurged
  }

  ghost predicate Run(tr: seq<Node>) {
    tr != [] && Init(tr[0]) && forall i :: 0 <= i < |tr| - 1 ==> Step(tr[i], tr[i + 1])
  }

  /** The cached metadata is what the table holds. */
  predicate MetaAgrees(c: Cache, d: Durable) {
    var h := Hydrate(d);
    && c.vote == h.vote && c.committed == h.committed && c.membership == h.membership
    && c.lastPurged == h.lastPurged && c.lastApplied == h.lastApplied
  }

  /** Read from the cache of a running node, or from disk by the next one, the metadata is what was last written. */
  ghost predicate Inv(a: Node) {
    var h := Hydrate(a.store.durable);
    && h.vote == a.vote && h.committed == a.committed
    && h.membership == a.membership && h.lastApplied == a.applied && h.lastPurged == a.purged
    && (a.running ==> MetaAgrees(a.store.cache, a.store.durable))
  }

  // ---------- statement by statement ----------

  lemma {:induction false} AgreesOne(c: Cache, d: Durable, st: Statement)
    requires MetaAgrees(c, d) && WellTyped(st) && Exec(d, st).Some?
    ensures MetaAgrees(Mirror(c, st), Exec(d, st).value)
  {
    if st.PutMeta? {
      AgreesPut(c, d, st.key, st.value);
    } else {
      assert Exec(d, st).value.meta == d.meta;
    }
  }

  lemma {:induction false} AgreesPut(c: Cache, d: Durable, key: MetaKey, value: MetaValue)
    requires MetaAgrees(c, d) && WellTyped(PutMeta(key, value))
    ensures MetaAgrees(Mirror(c, PutMeta(key, value)), d.(meta := d.meta[key := value]))
  {
    match key
    case VoteKey =>
    case CommittedKey =>
    case LastPurgedKey =>
    case LastAppliedKey =>
    case MembershipKey =>
  }

  lemma {:induction false} AgreesAll(c: Cache, d: Durable, p: seq<Statement>)
    requires MetaAgrees(c, d) && (forall st :: st in p ==> WellTyped(st)) && ExecAll(d, p).Some?
    ensures MetaAgrees(MirrorAll(c, p), ExecAll(d, p).value)
    decreases |p|
  {
    if p != [] {
      assert p[0] in p;
      AgreesOne(c, d, p[0]);
      AgreesAll(Mirror(c, p[0]), Exec(d, p[0]).value, p[1..]);
    }
  }

  predicate Writes(p: seq<Statement>, key: MetaKey) {
    exists i :: 0 <= i < |p| && p[i].PutMeta? && p[i].key == key
  }

  lemma {:induction false} KeepsKey(d: Durable, p: seq<Statement>, key: MetaKey)
    requires ExecAll(d, p).Some? && !Writes(p, key)
    ensures Lookup(ExecAll(d, p).value.meta, key) == Lookup(d.meta, key)
    decreases |p|
  {
    if p != [] {
      assert !(p[0].PutMeta? && p[0].key == key);
      assert !Writes(p[1..], key) by {
        forall i | 0 <= i < |p[1..]|
          ensures !(p[1..][i].PutMeta? && p[1..][i].key == key)
        {
          assert p[1..][i] == p[i + 1];
        }
      }
      KeepsKey(Exec(d, p[0]).value, p[1..], key);
    }
  }

  /** Each piece of metadata is written by the calls that are for them and by no other. */
  lemma {:induction false} ProgramWrites(c: Call)
    ensures Writes(Program(c), VoteKey) ==> c.SaveVote?
    ensures Writes(Program(c), CommittedKey) ==> c.SaveCommitted?
    ensures Writes(Program(c), MembershipKey) || Writes(Program(c), LastAppliedKey) ==> c.ApplyEntries? || c.InstallSnapshot?
    ensures Writes(Program(c), LastPurgedKey) ==> c.PurgeUpto?
  {
    if c.ApplyEntries? {
      ApplyProgramTyped(c.entries);
      forall i | 0 <= i < |Program(c)|
        ensures !(Program(c)[i].PutMeta? && Program(c)[i].key in {VoteKey, CommittedKey, LastPurgedKey})
      {
        assert Program(c)[i] in ApplyProgram(c.entries);
      }
    }
  }

  lemma {:induction false} PrefixWrites(p: seq<Statement>, n: nat, key: MetaKey)
    requires n <= |p| && Writes(p[..n], key)
    ensures Writes(p, key)
  {
    var i :| 0 <= i < n && p[..n][i].PutMeta? && p[..n][i].key == key;
    assert p[i] == p[..n][i];
  }

  lemma {:induction false} OtherCallKeeps(d: Durable, c: Call, n: nat, d': Durable, key: MetaKey)
    requires n <= |Program(c)| && ExecAll(d, Program(c)[..n]) == Some(d') && !Writes(Program(c), key)
    ensures Lookup(d'.meta, key) == Lookup(d.meta, key)
  {
    if Writes(Program(c)[..n], key) {
      PrefixWrites(Program(c), n, key);
    }
    KeepsKey(d, Program(c)[..n], key);
  }

  lemma {:induction false} SaveOne(d: Durable, c: Call, n: nat, d': Durable)
    requires c.SaveVote? || c.SaveCommitted? || c.PurgeUpto?
    requires n <= |Program(c)| && ExecAll(d, Program(c)[..n]) == Some(d')
    ensures (!c.PurgeUpto? ==> n <= 1) && (n == 0 ==> d' == d)
    ensures 0 < n && c.PurgeUpto? ==> Lookup(d'.meta, LastPurgedKey) == Some(LogIdValue(Some(c.logId)))
    ensures n == 1 && c.SaveVote? ==> Lookup(d'.meta, VoteKey) == Some(VoteValue(c.vote))
    ensures n == 1 && c.SaveCommitted? ==> Lookup(d'.meta, CommittedKey) == Some(LogIdValue(c.committed))
  {
    ExecPair(d, Program(c)[..n]);
  }

  // ---------- membership and position ----------

  lemma {:induction false} EntryMembership(d: Durable, e: Entry, n: nat, d': Durable)
    requires n <= |EntryProgram(e)| && ExecAll(d, EntryProgram(e)[..n]) == Some(d')
    ensures |EntryProgram(e)| == Width(e)
    ensures Hydrate(d').membership == MembershipAfter(Hydrate(d).membership, [e], n)
    ensures Hydrate(d').lastApplied == AppliedAfter(Hydrate(d).lastApplied, [e], n)
  {
    var p := EntryProgram(e);
    ExecPair(d, p[..n]);
    assert [e][1..] == [];
    match e.payload
    case Blank => assert p == [PutMeta(LastAppliedKey, LogIdValue(Some(e.id)))];
    case Normal(request) =>
      assert 0 < n ==> p[..n][0] == ApplyToEngine(request);
      assert 1 < n ==> p[..n][1] == PutMeta(LastAppliedKey, LogIdValue(Some(e.id)));
    case Membership(config) =>
      assert 0 < n ==> p[..n][0] == PutMeta(MembershipKey, MembershipValue(StoredMembership(Some(e.id), config)));
      assert 1 < n ==> p[..n][1] == PutMeta(LastAppliedKey, LogIdValue(Some(e.id)));
  }

  /**
   An apply call cut off anywhere leaves on disk the membership of the last membership entry it wrote and
   the id of the last entry it carried through.
   */
  lemma {:induction false} ApplyMembership(d: Durable, entries: seq<Entry>, n: nat, d': Durable)
    requires n <= |ApplyProgram(entries)| && ExecAll(d, ApplyProgram(entries)[..n]) == Some(d')
    ensures Hydrate(d').membership == MembershipAfter(Hydrate(d).membership, entries, n)
    ensures Hydrate(d').lastApplied == AppliedAfter(Hydrate(d).lastApplied, entries, n)
    decreases |entries|
  {
    if entries != [] && n != 0 {
      var e, rest := entries[0], entries[1..];
      var first, more := EntryProgram(e), ApplyProgram(rest);
      if n <= |first| {
        assert ApplyProgram(entries)[..n] == first[..n];
        EntryMembership(d, e, n, d');
        assert [e][1..] == [];
      } else {
        var m := n - |first|;
        assert ApplyProgram(entries)[..n] == first + more[..m];
        ExecAllConcat(d, first, more[..m]);
        var mid := ExecAll(d, first).value;
        assert first[..|first|] == first;
        EntryMembership(d, e, |first|, mid);
        assert [e][1..] == [];
        ApplyMembership(mid, rest, m, d');
      }
    }
  }

  lemma {:induction false} InstallMembership(d: Durable, c: Call, n: nat, d': Durable)
    requires c.InstallSnapshot? && n <= |Program(c)| && ExecAll(d, Program(c)[..n]) == Some(d')
    ensures |Program(c)| == if c.data.Some? then 3 else 2
    ensures Hydrate(d').membership == if n == |Program(c)| then c.stored else Hydrate(d).membership
    ensures Hydrate(d').lastApplied == if n + 1 < |Program(c)| then Hydrate(d).lastApplied else c.last
  {
    var p := Program(c);
    if n == |p| {
      assert p[..n] == p;
      InstallIs(d, c.last, c.stored, c.data, d');
    } else {
      assert !Writes(p[..n], MembershipKey);
      KeepsKey(d, p[..n], MembershipKey);
      if n + 1 < |p| {
        assert !Writes(p[..n], LastAppliedKey);
        KeepsKey(d, p[..n], LastAppliedKey);
      } else {
        InstallPosition(d, c, n, d');
      }
    }
  }

  lemma {:induction false} InstallPosition(d: Durable, c: Call, n: nat, d': Durable)
    requires c.InstallSnapshot? && n + 1 == |Program(c)| && ExecAll(d, Program(c)[..n]) == Some(d')
    ensures Hydrate(d').lastApplied == c.last
  {
    var p := Program(c)[..n];
    var put := PutMeta(LastAppliedKey, LogIdValue(c.last));
    assert p[n - 1] == put && p == p[..n - 1] + [put];
    ExecAllConcat(d, p[..n - 1], [put]);
    ExecPair(ExecAll(d, p[..n - 1]).value, [put]);
  }

  // ---------- every run ----------

  lemma {:induction false} CallKeepsDisk(a: Node, c: Call, n: nat, out: Outcome, b: Node)
    requires Inv(a) && CallStep(a, c, n, out, b)
    ensures var h := Hydrate(b.store.durable);
            && h.vote == b.vote && h.committed == b.committed
            && h.membership == b.membership && h.lastApplied == b.applied && h.lastPurged == b.purged
  {
    var d, d' := a.store.durable, b.store.durable;
    ProgramWrites(c);
    if c.SaveVote? || c.SaveCommitted? || c.PurgeUpto? {
      SaveOne(d, c, n, d');
    }
    if !c.SaveVote? {
      OtherCallKeeps(d, c, n, d', VoteKey);
    }
    if !c.SaveCommitted? {
      OtherCallKeeps(d, c, n, d', CommittedKey);
    }
    if !c.PurgeUpto? {
      OtherCallKeeps(d, c, n, d', LastPurgedKey);
    }
    if c.ApplyEntries? {
      ApplyMembership(d, c.entries, n, d');
    } else if c.InstallSnapshot? {
      InstallMembership(d, c, n, d');
    } else {
      OtherCallKeeps(d, c, n, d', MembershipKey);
      OtherCallKeeps(d, c, n, d', LastAppliedKey);
    }
  }

  lemma {:induction false} CallKeepsCache(a: Node, c: Call, n: nat, b: Node)
    requires Inv(a) && CallStep(a, c, n, Ok, b)
    ensures MetaAgrees(b.store.cache, b.store.durable)
  {
    ProgramTyped(c);
    assert Program(c)[..n] == Program(c);
    AgreesAll(a.store.cache, a.store.durable, Program(c));
  }

  /**
   In every run, the vote, the commit mark, the membership, the applied position and the purge point that
   a node reads, from memory while it runs or from disk when it is reopened, are those of the last call
   whose write took effect.
   */
  lemma {:induction false} LastWriteIsRead(tr: seq<Node>, i: nat)
    requires Run(tr) && i < |tr|
    ensures Inv(tr[i])
    decreases i
  {
    if 0 < i {
      var a, b := tr[i - 1], tr[i];
      LastWriteIsRead(tr, i - 1);
      assert Step(tr[i - 1], tr[i - 1 + 1]);
      if !ReopenStep(a, b) {
        var c, n: nat, out :| CallStep(a, c, n, out, b);
        CallKeepsDisk(a, c, n, out, b);
        if out == Ok {
          CallKeepsCache(a, c, n, b);
        }
      }
    }
  }

  /** No other vote takes effect in this step. */
  ghost predicate NoOtherVote(a: Node, b: Node, v: Vote) {
    forall c, n, out :: CallStep(a, c, n, out, b) && c.SaveVote? ==> n == 0 || c.vote == v
  }

  ghost predicate NoOtherVotes(tr: seq<Node>, i: nat, j: nat, v: Vote)
    requires j < |tr|
  {
    forall k :: i <= k < j ==> NoOtherVote(tr[k], tr[k + 1], v)
  }

  /** A vote once granted is not forgotten: it is read until another vote has been written. */
  lemma {:induction false} VoteKept(tr: seq<Node>, i: nat, j: nat, v: Vote)
    requires Run(tr) && i <= j < |tr| && tr[i].vote == Some(v) && NoOtherVotes(tr, i, j, v)
    ensures Hydrate(tr[j].store.durable).vote == Some(v) && (tr[j].running ==> tr[j].store.cache.vote == Some(v))
  {
    VoteStays(tr, i, j, v);
    LastWriteIsRead(tr, j);
  }

  lemma {:induction false} VoteStays(tr: seq<Node>, i: nat, j: nat, v: Vote)
    requires Run(tr) && i <= j < |tr| && tr[i].vote == Some(v) && NoOtherVotes(tr, i, j, v)
    ensures tr[j].vote == Some(v)
    decreases j
  {
    if i < j {
      VoteStays(tr, i, j - 1, v);
      assert Step(tr[j - 1], tr[j - 1 + 1]) && NoOtherVote(tr[j - 1], tr[j - 1 + 1], v);
    }
  }
}
