/** Leader election among operator replicas: a lease record read, and replaced if it is still the one read. */
module OperatorLease {
  import opened Options

  type Id = string

  /** Times are microseconds on one shared clock. */
  const Second := 1_000_000
  const TtlSeconds := 15
  const Ttl := TtlSeconds * Second
  const MaxTime := 253_402_207_200_999_999

  datatype Record = Record(version: nat, holder: Option<Id>, renewed: Option<int>, seconds: Option<int>)

  /**
   Where a replica is in `acquire_or_renew`: the time is taken, the record is read, the decision to
   write is made for the version read (or to create). Or it is leaving, and may be about to delete.
   */
  datatype Phase =
    | Idle
    | Begun(now: int)
    | Got(now: int, seen: Option<Record>)
    | Ready(now: int, over: Option<nat>)
    | Leaving
    | Deleting

  /** `claim` is the renew time this replica last wrote and saw succeed. */
  datatype Replica = Replica(phase: Phase, claim: Option<int>)

  datatype State = State(clock: int, record: Option<Record>, serial: nat, replicas: map<Id, Replica>)

  /** A write succeeds, succeeds without the replica learning it, or is lost. */
  datatype Outcome = Seen | Unseen | Lost

  datatype Step =
    | Tick(now: int)
    | Begin(id: Id)
    | Get(id: Id)
    | GetFails(id: Id)
    | Decide(id: Id)
    | Write(id: Id, outcome: Outcome)
    | Leave(id: Id)
    | Look(id: Id)
    | Delete(id: Id)
    | Stop(id: Id)

  // ---------- the code's decisions ----------

  function Deadline(r: Record): Option<int> {
    if r.renewed.None? || r.seconds.None? then None
    else if r.renewed.value + r.seconds.value * Second > MaxTime then None
    else Some(r.renewed.value + r.seconds.value * Second)
  }

  predicate Expired(r: Record, clock: int) {
    Deadline(r).None? || Deadline(r).value < clock
  }

  predicate MayTake(id: Id, r: Record, clock: int) {
    r.holder == Some(id) || Expired(r, clock) || r.holder.None?
  }

  /**
   Another replica's record is left alone while it has both its fields and its time is not over; it may
   be taken as soon as that time is past, or if no such time can be computed.
   */
  lemma TakeoverIff(id: Id, holder: Id, renewed: int, seconds: int, clock: int)
    requires id != holder
    ensures forall version :: MayTake(id, Record(version, Some(holder), Some(renewed), Some(seconds)), clock)
                         <==> renewed + seconds * 1_000_000 < clock || renewed + seconds * 1_000_000 > 253_402_207_200_999_999
    ensures forall version, f :: MayTake(id, Record(version, Some(holder), None, f), clock) && MayTake(id, Record(version, Some(holder), f, None), clock)
    ensures forall version, r, f :: MayTake(id, Record(version, None, r, f), clock) && MayTake(id, Record(version, Some(id), r, f), clock)
  {
  }

  /** The server accepts a write over the version read, or a create while there is no record. */
  predicate Accepts(record: Option<Record>, over: Option<nat>) {
    if over.None? then record.None? else record.Some? && record.value.version == over.value
  }

  predicate Enabled(s: State, step: Step) {
    match step
    case Tick(now) => s.clock <= now && now + Ttl <= MaxTime
    case Begin(id) => id in s.replicas && s.replicas[id].phase.Idle?
    case Get(id) => id in s.replicas && s.replicas[id].phase.Begun?
    case GetFails(id) => id in s.replicas && s.replicas[id].phase.Begun?
    case Decide(id) => id in s.replicas && s.replicas[id].phase.Got?
    case Write(id, _) => id in s.replicas && s.replicas[id].phase.Ready?
    case Leave(id) => id in s.replicas
    case Look(id) => id in s.replicas && s.replicas[id].phase.Leaving?
    case Delete(id) => id in s.replicas && s.replicas[id].phase.Deleting?
    case Stop(id) => id in s.replicas
  }

  function Put(s: State, id: Id, r: Replica): State {
    s.(replicas := s.replicas[id := r])
  }

  function Do(s: State, step: Step): State
    requires Enabled(s, step)
  {
    match step
    case Tick(now) => s.(clock := now)
    case Begin(id) => Put(s, id, s.replicas[id].(phase := Begun(s.clock)))
    case Get(id) => Put(s, id, s.replicas[id].(phase := Got(s.replicas[id].phase.now, s.record)))
    case GetFails(id) => Put(s, id, s.replicas[id].(phase := Idle))
    case Decide(id) =>
      var r := s.replicas[id];
      var seen := r.phase.seen;
      var next :=
        if seen.None? then Ready(r.phase.now, None)
        else if MayTake(id, seen.value, s.clock) then Ready(r.phase.now, Some(seen.value.version))
        else Idle;
      Put(s, id, r.(phase := next))
    case Write(id, outcome) =>
      var r := s.replicas[id];
      if Accepts(s.record, r.phase.over) && !outcome.Lost? then
        var claim := if outcome.Seen? then Some(r.phase.now) else r.claim;
        State(s.clock, Some(Record(s.serial, Some(id), Some(r.phase.now), Some(TtlSeconds))), s.serial + 1,
              s.replicas[id := Replica(Idle, claim)])
      else Put(s, id, r.(phase := Idle))
    case Leave(id) => Put(s, id, Replica(Leaving, None))
    case Look(id) =>
      var ours := s.record.Some? && s.record.value.holder == Some(id);
      Put(s, id, s.replicas[id].(phase := if ours then Deleting else Idle))
    case Delete(id) => Put(s.(record := None), id, s.replicas[id].(phase := Idle))
    case Stop(id) => Put(s, id, Replica(Idle, None))
  }

  // ---------- mutual exclusion ----------

  /** This replica is within the lease time of the renewal it last saw succeed. */
  predicate Leads(s: State, id: Id) {
    id in s.replicas && s.replicas[id].claim.Some? && s.clock <= s.replicas[id].claim.value + Ttl
  }

  ghost predicate AtMostOneLeader(s: State) {
    forall i, j :: Leads(s, i) && Leads(s, j) ==> i == j
  }

  /** The record says who leads. */
  predicate Backed(s: State, id: Id, claim: int) {
    && s.record.Some? && s.record.value.holder == Some(id)
    && s.record.value.renewed.Some? && claim <= s.record.value.renewed.value <= s.clock
    && s.record.value.seconds == Some(TtlSeconds)
  }

  ghost predicate ReplicaInv(s: State, id: Id, r: Replica) {
    && (r.claim.Some? ==> r.claim.value <= s.clock)
    && (r.phase.Begun? || r.phase.Got? || r.phase.Ready? ==>
          r.phase.now <= s.clock && (r.claim.Some? ==> r.claim.value <= r.phase.now))
    && (r.phase.Leaving? || r.phase.Deleting? ==> r.claim.None?)
    && (r.phase.Got? && r.phase.seen.Some? ==>
          r.phase.seen.value.version < s.serial
          && (s.record.Some? && s.record.value.version == r.phase.seen.value.version ==> s.record == r.phase.seen))
    && (r.phase.Ready? && r.phase.over.Some? ==>
          r.phase.over.value < s.serial
          && (s.record.Some? && s.record.value.version == r.phase.over.value ==> MayTake(id, s.record.value, s.clock)))
    && (r.claim.Some? && s.clock <= r.claim.value + Ttl ==> Backed(s, id, r.claim.value))
  }

  ghost predicate Inv(s: State) {
    && s.clock + Ttl <= MaxTime
    && (s.record.Some? ==> s.record.value.version < s.serial)
    && forall id :: id in s.replicas ==> ReplicaInv(s, id, s.replicas[id])
  }

  lemma InvMeansOneLeader(s: State)
    requires Inv(s)
    ensures AtMostOneLeader(s)
  {
    forall i, j | Leads(s, i) && Leads(s, j)
      ensures i == j
    {
      assert ReplicaInv(s, i, s.replicas[i]) && ReplicaInv(s, j, s.replicas[j]);
    }
  }

  /** A replica other than the leader that may write has seen the leader's time run out. */
  lemma TakenMeansExpired(s: State, i: Id, claim: int, j: Id)
    requires Backed(s, i, claim) && i != j && MayTake(j, s.record.value, s.clock) && s.clock + Ttl <= MaxTime
    ensures claim + Ttl < s.clock
  {
  }

  predicate NobodyLeads(s: State) {
    forall id :: id in s.replicas ==> !Leads(s, id)
  }

  lemma WriteKeeps(s: State, id: Id, outcome: Outcome)
    requires Inv(s) && Enabled(s, Write(id, outcome))
    ensures Inv(Do(s, Write(id, outcome)))
  {
    var s', me := Do(s, Write(id, outcome)), s.replicas[id];
    assert ReplicaInv(s, id, me);
    forall j | j in s'.replicas
      ensures ReplicaInv(s', j, s'.replicas[j])
    {
      assert ReplicaInv(s, j, s.replicas[j]);
      if j != id && Leads(s, j) && Accepts(s.record, me.phase.over) {
        TakenMeansExpired(s, j, s.replicas[j].claim.value, id);
        assert false;
      }
    }
  }

  lemma TickKeeps(s: State, now: int)
    requires Inv(s) && Enabled(s, Tick(now))
    ensures Inv(Do(s, Tick(now)))
  {
    var s' := Do(s, Tick(now));
    forall j | j in s'.replicas
      ensures ReplicaInv(s', j, s'.replicas[j])
    {
      assert ReplicaInv(s, j, s.replicas[j]);
    }
  }

  /** A step that only changes one replica's own variables keeps the invariant if it keeps that replica's part. */
  lemma PutKeeps(s: State, id: Id, r: Replica)
    requires Inv(s) && id in s.replicas && ReplicaInv(s, id, r)
    ensures Inv(Put(s, id, r))
  {
    var s' := Put(s, id, r);
    forall j | j in s'.replicas
      ensures ReplicaInv(s', j, s'.replicas[j])
    {
      assert j != id ==> ReplicaInv(s, j, s.replicas[j]);
    }
  }

  lemma LocalStepKeeps(s: State, step: Step)
    requires Inv(s) && Enabled(s, step) && !step.Write? && !step.Delete? && !step.Tick?
    ensures Inv(Do(s, step))
  {
    var id := step.id;
    assert ReplicaInv(s, id, s.replicas[id]);
    PutKeeps(s, id, Do(s, step).replicas[id]);
  }

  lemma DeleteKeeps(s: State, id: Id)
    requires Inv(s) && Enabled(s, Delete(id)) && NobodyLeads(s)
    ensures Inv(Do(s, Delete(id)))
  {
    var s' := Do(s, Delete(id));
    forall j | j in s'.replicas
      ensures ReplicaInv(s', j, s'.replicas[j])
    {
      assert ReplicaInv(s, j, s.replicas[j]) && !Leads(s, j);
    }
  }

  /** In particular when the record is still the leaver's own. */
  lemma OwnRecordNobodyLeads(s: State, id: Id)
    requires Inv(s) && Enabled(s, Delete(id)) && (s.record.Some? ==> s.record.value.holder == Some(id))
    ensures NobodyLeads(s)
  {
    forall j | j in s.replicas
      ensures !Leads(s, j)
    {
      assert ReplicaInv(s, j, s.replicas[j]);
    }
  }

  // ---------- every run ----------

  /** No replica holds a claim or is in the middle of anything; the record may be left over from anyone. */
  ghost predicate Initial(s: State) {
    && s.clock + Ttl <= MaxTime && (s.record.Some? ==> s.record.value.version < s.serial)
    && forall id :: id in s.replicas ==> s.replicas[id] == Replica(Idle, None)
  }

  ghost predicate IsRun(states: seq<State>, steps: seq<Step>) {
    && |states| == |steps| + 1 && Initial(states[0])
    && forall k :: 0 <= k < |steps| ==> Enabled(states[k], steps[k]) && states[k + 1] == Do(states[k], steps[k])
  }

  /** From step `from` on, every delete happened while nobody led. */
  ghost predicate QuietDeletes(states: seq<State>, steps: seq<Step>, from: nat)
    requires |states| == |steps| + 1
  {
    forall k :: from <= k < |steps| && steps[k].Delete? ==> NobodyLeads(states[k])
  }

  lemma {:induction false} StepKeeps(s: State, step: Step)
    requires Inv(s) && Enabled(s, step) && (step.Delete? ==> NobodyLeads(s))
    ensures Inv(Do(s, step))
  {
    match step
    case Write(id, outcome) => WriteKeeps(s, id, outcome);
    case Delete(id) => DeleteKeeps(s, id);
    case Tick(now) => TickKeeps(s, now);
    case _ => LocalStepKeeps(s, step);
  }

  lemma {:induction false} InvInRun(states: seq<State>, steps: seq<Step>, k: nat)
    requires IsRun(states, steps) && QuietDeletes(states, steps, 0) && k <= |steps|
    ensures Inv(states[k])
  {
    if 0 < k {
      InvInRun(states, steps, k - 1);
      StepKeeps(states[k - 1], steps[k - 1]);
    }
  }

  /** For any number of replicas and any interleaving of their steps, at most one leads at any time, while deletes are quiet. */
  lemma MutualExclusion(states: seq<State>, steps: seq<Step>, k: nat)
    requires IsRun(states, steps) && QuietDeletes(states, steps, 0) && k <= |steps|
    ensures AtMostOneLeader(states[k])
  {
    InvInRun(states, steps, k);
    InvMeansOneLeader(states[k]);
  }

  /** Every delete found the record still its own, or gone. */
  ghost predicate DeletesOwn(states: seq<State>, steps: seq<Step>)
    requires |states| == |steps| + 1
  {
    forall k :: 0 <= k < |steps| && steps[k].Delete? && states[k].record.Some? ==> states[k].record.value.holder == Some(steps[k].id)
  }

  /** Deletes that only ever remove the deleter's own record are quiet. */
  lemma {:induction false} OwnDeletesAreQuiet(states: seq<State>, steps: seq<Step>, k: nat)
    requires IsRun(states, steps) && DeletesOwn(states, steps) && k <= |steps|
    ensures Inv(states[k]) && forall i :: 0 <= i < k && steps[i].Delete? ==> NobodyLeads(states[i])
  {
    if 0 < k {
      var s, step := states[k - 1], steps[k - 1];
      OwnDeletesAreQuiet(states, steps, k - 1);
      if step.Delete? {
        OwnRecordNobodyLeads(s, step.id);
      }
      StepKeeps(s, step);
    }
  }

  /** What an accepted write stores, and for how long its writer leads if it learns of it. */
  lemma WriteSays(s: State, id: Id, outcome: Outcome, later: int)
    requires Enabled(s, Write(id, outcome)) && s.clock <= later
    ensures var r, s' := s.replicas[id], Do(s, Write(id, outcome));
            if !outcome.Lost? && (if r.phase.over.None? then s.record.None? else s.record.Some? && s.record.value.version == r.phase.over.value) then
              && s'.record == Some(Record(s.serial, Some(id), Some(r.phase.now), Some(15))) && s'.serial == s.serial + 1
              && (outcome.Seen? ==> (Leads(s'.(clock := later), id) <==> later <= r.phase.now + 15_000_000))
            else s'.record == s.record && s'.serial == s.serial && s'.replicas[id].claim == r.claim
  {
  }

  // ---------- the release is not atomic ----------

  lemma Extend(states: seq<State>, steps: seq<Step>, step: Step) returns (states': seq<State>, steps': seq<Step>)
    requires IsRun(states, steps) && Enabled(states[|steps|], step)
    ensures IsRun(states', steps') && steps' == steps + [step] && states' == states + [Do(states[|steps|], step)]
  {
    states', steps' := states + [Do(states[|steps|], step)], steps + [step];
  }

  /**
   Leaving, step by step: the claim is given up, the delete follows only if the record looked at is the
   leaver's own, and then removes whatever record is there.
   */
  lemma ReleaseSays(s: State, id: Id)
    requires id in s.replicas
    ensures Do(s, Leave(id)) == s.(replicas := s.replicas[id := Replica(Leaving, None)])
    ensures s.replicas[id].phase.Leaving? ==>
              var s' := Do(s, Look(id));
              && (s'.replicas[id].phase.Deleting? <==> s.record.Some? && s.record.value.holder == Some(id))
              && s'.record == s.record && s'.replicas[id].claim == s.replicas[id].claim
    ensures s.replicas[id].phase.Deleting? ==> Do(s, Delete(id)).record == None
  {
  }

  /** An uninterrupted successful call of `acquire_or_renew`, when there is no record or one that may be taken. */
  lemma Acquire(states: seq<State>, steps: seq<Step>, id: Id) returns (states': seq<State>, steps': seq<Step>)
    requires IsRun(states, steps)
    requires var s := states[|steps|]; id in s.replicas && s.replicas[id].phase.Idle? && (s.record.Some? ==> MayTake(id, s.record.value, s.clock))
    ensures IsRun(states', steps') && states <= states' && steps' == steps + [Begin(id), Get(id), Decide(id), Write(id, Seen)]
    ensures var s, s' := states[|steps|], states'[|steps'|];
            && s'.clock == s.clock && s'.record.Some? && s'.replicas == s.replicas[id := Replica(Idle, Some(s.clock))]
  {
    states', steps' := Extend(states, steps, Begin(id));
    states', steps' := Extend(states', steps', Get(id));
    states', steps' := Extend(states', steps', Decide(id));
    states', steps' := Extend(states', steps', Write(id, Seen));
  }

  /**
   `a` looks at its own expired record on the way out; `b` takes the lease over; `a` deletes it; `c`
   finds none and creates its own. Now `b` and `c` both lead.
   */
  lemma ReleaseRace(a: Id, b: Id, c: Id) returns (states: seq<State>, steps: seq<Step>)
    requires a != b && a != c && b != c
    ensures IsRun(states, steps) && Leads(states[|steps|], b) && Leads(states[|steps|], c)
  {
    var record := Some(Record(0, Some(a), Some(0), Some(TtlSeconds)));
    var off := Replica(Idle, None);
    states, steps := [State(16 * Second, record, 1, map[a := off, b := off, c := off])], [];
    states, steps := Extend(states, steps, Leave(a));
    states, steps := Extend(states, steps, Look(a));
    states, steps := Acquire(states, steps, b);
    states, steps := Extend(states, steps, Delete(a));
    states, steps := Acquire(states, steps, c);
  }

  /** A run that goes on from this one with `step` and whose later deletes are quiet. */
  ghost predicate GoesOn(states: seq<State>, steps: seq<Step>, step: Step, states': seq<State>, steps': seq<Step>) {
    && IsRun(states', steps') && |states| == |steps| + 1
    && states <= states' && steps + [step] <= steps' && QuietDeletes(states', steps', |steps| + 1)
  }

  /** A delete while someone leads: the leaver takes the lease again, and both lead. */
  lemma LoudDeleteSplits(states: seq<State>, steps: seq<Step>, id: Id) returns (states': seq<State>, steps': seq<Step>)
    requires IsRun(states, steps) && Enabled(states[|steps|], Delete(id)) && Inv(states[|steps|]) && !NobodyLeads(states[|steps|])
    ensures GoesOn(states, steps, Delete(id), states', steps') && !AtMostOneLeader(states'[|steps'|])
  {
    var s := states[|steps|];
    var j :| j in s.replicas && Leads(s, j);
    assert ReplicaInv(s, id, s.replicas[id]);
    var states1, steps1 := Extend(states, steps, Delete(id));
    states', steps' := Acquire(states1, steps1, id);
    assert Leads(states'[|steps'|], id) && Leads(states'[|steps'|], j);
  }

  /**
   When the unconditional delete is harmless.  A run so far quiet that stands before `Delete(id)` goes
   on to at most one leader, whatever follows, exactly if nobody leads at that moment.
   */
  lemma DeleteSafeIff(states: seq<State>, steps: seq<Step>, id: Id)
    requires IsRun(states, steps) && QuietDeletes(states, steps, 0) && Enabled(states[|steps|], Delete(id))
    ensures NobodyLeads(states[|steps|])
       <==> forall states', steps' :: GoesOn(states, steps, Delete(id), states', steps') ==> AtMostOneLeader(states'[|steps'|])
  {
    InvInRun(states, steps, |steps|);
    if NobodyLeads(states[|steps|]) {
      forall states', steps' | GoesOn(states, steps, Delete(id), states', steps')
        ensures AtMostOneLeader(states'[|steps'|])
      {
        StaysQuiet(states, steps, id, states', steps');
        MutualExclusion(states', steps', |steps'|);
      }
    } else {
      var states', steps' := LoudDeleteSplits(states, steps, id);
    }
  }

  lemma StaysQuiet(states: seq<State>, steps: seq<Step>, id: Id, states': seq<State>, steps': seq<Step>)
    requires |states| == |steps| + 1 && QuietDeletes(states, steps, 0) && NobodyLeads(states[|steps|])
    requires GoesOn(states, steps, Delete(id), states', steps')
    ensures QuietDeletes(states', steps', 0)
  {
    forall k | 0 <= k < |steps'| && steps'[k].Delete?
      ensures NobodyLeads(states'[k])
    {
      assert k < |steps| ==> steps'[k] == (steps + [Delete(id)])[k] == steps[k];
      assert k <= |steps| ==> states'[k] == states[k];
    }
  }
}
