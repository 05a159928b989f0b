/**
 The ledger of agent runs under replay.  Snapshots do not carry it, so a node that installs one goes on
 with the ledger it had; the lemmas here say exactly when replay makes that the right one.
 */
module RunLedger {
  import opened Options
  import opened ReplicatedEngine

  function RunsAt(log: seq<Payload>, i: nat): map<Id, Run>
    requires i <= |log|
  {
    if i == 0 then map[] else RunsAfter(RunsAt(log, i - 1), log[i - 1])
  }

  function ReplayRuns(runs: map<Id, Run>, log: seq<Payload>, i: nat, j: nat): map<Id, Run>
    requires i <= j <= |log|
    decreases j
  {
    if i == j then runs else RunsAfter(ReplayRuns(runs, log, i, j - 1), log[j - 1])
  }

  /** One run of the ledger: created unless it is there, patched if it is. */
  function RunAfter(x: Option<Run>, p: Payload, id: Id): Option<Run> {
    if Creates(p, id) && x.None? then Some(p.request.run)
    else if p.Normal? && p.request.RunUpdate? && p.request.id == id && x.Some? then Some(x.value + p.request.patch)
    else x
  }

  predicate Creates(p: Payload, id: Id) {
    p.Normal? && p.request.RunCreate? && p.request.id == id
  }

  predicate Patches(p: Payload, id: Id, f: Field) {
    p.Normal? && p.request.RunUpdate? && p.request.id == id && f in p.request.patch
  }

  function ReplayRun(x: Option<Run>, log: seq<Payload>, i: nat, j: nat, id: Id): Option<Run>
    requires i <= j <= |log|
    decreases j
  {
    if i == j then x else RunAfter(ReplayRun(x, log, i, j - 1, id), log[j - 1], id)
  }

  ghost predicate PatchedIn(log: seq<Payload>, i: nat, j: nat, id: Id, f: Field)
    requires j <= |log|
  {
    exists n :: i <= n < j && Patches(log[n], id, f)
  }

  ghost predicate CreatedIn(log: seq<Payload>, i: nat, j: nat, id: Id)
    requires j <= |log|
  {
    exists n :: i <= n < j && Creates(log[n], id)
  }

  lemma {:induction false} RunByRun(runs: map<Id, Run>, log: seq<Payload>, i: nat, j: nat, id: Id)
    requires i <= j <= |log|
    ensures Lookup(ReplayRuns(runs, log, i, j), id) == ReplayRun(Lookup(runs, id), log, i, j, id)
    decreases j
  {
    if i < j {
      RunByRun(runs, log, i, j - 1, id);
    }
  }

  lemma {:induction false} RunsAtReplay(log: seq<Payload>, i: nat, j: nat)
    requires i <= j <= |log|
    ensures ReplayRuns(RunsAt(log, i), log, i, j) == RunsAt(log, j)
    decreases j
  {
    if i < j {
      RunsAtReplay(log, i, j - 1);
    }
  }

  lemma {:induction false} ReplayRunsConcat(runs: map<Id, Run>, log: seq<Payload>, i: nat, m: nat, j: nat)
    requires i <= m <= j <= |log|
    ensures ReplayRuns(runs, log, i, j) == ReplayRuns(ReplayRuns(runs, log, i, m), log, m, j)
    decreases j
  {
    if m < j {
      ReplayRunsConcat(runs, log, i, m, j - 1);
    }
  }

  lemma {:induction false} ReplayRunConcat(x: Option<Run>, log: seq<Payload>, i: nat, m: nat, j: nat, id: Id)
    requires i <= m <= j <= |log|
    ensures ReplayRun(x, log, i, j, id) == ReplayRun(ReplayRun(x, log, i, m, id), log, m, j, id)
    decreases j
  {
    if m < j {
      ReplayRunConcat(x, log, i, m, j - 1, id);
    }
  }

  /** Two values of a run differ at most in fields that entries `i..j` rewrite. */
  ghost predicate FieldsAgree(log: seq<Payload>, i: nat, j: nat, id: Id, a: Run, b: Run)
    requires j <= |log|
  {
    forall f :: PatchedIn(log, i, j, id, f) || Lookup(a, f) == Lookup(b, f)
  }

  lemma {:induction false} PresentField(log: seq<Payload>, i: nat, j: nat, id: Id, a: Run, b: Run, f: Field)
    requires i <= j <= |log|
    ensures var x, y := ReplayRun(Some(a), log, i, j, id), ReplayRun(Some(b), log, i, j, id);
            && x.Some? && y.Some?
            && (Lookup(x.value, f) == Lookup(y.value, f) <==> PatchedIn(log, i, j, id, f) || Lookup(a, f) == Lookup(b, f))
    decreases j
  {
    if i < j {
      PresentField(log, i, j - 1, id, a, b, f);
      assert PatchedIn(log, i, j, id, f) <==> PatchedIn(log, i, j - 1, id, f) || Patches(log[j - 1], id, f);
    }
  }

  /** A run present in both ledgers comes out the same exactly if it differs only in rewritten fields. */
  lemma PresentIff(log: seq<Payload>, i: nat, j: nat, id: Id, a: Run, b: Run)
    requires i <= j <= |log|
    ensures ReplayRun(Some(a), log, i, j, id) == ReplayRun(Some(b), log, i, j, id) <==> FieldsAgree(log, i, j, id, a, b)
  {
    forall f
      ensures var x, y := ReplayRun(Some(a), log, i, j, id), ReplayRun(Some(b), log, i, j, id);
              && x.Some? && y.Some?
              && (Lookup(x.value, f) == Lookup(y.value, f) <==> PatchedIn(log, i, j, id, f) || Lookup(a, f) == Lookup(b, f))
    {
      PresentField(log, i, j, id, a, b, f);
    }
    PresentField(log, i, j, id, a, b, RunStatus);
    var x, y := ReplayRun(Some(a), log, i, j, id), ReplayRun(Some(b), log, i, j, id);
    if FieldsAgree(log, i, j, id, a, b) {
      LookupsEqual(x.value, y.value);
    }
  }

  ghost predicate FirstCreate(log: seq<Payload>, i: nat, j: nat, id: Id, c: nat)
    requires j <= |log|
  {
    i <= c < j && Creates(log[c], id) && !CreatedIn(log, i, c, id)
  }

  lemma {:induction false} AbsentStays(log: seq<Payload>, i: nat, j: nat, id: Id)
    requires i <= j <= |log| && !CreatedIn(log, i, j, id)
    ensures ReplayRun(None, log, i, j, id) == None
    decreases j
  {
    if i < j {
      assert !CreatedIn(log, i, j - 1, id) && !Creates(log[j - 1], id);
      AbsentStays(log, i, j - 1, id);
    }
  }

  lemma {:induction false} FirstCreateExists(log: seq<Payload>, i: nat, j: nat, id: Id) returns (c: nat)
    requires i <= j <= |log| && CreatedIn(log, i, j, id)
    ensures FirstCreate(log, i, j, id, c)
    decreases j
  {
    if CreatedIn(log, i, j - 1, id) {
      c := FirstCreateExists(log, i, j - 1, id);
    } else {
      c := j - 1;
    }
  }

  /**
   When entries `i..j` bring two ledgers' rows of one run together.  Both have it: they differ only in
   rewritten fields.  One has it: the overlap creates it, and the fields not rewritten since are those
   of the creation.
   */
  ghost predicate RunAgrees(log: seq<Payload>, i: nat, j: nat, id: Id, x: Option<Run>, y: Option<Run>)
    requires i <= j <= |log|
  {
    if x.None? && y.None? then true
    else if x.Some? && y.Some? then FieldsAgree(log, i, j, id, x.value, y.value)
    else exists c :: FirstCreate(log, i, j, id, c) && CreatedAlike(log, i, j, id, if x.Some? then x.value else y.value, c)
  }

  ghost predicate CreatedAlike(log: seq<Payload>, i: nat, j: nat, id: Id, a: Run, c: nat)
    requires i <= c < j <= |log| && Creates(log[c], id)
  {
    var before := ReplayRun(Some(a), log, i, c, id);
    before.Some? && FieldsAgree(log, c + 1, j, id, before.value, log[c].request.run)
  }

  lemma FirstCreateUnique(log: seq<Payload>, i: nat, j: nat, id: Id, c: nat, c': nat)
    requires j <= |log| && FirstCreate(log, i, j, id, c) && FirstCreate(log, i, j, id, c')
    ensures c == c'
  {
  }

  lemma CreatedIff(log: seq<Payload>, i: nat, j: nat, id: Id, a: Run, c: nat)
    requires i <= j <= |log| && FirstCreate(log, i, j, id, c)
    ensures ReplayRun(Some(a), log, i, j, id) == ReplayRun(None, log, i, j, id) <==> CreatedAlike(log, i, j, id, a, c)
  {
    AbsentStays(log, i, c, id);
    PresentField(log, i, c, id, a, a, RunStatus);
    var before := ReplayRun(Some(a), log, i, c, id);
    assert ReplayRun(Some(a), log, i, c + 1, id) == before;
    assert ReplayRun(None, log, i, c + 1, id) == Some(log[c].request.run);
    ReplayRunConcat(Some(a), log, i, c + 1, j, id);
    ReplayRunConcat(None, log, i, c + 1, j, id);
    PresentIff(log, c + 1, j, id, before.value, log[c].request.run);
  }

  /** A run that one ledger has and the other lacks. */
  lemma AbsentIff(log: seq<Payload>, i: nat, j: nat, id: Id, a: Run)
    requires i <= j <= |log|
    ensures ReplayRun(Some(a), log, i, j, id) == ReplayRun(None, log, i, j, id)
       <==> exists c :: FirstCreate(log, i, j, id, c) && CreatedAlike(log, i, j, id, a, c)
  {
    if CreatedIn(log, i, j, id) {
      var c := FirstCreateExists(log, i, j, id);
      CreatedIff(log, i, j, id, a, c);
      if c' :| FirstCreate(log, i, j, id, c') && CreatedAlike(log, i, j, id, a, c') {
        FirstCreateUnique(log, i, j, id, c, c');
      }
    } else {
      AbsentStays(log, i, j, id);
      PresentField(log, i, j, id, a, a, RunStatus);
    }
  }

  lemma RunAgreesIff(log: seq<Payload>, i: nat, j: nat, id: Id, x: Option<Run>, y: Option<Run>)
    requires i <= j <= |log|
    ensures ReplayRun(x, log, i, j, id) == ReplayRun(y, log, i, j, id) <==> RunAgrees(log, i, j, id, x, y)
  {
    if x.Some? && y.Some? {
      PresentIff(log, i, j, id, x.value, y.value);
    } else if x.Some? {
      AbsentIff(log, i, j, id, x.value);
    } else if y.Some? {
      AbsentIff(log, i, j, id, y.value);
    }
  }

  /**
   A ledger replayed from the label is that of straight replay exactly if every run it has, or should
   have had at the label, is brought together by the entries replayed.
   */
  lemma LedgerIff(log: seq<Payload>, start: nat, j: nat, runs: map<Id, Run>)
    requires start <= j <= |log|
    ensures ReplayRuns(runs, log, start, j) == RunsAt(log, j)
       <==> forall id :: RunAgrees(log, start, j, id, Lookup(RunsAt(log, start), id), Lookup(runs, id))
  {
    var a, b := RunsAt(log, j), ReplayRuns(runs, log, start, j);
    RunsAtReplay(log, start, j);
    forall id
      ensures Lookup(a, id) == Lookup(b, id) <==> RunAgrees(log, start, j, id, Lookup(RunsAt(log, start), id), Lookup(runs, id))
    {
      RunByRun(RunsAt(log, start), log, start, j, id);
      RunByRun(runs, log, start, j, id);
      RunAgreesIff(log, start, j, id, Lookup(RunsAt(log, start), id), Lookup(runs, id));
    }
    if forall id :: Lookup(a, id) == Lookup(b, id) {
      LookupsEqual(a, b);
    }
  }

  /** Run ids are not used twice and the node has no run from after the label. */
  ghost predicate LedgerBehind(log: seq<Payload>, start: nat, j: nat, runs: map<Id, Run>)
    requires start <= j <= |log|
  {
    && (forall id :: id in RunsAt(log, start) ==> !CreatedIn(log, start, j, id))
    && (forall id :: id in runs ==> id in RunsAt(log, start))
  }

  /** Then: exactly if every run at the label is known to the node and differs only in rewritten fields. */
  lemma LedgerKnownIff(log: seq<Payload>, start: nat, j: nat, runs: map<Id, Run>)
    requires start <= j <= |log| && LedgerBehind(log, start, j, runs)
    ensures ReplayRuns(runs, log, start, j) == RunsAt(log, j)
       <==> forall id :: id in RunsAt(log, start) ==> id in runs && FieldsAgree(log, start, j, id, RunsAt(log, start)[id], runs[id])
  {
    LedgerIff(log, start, j, runs);
    forall id
      ensures RunAgrees(log, start, j, id, Lookup(RunsAt(log, start), id), Lookup(runs, id))
         <==> (id in RunsAt(log, start) ==> id in runs && FieldsAgree(log, start, j, id, RunsAt(log, start)[id], runs[id]))
    {
      if id in RunsAt(log, start) {
        assert !CreatedIn(log, start, j, id);
      }
    }
  }

  /** The run ledger is not in the snapshot: a run from before the label that the node lacked is missing for good. */
  lemma SnapshotLosesRuns(log: seq<Payload>, start: nat, j: nat, runs: map<Id, Run>, id: Id)
    requires start <= j <= |log| && id in RunsAt(log, start) && id !in runs && !CreatedIn(log, start, j, id)
    ensures id in RunsAt(log, j) && id !in ReplayRuns(runs, log, start, j)
  {
    RunsAtReplay(log, start, j);
    RunByRun(RunsAt(log, start), log, start, j, id);
    RunByRun(runs, log, start, j, id);
    AbsentStays(log, start, j, id);
    PresentField(log, start, j, id, RunsAt(log, start)[id], RunsAt(log, start)[id], RunStatus);
  }
}
