/** The driver loop of an agent run: prompt, reply, tool, journal; stopped anywhere and started again. */
module AgentDriver {
  import opened Options
  import opened AgentTranscript
  import opened AgentReply

  /**
   What the world does to one turn: `None` where the driver is stopped by an error or a crash.
   A failed tool call is an answer like any other; a failed search is an empty one.
   */
  datatype Turn = Turn(
    leased: bool,
    reply: Option<string>,
    hits: seq<string>,
    leader: bool,
    executor: bool,
    answer: Option<string>,
    write: Write)

  /** An external call that left the process, with the length of the journal at that moment. */
  datatype Send = Send(key: nat, call: Call, args: string, at: nat)

  /** A prompt shown to the model by a driver that took over at `from` steps after reading the first `base`. */
  datatype Shown = Shown(text: string, base: nat, from: nat, at: nat)

  const NoExecutor := "{\"error\":\"no tool executor configured\"}"

  // ---------- what holds of every run ----------

  /** Each key is at most the number of markers in the transcript before it. */
  predicate KeysBounded(journal: seq<Step>) {
    forall i :: 0 <= i < |journal| && journal[i].External? ==> journal[i].key <= Calls(journal[..i]) + Strays(journal[..i])
  }

  /** Each key is at least the number of calls before it. */
  predicate KeysKeepUp(journal: seq<Step>) {
    forall i :: 0 <= i < |journal| && journal[i].External? ==> Calls(journal[..i]) <= journal[i].key
  }

  predicate KeysBelow(journal: seq<Step>, n: nat) {
    forall i :: 0 <= i < |journal| && journal[i].External? ==> journal[i].key < n
  }

  /** The keys of journaled calls strictly increase, so no key is journaled twice. */
  predicate KeysIncrease(journal: seq<Step>) {
    forall i, k :: 0 <= i < k < |journal| && journal[i].External? && journal[k].External? ==> journal[i].key < journal[k].key
  }

  predicate Journaled(journal: seq<Step>, key: nat) {
    exists i :: 0 <= i < |journal| && journal[i].External? && journal[i].key == key
  }

  /** No key that was in the journal is sent again. */
  predicate NeverResent(journal: seq<Step>, sent: seq<Send>)
    requires SendsInside(journal, sent)
  {
    forall a :: 0 <= a < |sent| ==> !Journaled(journal[..sent[a].at], sent[a].key)
  }

  predicate SendsInside(journal: seq<Step>, sent: seq<Send>) {
    forall a :: 0 <= a < |sent| ==> sent[a].at <= |journal|
  }

  /** A key sent counts the calls in the journal at that moment, plus at most the stray markers in it. */
  predicate SendsCount(journal: seq<Step>, sent: seq<Send>)
    requires SendsInside(journal, sent)
  {
    forall a :: 0 <= a < |sent| ==>
      Calls(journal[..sent[a].at]) <= sent[a].key <= Calls(journal[..sent[a].at]) + Strays(journal[..sent[a].at])
  }

  /** Steps that carry the same key carry the same result. */
  predicate ResultsAgree(journal: seq<Step>) {
    forall i, k :: 0 <= i < k < |journal| && journal[i].External? && journal[k].External? && journal[i].key == journal[k].key ==>
      journal[i].result == journal[k].result
  }

  predicate WasSent(sent: seq<Send>, key: nat, call: Call, at: nat) {
    exists a :: 0 <= a < |sent| && sent[a].key == key && sent[a].call == call && sent[a].at == at
  }

  /** A journaled call left the process just before, unless there was no executor to make it. */
  predicate SentFirst(journal: seq<Step>, calls: seq<Call>, sent: seq<Send>)
    requires |calls| == |journal|
  {
    forall i :: 0 <= i < |journal| && journal[i].External? ==>
      WasSent(sent, journal[i].key, calls[i], i) || journal[i].result == NoExecutor
  }

  ghost predicate ShownRight(journal: seq<Step>, calls: seq<Call>, x: Shown)
    requires |calls| == |journal|
  {
    && x.base <= x.from <= x.at <= |journal| && LoopSteps(journal, x.from, x.at)
    && x.text == Showing(journal, calls, x.base, x.from, x.at)
  }

  ghost predicate AllShownRight(journal: seq<Step>, calls: seq<Call>, shown: seq<Shown>)
    requires |calls| == |journal|
  {
    forall a :: 0 <= a < |shown| ==> ShownRight(journal, calls, shown[a])
  }

  /**
   The invariant of a run. `current`: every driver so far had read the whole journal when it took over.
   `guarded`: every driver so far was current or had read the ledger of recorded results.
   */
  ghost predicate Inv(journal: seq<Step>, calls: seq<Call>, shown: seq<Shown>, sent: seq<Send>, current: bool, guarded: bool) {
    && Aligned(journal, calls) && AllShownRight(journal, calls, shown)
    && SendsInside(journal, sent) && KeysBounded(journal)
    && (guarded ==> NeverResent(journal, sent) && ResultsAgree(journal))
    && (current ==> KeysIncrease(journal) && KeysKeepUp(journal) && SentFirst(journal, calls, sent) && SendsCount(journal, sent))
  }

  /** Every recorded result is in the ledger. */
  predicate Covers(journal: seq<Step>, executed: map<nat, string>) {
    forall i :: 0 <= i < |journal| && journal[i].External? ==> journal[i].key in executed && executed[journal[i].key] == journal[i].result
  }

  /** The next key is past everything journaled and everything in the ledger. */
  predicate Ahead(journal: seq<Step>, executed: map<nat, string>, next: nat) {
    KeysBelow(journal, next) && forall k :: k in executed ==> k < next
  }

  predicate Informed(journal: seq<Step>, executed: map<nat, string>, next: nat) {
    Covers(journal, executed) || Ahead(journal, executed, next)
  }

  // ---------- growing the journal ----------

  lemma Growth(journal: seq<Step>, step: Step)
    ensures Calls(journal + [step]) == Calls(journal) + (if step.External? then 1 else 0)
    ensures Strays(journal + [step]) == Strays(journal) + Stray(step)
    ensures forall n :: 0 <= n <= |journal| ==> (journal + [step])[..n] == journal[..n]
  {
    assert (journal + [step])[..|journal|] == journal;
  }

  lemma ShowingStable(journal: seq<Step>, calls: seq<Call>, step: Step, call: Call, base: nat, from: nat, at: nat)
    requires |calls| == |journal| && base <= from <= at <= |journal|
    ensures Showing(journal + [step], calls + [call], base, from, at) == Showing(journal, calls, base, from, at)
  {
    assert (journal + [step])[..base] == journal[..base];
    assert LiveLines(journal + [step], calls + [call], from, at) == LiveLines(journal, calls, from, at);
  }

  lemma ShowingNext(journal: seq<Step>, calls: seq<Call>, step: Step, call: Call, base: nat, from: nat)
    requires |calls| == |journal| && base <= from <= |journal|
    ensures Showing(journal + [step], calls + [call], base, from, |journal| + 1)
         == Showing(journal, calls, base, from, |journal|) + LiveLine(step, call)
  {
    var a, b := Lines(journal[..base]), LiveLines(journal, calls, from, |journal|);
    CatSnoc(a + b, LiveLine(step, call));
    assert (journal + [step])[..base] == journal[..base];
    assert LiveLines(journal + [step], calls + [call], from, |journal| + 1) == b + [LiveLine(step, call)];
    assert a + (b + [LiveLine(step, call)]) == (a + b) + [LiveLine(step, call)];
  }

  lemma ShownGrow(journal: seq<Step>, calls: seq<Call>, shown: seq<Shown>, step: Step, call: Call)
    requires |calls| == |journal| && AllShownRight(journal, calls, shown)
    ensures AllShownRight(journal + [step], calls + [call], shown)
  {
    forall a | 0 <= a < |shown|
      ensures ShownRight(journal + [step], calls + [call], shown[a])
    {
      assert ShownRight(journal, calls, shown[a]);
      ShowingStable(journal, calls, step, call, shown[a].base, shown[a].from, shown[a].at);
    }
  }

  lemma ResentGrow(journal: seq<Step>, sent: seq<Send>, step: Step)
    requires SendsInside(journal, sent)
    ensures SendsInside(journal + [step], sent)
    ensures NeverResent(journal, sent) ==> NeverResent(journal + [step], sent)
    ensures SendsCount(journal, sent) ==> SendsCount(journal + [step], sent)
  {
    Growth(journal, step);
    if NeverResent(journal, sent) {
      forall a | 0 <= a < |sent|
        ensures !Journaled((journal + [step])[..sent[a].at], sent[a].key)
      {
        assert (journal + [step])[..sent[a].at] == journal[..sent[a].at];
      }
    }
  }

  lemma {:induction false} KeysGrow(journal: seq<Step>, step: Step)
    requires KeysBounded(journal) && (step.External? ==> step.key <= Calls(journal) + Strays(journal))
    ensures KeysBounded(journal + [step])
    ensures KeysKeepUp(journal) && (step.External? ==> Calls(journal) <= step.key) ==> KeysKeepUp(journal + [step])
  {
    Growth(journal, step);
    assert journal[..|journal|] == journal;
    var grown := journal + [step];
    forall i | 0 <= i < |grown| && grown[i].External?
      ensures grown[i].key <= Calls(grown[..i]) + Strays(grown[..i])
    {
      assert grown[..i] == journal[..i];
    }
    if KeysKeepUp(journal) && (step.External? ==> Calls(journal) <= step.key) {
      forall i | 0 <= i < |grown| && grown[i].External?
        ensures Calls(grown[..i]) <= grown[i].key
      {
        assert grown[..i] == journal[..i];
      }
    }
  }

  /** A step that is not an external call keeps the invariant. */
  lemma GrowPlain(journal: seq<Step>, calls: seq<Call>, shown: seq<Shown>, sent: seq<Send>, current: bool, guarded: bool, step: Step, call: Call)
    requires Inv(journal, calls, shown, sent, current, guarded) && !step.External?
    ensures Inv(journal + [step], calls + [call], shown, sent, current, guarded)
  {
    ShownGrow(journal, calls, shown, step, call);
    ResentGrow(journal, sent, step);
    KeysGrow(journal, step);
  }

  lemma CallGrowsKeys(journal: seq<Step>, step: Step)
    requires KeysIncrease(journal) && step.External? && KeysBelow(journal, step.key)
    ensures KeysIncrease(journal + [step])
  {
  }

  lemma CallGrowsResults(journal: seq<Step>, step: Step)
    requires ResultsAgree(journal) && step.External?
    requires forall i :: 0 <= i < |journal| && journal[i].External? && journal[i].key == step.key ==> journal[i].result == step.result
    ensures ResultsAgree(journal + [step])
  {
  }

  lemma CallGrowsSent(journal: seq<Step>, calls: seq<Call>, sent: seq<Send>, step: Step, call: Call)
    requires |calls| == |journal| && SentFirst(journal, calls, sent)
    requires step.External? ==> WasSent(sent, step.key, call, |journal|) || step.result == NoExecutor
    ensures SentFirst(journal + [step], calls + [call], sent)
  {
    var journal', calls' := journal + [step], calls + [call];
    forall i | 0 <= i < |journal'| && journal'[i].External?
      ensures WasSent(sent, journal'[i].key, calls'[i], i) || journal'[i].result == NoExecutor
    {
      if i < |journal| {
        assert journal'[i] == journal[i] && calls'[i] == calls[i];
      }
    }
  }

  /** So does an external call whose key is new, or is in the journal with the same result. */
  lemma {:induction false} GrowCall(journal: seq<Step>, calls: seq<Call>, shown: seq<Shown>, sent: seq<Send>, current: bool, guarded: bool, step: Step, call: Call)
    requires Inv(journal, calls, shown, sent, current, guarded) && step.External? && Records(step, call)
    requires step.key <= Calls(journal) + Strays(journal)
    requires guarded ==> forall i :: 0 <= i < |journal| && journal[i].External? && journal[i].key == step.key ==> journal[i].result == step.result
    requires current ==> KeysBelow(journal, step.key) && Calls(journal) <= step.key
    requires current ==> WasSent(sent, step.key, call, |journal|) || step.result == NoExecutor
    ensures Inv(journal + [step], calls + [call], shown, sent, current, guarded)
  {
    ShownGrow(journal, calls, shown, step, call);
    ResentGrow(journal, sent, step);
    KeysGrow(journal, step);
    if guarded {
      CallGrowsResults(journal, step);
    }
    if current {
      CallGrowsKeys(journal, step);
      CallGrowsSent(journal, calls, sent, step, call);
    }
  }

  /** Sending a key that is not in the journal keeps the invariant. */
  lemma GrowSent(journal: seq<Step>, calls: seq<Call>, shown: seq<Shown>, sent: seq<Send>, current: bool, guarded: bool, s: Send)
    requires Inv(journal, calls, shown, sent, current, guarded) && s.at == |journal|
    requires guarded ==> !Journaled(journal, s.key)
    requires current ==> Calls(journal) <= s.key <= Calls(journal) + Strays(journal)
    ensures Inv(journal, calls, shown, sent + [s], current, guarded)
  {
    assert journal[..|journal|] == journal;
    forall i | 0 <= i < |journal| && journal[i].External? && WasSent(sent, journal[i].key, calls[i], i)
      ensures WasSent(sent + [s], journal[i].key, calls[i], i)
    {
      var a :| 0 <= a < |sent| && sent[a].key == journal[i].key && sent[a].call == calls[i] && sent[a].at == i;
      assert (sent + [s])[a] == sent[a];
    }
  }

  /** So does showing the prompt a driver holds. */
  lemma GrowShown(journal: seq<Step>, calls: seq<Call>, shown: seq<Shown>, sent: seq<Send>, current: bool, guarded: bool, d: Driver)
    requires Inv(journal, calls, shown, sent, current, guarded) && Driving(journal, calls, d, current, guarded)
    ensures Inv(journal, calls, shown + [Shown(d.transcript, d.base, d.from, |journal|)], sent, current, guarded)
  {
    assert ShownRight(journal, calls, Shown(d.transcript, d.base, d.from, |journal|));
  }

  /** A driver that has read the whole journal starts past every key in it. */
  lemma {:induction false} StartsAhead(journal: seq<Step>, calls: seq<Call>)
    requires Aligned(journal, calls) && KeysBounded(journal)
    ensures MatchCount(Rebuilt(journal)) == Calls(journal) + Strays(journal)
    ensures KeysBelow(journal, MatchCount(Rebuilt(journal)))
  {
    JournalTokens(journal, calls);
    RebuiltCount(journal);
    forall i | 0 <= i < |journal| && journal[i].External?
      ensures journal[i].key < Calls(journal) + Strays(journal)
    {
      assert journal[..i + 1][..i] == journal[..i];
      CountsGrow(journal, i + 1);
    }
  }

  lemma {:induction false} CountsGrow(journal: seq<Step>, n: nat)
    requires n <= |journal|
    ensures Calls(journal[..n]) <= Calls(journal) && Strays(journal[..n]) <= Strays(journal)
  {
    if n < |journal| {
      var init := journal[..|journal| - 1];
      CountsGrow(init, n);
      assert init[..n] == journal[..n];
    } else {
      assert journal[..n] == journal;
    }
  }

  lemma JournalTokens(journal: seq<Step>, calls: seq<Call>)
    requires Aligned(journal, calls)
    ensures forall i :: 0 <= i < |journal| ==> StepToken(journal[i])
  {
    forall i | 0 <= i < |journal|
      ensures StepToken(journal[i])
    {
      assert Records(journal[i], calls[i]);
    }
  }

  // ---------- what the invariant says to a reader ----------

  /** With no marker in any free text, keys are 0, 1, 2, ... in order of journaling. */
  lemma {:induction false} KeysGapless(journal: seq<Step>, calls: seq<Call>, shown: seq<Shown>, sent: seq<Send>, i: nat)
    requires Inv(journal, calls, shown, sent, true, true) && Strays(journal) == 0 && i < |journal| && journal[i].External?
    ensures journal[i].key == Calls(journal[..i])
  {
    CountsGrow(journal, i);
  }

  /** A call whose answer was not recorded is retried under the key it had. */
  lemma RetryKeepsKey(journal: seq<Step>, calls: seq<Call>, shown: seq<Shown>, sent: seq<Send>, a: nat, b: nat)
    requires Inv(journal, calls, shown, sent, true, true) && Strays(journal) == 0 && a < |sent| && b < |sent|
    ensures sent[a].key == sent[b].key <==> Calls(journal[..sent[a].at]) == Calls(journal[..sent[b].at])
  {
    CountsGrow(journal, sent[a].at);
    CountsGrow(journal, sent[b].at);
  }

  /** A key is sent a second time only if the journal still lacked it: the earlier answer was never recorded. */
  lemma ResendMeansUnrecorded(journal: seq<Step>, calls: seq<Call>, shown: seq<Shown>, sent: seq<Send>, current: bool, a: nat, b: nat, i: nat)
    requires Inv(journal, calls, shown, sent, current, true) && a < b < |sent| && sent[a].key == sent[b].key
    requires i < sent[b].at && journal[i].External?
    ensures journal[i].key != sent[a].key
  {
    assert journal[..sent[b].at][i] == journal[i];
  }

  /** A prompt by a driver that had read everything is the rebuilt transcript exactly while no server name had a slash. */
  lemma PromptsFaithfulIff(journal: seq<Step>, calls: seq<Call>, shown: seq<Shown>, sent: seq<Send>, current: bool, guarded: bool, a: nat)
    requires Inv(journal, calls, shown, sent, current, guarded) && a < |shown| && shown[a].base == shown[a].from
    ensures shown[a].from <= shown[a].at <= |journal|
    ensures shown[a].text == Rebuilt(journal[..shown[a].at]) <==> Slashless(journal, calls, shown[a].from, shown[a].at)
  {
    assert ShownRight(journal, calls, shown[a]);
    PromptFaithfulIff(journal, calls, shown[a].from, shown[a].at);
  }

  // ---------- the driver ----------

  /** The variables of one driver: the prompt, the next key, the ledger of results, and where it took over. */
  datatype Driver = Driver(transcript: string, next: nat, executed: map<nat, string>, base: nat, from: nat)

  /** What holds of a driver at the head of its loop. */
  ghost predicate Driving(journal: seq<Step>, calls: seq<Call>, d: Driver, current: bool, guarded: bool)
    requires |calls| == |journal|
  {
    && d.base <= d.from <= |journal| && LoopSteps(journal, d.from, |journal|)
    && d.transcript == Showing(journal, calls, d.base, d.from, |journal|)
    && d.next <= Calls(journal) + Strays(journal)
    && (guarded ==> Informed(journal, d.executed, d.next))
    && (current ==> Ahead(journal, d.executed, d.next) && Calls(journal) <= d.next)
  }

  lemma DrivingPlain(journal: seq<Step>, calls: seq<Call>, d: Driver, current: bool, guarded: bool, step: Step, call: Call)
    requires |calls| == |journal| && Driving(journal, calls, d, current, guarded) && LoopStep(step) && !step.External?
    ensures Driving(journal + [step], calls + [call], d.(transcript := d.transcript + LiveLine(step, call)), current, guarded)
  {
    Growth(journal, step);
    ShowingNext(journal, calls, step, call, d.base, d.from);
  }

  lemma CoversCall(journal: seq<Step>, executed: map<nat, string>, step: Step)
    requires Covers(journal, executed) && step.External? && (step.key in executed ==> executed[step.key] == step.result)
    ensures Covers(journal + [step], executed[step.key := step.result])
  {
  }

  lemma AheadCall(journal: seq<Step>, executed: map<nat, string>, step: Step)
    requires step.External? && Ahead(journal, executed, step.key)
    ensures Ahead(journal + [step], executed[step.key := step.result], step.key + 1)
  {
  }

  lemma DrivingCall(journal: seq<Step>, calls: seq<Call>, d: Driver, current: bool, guarded: bool, step: Step, call: Call)
    requires |calls| == |journal| && Driving(journal, calls, d, current, guarded)
    requires step.External? && step.key == d.next && (step.key in d.executed ==> d.executed[step.key] == step.result)
    ensures Driving(journal + [step], calls + [call],
                    Driver(d.transcript + LiveLine(step, call), d.next + 1, d.executed[step.key := step.result], d.base, d.from),
                    current, guarded)
  {
    Growth(journal, step);
    ShowingNext(journal, calls, step, call, d.base, d.from);
    if Ahead(journal, d.executed, d.next) {
      AheadCall(journal, d.executed, step);
    } else if Covers(journal, d.executed) {
      CoversCall(journal, d.executed, step);
    }
  }

  /** The driver after it has journaled a call. */
  function NextDriver(d: Driver, call: Call, result: string): Driver {
    Driver(d.transcript + LiveLine(CallStep(d, call, result), call), d.next + 1, d.executed[d.next := result], d.base, d.from)
  }

  function CallStep(d: Driver, call: Call, result: string): Step {
    External(call.server + "/" + call.tool, d.next, result)
  }

  /** Journaling the result a driver holds for its next key keeps the run and the driver. */
  lemma CallKeeps(journal: seq<Step>, calls: seq<Call>, shown: seq<Shown>, sent: seq<Send>, current: bool, guarded: bool, d: Driver, call: Call, result: string, journal': seq<Step>, calls': seq<Call>, d': Driver)
    requires journal' == journal + [CallStep(d, call, result)] && calls' == calls + [call] && d' == NextDriver(d, call, result)
    requires Inv(journal, calls, shown, sent, current, guarded) && Driving(journal, calls, d, current, guarded)
    requires (d.next in d.executed ==> d.executed[d.next] == result) && Token(call.server) && Token(call.tool)
    requires current ==> WasSent(sent, d.next, call, |journal|) || result == NoExecutor
    ensures Inv(journal', calls', shown, sent, current, guarded) && Driving(journal', calls', d', current, guarded)
  {
    var step := CallStep(d, call, result);
    DrivingCall(journal, calls, d, current, guarded, step, call);
    GrowCall(journal, calls, shown, sent, current, guarded, step, call);
  }

  /** The first external call from `base` on. */
  lemma {:induction false} FirstCall(journal: seq<Step>, base: nat, n: nat) returns (i: nat)
    requires base <= n <= |journal| && Calls(journal[..base]) < Calls(journal[..n])
    ensures base <= i < n && journal[i].External? && Calls(journal[..i]) == Calls(journal[..base])
    decreases n
  {
    assert journal[..n][..n - 1] == journal[..n - 1];
    if Calls(journal[..base]) < Calls(journal[..n - 1]) {
      i := FirstCall(journal, base, n - 1);
    } else {
      CountsGrow(journal[..n - 1], base);
      assert journal[..n - 1][..base] == journal[..base];
      i := n - 1;
    }
  }

  lemma BoundedPrefix(journal: seq<Step>, calls: seq<Call>, base: nat)
    requires Aligned(journal, calls) && KeysBounded(journal) && base <= |journal|
    ensures Aligned(journal[..base], calls[..base]) && KeysBounded(journal[..base])
  {
    var head := journal[..base];
    forall i | 0 <= i < |head| && head[i].External?
      ensures head[i].key <= Calls(head[..i]) + Strays(head[..i])
    {
      assert head[..i] == journal[..i];
    }
  }

  lemma CallAfter(journal: seq<Step>, base: nat, i: nat)
    requires base <= i < |journal| && journal[i].External?
    ensures Calls(journal[..base]) < Calls(journal)
  {
    CallsFrom(journal, base, i);
    CallsNext(journal, i);
    CallsFrom(journal, i + 1, |journal|);
    assert journal[..|journal|] == journal;
  }

  lemma CallsFrom(journal: seq<Step>, base: nat, i: nat)
    requires base <= i <= |journal|
    ensures Calls(journal[..base]) <= Calls(journal[..i])
  {
    CountsGrow(journal[..i], base);
    assert journal[..i][..base] == journal[..base];
  }

  lemma CallsNext(journal: seq<Step>, i: nat)
    requires i < |journal| && journal[i].External?
    ensures Calls(journal[..i + 1]) == Calls(journal[..i]) + 1
  {
    assert journal[..i + 1][..i] == journal[..i];
  }

  /** Whatever the history, a driver's first key is in the journal only if a call was journaled after what it read. */
  lemma {:induction false} StaleDriverNeedsNewCall(journal: seq<Step>, calls: seq<Call>, base: nat)
    requires Aligned(journal, calls) && KeysBounded(journal) && base <= |journal|
    ensures Journaled(journal, MatchCount(Rebuilt(journal[..base]))) ==> Calls(journal[..base]) < Calls(journal)
  {
    var key := MatchCount(Rebuilt(journal[..base]));
    BoundedPrefix(journal, calls, base);
    StartsAhead(journal[..base], calls[..base]);
    forall i | 0 <= i < base && journal[i].External?
      ensures journal[i].key < key
    {
      assert journal[..base][i] == journal[i];
    }
    if i :| 0 <= i < |journal| && journal[i].External? && journal[i].key == key {
      CallAfter(journal, base, i);
    }
  }

  /**
   When a stale driver repeats a key.  After a history of drivers that had each read the whole journal,
   and with no marker in free text, one that read only `base` steps starts on a key already journaled
   exactly if an external call was journaled after what it read.
   */
  lemma {:induction false} StaleDriverRepeatsIff(journal: seq<Step>, calls: seq<Call>, shown: seq<Shown>, sent: seq<Send>, base: nat)
    requires Inv(journal, calls, shown, sent, true, true) && Strays(journal) == 0 && base <= |journal|
    ensures Journaled(journal, MatchCount(Rebuilt(journal[..base]))) <==> Calls(journal[..base]) < Calls(journal)
  {
    StaleDriverNeedsNewCall(journal, calls, base);
    if Calls(journal[..base]) < Calls(journal) {
      assert journal[..|journal|] == journal;
      var i := FirstCall(journal, base, |journal|);
      KeysGapless(journal, calls, shown, sent, i);
      FirstKey(journal, calls, base);
    }
  }

  lemma {:induction false} FirstKey(journal: seq<Step>, calls: seq<Call>, base: nat)
    requires Aligned(journal, calls) && Strays(journal) == 0 && base <= |journal|
    ensures MatchCount(Rebuilt(journal[..base])) == Calls(journal[..base])
  {
    JournalTokens(journal, calls);
    RebuiltCount(journal[..base]);
    CountsGrow(journal, base);
  }

  /** For instance: the question was read, then another driver journaled the first call. */
  lemma StaleDriverMeetsOldKey(question: string, call: Call, result: string)
    requires MatchCount(question) == 0 && Token(call.server) && Token(call.tool)
    ensures var journal := [RunStart(question), External(call.server + "/" + call.tool, 0, result)];
            Journaled(journal, MatchCount(Rebuilt(journal[..1])))
  {
    var journal := [RunStart(question), External(call.server + "/" + call.tool, 0, result)];
    MatchCountIsStarts(question);
    RebuiltCount(journal[..1]);
    assert journal[..1] == [] + [journal[0]];
    Growth([], journal[0]);
    assert journal[1].External?;
  }

  method ReadLedger(journal: seq<Step>) returns (r: map<nat, string>)
    ensures forall k :: k in r <==> Journaled(journal, k)
    ensures ResultsAgree(journal) ==> Covers(journal, r)
  {
    r := map[];
    for i := 0 to |journal|
      invariant forall k :: k in r <==> Journaled(journal[..i], k)
      invariant ResultsAgree(journal) ==> Covers(journal[..i], r)
    {
      assert journal[..i + 1] == journal[..i] + [journal[i]];
      if journal[i].External? {
        r := r[journal[i].key := journal[i].result];
      }
    }
    assert journal[..|journal|] == journal;
  }

  /** The step that a reply other than an external call leaves in the journal. */
  function PlainStep(r: Reply, hits: seq<string>): Step
    requires !r.DoCall?
  {
    match r
    case DoSearch(query) => Search(query, hits)
    case DoRemember(content) => Remember(content)
    case DoApprove(prompt) => HitlRequest(prompt)
    case Answer(text) => LlmAnswer(text)
  }

  /** What an external call yields: the recorded result if the ledger has the key, else that of a call made now. */
  function CallResult(d: Driver, t: Turn): Option<string> {
    if d.next in d.executed then Some(d.executed[d.next])
    else if !t.leader then None
    else if !t.executor then Some(NoExecutor)
    else t.answer
  }

  function CallSends(d: Driver, t: Turn, call: Call, args: string, at: nat): seq<Send> {
    if d.next !in d.executed && t.leader && t.executor then [Send(d.next, call, args, at)] else []
  }

  function CallSteps(d: Driver, t: Turn, call: Call): seq<Step> {
    if CallResult(d, t).Some? && t.write.Applied() then [CallStep(d, call, CallResult(d, t).value)] else []
  }

  datatype Verdict = Continue | Answered(text: string) | Paused | Stopped

  function ReplySends(d: Driver, t: Turn, r: Reply, at: nat): seq<Send> {
    if r.DoCall? then CallSends(d, t, Call(r.server, r.tool), r.args, at) else []
  }

  function ReplySteps(d: Driver, t: Turn, r: Reply): seq<Step> {
    if r.DoCall? then CallSteps(d, t, Call(r.server, r.tool)) else if t.write.Applied() then [PlainStep(r, t.hits)] else []
  }

  function ReplyVerdict(d: Driver, t: Turn, r: Reply): Verdict {
    if !t.write.Done? then Stopped
    else
      match r
      case DoCall(_, _, _) => if CallResult(d, t).Some? then Continue else Stopped
      case Answer(text) => Answered(text)
      case DoApprove(_) => Paused
      case _ => Continue
  }

  /** What a turn that got a reply journals and sends, reply by reply. */
  lemma ReplySays(d: Driver, t: Turn, r: Reply, at: nat)
    ensures !t.write.Applied() ==> ReplySteps(d, t, r) == []
    ensures t.write.Applied() && r.DoSearch? ==> ReplySteps(d, t, r) == [Search(r.query, t.hits)]
    ensures t.write.Applied() && r.DoRemember? ==> ReplySteps(d, t, r) == [Remember(r.content)]
    ensures t.write.Applied() && r.DoApprove? ==> ReplySteps(d, t, r) == [HitlRequest(r.prompt)]
    ensures t.write.Applied() && r.Answer? ==> ReplySteps(d, t, r) == [LlmAnswer(r.text)]
    ensures !r.DoCall? ==> ReplySends(d, t, r, at) == []
    ensures r.DoCall? && d.next in d.executed ==> ReplySends(d, t, r, at) == []
    ensures r.DoCall? && d.next in d.executed && t.write.Applied() ==>
              ReplySteps(d, t, r) == [External(r.server + "/" + r.tool, d.next, d.executed[d.next])]
    ensures r.DoCall? && d.next !in d.executed && !t.leader ==> ReplySends(d, t, r, at) == [] && ReplySteps(d, t, r) == []
    ensures r.DoCall? && d.next !in d.executed && t.leader && t.executor ==>
              ReplySends(d, t, r, at) == [Send(d.next, Call(r.server, r.tool), r.args, at)]
    ensures r.DoCall? && d.next !in d.executed && t.leader && t.executor && t.answer.Some? && t.write.Applied() ==>
              ReplySteps(d, t, r) == [External(r.server + "/" + r.tool, d.next, t.answer.value)]
    ensures r.DoCall? && d.next !in d.executed && t.leader && t.executor && t.answer.None? ==> ReplySteps(d, t, r) == []
    ensures r.DoCall? && d.next !in d.executed && t.leader && !t.executor ==> ReplySends(d, t, r, at) == []
    ensures r.DoCall? && d.next !in d.executed && t.leader && !t.executor && t.write.Applied() ==>
              ReplySteps(d, t, r) == [External(r.server + "/" + r.tool, d.next, "{\"error\":\"no tool executor configured\"}")]
    ensures !t.write.Done? ==> ReplyVerdict(d, t, r) == Stopped
    ensures t.write.Done? && r.Answer? ==> ReplyVerdict(d, t, r) == Answered(r.text)
    ensures t.write.Done? && r.DoApprove? ==> ReplyVerdict(d, t, r) == Paused
    ensures t.write.Done? && (r.DoSearch? || r.DoRemember?) ==> ReplyVerdict(d, t, r) == Continue
    ensures t.write.Done? && r.DoCall? ==>
              ReplyVerdict(d, t, r) == if d.next in d.executed || (t.leader && (t.executor ==> t.answer.Some?)) then Continue else Stopped
  {
  }

  function Turns(maxTurns: nat): nat {
    if maxTurns == 0 then 1 else maxTurns
  }

  lemma SpacelessIsToken(s: string)
    requires Spaceless(s)
    ensures Token(s)
  {
  }

  lemma DrivingStarts(journal: seq<Step>, calls: seq<Call>, d: Driver, current: bool, guarded: bool, ledger: bool)
    requires Aligned(journal, calls) && KeysBounded(journal) && d.base <= |journal| == d.from
    requires d.transcript == Rebuilt(journal[..d.base]) && d.next == MatchCount(d.transcript)
    requires forall k :: k in d.executed ==> Journaled(journal, k)
    requires ledger && guarded ==> Covers(journal, d.executed)
    requires (current ==> d.base == |journal|) && (guarded ==> ledger || d.base == |journal|)
    ensures Driving(journal, calls, d, current, guarded)
  {
    var head := journal[..d.base];
    assert LiveLines(journal, calls, |journal|, |journal|) == [];
    assert Lines(head) + [] == Lines(head);
    JournalTokens(journal, calls);
    RebuiltCount(head);
    CountsGrow(journal, d.base);
    StartsAhead(journal, calls);
    if d.base == |journal| {
      assert head == journal;
      assert Ahead(journal, d.executed, d.next);
    }
  }

  class AgentRun {
    var journal: seq<Step>
    var shown: seq<Shown>
    var sent: seq<Send>
    ghost var calls: seq<Call>
    ghost var current: bool
    ghost var guarded: bool

    ghost predicate Valid()
      reads this
    {
      Inv(journal, calls, shown, sent, current, guarded)
    }

    ghost predicate Drives(d: Driver)
      requires Valid()
      reads this
    {
      Driving(journal, calls, d, current, guarded)
    }

    /** Create the run and journal its question. */
    constructor (question: string, write: Write)
      ensures Valid() && current && guarded && shown == [] && sent == []
      ensures journal == if write.Applied() then [RunStart(question)] else []
    {
      journal, calls := if write.Applied() then [RunStart(question)] else [], if write.Applied() then [Call("", "")] else [];
      shown, sent := [], [];
      current, guarded := true, true;
    }

    /** Journal a step that is not an external call. */
    method Log(step: Step, write: Write)
      requires Valid() && !step.External?
      modifies this`journal, this`calls
      ensures Valid()
      ensures journal == old(journal) + (if write.Applied() then [step] else [])
      ensures calls == old(calls) + (if write.Applied() then [Call("", "")] else [])
    {
      if write.Applied() {
        GrowPlain(journal, calls, shown, sent, current, guarded, step, Call("", ""));
        journal, calls := journal + [step], calls + [Call("", "")];
      }
    }

    method ResolveApproval(approved: bool, write: Write)
      requires Valid()
      modifies this`journal, this`calls
      ensures Valid()
      ensures journal == old(journal) + (if write.Applied() then [HitlResolve(approved)] else [])
    {
      Log(HitlResolve(approved), write);
    }

    /** A turn whose reply is not an external call. */
    method TakePlain(d: Driver, t: Turn, r: Reply) returns (v: Verdict, d': Driver)
      requires Valid() && Drives(d) && !r.DoCall?
      modifies this`journal, this`calls
      ensures Valid() && (v.Continue? ==> Drives(d'))
      ensures journal == old(journal) + (if t.write.Applied() then [PlainStep(r, t.hits)] else [])
      ensures v == if !t.write.Done? then Stopped else if r.Answer? then Answered(r.text) else if r.DoApprove? then Paused else Continue
      ensures d'.base == d.base && d'.from == d.from
    {
      var step := PlainStep(r, t.hits);
      d' := d;
      if LoopStep(step) {
        DrivingPlain(journal, calls, d, current, guarded, step, Call("", ""));
      }
      Log(step, t.write);
      if !t.write.Done? {
        return Stopped, d;
      }
      match r
      case Answer(text) => v := Answered(text);
      case DoApprove(_) => v := Paused;
      case _ =>
        v := Continue;
        d' := d.(transcript := d.transcript + LiveLine(step, Call("", "")));
    }

    /** The result of an external call: the recorded one if the ledger has the key, else that of a call made now. */
    method Execute(d: Driver, t: Turn, call: Call, args: string) returns (result: Option<string>)
      requires Valid() && Drives(d)
      modifies this`sent
      ensures Valid() && Drives(d)
      ensures result == CallResult(d, t) && sent == old(sent) + CallSends(d, t, call, args, |journal|)
      ensures current ==> d.next !in d.executed
      ensures current && result.Some? ==> WasSent(sent, d.next, call, |journal|) || result.value == NoExecutor
    {
      var prev := Lookup(d.executed, d.next);
      if prev.Some? {
        return prev;
      }
      if !t.leader {
        return None;
      }
      if !t.executor {
        return Some(NoExecutor);
      }
      var s := Send(d.next, call, args, |journal|);
      GrowSent(journal, calls, shown, sent, current, guarded, s);
      sent := sent + [s];
      assert sent[|sent| - 1] == s;
      result := t.answer;
    }

    method Store(grown: seq<Step>, ghost called: seq<Call>, ghost d: Driver)
      requires Inv(grown, called, shown, sent, current, guarded) && Driving(grown, called, d, current, guarded)
      modifies this`journal, this`calls
      ensures Valid() && Drives(d) && journal == grown && calls == called
    {
      journal, calls := grown, called;
    }

    /** Journal an external call and move on to the next key. */
    method Record(d: Driver, call: Call, result: string, write: Write) returns (d': Driver)
      requires Valid() && Drives(d) && Token(call.server) && Token(call.tool)
      requires d.next in d.executed ==> result == d.executed[d.next]
      requires current ==> WasSent(sent, d.next, call, |journal|) || result == NoExecutor
      modifies this`journal, this`calls
      ensures Valid() && (write.Done? ==> Drives(d'))
      ensures d'.base == d.base && d'.from == d.from
      ensures journal == old(journal) + (if write.Applied() then [CallStep(d, call, result)] else [])
    {
      d' := NextDriver(d, call, result);
      if write.Applied() {
        var grown := journal + [CallStep(d, call, result)];
        CallKeeps(journal, calls, shown, sent, current, guarded, d, call, result, grown, calls + [call], d');
        Store(grown, calls + [call], d');
      }
    }

    /** A turn whose reply is an external call. */
    method TakeCall(d: Driver, t: Turn, call: Call, args: string) returns (v: Verdict, d': Driver)
      requires Valid() && Drives(d) && Token(call.server) && Token(call.tool)
      modifies this`journal, this`calls, this`sent
      ensures Valid() && (v.Continue? ==> Drives(d'))
      ensures d'.base == d.base && d'.from == d.from
      ensures sent == old(sent) + CallSends(d, t, call, args, |old(journal)|)
      ensures journal == old(journal) + CallSteps(d, t, call)
      ensures v == if CallResult(d, t).Some? && t.write.Done? then Continue else Stopped
    {
      d' := d;
      var result := Execute(d, t, call, args);
      if result.None? {
        return Stopped, d;
      }
      d' := Record(d, call, result.value, t.write);
      v := if t.write.Done? then Continue else Stopped;
    }

    /** Act on a reply. */
    method TakeReply(d: Driver, t: Turn, r: Reply) returns (v: Verdict, d': Driver)
      requires Valid() && Drives(d) && (r.DoCall? ==> Spaceless(r.server) && Spaceless(r.tool))
      modifies this`journal, this`calls, this`sent
      ensures Valid() && (v.Continue? ==> Drives(d'))
      ensures d'.base == d.base && d'.from == d.from
      ensures sent == old(sent) + ReplySends(d, t, r, |old(journal)|)
      ensures journal == old(journal) + ReplySteps(d, t, r)
      ensures v == ReplyVerdict(d, t, r)
      ensures v.Continue? ==> |journal| == |old(journal)| + 1
      ensures v.Answered? ==> |journal| > |old(journal)| && journal[|journal| - 1] == LlmAnswer(v.text)
      ensures v.Paused? ==> |journal| > |old(journal)| && journal[|journal| - 1].HitlRequest?
    {
      if r.DoCall? {
        SpacelessIsToken(r.server);
        SpacelessIsToken(r.tool);
        v, d' := TakeCall(d, t, Call(r.server, r.tool), r.args);
      } else {
        v, d' := TakePlain(d, t, r);
      }
    }

    /** One turn of the loop: renew the lease, show the prompt, act on the reply. */
    method TakeTurn(d: Driver, t: Turn) returns (v: Verdict, d': Driver)
      requires Valid() && Drives(d)
      modifies this`journal, this`calls, this`sent, this`shown
      ensures Valid() && (v.Continue? ==> Drives(d'))
      ensures d'.base == d.base && d'.from == d.from
      ensures shown == old(shown) + (if t.leased then [Shown(d.transcript, d.base, d.from, |old(journal)|)] else [])
      ensures if t.leased && t.reply.Some? then
                var r := Parse(t.reply.value);
                && sent == old(sent) + ReplySends(d, t, r, |old(journal)|)
                && journal == old(journal) + ReplySteps(d, t, r)
                && v == ReplyVerdict(d, t, r)
              else
                sent == old(sent) && journal == old(journal) && v.Stopped?
      ensures v.Continue? ==> |journal| == |old(journal)| + 1 && t.leased
      ensures v.Answered? ==> |journal| > |old(journal)| && journal[|journal| - 1] == LlmAnswer(v.text)
      ensures v.Paused? ==> |journal| > |old(journal)| && journal[|journal| - 1].HitlRequest?
    {
      d' := d;
      if !t.leased {
        return Stopped, d;
      }
      GrowShown(journal, calls, shown, sent, current, guarded, d);
      shown := shown + [Shown(d.transcript, d.base, d.from, |journal|)];
      if t.reply.None? {
        return Stopped, d;
      }
      v, d' := TakeReply(d, t, Parse(t.reply.value));
    }

    /** What the loop needs to know of a turn. */
    method NextTurn(d: Driver, t: Turn) returns (v: Verdict, d': Driver)
      requires Valid() && Drives(d)
      modifies this`journal, this`calls, this`sent, this`shown
      ensures Valid() && (v.Continue? ==> Drives(d'))
      ensures d'.base == d.base && d'.from == d.from
      ensures old(journal) <= journal && old(sent) <= sent && old(shown) <= shown
      ensures |shown| <= |old(shown)| + 1 && forall a :: |old(shown)| <= a < |shown| ==> shown[a].base == d.base && shown[a].from == d.from
      ensures v.Continue? ==> |journal| == |old(journal)| + 1 && |shown| == |old(shown)| + 1
      ensures v.Answered? ==> |journal| > |old(journal)| && journal[|journal| - 1] == LlmAnswer(v.text)
      ensures v.Paused? ==> |journal| > |old(journal)| && journal[|journal| - 1].HitlRequest?
    {
      v, d' := TakeTurn(d, t);
    }

    /** Rebuild the transcript, count the calls in it and read the ledger. */
    method Begin(base: nat, ledger: bool) returns (d: Driver)
      requires Valid() && base <= |journal|
      modifies this`current, this`guarded
      ensures Valid() && Drives(d)
      ensures d.base == base && d.from == |journal| && d.transcript == Rebuilt(journal[..base]) && d.next == MatchCount(d.transcript)
      ensures current == (old(current) && base == |journal|)
      ensures guarded == (old(guarded) && (ledger || base == |journal|))
    {
      var transcript := RebuildTranscript(journal[..base]);
      var executed := map[];
      if ledger {
        executed := ReadLedger(journal);
      }
      d := Driver(transcript, MatchCount(transcript), executed, base, |journal|);
      current, guarded := current && base == |journal|, guarded && (ledger || base == |journal|);
      DrivingStarts(journal, calls, d, current, guarded, ledger);
    }

    /**
     Drive the run from a transcript of the first `base` steps. `ledger`: the recorded results could be
     read. The turns happen as `w` has it; `Continue` comes back when they run out.
     */
    method Drive(base: nat, ledger: bool, w: nat -> Turn, maxTurns: nat) returns (v: Verdict)
      requires Valid() && base <= |journal|
      modifies this
      ensures Valid()
      ensures current == (old(current) && base == |old(journal)|)
      ensures guarded == (old(guarded) && (ledger || base == |old(journal)|))
      ensures old(journal) <= journal && old(sent) <= sent && old(shown) <= shown
      ensures |shown| <= |old(shown)| + if maxTurns == 0 then 1 else maxTurns
      ensures forall a :: |old(shown)| <= a < |shown| ==> shown[a].base == base && shown[a].from == |old(journal)|
      ensures v.Answered? ==> |journal| > |old(journal)| && journal[|journal| - 1] == LlmAnswer(v.text)
      ensures v.Paused? ==> |journal| > |old(journal)| && journal[|journal| - 1].HitlRequest?
      ensures v.Continue? ==> |journal| - |old(journal)| == |shown| - |old(shown)| == if maxTurns == 0 then 1 else maxTurns
    {
      var d := Begin(base, ledger);
      v := Loop(d, w, Turns(maxTurns));
    }

    method Loop(start: Driver, w: nat -> Turn, turns: nat) returns (v: Verdict)
      requires Valid() && Drives(start)
      modifies this`journal, this`calls, this`sent, this`shown
      ensures Valid()
      ensures old(journal) <= journal && old(sent) <= sent && old(shown) <= shown
      ensures |shown| <= |old(shown)| + turns
      ensures forall a :: |old(shown)| <= a < |shown| ==> shown[a].base == start.base && shown[a].from == start.from
      ensures v.Answered? ==> |journal| > |old(journal)| && journal[|journal| - 1] == LlmAnswer(v.text)
      ensures v.Paused? ==> |journal| > |old(journal)| && journal[|journal| - 1].HitlRequest?
      ensures v.Continue? ==> |journal| == |old(journal)| + turns && |shown| == |old(shown)| + turns
    {
      var d := start;
      for turn := 0 to turns
        invariant Valid() && Drives(d) && d.base == start.base && d.from == start.from
        invariant old(journal) <= journal && old(sent) <= sent && old(shown) <= shown
        invariant |journal| == |old(journal)| + turn && |shown| == |old(shown)| + turn
        invariant forall a :: |old(shown)| <= a < |shown| ==> shown[a].base == start.base && shown[a].from == start.from
      {
        v, d := NextTurn(d, w(turn));
        if !v.Continue? {
          return;
        }
      }
      v := Continue;
    }
  }
}
