/** Running a workflow: every node is a sub-agent, started once all it depends on has succeeded. */
module Workflow {
  import opened Options
  import opened Graph
  import opened TopoOrder

  datatype RunStatus = Pending | Running | WaitingApproval | Succeeded | Failed | Cancelled

  /** Reading the parent back at the end: its row, no row, or an error. */
  datatype Reread = Row | Gone | Broken

  /** Everything outside: the outcome of the t-th sub-agent call (`None` is an error) and of every write. */
  datatype World = World(
    created: Write,
    begun: Write,
    child: nat -> Option<RunStatus>,
    journaled: nat -> Write,
    closed: Write,
    reread: Reread)

  datatype Subagent = Subagent(node: string, status: RunStatus)

  /** What one call leaves behind: the parent's stored status, the nodes started, what they returned, the journal. */
  datatype Ledger = Ledger(parent: Option<RunStatus>, started: seq<nat>, returned: seq<RunStatus>, journal: seq<Subagent>)

  datatype Outcome = Ok(status: RunStatus) | BadGraph | Error

  predicate AllSucceeded(statuses: seq<RunStatus>) {
    forall p :: 0 <= p < |statuses| ==> statuses[p] == Succeeded
  }

  /** Whenever a node was started, each node it depends on had already come back `Succeeded`. */
  ghost predicate DepsSucceeded(nodes: seq<WorkflowNode>, l: Ledger) {
    forall p, j: nat :: 0 <= p < |l.started| && (l.started[p], j) in Dependencies(nodes) ==>
      exists q :: 0 <= q < p && q < |l.returned| && l.started[q] == j && l.returned[q] == Succeeded
  }

  /** The journal records the nodes started and their statuses in order; the last may be missing. */
  predicate Journaled(nodes: seq<WorkflowNode>, l: Ledger) {
    && InRange(l.started, |nodes|)
    && |l.journal| <= |l.returned| <= |l.started| <= |l.journal| + 1
    && forall p :: 0 <= p < |l.journal| ==> l.journal[p] == Subagent(nodes[l.started[p]].id, l.returned[p])
  }

  /** Nothing was started after the first node that did not succeed. */
  predicate StopsAtFailure(l: Ledger) {
    forall p :: 0 <= p < |l.returned| && p + 1 < |l.started| ==> l.returned[p] == Succeeded
  }

  ghost predicate Faithful(nodes: seq<WorkflowNode>, l: Ledger) {
    Distinct(l.started) && Journaled(nodes, l) && DepsSucceeded(nodes, l) && StopsAtFailure(l)
  }

  /** A prefix of an order whose earlier nodes all succeeded starts every node after its dependencies. */
  lemma PrefixFaithful(nodes: seq<WorkflowNode>, order: seq<nat>, l: Ledger)
    requires IsOrder(|nodes|, Dependencies(nodes), order) && l.started <= order
    requires |l.started| <= |l.returned| + 1 && StopsAtFailure(l)
    ensures Distinct(l.started) && DepsSucceeded(nodes, l)
  {
    forall p, j: nat | 0 <= p < |l.started| && (l.started[p], j) in Dependencies(nodes)
      ensures exists q :: 0 <= q < p && q < |l.returned| && l.started[q] == j && l.returned[q] == Succeeded
    {
      assert (order[p], j) in Dependencies(nodes);
      assert j in order[..p];
      var q :| 0 <= q < p && order[q] == j;
      assert l.started[q] == j && l.returned[q] == Succeeded;
    }
  }

  /** The first `t` calls succeeded and were journaled. */
  ghost predicate CallsWentThrough(w: World, t: nat) {
    forall u :: 0 <= u < t ==> w.child(u).Some? && w.journaled(u).Done?
  }

  ghost predicate Returned(w: World, l: Ledger) {
    forall u :: 0 <= u < |l.returned| ==> w.child(u) == Some(l.returned[u])
  }

  /** What calling node `i` leaves behind. */
  function AfterNode(l: Ledger, i: nat, id: string, child: Option<RunStatus>, write: Write): Ledger {
    if child.None? then l.(started := l.started + [i])
    else
      Ledger(l.parent, l.started + [i], l.returned + [child.value],
             l.journal + if write.Applied() then [Subagent(id, child.value)] else [])
  }

  /** After `t` calls that all went through. */
  ghost predicate Going(nodes: seq<WorkflowNode>, order: seq<nat>, w: World, l: Ledger, t: nat) {
    && t <= |order| && l.started == order[..t] && |l.journal| == |l.returned| == t
    && Journaled(nodes, l) && Returned(w, l) && CallsWentThrough(w, t) && StopsAtFailure(l)
  }

  lemma AfterNodeIs(nodes: seq<WorkflowNode>, order: seq<nat>, w: World, l: Ledger, t: nat)
    requires InRange(order, |nodes|) && Going(nodes, order, w, l, t) && t < |order| && AllSucceeded(l.returned)
    ensures var l' := AfterNode(l, order[t], nodes[order[t]].id, w.child(t), w.journaled(t));
            && l'.started == order[..t + 1] && Journaled(nodes, l') && StopsAtFailure(l') && Returned(w, l')
            && (w.child(t).Some? && w.journaled(t).Done? ==> Going(nodes, order, w, l', t + 1))
            && (w.child(t).Some? ==> (AllSucceeded(l'.returned) <==> w.child(t).value == Succeeded))
  {
    var l' := AfterNode(l, order[t], nodes[order[t]].id, w.child(t), w.journaled(t));
    assert l'.started == order[..t + 1];
  }

  /** The loop over the order; `ok` is false when a call or a journal write broke it off. */
  method RunNodes(nodes: seq<WorkflowNode>, order: seq<nat>, w: World, parent: Option<RunStatus>)
    returns (ok: bool, failed: bool, l: Ledger)
    requires InRange(order, |nodes|)
    ensures l.parent == parent && l.started <= order && Journaled(nodes, l) && StopsAtFailure(l) && Returned(w, l)
    ensures ok == CallsWentThrough(w, |l.started|)
    ensures ok ==> |l.started| == |l.returned| == |l.journal| && (failed || l.started == order)
    ensures ok ==> failed == !AllSucceeded(l.returned)
  {
    l, failed := Ledger(parent, [], [], []), false;
    var t := 0;
    while t < |order| && !failed
      invariant Going(nodes, order, w, l, t) && l.parent == parent && failed == !AllSucceeded(l.returned)
    {
      AfterNodeIs(nodes, order, w, l, t);
      l := RunNode(nodes, order[t], w, l, t);
      if w.child(t).None? || !w.journaled(t).Done? {
        return false, failed, l;
      }
      failed := w.child(t).value != Succeeded;
      t := t + 1;
    }
    ok := true;
  }

  /** One turn of the loop: call the sub-agent, journal the step. */
  method RunNode(nodes: seq<WorkflowNode>, i: nat, w: World, l0: Ledger, t: nat) returns (l: Ledger)
    requires i < |nodes|
    ensures l == AfterNode(l0, i, nodes[i].id, w.child(t), w.journaled(t))
  {
    l := l0.(started := l0.started + [i]);
    var child := w.child(t);
    if child.None? {
      return;
    }
    l := l.(returned := l.returned + [child.value]);
    if w.journaled(t).Applied() {
      l := l.(journal := l.journal + [Subagent(nodes[i].id, child.value)]);
    }
  }

  method RunWorkflow(nodes: seq<WorkflowNode>, w: World) returns (r: Outcome, l: Ledger)
    ensures r.BadGraph? <==> !AllKnown(nodes) || HasCycle(Dependencies(nodes))
    ensures r.BadGraph? ==> l == Ledger(None, [], [], [])
    ensures Faithful(nodes, l) && Returned(w, l)
    // the parent succeeds only with every node, and an Ok return settles it one way or the other
    ensures l.parent == Some(Succeeded) ==> |l.returned| == |nodes| && AllSucceeded(l.returned)
    ensures r.Ok? ==> |l.returned| == |l.started| == |l.journal| && l.parent in {Some(Succeeded), Some(Failed)}
    ensures r.Ok? ==> (l.parent == Some(Succeeded) <==> IsOrder(|nodes|, Dependencies(nodes), l.started) && AllSucceeded(l.returned))
    ensures r.Ok? && w.reread.Row? ==> l.parent == Some(r.status)
    // how far the parent's stored status got
    ensures !r.BadGraph? && !w.created.Done? ==> l == Ledger(if w.created.Applied() then Some(Pending) else None, [], [], [])
    ensures !r.BadGraph? && w.created.Done? && !(CallsWentThrough(w, |l.started|) && w.closed.Applied()) ==>
              l.parent == Some(if w.begun.Applied() then Running else Pending)
    // exactly what makes the call fail once the graph is accepted
    ensures !r.BadGraph? ==>
              (r.Ok? <==> w.created.Done? && CallsWentThrough(w, |l.started|) && w.closed.Done? && !w.reread.Broken?)
  {
    l := Ledger(None, [], [], []);
    var order := TopoOrder.TopoOrder(nodes);
    if order.None? {
      return BadGraph, l;
    }
    if w.created.Applied() {
      l := l.(parent := Some(Pending));
    }
    if !w.created.Done? {
      return Error, l;
    }
    if w.begun.Applied() {
      l := l.(parent := Some(Running));
    }
    var ok, failed;
    ok, failed, l := RunNodes(nodes, order.value, w, l.parent);
    PrefixFaithful(nodes, order.value, l);
    if !ok {
      return Error, l;
    }
    if w.closed.Applied() {
      l := l.(parent := Some(if failed then Failed else Succeeded));
    }
    r := if !w.closed.Done? || w.reread.Broken? then Error else Ok(if w.reread.Row? then l.parent.value else Pending);
  }
}
