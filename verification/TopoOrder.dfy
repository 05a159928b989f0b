/** Kahn's algorithm over the nodes of a workflow, with repeated dependencies and repeated ids allowed. */
module TopoOrder {
  import opened Options
  import opened Graph

  datatype WorkflowNode = WorkflowNode(id: string, agent: string, question: string, deps: seq<string>)

  // ---------- the dependency graph ----------

  /** The node an id names: the last one to carry it, because later inserts into the index win. */
  function IndexOf(nodes: seq<WorkflowNode>, id: string): (r: Option<nat>)
    ensures r.Some? ==> r.value < |nodes| && nodes[r.value].id == id
    ensures r.Some? ==> forall k :: r.value < k < |nodes| ==> nodes[k].id != id
    ensures r.None? ==> forall k :: 0 <= k < |nodes| ==> nodes[k].id != id
  {
    if nodes == [] then None
    else if nodes[|nodes| - 1].id == id then Some(|nodes| - 1)
    else IndexOf(nodes[..|nodes| - 1], id)
  }

  predicate Known(nodes: seq<WorkflowNode>, k: nat)
    requires k < |nodes|
  {
    forall p :: 0 <= p < |nodes[k].deps| ==> IndexOf(nodes, nodes[k].deps[p]).Some?
  }

  predicate AllKnown(nodes: seq<WorkflowNode>) {
    forall k :: 0 <= k < |nodes| ==> Known(nodes, k)
  }

  ghost function Dependencies(nodes: seq<WorkflowNode>): (r: Graph.Edges)
    ensures Within(|nodes|, r)
  {
    set k, p | 0 <= k < |nodes| && 0 <= p < |nodes[k].deps| && IndexOf(nodes, nodes[k].deps[p]).Some?
      :: (k, IndexOf(nodes, nodes[k].deps[p]).value)
  }

  /** The nodes without dependencies, in index order. */
  function Roots(nodes: seq<WorkflowNode>, n: nat): seq<nat>
    requires n <= |nodes|
  {
    if n == 0 then [] else Roots(nodes, n - 1) + (if nodes[n - 1].deps == [] then [n - 1] else [])
  }

  // ---------- counting edges ----------

  /** Among the first `p` dependencies of `k`, those that name node `j`. */
  function Occurs(nodes: seq<WorkflowNode>, k: nat, j: nat, p: nat): nat
    requires k < |nodes| && p <= |nodes[k].deps|
  {
    if p == 0 then 0
    else Occurs(nodes, k, j, p - 1) + (if IndexOf(nodes, nodes[k].deps[p - 1]) == Some(j) then 1 else 0)
  }

  predicate Met(nodes: seq<WorkflowNode>, k: nat, p: nat, done: set<nat>)
    requires k < |nodes| && p < |nodes[k].deps|
  {
    var j := IndexOf(nodes, nodes[k].deps[p]);
    j.Some? && j.value in done
  }

  /** Among the first `p` dependencies of `k`, those not yet done. */
  function Pending(nodes: seq<WorkflowNode>, k: nat, done: set<nat>, p: nat): nat
    requires k < |nodes| && p <= |nodes[k].deps|
  {
    if p == 0 then 0 else Pending(nodes, k, done, p - 1) + (if Met(nodes, k, p - 1, done) then 0 else 1)
  }

  lemma {:induction false} NonePending(nodes: seq<WorkflowNode>, k: nat, p: nat)
    requires k < |nodes| && p <= |nodes[k].deps|
    ensures Pending(nodes, k, {}, p) == p
  {
    if 0 < p {
      NonePending(nodes, k, p - 1);
    }
  }

  lemma {:induction false} PendingAfter(nodes: seq<WorkflowNode>, k: nat, done: set<nat>, i: nat, p: nat)
    requires k < |nodes| && p <= |nodes[k].deps| && i !in done
    ensures Pending(nodes, k, done + {i}, p) == Pending(nodes, k, done, p) - Occurs(nodes, k, i, p)
  {
    if 0 < p {
      PendingAfter(nodes, k, done, i, p - 1);
    }
  }

  lemma {:induction false} PendingZero(nodes: seq<WorkflowNode>, k: nat, done: set<nat>, p: nat)
    requires k < |nodes| && p <= |nodes[k].deps|
    ensures Pending(nodes, k, done, p) == 0 <==> forall q :: 0 <= q < p ==> Met(nodes, k, q, done)
  {
    if 0 < p {
      PendingZero(nodes, k, done, p - 1);
    }
  }

  function Left(nodes: seq<WorkflowNode>, k: nat, done: set<nat>): nat
    requires k < |nodes|
  {
    Pending(nodes, k, done, |nodes[k].deps|)
  }

  function EdgeCount(nodes: seq<WorkflowNode>, k: nat, j: nat): nat
    requires k < |nodes|
  {
    Occurs(nodes, k, j, |nodes[k].deps|)
  }

  /** How many of the first `t` elements of `s` are `k`. */
  function Tally(s: seq<nat>, t: nat, k: nat): nat
    requires t <= |s|
  {
    if t == 0 then 0 else Tally(s, t - 1, k) + (if s[t - 1] == k then 1 else 0)
  }

  function Count(s: seq<nat>, k: nat): nat {
    Tally(s, |s|, k)
  }

  lemma {:induction false} TallyPrefix(s: seq<nat>, s': seq<nat>, t: nat, k: nat)
    requires t <= |s| && s <= s'
    ensures Tally(s, t, k) == Tally(s', t, k)
  {
    if 0 < t {
      TallyPrefix(s, s', t - 1, k);
    }
  }

  lemma CountSnoc(s: seq<nat>, x: nat, k: nat)
    ensures Count(s + [x], k) == Count(s, k) + (if k == x then 1 else 0)
  {
    TallyPrefix(s, s + [x], |s|, k);
  }

  lemma {:induction false} TallyGrows(s: seq<nat>, t: nat, u: nat, k: nat)
    requires t <= u <= |s|
    ensures Tally(s, t, k) <= Tally(s, u, k)
    decreases u
  {
    if t < u {
      TallyGrows(s, t, u - 1, k);
    }
  }

  // ---------- the algorithm ----------

  method BuildIndex(nodes: seq<WorkflowNode>) returns (index: map<string, nat>)
    ensures forall id :: IndexOf(nodes, id) == if id in index then Some(index[id]) else None
  {
    index := map[];
    for i := 0 to |nodes|
      invariant forall id :: IndexOf(nodes[..i], id) == if id in index then Some(index[id]) else None
    {
      index := index[nodes[i].id := i];
      assert nodes[..i + 1][..i] == nodes[..i];
    }
    assert nodes[..|nodes|] == nodes;
  }

  ghost predicate Ascending(s: seq<nat>) {
    forall p, q :: 0 <= p < q < |s| ==> s[p] <= s[q]
  }

  /** `adj` and `indeg` after the dependencies of nodes below `i`, and the first `p` of node `i`, are in. */
  ghost predicate Loaded(nodes: seq<WorkflowNode>, adj: seq<seq<nat>>, indeg: seq<nat>, i: nat, p: nat)
    requires i <= |nodes| && (i < |nodes| ==> p <= |nodes[i].deps|)
  {
    && |adj| == |nodes| && |indeg| == |nodes|
    && (forall j :: 0 <= j < |nodes| ==> InRange(adj[j], if i < |nodes| then i + 1 else i) && Ascending(adj[j]))
    && (forall j, k :: 0 <= j < |nodes| && 0 <= k < |nodes| ==>
          Count(adj[j], k) == if k < i then EdgeCount(nodes, k, j) else if k == i then Occurs(nodes, i, j, p) else 0)
    && (forall k :: 0 <= k < |nodes| ==>
          indeg[k] == if k < i then |nodes[k].deps| else if k == i then p else 0)
  }

  /** `adj[j]` lists each node once for every dependency of it that names `j`, in ascending order. */
  ghost predicate Loads(nodes: seq<WorkflowNode>, adj: seq<seq<nat>>) {
    && |adj| == |nodes|
    && (forall j :: 0 <= j < |nodes| ==> InRange(adj[j], |nodes|) && Ascending(adj[j]))
    && (forall j, k :: 0 <= j < |nodes| && 0 <= k < |nodes| ==> Count(adj[j], k) == EdgeCount(nodes, k, j))
  }

  lemma LoadedNext(nodes: seq<WorkflowNode>, adj: seq<seq<nat>>, indeg: seq<nat>, i: nat)
    requires i < |nodes| && Loaded(nodes, adj, indeg, i, |nodes[i].deps|)
    ensures Loaded(nodes, adj, indeg, i + 1, 0)
  {
  }

  lemma LoadedEdge(nodes: seq<WorkflowNode>, adj: seq<seq<nat>>, indeg: seq<nat>, i: nat, p: nat, j: nat)
    requires i < |nodes| && p < |nodes[i].deps| && Loaded(nodes, adj, indeg, i, p)
    requires IndexOf(nodes, nodes[i].deps[p]) == Some(j)
    ensures Loaded(nodes, adj[j := adj[j] + [i]], indeg[i := indeg[i] + 1], i, p + 1)
  {
    forall k
      ensures Count(adj[j] + [i], k) == Count(adj[j], k) + (if k == i then 1 else 0)
    {
      CountSnoc(adj[j], i, k);
    }
  }

  method LoadEdges(nodes: seq<WorkflowNode>) returns (ok: bool, adj: seq<seq<nat>>, indeg: seq<nat>)
    ensures ok == AllKnown(nodes)
    ensures ok ==> Loaded(nodes, adj, indeg, |nodes|, 0)
  {
    var index := BuildIndex(nodes);
    indeg := seq(|nodes|, _ => 0);
    adj := seq(|nodes|, _ => []);
    for i := 0 to |nodes|
      invariant Loaded(nodes, adj, indeg, i, 0)
      invariant forall k :: 0 <= k < i ==> Known(nodes, k)
    {
      ok, adj, indeg := LoadNode(nodes, index, i, adj, indeg);
      if !ok {
        return;
      }
    }
    ok := true;
  }

  method LoadNode(nodes: seq<WorkflowNode>, index: map<string, nat>, i: nat, adj0: seq<seq<nat>>, indeg0: seq<nat>)
    returns (ok: bool, adj: seq<seq<nat>>, indeg: seq<nat>)
    requires forall id :: IndexOf(nodes, id) == if id in index then Some(index[id]) else None
    requires i < |nodes| && Loaded(nodes, adj0, indeg0, i, 0)
    ensures ok == Known(nodes, i)
    ensures ok ==> Loaded(nodes, adj, indeg, i + 1, 0)
  {
    adj, indeg := adj0, indeg0;
    for p := 0 to |nodes[i].deps|
      invariant Loaded(nodes, adj, indeg, i, p)
      invariant forall q :: 0 <= q < p ==> IndexOf(nodes, nodes[i].deps[q]).Some?
    {
      var d := nodes[i].deps[p];
      if d !in index {
        assert IndexOf(nodes, nodes[i].deps[p]).None?;
        return false, adj, indeg;
      }
      LoadedEdge(nodes, adj, indeg, i, p, index[d]);
      adj := adj[index[d] := adj[index[d]] + [i]];
      indeg := indeg[i := indeg[i] + 1];
    }
    LoadedNext(nodes, adj, indeg, i);
    ok := true;
  }

  ghost function Done(queue: seq<nat>, qi: nat): set<nat>
    requires qi <= |queue|
  {
    Elements(queue[..qi])
  }

  /** The loop invariant of the main loop: `queue` holds exactly the nodes with nothing left to wait for. */
  ghost predicate Queued(nodes: seq<WorkflowNode>, queue: seq<nat>, qi: nat, indeg: seq<nat>) {
    && qi <= |queue| && |indeg| == |nodes|
    && InRange(queue, |nodes|) && Distinct(queue) && DepsFirst(Dependencies(nodes), queue)
    && (forall k {:trigger indeg[k]} :: 0 <= k < |nodes| ==> indeg[k] == Left(nodes, k, Done(queue, qi)))
    && (forall k {:trigger indeg[k]} :: 0 <= k < |nodes| ==> (k in queue <==> indeg[k] == 0))
  }

  method InitialQueue(nodes: seq<WorkflowNode>, indeg: seq<nat>) returns (queue: seq<nat>)
    requires |indeg| == |nodes| && forall k :: 0 <= k < |nodes| ==> indeg[k] == |nodes[k].deps|
    ensures queue == Roots(nodes, |nodes|) && Queued(nodes, queue, 0, indeg)
  {
    queue := [];
    for i := 0 to |nodes|
      invariant queue == Roots(nodes, i)
      invariant InRange(queue, i) && Distinct(queue) && forall k :: 0 <= k < i ==> (k in queue <==> indeg[k] == 0)
    {
      if indeg[i] == 0 {
        queue := queue + [i];
      }
    }
    assert Done(queue, 0) == {};
    forall k | 0 <= k < |nodes|
      ensures indeg[k] == Left(nodes, k, {})
    {
      NonePending(nodes, k, |nodes[k].deps|);
    }
    forall p, j: nat | 0 <= p < |queue|
      ensures (queue[p], j) !in Dependencies(nodes)
    {
      assert queue[p] in queue;
    }
  }

  /** What one pass over `adj[i]` has done after `t` of its elements, starting from `indeg0`. */
  ghost predicate Releasing(edges: seq<nat>, t: nat, indeg0: seq<nat>, indeg: seq<nat>, newly: seq<nat>) {
    && t <= |edges| && |indeg| == |indeg0| && InRange(edges, |indeg0|)
    && (forall k {:trigger indeg[k]} :: 0 <= k < |indeg| ==> indeg[k] == indeg0[k] - Tally(edges, t, k))
    && InRange(newly, |indeg0|) && Distinct(newly) && Ascending(newly)
    && (forall k {:trigger k in newly} {:trigger indeg[k]} :: 0 <= k < |indeg| ==> (k in newly <==> 0 < Tally(edges, t, k) && indeg[k] == 0))
    && (forall p, q :: 0 <= p < |newly| && t <= q < |edges| ==> newly[p] <= edges[q])
  }

  lemma ReleaseStep(edges: seq<nat>, t: nat, indeg0: seq<nat>, indeg: seq<nat>, newly: seq<nat>)
    requires t < |edges| && Releasing(edges, t, indeg0, indeg, newly) && Ascending(edges)
    requires Count(edges, edges[t]) <= indeg0[edges[t]]
    ensures indeg[edges[t]] > 0
    ensures var k := edges[t]; var n := indeg[k] - 1;
            Releasing(edges, t + 1, indeg0, indeg[k := n], if n == 0 then newly + [k] else newly)
  {
    var k := edges[t];
    TallyGrows(edges, t + 1, |edges|, k);
    assert indeg[k] > 0 && k !in newly;
  }

  method Release(edges: seq<nat>, indeg0: seq<nat>) returns (indeg: seq<nat>, newly: seq<nat>)
    requires InRange(edges, |indeg0|) && Ascending(edges)
    requires forall k :: 0 <= k < |indeg0| ==> Count(edges, k) <= indeg0[k]
    ensures Releasing(edges, |edges|, indeg0, indeg, newly)
  {
    indeg, newly := indeg0, [];
    assert forall k: nat :: Tally(edges, 0, k) == 0;
    for t := 0 to |edges|
      invariant Releasing(edges, t, indeg0, indeg, newly)
    {
      var k := edges[t];
      ReleaseStep(edges, t, indeg0, indeg, newly);
      indeg := indeg[k := indeg[k] - 1];
      if indeg[k] == 0 {
        newly := newly + [k];
      }
    }
  }

  lemma DoneNext(queue: seq<nat>, qi: nat)
    requires qi < |queue| && Distinct(queue)
    ensures Done(queue, qi + 1) == Done(queue, qi) + {queue[qi]} && queue[qi] !in Done(queue, qi)
  {
    assert queue[..qi + 1] == queue[..qi] + [queue[qi]];
  }

  /** Extending the queue by what node `queue[qi]` released keeps the invariant. */
  lemma ReleaseKeepsQueue(nodes: seq<WorkflowNode>, adj: seq<seq<nat>>, queue: seq<nat>, qi: nat,
                          indeg0: seq<nat>, indeg: seq<nat>, newly: seq<nat>)
    requires Loads(nodes, adj) && Queued(nodes, queue, qi, indeg0) && qi < |queue|
    requires Releasing(adj[queue[qi]], |adj[queue[qi]]|, indeg0, indeg, newly)
    ensures Queued(nodes, queue + newly, qi + 1, indeg)
  {
    var i, edges, all := queue[qi], adj[queue[qi]], queue + newly;
    DoneNext(queue, qi);
    assert all[..qi + 1] == queue[..qi + 1];
    forall k | 0 <= k < |nodes|
      ensures indeg[k] == Left(nodes, k, Done(all, qi + 1))
      ensures k in all <==> indeg[k] == 0
    {
      PendingAfter(nodes, k, Done(queue, qi), i, |nodes[k].deps|);
      assert Count(edges, k) == EdgeCount(nodes, k, i) && indeg0[k] == Left(nodes, k, Done(queue, qi));
    }
    forall p | 0 <= p < |newly|
      ensures newly[p] !in queue
    {
      assert newly[p] in newly && indeg[newly[p]] == 0;
    }
    assert Distinct(all);
    forall p, j: nat | 0 <= p < |all| && (all[p], j) in Dependencies(nodes)
      ensures j in all[..p]
    {
      if p < |queue| {
        assert all[..p] == queue[..p];
      } else {
        var k := all[p];
        assert k == newly[p - |queue|] && k in newly;
        PendingZero(nodes, k, Done(all, qi + 1), |nodes[k].deps|);
        var d :| 0 <= d < |nodes[k].deps| && IndexOf(nodes, nodes[k].deps[d]) == Some(j);
        assert Met(nodes, k, d, Done(all, qi + 1));
        assert j in all[..qi + 1];
      }
    }
  }

  /** A node that still waits, waits for a dependency that is not done. */
  lemma Blocker(nodes: seq<WorkflowNode>, k: nat, done: set<nat>) returns (j: nat)
    requires AllKnown(nodes) && k < |nodes| && Left(nodes, k, done) != 0
    ensures j < |nodes| && j !in done && (k, j) in Dependencies(nodes)
  {
    PendingZero(nodes, k, done, |nodes[k].deps|);
    var p :| 0 <= p < |nodes[k].deps| && !Met(nodes, k, p, done);
    assert Known(nodes, k);
    j := IndexOf(nodes, nodes[k].deps[p]).value;
  }

  lemma {:induction false} Blockers(nodes: seq<WorkflowNode>, done: set<nat>, stuck: set<nat>) returns (next: map<nat, nat>)
    requires AllKnown(nodes) && forall k :: k in stuck ==> k < |nodes| && Left(nodes, k, done) != 0
    ensures next.Keys == stuck
    ensures forall k {:trigger next[k]} :: k in stuck ==> next[k] < |nodes| && next[k] !in done && (k, next[k]) in Dependencies(nodes)
  {
    if stuck == {} {
      next := map[];
    } else {
      var k :| k in stuck;
      var rest := Blockers(nodes, done, stuck - {k});
      var j := Blocker(nodes, k, done);
      next := rest[k := j];
    }
  }

  lemma StillWaiting(nodes: seq<WorkflowNode>, queue: seq<nat>, indeg: seq<nat>, k: nat)
    requires Queued(nodes, queue, |queue|, indeg) && k < |nodes| && k !in queue
    ensures Left(nodes, k, Elements(queue)) != 0
  {
    assert queue[..|queue|] == queue;
    assert indeg[k] != 0;
  }

  /** When the queue runs dry early, every node left over waits for another one left over. */
  lemma LeftoversHaveCycle(nodes: seq<WorkflowNode>, queue: seq<nat>)
    requires AllKnown(nodes) && Distinct(queue) && InRange(queue, |nodes|) && |queue| < |nodes|
    requires forall k: nat {:trigger Left(nodes, k, Elements(queue))} ::
               k < |nodes| && k !in queue ==> Left(nodes, k, Elements(queue)) != 0
    ensures HasCycle(Dependencies(nodes))
  {
    var first := SomeoneMissing(queue, |nodes|);
    var next := Blockers(nodes, Elements(queue), Upto(|nodes|) - Elements(queue));
    StuckHasCycle(|nodes|, Dependencies(nodes), next, [first]);
  }

  /** What an exhausted queue says about the graph. */
  lemma Verdict(nodes: seq<WorkflowNode>, queue: seq<nat>, indeg: seq<nat>)
    requires AllKnown(nodes) && Queued(nodes, queue, |queue|, indeg)
    ensures |queue| == |nodes| ==> IsOrder(|nodes|, Dependencies(nodes), queue) && !HasCycle(Dependencies(nodes))
    ensures |queue| != |nodes| ==> HasCycle(Dependencies(nodes)) && forall s :: !IsOrder(|nodes|, Dependencies(nodes), s)
  {
    DistinctBounded(queue, |nodes|);
    CycleExcludesOrders(|nodes|, Dependencies(nodes));
    if |queue| == |nodes| {
      assert IsOrder(|nodes|, Dependencies(nodes), queue);
    } else {
      forall k: nat | k < |nodes| && k !in queue
        ensures Left(nodes, k, Elements(queue)) != 0
      {
        StillWaiting(nodes, queue, indeg, k);
      }
      LeftoversHaveCycle(nodes, queue);
    }
  }

  /** In-degrees never underflow: a node waits for at least the edges about to be removed. */
  lemma EdgesFit(nodes: seq<WorkflowNode>, adj: seq<seq<nat>>, queue: seq<nat>, qi: nat, indeg: seq<nat>)
    requires Loads(nodes, adj)
    requires Queued(nodes, queue, qi, indeg) && qi < |queue|
    ensures forall k :: 0 <= k < |nodes| ==> Count(adj[queue[qi]], k) <= indeg[k]
  {
    DoneNext(queue, qi);
    forall k | 0 <= k < |nodes|
      ensures Count(adj[queue[qi]], k) <= indeg[k]
    {
      PendingAfter(nodes, k, Done(queue, qi), queue[qi], |nodes[k].deps|);
    }
  }

  method Drain(nodes: seq<WorkflowNode>, adj: seq<seq<nat>>, indegrees: seq<nat>) returns (order: seq<nat>, indeg: seq<nat>)
    requires Loads(nodes, adj)
    requires |indegrees| == |nodes| && forall k :: 0 <= k < |nodes| ==> indegrees[k] == |nodes[k].deps|
    ensures Roots(nodes, |nodes|) <= order && Queued(nodes, order, |order|, indeg)
  {
    indeg := indegrees;
    var queue := InitialQueue(nodes, indeg);
    var qi := 0;
    order := [];
    DistinctBounded(queue, |nodes|);
    while qi < |queue|
      invariant Queued(nodes, queue, qi, indeg) && |queue| <= |nodes|
      invariant order == queue[..qi] && Roots(nodes, |nodes|) <= queue
      decreases |nodes| - qi
    {
      var i := queue[qi];
      order := order + [i];
      var newly;
      indeg, newly := Visit(nodes, adj, queue, qi, i, indeg);
      queue := queue + newly;
      qi := qi + 1;
      DistinctBounded(queue, |nodes|);
    }
    assert queue[..|queue|] == queue;
  }

  /** One turn of the main loop. */
  method Visit(nodes: seq<WorkflowNode>, adj: seq<seq<nat>>, ghost queue: seq<nat>, ghost qi: nat, i: nat, indeg0: seq<nat>)
    returns (indeg: seq<nat>, newly: seq<nat>)
    requires Queued(nodes, queue, qi, indeg0) && qi < |queue| && i == queue[qi]
    requires Loads(nodes, adj)
    ensures Queued(nodes, queue + newly, qi + 1, indeg)
  {
    EdgesFit(nodes, adj, queue, qi, indeg0);
    indeg, newly := Release(adj[i], indeg0);
    ReleaseKeepsQueue(nodes, adj, queue, qi, indeg0, indeg, newly);
  }

  /**
   Sound and complete: an order comes back exactly when every dependency is known and there is no
   cycle, and it is then a permutation with every dependency before its dependants that starts with
   the dependency-free nodes in index order.
   */
  method TopoOrder(nodes: seq<WorkflowNode>) returns (r: Option<seq<nat>>)
    ensures r.Some? <==> AllKnown(nodes) && !HasCycle(Dependencies(nodes))
    ensures r.Some? ==> IsOrder(|nodes|, Dependencies(nodes), r.value) && Roots(nodes, |nodes|) <= r.value
    ensures r.None? ==> forall s :: !(AllKnown(nodes) && IsOrder(|nodes|, Dependencies(nodes), s))
  {
    var ok, adj, indeg := LoadEdges(nodes);
    if !ok {
      return None;
    }
    var order, left := Drain(nodes, adj, indeg);
    Verdict(nodes, order, left);
    r := if |order| == |nodes| then Some(order) else None;
  }
}
