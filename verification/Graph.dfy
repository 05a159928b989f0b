/** Finite graphs on 0, 1, ..., n-1 given by a set of pairs (node, the node it depends on). */
module Graph {
  type Edges = set<(nat, nat)>

  ghost predicate Within(n: nat, edges: Edges) {
    forall k, j :: (k, j) in edges ==> k < n && j < n
  }

  predicate Distinct(s: seq<nat>) {
    forall p, q :: 0 <= p < q < |s| ==> s[p] != s[q]
  }

  predicate InRange(s: seq<nat>, n: nat) {
    forall p :: 0 <= p < |s| ==> s[p] < n
  }

  ghost predicate DepsFirst(edges: Edges, s: seq<nat>) {
    forall p, j: nat :: 0 <= p < |s| && (s[p], j) in edges ==> j in s[..p]
  }

  /** A permutation of all nodes with every dependency before its dependants. */
  ghost predicate IsOrder(n: nat, edges: Edges, s: seq<nat>) {
    |s| == n && InRange(s, n) && Distinct(s) && DepsFirst(edges, s)
  }

  ghost predicate Linked(edges: Edges, walk: seq<nat>, t: nat)
    requires t + 1 < |walk|
  {
    (walk[t], walk[t + 1]) in edges
  }

  /** Each node of the walk depends on the next. */
  ghost predicate Walk(edges: Edges, walk: seq<nat>) {
    walk != [] && forall t :: 0 <= t < |walk| - 1 ==> Linked(edges, walk, t)
  }

  /** `c[0]` depends on `c[1]`, which depends on `c[2]`, and so on back to `c[0]`. */
  ghost predicate IsCycle(edges: Edges, c: seq<nat>) {
    Walk(edges, c) && (c[|c| - 1], c[0]) in edges
  }

  ghost predicate HasCycle(edges: Edges) {
    exists c :: IsCycle(edges, c)
  }

  // ---------- counting ----------

  function Upto(n: nat): (r: set<nat>)
    ensures forall k: nat :: k in r <==> k < n
    ensures |r| == n
  {
    if n == 0 then {} else Upto(n - 1) + {n - 1}
  }

  function Elements(s: seq<nat>): set<nat> {
    set k | k in s
  }

  lemma {:induction false} SizeOfDistinct(s: seq<nat>)
    requires Distinct(s)
    ensures |Elements(s)| == |s|
  {
    if s != [] {
      var init, last := s[..|s| - 1], s[|s| - 1];
      SizeOfDistinct(init);
      assert s == init + [last];
      assert last !in init;
      assert Elements(s) == Elements(init) + {last};
    }
  }

  lemma DistinctBounded(s: seq<nat>, n: nat)
    requires Distinct(s) && InRange(s, n)
    ensures |s| <= n
    ensures |s| == n <==> Elements(s) == Upto(n)
  {
    SizeOfDistinct(s);
    var rest := Upto(n) - Elements(s);
    assert Upto(n) == Elements(s) + rest;
  }

  lemma SomeoneMissing(s: seq<nat>, n: nat) returns (k: nat)
    requires Distinct(s) && InRange(s, n) && |s| < n
    ensures k < n && k !in s
  {
    DistinctBounded(s, n);
    var rest := Upto(n) - Elements(s);
    assert Upto(n) == Elements(s) + rest;
    assert Elements(s) + {} == Elements(s);
    k :| k in rest;
  }

  // ---------- cycles and orders exclude each other ----------

  /** The first element of `s`, from `p` on, that lies on the cycle. */
  lemma {:induction false} FirstOnCycle(s: seq<nat>, c: seq<nat>, p: nat) returns (q: nat)
    requires p <= |s| && (forall r :: 0 <= r < p ==> s[r] !in c) && exists k :: k in s && k in c
    ensures q < |s| && s[q] in c && forall r :: 0 <= r < q ==> s[r] !in c
    decreases |s| - p
  {
    if p < |s| && s[p] !in c {
      q := FirstOnCycle(s, c, p + 1);
    } else {
      q := p;
    }
  }

  /** The first node of a cycle to appear in a permutation appears before a node it depends on. */
  lemma CycleBreaksOrder(n: nat, edges: Edges, s: seq<nat>, c: seq<nat>)
    requires Within(n, edges) && IsCycle(edges, c)
    ensures !IsOrder(n, edges, s)
  {
    if |s| == n && InRange(s, n) && Distinct(s) {
      DistinctBounded(s, n);
      assert c[0] < n && |c| > 1 ==> Linked(edges, c, 0);
      assert c[0] in Elements(s) && c[0] in c;
      var p := FirstOnCycle(s, c, 0);
      var t :| 0 <= t < |c| && c[t] == s[p];
      assert t < |c| - 1 ==> Linked(edges, c, t);
      var j := c[if t == |c| - 1 then 0 else t + 1];
      assert (s[p], j) in edges && j in c;
      assert j !in s[..p];
    }
  }

  lemma CycleExcludesOrders(n: nat, edges: Edges)
    requires Within(n, edges)
    ensures HasCycle(edges) ==> forall s :: !IsOrder(n, edges, s)
  {
    if c :| IsCycle(edges, c) {
      forall s
        ensures !IsOrder(n, edges, s)
      {
        CycleBreaksOrder(n, edges, s, c);
      }
    }
  }

  lemma WalkOn(edges: Edges, walk: seq<nat>, j: nat)
    requires Walk(edges, walk) && (walk[|walk| - 1], j) in edges
    ensures Walk(edges, walk + [j])
  {
    var longer := walk + [j];
    forall t | 0 <= t < |walk|
      ensures Linked(edges, longer, t)
    {
      assert t < |walk| - 1 ==> Linked(edges, walk, t);
    }
  }

  lemma WalkBack(edges: Edges, walk: seq<nat>, t: nat)
    requires Walk(edges, walk) && t < |walk| && (walk[|walk| - 1], walk[t]) in edges
    ensures HasCycle(edges)
  {
    var c := walk[t..];
    forall u | 0 <= u < |c| - 1
      ensures Linked(edges, c, u)
    {
      assert Linked(edges, walk, t + u);
    }
    assert IsCycle(edges, c);
  }

  /** Every node of a set waits for another of them. */
  ghost predicate Stuck(edges: Edges, next: map<nat, nat>) {
    forall k {:trigger next[k]} :: k in next ==> next[k] in next && (k, next[k]) in edges
  }

  /** Walking from one stuck node to the next closes a cycle. */
  lemma {:induction false} StuckHasCycle(n: nat, edges: Edges, next: map<nat, nat>, walk: seq<nat>)
    requires Within(n, edges) && Stuck(edges, next)
    requires Walk(edges, walk) && Distinct(walk) && InRange(walk, n) && walk[|walk| - 1] in next
    ensures HasCycle(edges)
    decreases n - |walk|
  {
    var j := next[walk[|walk| - 1]];
    if t :| 0 <= t < |walk| && walk[t] == j {
      WalkBack(edges, walk, t);
    } else {
      WalkOn(edges, walk, j);
      DistinctBounded(walk + [j], n);
      StuckHasCycle(n, edges, next, walk + [j]);
    }
  }
}
