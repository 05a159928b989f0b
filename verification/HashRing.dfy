/** Consistent-hash routing, for every hash function: collisions between ring points included. */
module HashRing {
  import opened Options

  /** The hash of a virtual node's label, and of a key. Nothing is assumed about either. */
  datatype Hasher = Hasher(point: (nat, nat) -> u64, key: string -> u64)

  type Ring = map<u64, nat>

  // ---------- building the ring ----------

  function AddVnodes(h: Hasher, ring: Ring, s: nat, vnodes: nat): Ring {
    if vnodes == 0 then ring else AddVnodes(h, ring, s, vnodes - 1)[h.point(s, vnodes - 1) := s]
  }

  function RingOf(h: Hasher, shards: nat, vnodes: nat): Ring {
    if shards == 0 then map[] else AddVnodes(h, RingOf(h, shards - 1, vnodes), shards - 1, vnodes)
  }

  method BuildRing(h: Hasher, shards: nat, vnodes: nat) returns (ring: Ring)
    ensures ring == RingOf(h, AtLeastOne(shards), AtLeastOne(vnodes))
    ensures 0 < shards && 0 < vnodes ==> IsRing(h, ring, shards, vnodes)
  {
    ring := map[];
    for s := 0 to AtLeastOne(shards)
      invariant ring == RingOf(h, s, AtLeastOne(vnodes))
    {
      for v := 0 to AtLeastOne(vnodes)
        invariant ring == AddVnodes(h, RingOf(h, s, AtLeastOne(vnodes)), s, v)
      {
        ring := ring[h.point(s, v) := s];
      }
    }
    RingIsRing(h, AtLeastOne(shards), AtLeastOne(vnodes));
  }

  function AtLeastOne(n: nat): nat {
    if n == 0 then 1 else n
  }

  predicate Places(h: Hasher, s: nat, vnodes: nat, p: u64) {
    exists v :: 0 <= v < vnodes && h.point(s, v) == p
  }

  /** The points of shards below `shards`, each owned by the highest shard that hashes there. */
  ghost predicate IsRing(h: Hasher, ring: Ring, shards: nat, vnodes: nat) {
    && (forall p :: p in ring ==> ring[p] < shards && Places(h, ring[p], vnodes, p))
    && (forall p: u64, s: nat :: s < shards && Places(h, s, vnodes, p) ==> p in ring && s <= ring[p])
  }

  lemma {:induction false} AddVnodesIs(h: Hasher, ring: Ring, s: nat, vnodes: nat)
    ensures forall p: u64 :: p in AddVnodes(h, ring, s, vnodes) <==> p in ring || Places(h, s, vnodes, p)
    ensures forall p: u64 :: p in AddVnodes(h, ring, s, vnodes) ==>
              AddVnodes(h, ring, s, vnodes)[p] == if Places(h, s, vnodes, p) then s else ring[p]
  {
    if 0 < vnodes {
      AddVnodesIs(h, ring, s, vnodes - 1);
      forall p: u64
        ensures Places(h, s, vnodes, p) <==> Places(h, s, vnodes - 1, p) || h.point(s, vnodes - 1) == p
      {
      }
    }
  }

  lemma {:induction false} RingIsRing(h: Hasher, shards: nat, vnodes: nat)
    ensures IsRing(h, RingOf(h, shards, vnodes), shards, vnodes)
  {
    if 0 < shards {
      RingIsRing(h, shards - 1, vnodes);
      AddVnodesIs(h, RingOf(h, shards - 1, vnodes), shards - 1, vnodes);
    }
  }

  // ---------- routing ----------

  predicate IsLeast(s: set<u64>, r: u64) {
    r in s && forall k :: k in s ==> r <= k
  }

  function Least(s: set<u64>): (r: u64)
    requires s != {}
    ensures IsLeast(s, r)
  {
    LeastExists(s);
    var r :| IsLeast(s, r);
    r
  }

  lemma {:induction false} LeastExists(s: set<u64>)
    requires s != {}
    ensures exists r :: IsLeast(s, r)
  {
    var x :| x in s;
    var rest := s - {x};
    assert forall k :: k in s ==> k == x || k in rest;
    if rest == {} {
      assert IsLeast(s, x);
    } else {
      LeastExists(rest);
      var y :| IsLeast(rest, y);
      assert IsLeast(s, if x <= y then x else y);
    }
  }

  /** The first point at or after `at`, else the first point of all. */
  function Successor(points: set<u64>, at: u64): (r: u64)
    requires points != {}
    ensures r in points
    ensures at <= r ==> forall p :: p in points && at <= p ==> r <= p
    ensures r < at ==> forall p :: p in points ==> r <= p < at
  {
    var after := set p | p in points && at <= p;
    assert forall p :: p in points && at <= p ==> p in after;
    if after != {} then Least(after) else Least(points)
  }

  function Route(ring: Ring, shards: nat, at: u64): nat {
    if shards == 1 then 0
    else if ring.Keys == {} then 0
    else ring[Successor(ring.Keys, at)]
  }

  /** The shard a key belongs to among `shards` shards. */
  function ShardFor(h: Hasher, shards: nat, vnodes: nat, key: string): nat {
    Route(RingOf(h, AtLeastOne(shards), AtLeastOne(vnodes)), AtLeastOne(shards), h.key(key))
  }

  // ---------- what the successor is ----------

  /** How far clockwise of `at` the point `p` lies. */
  function Distance(at: u64, p: u64): u64 {
    if at <= p then p - at else p + TWO_64 - at
  }

  lemma SuccessorIsNearest(points: set<u64>, at: u64)
    requires points != {}
    ensures forall p :: p in points ==> Distance(at, Successor(points, at)) <= Distance(at, p)
  {
  }

  lemma DistanceInjective(at: u64, p: u64, q: u64)
    requires Distance(at, p) == Distance(at, q)
    ensures p == q
  {
  }

  lemma RingNotEmpty(h: Hasher, shards: nat, vnodes: nat)
    requires 0 < shards && 0 < vnodes
    ensures RingOf(h, shards, vnodes).Keys != {}
  {
    RingIsRing(h, shards, vnodes);
    assert Places(h, 0, vnodes, h.point(0, 0));
    assert h.point(0, 0) in RingOf(h, shards, vnodes);
  }

  /** No point of any shard lies nearer than the owner's, and of shards sharing that point the owner is the highest. */
  ghost predicate Nearest(h: Hasher, shards: nat, vnodes: nat, at: u64, s: nat, p: u64) {
    && s < shards && Places(h, s, vnodes, p)
    && (forall s', v :: 0 <= s' < shards && 0 <= v < vnodes ==> Distance(at, p) <= Distance(at, h.point(s', v)))
    && (forall s' :: 0 <= s' < shards && Places(h, s', vnodes, p) ==> s' <= s)
  }

  /** The owner is the shard of the nearest point clockwise, ties going to the highest shard; one shard is no exception. */
  lemma OwnerIsNearest(h: Hasher, shards: nat, vnodes: nat, at: u64) returns (p: u64)
    requires 0 < shards && 0 < vnodes
    ensures Nearest(h, shards, vnodes, at, Route(RingOf(h, shards, vnodes), shards, at), p)
  {
    var ring := RingOf(h, shards, vnodes);
    RingIsRing(h, shards, vnodes);
    RingNotEmpty(h, shards, vnodes);
    p := Successor(ring.Keys, at);
    SuccessorIsNearest(ring.Keys, at);
    assert Route(ring, shards, at) == ring[p] by {
      assert ring[p] < shards;
    }
    forall s', v | 0 <= s' < shards && 0 <= v < vnodes
      ensures Distance(at, p) <= Distance(at, h.point(s', v))
    {
      assert Places(h, s', vnodes, h.point(s', v));
      assert h.point(s', v) in ring;
    }
  }

  /** So the owner does not depend on the order in which points were inserted. */
  lemma NearestUnique(h: Hasher, shards: nat, vnodes: nat, at: u64, s: nat, p: u64, s': nat, p': u64)
    requires Nearest(h, shards, vnodes, at, s, p) && Nearest(h, shards, vnodes, at, s', p')
    ensures s == s' && p == p'
  {
    var v :| 0 <= v < vnodes && h.point(s, v) == p;
    var v' :| 0 <= v' < vnodes && h.point(s', v') == p';
    DistanceInjective(at, p, p');
  }

  /** For counts of at least one, a key's owner is the shard of the nearest of exactly those shards' points. */
  lemma ShardForIsNearest(h: Hasher, shards: nat, vnodes: nat, key: string) returns (p: u64)
    requires 0 < shards && 0 < vnodes
    ensures Nearest(h, shards, vnodes, h.key(key), ShardFor(h, shards, vnodes, key), p)
  {
    p := OwnerIsNearest(h, shards, vnodes, h.key(key));
  }

  // ---------- consistent hashing is monotone ----------

  /** Going from `n` to `m` shards, a key keeps its owner exactly when it is not taken over by one of the new shards. */
  lemma Monotone(h: Hasher, n: nat, m: nat, vnodes: nat, key: string)
    requires n <= m
    ensures ShardFor(h, n, vnodes, key) < AtLeastOne(n) && ShardFor(h, m, vnodes, key) < AtLeastOne(m)
    ensures ShardFor(h, m, vnodes, key) == ShardFor(h, n, vnodes, key) <==> ShardFor(h, m, vnodes, key) < AtLeastOne(n)
    ensures 0 < n ==> ShardFor(h, n, vnodes, key) < n && (ShardFor(h, m, vnodes, key) == ShardFor(h, n, vnodes, key) <==> ShardFor(h, m, vnodes, key) < n)
  {
    var n', m', v', at := AtLeastOne(n), AtLeastOne(m), AtLeastOne(vnodes), h.key(key);
    var p := OwnerIsNearest(h, n', v', at);
    var q := OwnerIsNearest(h, m', v', at);
    var s, t := ShardFor(h, n, vnodes, key), ShardFor(h, m, vnodes, key);
    assert Nearest(h, n', v', at, s, p) && Nearest(h, m', v', at, t, q);
    if t < n' {
      assert Nearest(h, n', v', at, t, q);
      NearestUnique(h, n', v', at, s, p, t, q);
    }
  }
}
