/** The shard operator's reconcile pass: create or drain, and delete only after a verified drain. */
module OperatorDrain {
  import opened Options
  import opened HashRing
  import opened Resharding
  import opened Graph

  // ---------- the operator's own planner ----------

  /** Built by loops of its own, the operator's ring is the cluster's. */
  method OperatorRing(h: Hasher, shards: nat, vnodes: nat) returns (ring: Ring)
    ensures ring == RingOf(h, AtLeastOne(shards), AtLeastOne(vnodes)) && IsRing(h, ring, AtLeastOne(shards), AtLeastOne(vnodes))
  {
    ring := map[];
    for s := 0 to AtLeastOne(shards)
      invariant ring == RingOf(h, s, AtLeastOne(vnodes))
    {
      for v := 0 to AtLeastOne(vnodes)
        invariant ring == AddVnodes(h, RingOf(h, s, AtLeastOne(vnodes)), s, v)
      {
        ring := ring[h.point(s, v) := s];
      }
    }
    RingIsRing(h, AtLeastOne(shards), AtLeastOne(vnodes));
  }

  function OperatorShardFor(ring: Ring, shards: nat, at: u64): nat {
    if shards <= 1 then 0
    else if ring.Keys == {} then 0
    else ring[Successor(ring.Keys, at)]
  }

  function FilterMoves(h: Hasher, from: Ring, dest: Ring, actual: nat, desired: nat, tenants: seq<string>): seq<ShardMove> {
    if tenants == [] then []
    else
      var t := tenants[0];
      var a, b := OperatorShardFor(from, actual, h.key(t)), OperatorShardFor(dest, desired, h.key(t));
      (if a != b then [ShardMove(t, a, b)] else []) + FilterMoves(h, from, dest, actual, desired, tenants[1..])
  }

  lemma {:induction false} FilterIsReshard(h: Hasher, desired: nat, actual: nat, tenants: seq<string>)
    requires 0 < desired && 0 < actual
    ensures FilterMoves(h, RingOf(h, actual, Vnodes), RingOf(h, desired, Vnodes), actual, desired, tenants)
         == ReshardMoves(OwnerAmong(h, actual), OwnerAmong(h, desired), tenants)
  {
    if tenants != [] {
      FilterIsReshard(h, desired, actual, tenants[1..]);
      var t := tenants[0];
      assert OwnerAmong(h, actual)(t) == Owner(h, actual, t) && OwnerAmong(h, desired)(t) == Owner(h, desired, t);
    }
  }

  /** The operator's planner and the cluster's compute the same moves, whatever the input. */
  method ReconcileMoves(h: Hasher, desired: nat, actual: nat, tenants: seq<string>) returns (moves: seq<ShardMove>)
    ensures moves == PlanReconcile(h, desired, actual, tenants).moves
  {
    var a, d := AtLeastOne(actual), AtLeastOne(desired);
    var ra := OperatorRing(h, a, 128);
    var rd := OperatorRing(h, d, 128);
    FilterIsReshard(h, d, a, tenants);
    moves := FilterMoves(h, ra, rd, a, d, tenants);
  }

  // ---------- moving tenants over HTTP ----------

  /** Which tenants have data on each shard. */
  type Holdings = map<nat, set<string>>

  function Held(holds: Holdings, s: nat): set<string> {
    if s in holds then holds[s] else {}
  }

  /**
   A rebalance request imports the tenant at the target and then erases it at the source: it does both
   and says so, does both and does not say so, imports but fails to erase, or does nothing.
   */
  datatype Reply = Confirmed | MovedSilently | Copied | Failed

  function MoveTenant(holds: Holdings, m: ShardMove): Holdings {
    if m.key !in Held(holds, m.from) then holds
    else
      var left := holds[m.from := Held(holds, m.from) - {m.key}];
      left[m.dest := Held(left, m.dest) + {m.key}]
  }

  function CopyTenant(holds: Holdings, m: ShardMove): Holdings {
    if m.key !in Held(holds, m.from) then holds else holds[m.dest := Held(holds, m.dest) + {m.key}]
  }

  /** One request; a source shard without a base URL is not reached. */
  function Request(holds: Holdings, m: ShardMove, urls: nat, r: Reply): Holdings {
    if m.from >= urls || r.Failed? then holds
    else if r.Copied? then CopyTenant(holds, m)
    else MoveTenant(holds, m)
  }

  function AfterMoves(holds: Holdings, moves: seq<ShardMove>, urls: nat, replies: nat -> Reply): Holdings {
    if moves == [] then holds
    else
      var n := |moves| - 1;
      Request(AfterMoves(holds, moves[..n], urls, replies), moves[n], urls, replies(n))
  }

  ghost predicate AllConfirmed(moves: seq<ShardMove>, urls: nat, replies: nat -> Reply) {
    forall i :: 0 <= i < |moves| ==> moves[i].from < urls && replies(i).Confirmed?
  }

  /** After the first `n` moves of a confirmed plan: a listed tenant has left its home for its next shard. */
  ghost predicate Drained(before: Holdings, after: Holdings, home: Placement, next: Placement, t: string, listed: bool) {
    forall s: nat ::
      t in Held(after, s) <==>
        if listed && home(t) != next(t) then
          s != home(t) && (t in Held(before, s) || (s == next(t) && t in Held(before, home(t))))
        else t in Held(before, s)
  }

  lemma DrainOne(before: Holdings, after: Holdings, home: Placement, next: Placement, t: string, listed: bool, m: ShardMove)
    requires Drained(before, after, home, next, t, listed)
    requires m.from == home(m.key) && m.dest == next(m.key) && m.from != m.dest
    ensures Drained(before, MoveTenant(after, m), home, next, t, listed || m.key == t)
  {
    assert t in Held(after, home(t)) || t !in Held(after, home(t));
    forall s: nat
      ensures t in Held(MoveTenant(after, m), s) <==>
                if t == m.key && t in Held(after, m.from) then s != m.from && (s == m.dest || t in Held(after, s)) else t in Held(after, s)
    {
      HeldAfterMove(after, m, t, s);
    }
  }

  /** A move imported and not erased leaves the tenant on both shards and everyone else where they were. */
  lemma HeldAfterCopy(holds: Holdings, m: ShardMove, t: string, s: nat)
    ensures t in Held(CopyTenant(holds, m), s) <==> t in Held(holds, s) || (t == m.key && s == m.dest && t in Held(holds, m.from))
  {
  }

  lemma HeldAfterMove(holds: Holdings, m: ShardMove, t: string, s: nat)
    requires m.from != m.dest
    ensures t in Held(MoveTenant(holds, m), s) <==>
              if t == m.key && t in Held(holds, m.from) then s != m.from && (s == m.dest || t in Held(holds, s)) else t in Held(holds, s)
  {
  }

  /** What each reply leaves of a request, tenant by tenant and shard by shard. */
  lemma RequestSays(holds: Holdings, m: ShardMove, urls: nat, r: Reply, t: string, s: nat)
    requires m.from != m.dest
    ensures t in Held(Request(holds, m, urls, r), s) <==>
              if t != m.key || m.from >= urls || t !in Held(holds, m.from) then t in Held(holds, s)
              else match r
                   case Failed => t in Held(holds, s)
                   case Copied => t in Held(holds, s) || s == m.dest
                   case _ => s != m.from && (s == m.dest || t in Held(holds, s))
  {
    HeldAfterMove(holds, m, t, s);
    HeldAfterCopy(holds, m, t, s);
  }

  lemma {:induction false} DrainAll(before: Holdings, home: Placement, next: Placement, moves: seq<ShardMove>, urls: nat, replies: nat -> Reply, t: string)
    requires AllConfirmed(moves, urls, replies)
    requires forall i :: 0 <= i < |moves| ==> moves[i].from == home(moves[i].key) && moves[i].dest == next(moves[i].key) && moves[i].from != moves[i].dest
    ensures Drained(before, AfterMoves(before, moves, urls, replies), home, next, t, Listed(moves, t))
  {
    if moves != [] {
      var n := |moves| - 1;
      var init, m := moves[..n], moves[n];
      DrainAll(before, home, next, init, urls, replies, t);
      DrainOne(before, AfterMoves(before, init, urls, replies), home, next, t, Listed(init, t), m);
      ListedSnoc(init, m, t);
      assert moves == init + [m];
    }
  }

  // ---------- the reconcile pass ----------

  /** Everything outside that one pass meets. */
  datatype World = World(
    desired: nat,
    urls: nat,
    discovered: Option<seq<string>>,
    replies: nat -> Reply,
    templated: bool,
    created: nat -> bool,
    deleted: nat -> bool)

  /** The shards that exist, the tenants with data on each, and the data that went with a deleted shard. */
  datatype Cluster = Cluster(existing: set<nat>, holds: Holdings, lost: set<(string, nat)>)

  function Actual(existing: set<nat>): nat {
    AtLeastOne(|existing|)
  }

  function CreateFrom(existing: set<nat>, lo: nat, hi: nat, w: World): set<nat>
    requires lo <= hi
    decreases hi
  {
    if lo == hi then existing
    else CreateFrom(existing, lo, hi - 1, w) + (if w.created(hi - 1) then {hi - 1} else {})
  }

  predicate Removed(w: World, existing: set<nat>, lo: nat, hi: nat, s: nat) {
    lo <= s < hi && s in existing && w.deleted(s)
  }

  /** Deleting a shard takes everything on it. */
  function DeleteRange(c: Cluster, lo: nat, hi: nat, w: World): Cluster {
    var gone := set s | s in c.existing && Removed(w, c.existing, lo, hi, s);
    Cluster(c.existing - gone,
            map s | s in c.holds && s !in gone :: c.holds[s],
            c.lost + set s, t | s in gone && t in Held(c.holds, s) :: (t, s))
  }

  function Pass(h: Hasher, c: Cluster, w: World): Cluster {
    var desired, actual := AtLeastOne(w.desired), Actual(c.existing);
    var tenants := if w.discovered.Some? then w.discovered.value else [];
    var moves := PlanReconcile(h, desired, actual, tenants).moves;
    var moved := c.(holds := AfterMoves(c.holds, moves, w.urls, w.replies));
    if desired > actual then
      moved.(existing := if w.templated then CreateFrom(c.existing, actual, desired, w) else c.existing)
    else if desired < actual then
      if w.discovered.None? then c
      else if !Confirms(moves, w.urls, w.replies) then moved
      else DeleteRange(moved, desired, actual, w)
    else moved
  }

  function Confirms(moves: seq<ShardMove>, urls: nat, replies: nat -> Reply): (r: bool)
    ensures r == AllConfirmed(moves, urls, replies)
  {
    if moves == [] then true
    else
      var n := |moves| - 1;
      assert AllConfirmed(moves, urls, replies) <==> AllConfirmed(moves[..n], urls, replies) && moves[n].from < urls && replies(n).Confirmed?;
      Confirms(moves[..n], urls, replies) && moves[n].from < urls && replies(n).Confirmed?
  }

  predicate Deletes(h: Hasher, c: Cluster, w: World) {
    && AtLeastOne(w.desired) < Actual(c.existing) && w.discovered.Some?
    && Confirms(PlanReconcile(h, AtLeastOne(w.desired), Actual(c.existing), w.discovered.value).moves, w.urls, w.replies)
  }

  /** Unknown tenants or any unconfirmed move leave every shard in place and lose nothing; so does scaling up. */
  lemma NoDeleteWithoutDrain(h: Hasher, c: Cluster, w: World)
    requires !Deletes(h, c, w)
    ensures Pass(h, c, w).lost == c.lost && c.existing <= Pass(h, c, w).existing
  {
    if AtLeastOne(w.desired) > Actual(c.existing) {
      CreateGrows(c.existing, Actual(c.existing), AtLeastOne(w.desired), w);
    }
  }

  /**
   A pass shard by shard: created when templated, above the count and successful; deleted in a deleting
   pass when at or above the desired count and successful; otherwise as before.
   */
  lemma ShardsAfterPass(h: Hasher, c: Cluster, w: World, s: nat)
    ensures var desired, actual := if w.desired == 0 then 1 else w.desired, if c.existing == {} then 1 else |c.existing|;
            s in Pass(h, c, w).existing <==>
              || (s in c.existing && !(Deletes(h, c, w) && desired <= s < actual && w.deleted(s)))
              || (w.templated && actual <= s < desired && w.created(s))
  {
    if AtLeastOne(w.desired) > Actual(c.existing) {
      CreateGrows(c.existing, Actual(c.existing), AtLeastOne(w.desired), w);
    }
  }

  /** A pass that does not delete leaves the tenants where the replies to its moves put them; unknown tenants, where they were. */
  lemma TenantsAfterPass(h: Hasher, c: Cluster, w: World)
    requires !Deletes(h, c, w)
    ensures w.discovered.None? ==> Pass(h, c, w).holds == c.holds
    ensures w.discovered.Some? ==> Pass(h, c, w).holds == AfterMoves(c.holds, PlanReconcile(h, w.desired, |c.existing|, w.discovered.value).moves, w.urls, w.replies)
  {
    var desired, actual := AtLeastOne(w.desired), Actual(c.existing);
    if w.discovered.None? {
      assert PlanReconcile(h, desired, actual, []).moves == [];
    } else {
      assert PlanReconcile(h, desired, actual, w.discovered.value).moves == PlanReconcile(h, w.desired, |c.existing|, w.discovered.value).moves;
    }
  }

  lemma {:induction false} CreateGrows(existing: set<nat>, lo: nat, hi: nat, w: World)
    requires lo <= hi
    ensures existing <= CreateFrom(existing, lo, hi, w)
    ensures forall s :: s in CreateFrom(existing, lo, hi, w) <==> s in existing || (lo <= s < hi && w.created(s))
    decreases hi
  {
    if lo < hi {
      CreateGrows(existing, lo, hi - 1, w);
    }
  }

  /** After a confirmed drain, a doomed shard still holds a listed tenant exactly if it is not the tenant's home. */
  lemma HeldAfterDrain(h: Hasher, holds: Holdings, desired: nat, actual: nat, tenants: seq<string>, urls: nat, replies: nat -> Reply, t: string, s: nat)
    requires 0 < desired < actual && desired <= s && t in tenants
    requires AllConfirmed(ReshardMoves(OwnerAmong(h, actual), OwnerAmong(h, desired), tenants), urls, replies)
    ensures t in Held(AfterMoves(holds, ReshardMoves(OwnerAmong(h, actual), OwnerAmong(h, desired), tenants), urls, replies), s)
       <==> s != Owner(h, actual, t) && t in Held(holds, s)
  {
    var home, next := OwnerAmong(h, actual), OwnerAmong(h, desired);
    var moves := ReshardMoves(home, next, tenants);
    forall i | 0 <= i < |moves|
      ensures IsMove(home, next, tenants, moves[i])
    {
      MovesExact(home, next, tenants);
      assert moves[i] in moves;
    }
    DrainAll(holds, home, next, moves, urls, replies, t);
    MovesOf(home, next, tenants, t);
    OwnerMonotone(h, desired, actual, t);
  }

  lemma LostIs(c: Cluster, lo: nat, hi: nat, w: World, t: string, s: nat)
    ensures (t, s) in DeleteRange(c, lo, hi, w).lost <==> (t, s) in c.lost || (Removed(w, c.existing, lo, hi, s) && t in Held(c.holds, s))
  {
  }

  /** A deleted shard held data of `t` although it was not the owner of `t` among the shards counted. */
  predicate Misplaced(h: Hasher, c: Cluster, w: World, t: string, s: nat) {
    && Removed(w, c.existing, AtLeastOne(w.desired), Actual(c.existing), s)
    && s != Owner(h, Actual(c.existing), t) && t in Held(c.holds, s)
  }

  /** In a pass that deletes, a discovered tenant loses exactly the data it had in the wrong place on a deleted shard. */
  lemma DrainSafeIff(h: Hasher, c: Cluster, w: World, t: string, s: nat)
    requires Deletes(h, c, w) && t in w.discovered.value && (t, s) !in c.lost
    ensures (t, s) in Pass(h, c, w).lost <==> Misplaced(h, c, w, t, s)
  {
    var desired, actual := AtLeastOne(w.desired), Actual(c.existing);
    var moves := PlanReconcile(h, desired, actual, w.discovered.value).moves;
    var moved := c.(holds := AfterMoves(c.holds, moves, w.urls, w.replies));
    assert Pass(h, c, w) == DeleteRange(moved, desired, actual, w);
    LostIs(moved, desired, actual, w, t, s);
    if desired <= s {
      HeldAfterDrain(h, c.holds, desired, actual, w.discovered.value, w.urls, w.replies, t, s);
    }
  }

  /** So from a correctly placed cluster a discovered tenant loses nothing. */
  lemma PlacedIsSafe(h: Hasher, c: Cluster, w: World, t: string)
    requires forall s: nat :: t in Held(c.holds, s) ==> s == Owner(h, Actual(c.existing), t)
    requires w.discovered.Some? ==> t in w.discovered.value
    ensures forall s: nat :: (t, s) in Pass(h, c, w).lost ==> (t, s) in c.lost
  {
    forall s: nat | (t, s) in Pass(h, c, w).lost && (t, s) !in c.lost
      ensures false
    {
      if Deletes(h, c, w) {
        DrainSafeIff(h, c, w, t, s);
      } else {
        NoDeleteWithoutDrain(h, c, w);
      }
    }
  }

  // ---------- many passes ----------

  /** Shards 0, ..., n-1 exist and every tenant's data is with its owner among them. */
  ghost predicate Placed(h: Hasher, c: Cluster, n: nat) {
    && 0 < n && c.existing == Upto(n)
    && forall t: string, s: nat :: t in Held(c.holds, s) ==> s == Owner(h, n, t)
  }

  ghost predicate Present(c: Cluster, t: string) {
    exists s: nat :: t in Held(c.holds, s)
  }

  /** Every tenant with data is discovered and every call to the outside succeeds. */
  ghost predicate Smooth(h: Hasher, c: Cluster, w: World) {
    && w.discovered.Some? && (forall t: string :: Present(c, t) ==> t in w.discovered.value)
    && AllConfirmed(PlanReconcile(h, w.desired, Actual(c.existing), w.discovered.value).moves, w.urls, w.replies)
    && w.templated && (forall s: nat :: w.created(s) && w.deleted(s))
  }

  lemma {:induction false} ConfirmedMoves(h: Hasher, holds: Holdings, desired: nat, actual: nat, tenants: seq<string>, w: World, t: string)
    requires 0 < desired && 0 < actual && t in tenants
    requires AllConfirmed(ReshardMoves(OwnerAmong(h, actual), OwnerAmong(h, desired), tenants), w.urls, w.replies)
    requires forall s: nat :: t in Held(holds, s) ==> s == Owner(h, actual, t)
    ensures var after := AfterMoves(holds, ReshardMoves(OwnerAmong(h, actual), OwnerAmong(h, desired), tenants), w.urls, w.replies);
            && (forall s: nat :: t in Held(after, s) ==> s == Owner(h, desired, t))
            && (t in Held(after, Owner(h, desired, t)) <==> t in Held(holds, Owner(h, actual, t)))
  {
    var home, next := OwnerAmong(h, actual), OwnerAmong(h, desired);
    var moves := ReshardMoves(home, next, tenants);
    forall i | 0 <= i < |moves|
      ensures IsMove(home, next, tenants, moves[i])
    {
      MovesExact(home, next, tenants);
      assert moves[i] in moves;
    }
    DrainAll(holds, home, next, moves, w.urls, w.replies, t);
    MovesOf(home, next, tenants, t);
  }

  /** A tenant no move names stays where it is. */
  lemma {:induction false} UnlistedStays(holds: Holdings, moves: seq<ShardMove>, urls: nat, replies: nat -> Reply, t: string, s: nat)
    requires !Listed(moves, t)
    ensures t in Held(AfterMoves(holds, moves, urls, replies), s) <==> t in Held(holds, s)
  {
    if moves != [] {
      var n := |moves| - 1;
      ListedSnoc(moves[..n], moves[n], t);
      assert moves == moves[..n] + [moves[n]];
      UnlistedStays(holds, moves[..n], urls, replies, t, s);
    }
  }

  function Moved(h: Hasher, c: Cluster, w: World): Cluster
    requires w.discovered.Some?
  {
    var moves := PlanReconcile(h, w.desired, Actual(c.existing), w.discovered.value).moves;
    c.(holds := AfterMoves(c.holds, moves, w.urls, w.replies))
  }

  lemma {:induction false} MovedPlaced(h: Hasher, c: Cluster, w: World, n: nat, t: string)
    requires Placed(h, c, n) && Smooth(h, c, w)
    ensures forall s: nat :: t in Held(Moved(h, c, w).holds, s) ==> s == Owner(h, AtLeastOne(w.desired), t)
    ensures Present(Moved(h, c, w), t) <==> Present(c, t)
  {
    var d, tenants := AtLeastOne(w.desired), w.discovered.value;
    var moves := ReshardMoves(OwnerAmong(h, n), OwnerAmong(h, d), tenants);
    assert Actual(c.existing) == n;
    if t in tenants {
      ConfirmedMoves(h, c.holds, d, n, tenants, w, t);
    } else {
      MovesOf(OwnerAmong(h, n), OwnerAmong(h, d), tenants, t);
      forall s: nat
        ensures t in Held(Moved(h, c, w).holds, s) <==> t in Held(c.holds, s)
      {
        UnlistedStays(c.holds, moves, w.urls, w.replies, t, s);
      }
    }
  }

  /** Deleting shards that hold nothing changes nobody's data. */
  lemma DeleteEmpty(c: Cluster, lo: nat, hi: nat, w: World)
    requires forall t: string, s: nat :: t in Held(c.holds, s) ==> s < lo
    ensures DeleteRange(c, lo, hi, w).lost == c.lost
    ensures forall t: string, s: nat :: t in Held(DeleteRange(c, lo, hi, w).holds, s) <==> t in Held(c.holds, s)
  {
  }

  lemma UptoCreated(lo: nat, hi: nat, w: World)
    requires lo <= hi && forall s: nat :: w.created(s)
    ensures CreateFrom(Upto(lo), lo, hi, w) == Upto(hi)
  {
    CreateGrows(Upto(lo), lo, hi, w);
  }

  /** From a placed cluster, a pass in which all goes well ends placed at the desired size, with nothing lost. */
  lemma SmoothPass(h: Hasher, c: Cluster, w: World, n: nat)
    requires Placed(h, c, n) && Smooth(h, c, w)
    ensures Placed(h, Pass(h, c, w), AtLeastOne(w.desired)) && Pass(h, c, w).lost == c.lost
    ensures forall t: string :: Present(Pass(h, c, w), t) <==> Present(c, t)
  {
    var d, moved := AtLeastOne(w.desired), Moved(h, c, w);
    assert Actual(c.existing) == n;
    forall t: string
      ensures forall s: nat :: t in Held(moved.holds, s) ==> s == Owner(h, d, t)
      ensures Present(moved, t) <==> Present(c, t)
    {
      MovedPlaced(h, c, w, n, t);
    }
    assert PlanReconcile(h, d, n, w.discovered.value) == PlanReconcile(h, w.desired, n, w.discovered.value);
    if d > n {
      UptoCreated(n, d, w);
    } else if d < n {
      SmoothDelete(h, moved, d, n, w);
    }
  }

  lemma {:induction false} SmoothDelete(h: Hasher, c: Cluster, d: nat, n: nat, w: World)
    requires 0 < d <= n && c.existing == Upto(n) && (forall s: nat :: w.deleted(s))
    requires forall t: string, s: nat :: t in Held(c.holds, s) ==> s == Owner(h, d, t)
    ensures Placed(h, DeleteRange(c, d, n, w), d) && DeleteRange(c, d, n, w).lost == c.lost
    ensures forall t: string :: Present(DeleteRange(c, d, n, w), t) <==> Present(c, t)
  {
    forall t: string, s: nat | t in Held(c.holds, s)
      ensures s < d
    {
      OwnerMonotone(h, d, d, t);
    }
    DeleteEmpty(c, d, n, w);
    assert DeleteRange(c, d, n, w).existing == Upto(d);
  }

  function AfterPasses(h: Hasher, c: Cluster, ws: seq<World>): Cluster {
    if ws == [] then c else Pass(h, AfterPasses(h, c, ws[..|ws| - 1]), ws[|ws| - 1])
  }

  /** Over any number of passes in which all goes well, whatever sizes they ask for, no tenant's data is lost. */
  lemma {:induction false} SmoothRun(h: Hasher, c: Cluster, ws: seq<World>, n: nat) returns (m: nat)
    requires Placed(h, c, n) && AllSmooth(h, c, ws)
    ensures Placed(h, AfterPasses(h, c, ws), m) && AfterPasses(h, c, ws).lost == c.lost
    ensures ws != [] ==> m == AtLeastOne(ws[|ws| - 1].desired)
    ensures forall t: string :: Present(AfterPasses(h, c, ws), t) <==> Present(c, t)
  {
    if ws == [] {
      m := n;
    } else {
      var init, w := ws[..|ws| - 1], ws[|ws| - 1];
      m := SmoothRun(h, c, init, n);
      SmoothPass(h, AfterPasses(h, c, init), w, m);
      m := AtLeastOne(w.desired);
    }
  }

  /** Each pass is smooth in the state the passes before it left. */
  ghost predicate AllSmooth(h: Hasher, c: Cluster, ws: seq<World>) {
    ws == [] || (AllSmooth(h, c, ws[..|ws| - 1]) && Smooth(h, AfterPasses(h, c, ws[..|ws| - 1]), ws[|ws| - 1]))
  }

  // ---------- a move that failed once ----------

  /** A pass that finds the desired number of shards does nothing: a move that failed before is not tried again. */
  lemma SteadyPassDoesNothing(h: Hasher, c: Cluster, w: World)
    requires AtLeastOne(w.desired) == Actual(c.existing)
    ensures Pass(h, c, w) == c
  {
    var tenants := if w.discovered.Some? then w.discovered.value else [];
    SameOwnerNoMoves(OwnerAmong(h, Actual(c.existing)), tenants);
  }

  lemma GrowWithoutMoving(h: Hasher, t: string, up: World)
    requires Owner(h, 2, t) == 1 && Owner(h, 3, t) == 2
    requires up.desired == 3 && up.discovered == Some([t]) && up.templated && up.created(2) && up.replies(0).Failed?
    ensures Pass(h, Cluster({0, 1}, map[1 := {t}], {}), up) == Cluster({0, 1, 2}, map[1 := {t}], {})
  {
    OneTenantMoves(OwnerAmong(h, 2), OwnerAmong(h, 3), t);
    FailedRequest(map[1 := {t}], ShardMove(t, 1, 2), up.urls, up.replies);
    assert CreateFrom({0, 1}, 2, 3, up) == {0, 1, 2};
  }

  lemma FailedRequest(holds: Holdings, m: ShardMove, urls: nat, replies: nat -> Reply)
    requires replies(0).Failed?
    ensures AfterMoves(holds, [m], urls, replies) == holds
  {
    assert [m][..0] == [];
  }

  lemma ShrinkLoses(h: Hasher, t: string, down: World)
    requires Owner(h, 3, t) == 2
    requires down.desired == 1 && down.discovered == Some([t]) && down.urls > 2 && down.replies(0).Confirmed? && down.deleted(1)
    ensures (t, 1) in Pass(h, Cluster({0, 1, 2}, map[1 := {t}], {}), down).lost
  {
    var c := Cluster({0, 1, 2}, map[1 := {t}], {});
    assert Actual(c.existing) == 3;
    OwnerMonotone(h, 1, 3, t);
    OneTenantMoves(OwnerAmong(h, 3), OwnerAmong(h, 1), t);
    DrainSafeIff(h, c, down, t, 1);
  }

  /** Two shards grow to three while a tenant's move fails, then shrink to one: its data goes with shard 1. */
  lemma FailedMoveThenLoss(h: Hasher, t: string, up: World, down: World)
    requires Owner(h, 2, t) == 1 && Owner(h, 3, t) == 2
    requires up.desired == 3 && up.discovered == Some([t]) && up.templated && up.created(2) && up.replies(0).Failed?
    requires down.desired == 1 && down.discovered == Some([t]) && down.urls > 2 && down.replies(0).Confirmed? && down.deleted(1)
    ensures var c := Cluster({0, 1}, map[1 := {t}], {});
            Placed(h, c, 2) && (t, 1) in Pass(h, Pass(h, c, up), down).lost
  {
    TwoShardsPlaced(h, t);
    GrowWithoutMoving(h, t, up);
    ShrinkLoses(h, t, down);
  }

  lemma TwoShardsPlaced(h: Hasher, t: string)
    requires Owner(h, 2, t) == 1
    ensures Placed(h, Cluster({0, 1}, map[1 := {t}], {}), 2)
  {
    assert {0, 1} == Upto(2);
  }

  /** There are hashes like that. */
  lemma SuchAHash(t: string) returns (h: Hasher)
    ensures Owner(h, 2, t) == 1 && Owner(h, 3, t) == 2
  {
    h := Hasher((s, v) => if s == 0 then 30 else if s == 1 then 20 else 10, k => 5);
    var p := OwnerIsNearest(h, 2, Vnodes, 5);
    var q := OwnerIsNearest(h, 3, Vnodes, 5);
    assert h.point(1, 0) == 20 && h.point(2, 0) == 10;
  }

  lemma OneTenantMoves(home: Placement, next: Placement, t: string)
    requires home(t) != next(t)
    ensures ReshardMoves(home, next, [t]) == [ShardMove(t, home(t), next(t))]
  {
    assert [t][1..] == [];
  }

  // ---------- the same drain, memory by memory ----------

  /** The endpoint exports up to this many rows, which the store clamps. */
  const ExportLimit := 10_000_000

  /** `states` are the shards' memory tables as one confirmed move after another migrates its tenant. */
  ghost predicate Migrations(states: seq<seq<Table>>, outs: seq<set<nat>>, moves: seq<ShardMove>) {
    && |outs| == |moves| && |states| == |moves| + 1
    && forall k :: 0 <= k < |moves| ==> MigratedBy(states[k], states[k + 1], outs[k], moves[k])
  }

  ghost predicate MigratedBy(before: seq<Table>, after: seq<Table>, out: set<nat>, m: ShardMove) {
    && Runs(m, |before|) && IsExport(before[m.from], m.key, ExportLimit, out) && after == Migrate(before, m, out)
  }

  lemma {:induction false} MigrationsProgress(states: seq<seq<Table>>, outs: seq<set<nat>>, moves: seq<ShardMove>, rows0: Table, place: Placement, i: nat)
    returns (rows: Table, migrated: nat)
    requires Migrations(states, outs, moves) && i <= |moves| && OneMoveEach(moves) && Laid(states[0], rows0, place)
    ensures |states[i]| == |states[0]| && Progress(states[i], rows0, rows, place, moves, i, ExportLimit, migrated)
  {
    if i == 0 {
      rows, migrated := rows0, 0;
    } else {
      rows, migrated := MigrationsProgress(states, outs, moves, rows0, place, i - 1);
      assert MigratedBy(states[i - 1], states[i - 1 + 1], outs[i - 1], moves[i - 1]);
      rows := ProgressStep(states[i - 1], rows0, rows, place, moves, i - 1, ExportLimit, migrated, outs[i - 1]);
      migrated := migrated + |outs[i - 1]|;
    }
  }

  /**
   A confirmed drain of a correctly placed cluster whose tenants are all known leaves the shards to be
   deleted empty, and keeps every memory exactly if each moved tenant's were all active and within the
   export limit: what is lost is lost by the moves, not by the deletion.
   */
  lemma {:induction false} ConfirmedDrainKeepsRowsIff(h: Hasher, desired: nat, actual: nat, tenants: seq<string>, states: seq<seq<Table>>, outs: seq<set<nat>>, rows0: Table)
    returns (rows: Table)
    requires 0 < desired && 0 < actual && |states| > 0 && desired <= |states[0]| && actual <= |states[0]|
    requires Migrations(states, outs, PlanReconcile(h, desired, actual, tenants).moves)
    requires Laid(states[0], rows0, OwnerAmong(h, actual)) && forall id :: id in rows0 ==> rows0[id].tenant in tenants
    ensures var last := states[|states| - 1];
            && Laid(last, rows, OwnerAmong(h, desired)) && (forall s :: desired <= s < |last| ==> last[s] == map[])
    ensures forall id :: id in rows ==> id in rows0 && rows[id] == rows0[id]
    ensures rows == rows0
       <==> forall t :: t in tenants && Owner(h, actual, t) != Owner(h, desired, t) ==> AllActive(rows0, t) && |TenantIds(rows0, t)| <= 1_000_000
  {
    var home, next := OwnerAmong(h, actual), OwnerAmong(h, desired);
    var moves, last := ReshardMoves(home, next, tenants), states[|states| - 1];
    forall t: string
      ensures home(t) < |states[0]| && next(t) < |states[0]|
    {
      OwnerMonotone(h, actual, actual, t);
      OwnerMonotone(h, desired, desired, t);
    }
    PlanRuns(home, next, tenants, |states[0]|);
    var migrated;
    rows, migrated := MigrationsProgress(states, outs, moves, rows0, home, |moves|);
    assert moves[..|moves|] == moves;
    PlanOutcome(last, home, next, tenants, ExportLimit, rows0, rows);
    forall t | t in tenants
      ensures Exportable(rows0, t, ExportLimit) <==> AllActive(rows0, t) && |TenantIds(rows0, t)| <= 1_000_000
    {
      ExportableIff(rows0, t, ExportLimit);
    }
    forall s | desired <= s < |last|
      ensures last[s] == map[]
    {
      BeyondIsEmpty(last, rows, h, desired, s);
    }
  }

  // ---------- the controller ----------

  class Operator {
    var existing: set<nat>
    var holds: Holdings
    ghost var lost: set<(string, nat)>

    constructor (start: Cluster)
      ensures State() == start
    {
      existing, holds, lost := start.existing, start.holds, start.lost;
    }

    ghost function State(): Cluster
      reads this
    {
      Cluster(existing, holds, lost)
    }

    /** True only if every move was confirmed; a source without a base URL counts as a failure. */
    method ApplyMoves(moves: seq<ShardMove>, urls: nat, replies: nat -> Reply) returns (all: bool)
      modifies this`holds
      ensures all == AllConfirmed(moves, urls, replies)
      ensures holds == AfterMoves(old(holds), moves, urls, replies)
    {
      all := true;
      for i := 0 to |moves|
        invariant all == AllConfirmed(moves[..i], urls, replies)
        invariant holds == AfterMoves(old(holds), moves[..i], urls, replies)
      {
        var m := moves[i];
        assert moves[..i + 1][..i] == moves[..i];
        if m.from >= urls {
          all := false;
          continue;
        }
        if replies(i).Copied? {
          holds := CopyTenant(holds, m);
        } else if !replies(i).Failed? {
          holds := MoveTenant(holds, m);
        }
        if !replies(i).Confirmed? {
          all := false;
        }
      }
      assert moves[..|moves|] == moves;
    }

    method ScaleUp(actual: nat, desired: nat, w: World)
      requires actual <= desired
      modifies this`existing
      ensures existing == if w.templated then CreateFrom(old(existing), actual, desired, w) else old(existing)
    {
      if !w.templated {
        return;
      }
      for i := actual to desired
        invariant existing == CreateFrom(old(existing), actual, i, w)
      {
        if w.created(i) {
          existing := existing + {i};
        }
      }
    }

    method ScaleDown(desired: nat, actual: nat, w: World)
      requires desired <= actual
      modifies this
      ensures State() == DeleteRange(old(State()), desired, actual, w)
    {
      DeleteNone(State(), desired, w);
      for i := desired to actual
        invariant State() == DeleteRange(old(State()), desired, i, w)
      {
        DeleteNext(old(State()), desired, i, w);
        if i in existing && w.deleted(i) {
          lost := lost + set t | t in Held(holds, i) :: (t, i);
          existing, holds := existing - {i}, holds - {i};
        }
      }
    }

    /** One pass. `false` asks for a retry because the drain could not be verified. */
    method Reconcile(h: Hasher, w: World) returns (done: bool)
      modifies this
      ensures State() == Pass(h, old(State()), w)
      ensures !done <==> AtLeastOne(w.desired) < Actual(old(existing)) && !Deletes(h, old(State()), w)
    {
      var desired, actual := AtLeastOne(w.desired), Actual(existing);
      var tenants := if w.discovered.Some? then w.discovered.value else [];
      var moves := ReconcileMoves(h, desired, actual, tenants);
      done := true;
      if desired > actual {
        ScaleUp(actual, desired, w);
        var _ := ApplyMoves(moves, w.urls, w.replies);
      } else if desired < actual {
        var confirmed := false;
        if w.discovered.Some? {
          confirmed := ApplyMoves(moves, w.urls, w.replies);
        }
        if SafeToDeleteAfterDrain(w.discovered.Some?, confirmed) {
          ScaleDown(desired, actual, w);
        } else {
          done := false;
        }
      } else {
        var _ := ApplyMoves(moves, w.urls, w.replies);
      }
    }
  }

  predicate SafeToDeleteAfterDrain(tenantsKnown: bool, allMovesConfirmed: bool) {
    tenantsKnown && allMovesConfirmed
  }

  lemma DeleteNone(c: Cluster, lo: nat, w: World)
    ensures DeleteRange(c, lo, lo, w) == c
  {
    assert DeleteRange(c, lo, lo, w).holds == c.holds;
  }

  lemma DeleteNext(c: Cluster, lo: nat, i: nat, w: World)
    requires lo <= i
    ensures var d := DeleteRange(c, lo, i, w);
            if i in d.existing && w.deleted(i) then
              DeleteRange(c, lo, i + 1, w) == Cluster(d.existing - {i}, d.holds - {i}, d.lost + set t | t in Held(d.holds, i) :: (t, i))
            else
              DeleteRange(c, lo, i + 1, w) == d
  {
    var d, e := DeleteRange(c, lo, i, w), DeleteRange(c, lo, i + 1, w);
    if i in d.existing && w.deleted(i) {
      assert e.existing == d.existing - {i};
      assert e.holds == d.holds - {i};
      assert e.lost == d.lost + set t | t in Held(d.holds, i) :: (t, i);
    } else {
      assert e.existing == d.existing;
      assert e.holds == d.holds;
      assert e.lost == d.lost;
    }
  }
}
