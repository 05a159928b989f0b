/** Resharding: which tenants a change of shard count moves, and what moving them does to the data. */
module Resharding {
  import opened Options
  import opened HashRing

  datatype ShardMove = ShardMove(key: string, from: nat, dest: nat)

  datatype ReconcilePlan = ReconcilePlan(scaleTo: nat, moves: seq<ShardMove>)

  datatype ScaleDirection = Up | Down | Stay

  datatype ScalePlan = ScalePlan(direction: ScaleDirection, scaleTo: nat, add: seq<nat>, remove: seq<nat>, moves: seq<ShardMove>)

  const Vnodes := 128

  function Owner(h: Hasher, shards: nat, tenant: string): nat {
    ShardFor(h, shards, Vnodes, tenant)
  }

  /** Where the ring of `shards` shards puts every tenant. */
  function OwnerAmong(h: Hasher, shards: nat): Placement {
    t => Owner(h, shards, t)
  }

  type Placement = string -> nat

  /** The keys whose owner changes, in order. */
  function ReshardMoves(home: Placement, next: Placement, keys: seq<string>): seq<ShardMove> {
    if keys == [] then []
    else
      var k := keys[0];
      (if home(k) != next(k) then [ShardMove(k, home(k), next(k))] else []) + ReshardMoves(home, next, keys[1..])
  }

  function PlanReconcile(h: Hasher, desired: nat, actual: nat, tenants: seq<string>): ReconcilePlan {
    var d, a := AtLeastOne(desired), AtLeastOne(actual);
    ReconcilePlan(d, ReshardMoves(OwnerAmong(h, a), OwnerAmong(h, d), tenants))
  }

  function Range(lo: nat, hi: nat): seq<nat>
    requires lo <= hi
  {
    seq(hi - lo, i requires 0 <= i => lo + i)
  }

  function PlanScale(h: Hasher, desired: nat, actual: nat, tenants: seq<string>): ScalePlan {
    var d, a := AtLeastOne(desired), AtLeastOne(actual);
    var moves := PlanReconcile(h, d, a, tenants).moves;
    if d > a then ScalePlan(Up, d, Range(a, d), [], moves)
    else if d < a then ScalePlan(Down, d, [], Range(d, a), moves)
    else ScalePlan(Stay, d, [], [], moves)
  }

  // ---------- what a plan says ----------

  ghost predicate IsMove(home: Placement, next: Placement, tenants: seq<string>, m: ShardMove) {
    m.key in tenants && m.from == home(m.key) && m.dest == next(m.key) && m.from != m.dest
  }

  lemma {:induction false} MovesExact(home: Placement, next: Placement, tenants: seq<string>)
    ensures forall m :: m in ReshardMoves(home, next, tenants) <==> IsMove(home, next, tenants, m)
  {
    if tenants != [] {
      var rest := tenants[1..];
      MovesExact(home, next, rest);
      forall m
        ensures m in ReshardMoves(home, next, tenants) <==> IsMove(home, next, tenants, m)
      {
        assert m.key in tenants <==> m.key == tenants[0] || m.key in rest;
      }
    }
  }

  predicate Listed(moves: seq<ShardMove>, t: string) {
    exists k :: 0 <= k < |moves| && moves[k].key == t
  }

  lemma MovesOf(home: Placement, next: Placement, tenants: seq<string>, t: string)
    ensures Listed(ReshardMoves(home, next, tenants), t) <==> t in tenants && home(t) != next(t)
  {
    var moves := ReshardMoves(home, next, tenants);
    MovesExact(home, next, tenants);
    var m := ShardMove(t, home(t), next(t));
    if IsMove(home, next, tenants, m) {
      assert m in moves;
      var k :| 0 <= k < |moves| && moves[k] == m;
    }
    if k :| 0 <= k < |moves| && moves[k].key == t {
      assert moves[k] in moves;
      assert IsMove(home, next, tenants, moves[k]);
    }
  }

  lemma OwnerMonotone(h: Hasher, n: nat, m: nat, t: string)
    requires 0 < n <= m
    ensures OwnerAmong(h, n)(t) < n && OwnerAmong(h, m)(t) < m
    ensures OwnerAmong(h, m)(t) == OwnerAmong(h, n)(t) <==> OwnerAmong(h, m)(t) < n
  {
    Monotone(h, n, m, Vnodes, t);
  }

  /** A scale-down moves exactly the listed tenants on removed shards, each to a survivor. */
  lemma ScaleDownExact(h: Hasher, desired: nat, actual: nat, tenants: seq<string>)
    requires AtLeastOne(desired) < AtLeastOne(actual)
    ensures var p := PlanScale(h, desired, actual, tenants);
            var home, next := OwnerAmong(h, AtLeastOne(actual)), OwnerAmong(h, AtLeastOne(desired));
            && p.direction.Down? && p.scaleTo == AtLeastOne(desired) && (0 < desired ==> p.scaleTo == desired)
            && p.add == [] && (forall s: nat :: s in p.remove <==> p.scaleTo <= s < AtLeastOne(actual))
            && (forall m :: m in p.moves ==> m.key in tenants && m.from == home(m.key) && m.dest == next(m.key))
            && (forall m :: m in p.moves ==> m.from in p.remove && m.dest < p.scaleTo)
            && (forall t :: t in tenants ==> (Listed(p.moves, t) <==> home(t) in p.remove))
            && (forall t :: t in tenants && home(t) !in p.remove ==> next(t) == home(t))
  {
    var d, a := AtLeastOne(desired), AtLeastOne(actual);
    var p := PlanScale(h, desired, actual, tenants);
    var home, next := OwnerAmong(h, a), OwnerAmong(h, d);
    RangeIs(d, a);
    MovesExact(home, next, tenants);
    forall m | m in p.moves
      ensures m.from in p.remove && m.dest < p.scaleTo
    {
      assert IsMove(home, next, tenants, m);
      OwnerMonotone(h, d, a, m.key);
    }
    forall t | t in tenants
      ensures Listed(p.moves, t) <==> home(t) in p.remove
      ensures home(t) !in p.remove ==> next(t) == home(t)
    {
      MovesOf(home, next, tenants, t);
      OwnerMonotone(h, d, a, t);
    }
  }

  /** A scale-up moves exactly the listed tenants that the new shards take over. */
  lemma ScaleUpExact(h: Hasher, desired: nat, actual: nat, tenants: seq<string>)
    requires AtLeastOne(actual) < AtLeastOne(desired)
    ensures var p := PlanScale(h, desired, actual, tenants);
            var home, next := OwnerAmong(h, AtLeastOne(actual)), OwnerAmong(h, AtLeastOne(desired));
            && p.direction.Up? && p.scaleTo == AtLeastOne(desired) && (0 < desired ==> p.scaleTo == desired)
            && p.remove == [] && (forall s: nat :: s in p.add <==> AtLeastOne(actual) <= s < p.scaleTo)
            && (forall m :: m in p.moves ==> m.key in tenants && m.from == home(m.key) && m.dest == next(m.key))
            && (forall m :: m in p.moves ==> m.dest in p.add && m.from < AtLeastOne(actual))
            && (forall t :: t in tenants ==> (Listed(p.moves, t) <==> next(t) in p.add))
  {
    var d, a := AtLeastOne(desired), AtLeastOne(actual);
    var p := PlanScale(h, desired, actual, tenants);
    var home, next := OwnerAmong(h, a), OwnerAmong(h, d);
    RangeIs(a, d);
    MovesExact(home, next, tenants);
    forall m | m in p.moves
      ensures m.dest in p.add && m.from < a
    {
      assert IsMove(home, next, tenants, m);
      OwnerMonotone(h, a, d, m.key);
    }
    forall t | t in tenants
      ensures Listed(p.moves, t) <==> next(t) in p.add
    {
      MovesOf(home, next, tenants, t);
      OwnerMonotone(h, a, d, t);
    }
  }

  lemma {:induction false} SameOwnerNoMoves(home: Placement, tenants: seq<string>)
    ensures ReshardMoves(home, home, tenants) == []
  {
    if tenants != [] {
      SameOwnerNoMoves(home, tenants[1..]);
    }
  }

  /** Asked for as many shards as there are, the plan is to do nothing. */
  lemma StayExact(h: Hasher, desired: nat, actual: nat, tenants: seq<string>)
    requires AtLeastOne(desired) == AtLeastOne(actual)
    ensures PlanScale(h, desired, actual, tenants) == ScalePlan(Stay, if desired == 0 then 1 else desired, [], [], [])
  {
    SameOwnerNoMoves(OwnerAmong(h, AtLeastOne(actual)), tenants);
  }

  lemma RangeIs(lo: nat, hi: nat)
    requires lo <= hi
    ensures forall s: nat :: s in Range(lo, hi) <==> lo <= s < hi
  {
    forall s: nat | lo <= s < hi
      ensures s in Range(lo, hi)
    {
      assert Range(lo, hi)[s - lo] == s;
    }
  }

  // ---------- one tenant's migration ----------

  datatype Memory = Memory(tenant: string, active: bool, content: string, updatedAt: int)

  /** The memory table of one shard. */
  type Table = map<nat, Memory>

  function TenantIds(e: Table, tenant: string): set<nat> {
    set id | id in e && e[id].tenant == tenant
  }

  function ActiveIds(e: Table, tenant: string): set<nat> {
    set id | id in e && e[id].tenant == tenant && e[id].active
  }

  function Clamp(limit: nat): nat {
    if limit < 1 then 1 else if limit > 1_000_000 then 1_000_000 else limit
  }

  function Min(a: nat, b: nat): nat {
    if a < b then a else b
  }

  /** The newest active memories of the tenant, up to the row limit. */
  ghost predicate IsExport(e: Table, tenant: string, limit: nat, out: set<nat>) {
    && out <= ActiveIds(e, tenant)
    && |out| == Min(Clamp(limit), |ActiveIds(e, tenant)|)
    && forall a, b :: a in out && b in ActiveIds(e, tenant) && b !in out ==> e[b].updatedAt <= e[a].updatedAt
  }

  /** All of the tenant's memories on this shard fit in one export. */
  predicate Exportable(e: Table, tenant: string, limit: nat) {
    (forall id :: id in e && e[id].tenant == tenant ==> e[id].active) && |TenantIds(e, tenant)| <= Clamp(limit)
  }

  /** How many memories an export holds, in numbers. */
  lemma ExportCounts(e: Table, tenant: string, limit: nat, out: set<nat>)
    requires IsExport(e, tenant, limit, out)
    ensures var active := |ActiveIds(e, tenant)|;
            && (limit == 0 ==> |out| == if active == 0 then 0 else 1)
            && (1 <= limit <= 1_000_000 ==> |out| == if active <= limit then active else limit)
            && (limit > 1_000_000 ==> |out| == if active <= 1_000_000 then active else 1_000_000)
  {
  }

  predicate AllActive(e: Table, tenant: string) {
    forall id :: id in e && e[id].tenant == tenant ==> e[id].active
  }

  /** What it takes for a tenant to be exported whole, in numbers. */
  lemma ExportableIff(e: Table, tenant: string, limit: nat)
    ensures limit == 0 ==> (Exportable(e, tenant, limit) <==> AllActive(e, tenant) && |TenantIds(e, tenant)| <= 1)
    ensures 1 <= limit <= 1_000_000 ==> (Exportable(e, tenant, limit) <==> AllActive(e, tenant) && |TenantIds(e, tenant)| <= limit)
    ensures limit > 1_000_000 ==> (Exportable(e, tenant, limit) <==> AllActive(e, tenant) && |TenantIds(e, tenant)| <= 1_000_000)
  {
  }

  lemma SubsetSize(a: set<nat>, b: set<nat>)
    requires a <= b
    ensures |a| <= |b| && (|a| == |b| ==> a == b)
  {
    assert b == a + (b - a);
  }

  /** An export is everything the shard holds of the tenant exactly if that is active and within the limit. */
  lemma ExportsAllIff(e: Table, tenant: string, limit: nat, out: set<nat>)
    requires IsExport(e, tenant, limit, out)
    ensures out == TenantIds(e, tenant) <==> Exportable(e, tenant, limit)
  {
    SubsetSize(out, ActiveIds(e, tenant));
    if Exportable(e, tenant, limit) {
      assert ActiveIds(e, tenant) == TenantIds(e, tenant);
    }
    if out == TenantIds(e, tenant) {
      assert forall id :: id in e && e[id].tenant == tenant ==> id in out;
    }
  }

  ghost predicate Exporting(e: Table, tenant: string, taken: set<nat>, left: set<nat>) {
    && taken + left == ActiveIds(e, tenant) && taken !! left
    && forall a, b :: a in taken && b in left ==> e[b].updatedAt <= e[a].updatedAt
  }

  lemma ExportNext(e: Table, tenant: string, taken: set<nat>, left: set<nat>, id: nat)
    requires Exporting(e, tenant, taken, left) && id in left && left <= e.Keys && IsNewest(e, left, id)
    ensures Exporting(e, tenant, taken + {id}, left - {id})
  {
    assert (taken + {id}) + (left - {id}) == taken + left;
  }

  method Export(e: Table, tenant: string, limit: nat) returns (out: seq<nat>)
    ensures |out| == |Ids(out)| && IsExport(e, tenant, limit, Ids(out))
    ensures 1 <= limit <= 1_000_000 ==> |out| == if |ActiveIds(e, tenant)| <= limit then |ActiveIds(e, tenant)| else limit
    ensures limit == 0 ==> |out| <= 1
    ensures limit > 1_000_000 ==> |out| == if |ActiveIds(e, tenant)| <= 1_000_000 then |ActiveIds(e, tenant)| else 1_000_000
  {
    out := [];
    var left := ActiveIds(e, tenant);
    while left != {} && |out| < Clamp(limit)
      invariant left <= e.Keys && Exporting(e, tenant, Ids(out), left)
      invariant |out| == |Ids(out)| <= Clamp(limit)
      decreases left
    {
      var id := Newest(e, left);
      ExportNext(e, tenant, Ids(out), left, id);
      IdsSnoc(out, id);
      out := out + [id];
      left := left - {id};
    }
    ExportDone(e, tenant, limit, Ids(out), left);
  }

  method Newest(e: Table, ids: set<nat>) returns (id: nat)
    requires ids != {} && ids <= e.Keys
    ensures id in ids && IsNewest(e, ids, id)
  {
    NewestExists(e, ids);
    id :| id in ids && IsNewest(e, ids, id);
  }

  lemma IdsSnoc(s: seq<nat>, id: nat)
    ensures Ids(s + [id]) == Ids(s) + {id}
  {
  }

  lemma ExportDone(e: Table, tenant: string, limit: nat, taken: set<nat>, left: set<nat>)
    requires Exporting(e, tenant, taken, left) && |taken| <= Clamp(limit) && (left == {} || |taken| == Clamp(limit))
    ensures IsExport(e, tenant, limit, taken)
  {
    assert |taken + left| == |taken| + |left|;
  }

  function Ids(s: seq<nat>): set<nat> {
    set id | id in s
  }

  predicate IsNewest(e: Table, ids: set<nat>, id: nat)
    requires id in ids && ids <= e.Keys
  {
    forall b :: b in ids ==> e[b].updatedAt <= e[id].updatedAt
  }

  lemma {:induction false} NewestExists(e: Table, ids: set<nat>)
    requires ids != {} && ids <= e.Keys
    ensures exists id :: id in ids && IsNewest(e, ids, id)
  {
    var x :| x in ids;
    var rest := ids - {x};
    assert forall b :: b in ids ==> b == x || b in rest;
    if rest == {} {
      assert IsNewest(e, ids, x);
    } else {
      NewestExists(e, rest);
      var y :| y in rest && IsNewest(e, rest, y);
      assert IsNewest(e, ids, if e[x].updatedAt <= e[y].updatedAt then y else x);
    }
  }

  // ---------- a cluster and its placement ----------

  /** The cluster holds exactly `rows`, each once, on the shard that `place` gives its tenant. */
  ghost predicate Laid(tables: seq<Table>, rows: Table, place: Placement) {
    && (forall s, id :: 0 <= s < |tables| && id in tables[s] ==> id in rows && tables[s][id] == rows[id] && place(rows[id].tenant) == s)
    && (forall id :: id in rows ==> place(rows[id].tenant) < |tables| && id in tables[place(rows[id].tenant)])
  }

  /** At least: every row is where `place` puts it. */
  ghost predicate Kept(tables: seq<Table>, rows: Table, place: Placement) {
    forall id :: id in rows ==>
      var s := place(rows[id].tenant); s < |tables| && id in tables[s] && tables[s][id] == rows[id]
  }

  ghost function Moved(place: Placement, key: string, dest: nat): Placement {
    t => if t == key then dest else place(t)
  }

  function Without(e: Table, tenant: string): Table {
    map id | id in e && e[id].tenant != tenant :: e[id]
  }

  function With(e: Table, rows: Table): Table {
    e + rows
  }

  function Only(e: Table, ids: set<nat>): Table {
    map id | id in e && id in ids :: e[id]
  }

  /** Copy the exported rows over, then drop the whole tenant at the source. */
  function Migrate(tables: seq<Table>, m: ShardMove, out: set<nat>): seq<Table>
    requires m.from < |tables| && m.dest < |tables|
  {
    tables[m.dest := With(tables[m.dest], Only(tables[m.from], out))][m.from := Without(tables[m.from], m.key)]
  }

  lemma ImportNone(e: Table, from: Table, out: seq<nat>)
    ensures With(e, Only(from, Ids(out[..0]))) == e
  {
    assert Only(from, Ids(out[..0])) == map[];
  }

  lemma ImportOne(e: Table, from: Table, out: seq<nat>, i: nat)
    requires i < |out| && out[i] in from
    ensures With(e, Only(from, Ids(out[..i])))[out[i] := from[out[i]]] == With(e, Only(from, Ids(out[..i + 1])))
  {
    assert out[..i + 1] == out[..i] + [out[i]];
    assert Ids(out[..i + 1]) == Ids(out[..i]) + {out[i]};
    assert Only(from, Ids(out[..i + 1])) == Only(from, Ids(out[..i]))[out[i] := from[out[i]]];
  }

  /** What is left of the rows: a moved tenant keeps what was exported. */
  function Survivors(rows: Table, key: string, out: set<nat>): Table {
    map id | id in rows && (rows[id].tenant != key || id in out) :: rows[id]
  }

  lemma MigrateLays(tables: seq<Table>, rows: Table, place: Placement, m: ShardMove, out: set<nat>)
    requires Laid(tables, rows, place) && place(m.key) == m.from != m.dest && m.from < |tables| && m.dest < |tables|
    requires out <= TenantIds(tables[m.from], m.key)
    ensures Laid(Migrate(tables, m, out), Survivors(rows, m.key, out), Moved(place, m.key, m.dest))
  {
    var after, rows', place' := Migrate(tables, m, out), Survivors(rows, m.key, out), Moved(place, m.key, m.dest);
    forall s, id | 0 <= s < |after| && id in after[s]
      ensures id in rows' && after[s][id] == rows'[id] && place'(rows'[id].tenant) == s
    {
      if s == m.dest && id in out {
        assert id in tables[m.from];
      } else {
        assert id in tables[s];
      }
    }
    forall id | id in rows'
      ensures place'(rows'[id].tenant) < |after| && id in after[place'(rows'[id].tenant)]
    {
      assert id in rows && id in tables[place(rows[id].tenant)];
    }
  }

  /** A superseded memory of the moved tenant is afterwards on no shard at all. */
  lemma MigrationDropsHistory(tables: seq<Table>, rows: Table, place: Placement, m: ShardMove, limit: nat, out: set<nat>, id: nat)
    requires Laid(tables, rows, place) && place(m.key) == m.from != m.dest && m.from < |tables| && m.dest < |tables|
    requires IsExport(tables[m.from], m.key, limit, out) && id in rows && rows[id].tenant == m.key && !rows[id].active
    ensures forall s :: 0 <= s < |tables| ==> id !in Migrate(tables, m, out)[s]
  {
    assert out <= TenantIds(tables[m.from], m.key);
    MigrateLays(tables, rows, place, m, out);
    assert id in tables[m.from] && tables[m.from][id] == rows[id];
    assert id !in out;
  }

  /** A tenant that is not on the source shard is left alone. */
  lemma MigrateNothing(tables: seq<Table>, rows: Table, place: Placement, m: ShardMove, out: set<nat>)
    requires Laid(tables, rows, place) && place(m.key) != m.from && m.from != m.dest && m.from < |tables| && m.dest < |tables|
    requires out <= TenantIds(tables[m.from], m.key)
    ensures out == {} && Migrate(tables, m, out) == tables
  {
    forall id | id in tables[m.from]
      ensures tables[m.from][id].tenant != m.key
    {
      assert tables[m.from][id] == rows[id] && place(rows[id].tenant) == m.from;
    }
    assert Without(tables[m.from], m.key) == tables[m.from];
    assert With(tables[m.dest], Only(tables[m.from], out)) == tables[m.dest];
  }

  // ---------- a list of moves ----------

  predicate Runs(m: ShardMove, shards: nat) {
    m.from != m.dest && m.from < shards && m.dest < shards
  }

  /** Where tenants are after the moves; a move that does not find its tenant at the source does nothing. */
  ghost function Follow(place: Placement, moves: seq<ShardMove>, shards: nat): Placement {
    if moves == [] then place
    else
      var before, m := Follow(place, moves[..|moves| - 1], shards), moves[|moves| - 1];
      if Runs(m, shards) && before(m.key) == m.from then Moved(before, m.key, m.dest) else before
  }

  /** The tenants that some move really moves. */
  ghost function Travelled(place: Placement, moves: seq<ShardMove>, shards: nat): set<string> {
    if moves == [] then {}
    else
      var init, m := moves[..|moves| - 1], moves[|moves| - 1];
      Travelled(place, init, shards) + (if Runs(m, shards) && Follow(place, init, shards)(m.key) == m.from then {m.key} else {})
  }

  /** What moving `travelled` has left of `rows0`: a tenant loses rows exactly if it was not exportable. */
  ghost predicate Remains(rows0: Table, rows: Table, travelled: set<string>, limit: nat) {
    && (forall id :: id in rows ==> id in rows0 && rows[id] == rows0[id])
    && (forall id :: id in rows0 && rows0[id].tenant !in travelled ==> id in rows)
    && (forall t :: t in travelled ==>
          Exportable(rows, t, limit) && (TenantIds(rows, t) == TenantIds(rows0, t) <==> Exportable(rows0, t, limit)))
  }

  /** The rows of tenants that travelled: the ones that changed shard, when no tenant is moved twice. */
  function RowsOf(rows: Table, tenants: set<string>): set<nat> {
    set id | id in rows && rows[id].tenant in tenants
  }

  /** On the shard that holds it, a tenant looks as it does in the whole. */
  lemma TenantAtHome(tables: seq<Table>, rows: Table, place: Placement, t: string, limit: nat)
    requires Laid(tables, rows, place) && place(t) < |tables|
    ensures TenantIds(tables[place(t)], t) == TenantIds(rows, t)
    ensures Exportable(tables[place(t)], t, limit) == Exportable(rows, t, limit)
  {
    var e := tables[place(t)];
    assert forall id :: id in e && e[id].tenant == t ==> id in rows && rows[id] == e[id];
    assert forall id :: id in rows && rows[id].tenant == t ==> id in e && rows[id] == e[id];
    assert TenantIds(e, t) == TenantIds(rows, t);
  }

  lemma SurvivorsRemain(rows0: Table, rows: Table, travelled: set<string>, key: string, limit: nat, out: set<nat>)
    requires Remains(rows0, rows, travelled, limit) && IsExport(rows, key, limit, out)
    ensures Remains(rows0, Survivors(rows, key, out), travelled + {key}, limit)
  {
    var rows' := Survivors(rows, key, out);
    ExportsAllIff(rows, key, limit, out);
    assert TenantIds(rows', key) == out;
    SubsetSize(out, ActiveIds(rows, key));
    forall t | t in travelled + {key}
      ensures Exportable(rows', t, limit) && (TenantIds(rows', t) == TenantIds(rows0, t) <==> Exportable(rows0, t, limit))
    {
      if t == key {
        SurvivorsOfKey(rows0, rows, travelled, key, limit, out);
      } else {
        assert TenantIds(rows', t) == TenantIds(rows, t);
      }
    }
  }

  lemma SurvivorsOfKey(rows0: Table, rows: Table, travelled: set<string>, key: string, limit: nat, out: set<nat>)
    requires Remains(rows0, rows, travelled, limit) && IsExport(rows, key, limit, out)
    ensures out == TenantIds(rows0, key) <==> Exportable(rows0, key, limit)
  {
    ExportsAllIff(rows, key, limit, out);
    if key !in travelled {
      assert TenantIds(rows, key) == TenantIds(rows0, key);
      assert forall id :: id in rows && rows[id].tenant == key <==> id in rows0 && rows0[id].tenant == key;
    }
  }

  /** No tenant is sent two different ways. */
  predicate OneMoveEach(moves: seq<ShardMove>) {
    forall i, k :: 0 <= i < k < |moves| && moves[i].key == moves[k].key ==> moves[i] == moves[k]
  }

  ghost predicate Travels(place: Placement, moves: seq<ShardMove>, shards: nat, i: nat)
    requires i < |moves|
  {
    Runs(moves[i], shards) && Follow(place, moves[..i], shards)(moves[i].key) == moves[i].from
  }

  ghost function RowsAfter(rows: Table, place: Placement, moves: seq<ShardMove>, shards: nat, i: nat, out: set<nat>): Table
    requires i < |moves|
  {
    if Travels(place, moves, shards, i) then Survivors(rows, moves[i].key, out) else rows
  }

  /** One completed migration keeps the layout and the account of what remains. */
  lemma {:induction false} MoveStep(tables: seq<Table>, rows0: Table, rows: Table, place: Placement, moves: seq<ShardMove>, i: nat, limit: nat, out: set<nat>)
    returns (rows': Table)
    requires i < |moves| && Runs(moves[i], |tables|) && Laid(tables, rows, Follow(place, moves[..i], |tables|))
    requires Remains(rows0, rows, Travelled(place, moves[..i], |tables|), limit)
    requires IsExport(tables[moves[i].from], moves[i].key, limit, out)
    ensures rows' == RowsAfter(rows, place, moves, |tables|, i, out)
    ensures Laid(Migrate(tables, moves[i], out), rows', Follow(place, moves[..i + 1], |tables|))
    ensures Remains(rows0, rows', Travelled(place, moves[..i + 1], |tables|), limit)
  {
    var m, here := moves[i], Follow(place, moves[..i], |tables|);
    rows' := RowsAfter(rows, place, moves, |tables|, i, out);
    assert moves[..i + 1][..i] == moves[..i];
    assert out <= TenantIds(tables[m.from], m.key);
    if here(m.key) == m.from {
      MigrateLays(tables, rows, here, m, out);
      ExportAtHome(tables, rows, here, m.key, limit, out);
      SurvivorsRemain(rows0, rows, Travelled(place, moves[..i], |tables|), m.key, limit, out);
    } else {
      MigrateNothing(tables, rows, here, m, out);
    }
  }

  lemma ExportAtHome(tables: seq<Table>, rows: Table, place: Placement, t: string, limit: nat, out: set<nat>)
    requires Laid(tables, rows, place) && place(t) < |tables| && IsExport(tables[place(t)], t, limit, out)
    ensures IsExport(rows, t, limit, out)
  {
    var e := tables[place(t)];
    TenantAtHome(tables, rows, place, t, limit);
    assert forall id :: id in TenantIds(rows, t) ==> id in TenantIds(e, t) && e[id] == rows[id];
    assert ActiveIds(e, t) == ActiveIds(rows, t);
  }

  /** A failed migration has only copied. */
  lemma CopyKeeps(tables: seq<Table>, after: seq<Table>, rows: Table, place: Placement, m: ShardMove, out: set<nat>)
    requires Laid(tables, rows, place) && Runs(m, |tables|) && out <= TenantIds(tables[m.from], m.key)
    requires exists got :: got <= out && after == tables[m.dest := With(tables[m.dest], Only(tables[m.from], got))]
    ensures Kept(after, rows, place)
  {
    var got :| got <= out && after == tables[m.dest := With(tables[m.dest], Only(tables[m.from], got))];
    forall id | id in rows
      ensures var s := place(rows[id].tenant); s < |after| && id in after[s] && after[s][id] == rows[id]
    {
      var s := place(rows[id].tenant);
      assert id in tables[s] && tables[s][id] == rows[id];
    }
  }

  /** A tenant that travelled is at its destination, so the same move does not find it again. */
  lemma {:induction false} TravelledOnce(place: Placement, moves: seq<ShardMove>, shards: nat, i: nat)
    requires OneMoveEach(moves) && i < |moves|
    ensures moves[i].key in Travelled(place, moves[..i], shards) ==> !Travels(place, moves, shards, i)
  {
    AtDestination(place, moves, shards, i, moves[i]);
  }

  lemma {:induction false} AtDestination(place: Placement, moves: seq<ShardMove>, shards: nat, n: nat, m: ShardMove)
    requires n <= |moves| && forall k :: 0 <= k < n && moves[k].key == m.key ==> moves[k] == m
    ensures m.key in Travelled(place, moves[..n], shards) ==>
              Runs(m, shards) && Follow(place, moves[..n], shards)(m.key) == m.dest
  {
    if 0 < n {
      assert moves[..n][..n - 1] == moves[..n - 1];
      AtDestination(place, moves, shards, n - 1, m);
    }
  }

  lemma SurvivorRows(rows: Table, travelled: set<string>, key: string, out: set<nat>)
    requires key !in travelled && out <= TenantIds(rows, key)
    ensures |RowsOf(Survivors(rows, key, out), travelled + {key})| == |RowsOf(rows, travelled)| + |out|
  {
    assert RowsOf(Survivors(rows, key, out), travelled + {key}) == RowsOf(rows, travelled) + out;
    assert RowsOf(rows, travelled) !! out;
  }

  /** What one completed migration adds to the count. */
  lemma CountStep(tables: seq<Table>, rows: Table, place: Placement, moves: seq<ShardMove>, i: nat, limit: nat, out: set<nat>)
    requires i < |moves| && OneMoveEach(moves) && Runs(moves[i], |tables|) && Laid(tables, rows, Follow(place, moves[..i], |tables|))
    requires IsExport(tables[moves[i].from], moves[i].key, limit, out)
    ensures |RowsOf(RowsAfter(rows, place, moves, |tables|, i, out), Travelled(place, moves[..i + 1], |tables|))|
         == |RowsOf(rows, Travelled(place, moves[..i], |tables|))| + |out|
  {
    var m, here, travelled := moves[i], Follow(place, moves[..i], |tables|), Travelled(place, moves[..i], |tables|);
    assert moves[..i + 1][..i] == moves[..i];
    assert out <= TenantIds(tables[m.from], m.key);
    if here(m.key) == m.from {
      TravelledOnce(place, moves, |tables|, i);
      ExportAtHome(tables, rows, here, m.key, limit, out);
      SurvivorRows(rows, travelled, m.key, out);
    } else {
      MigrateNothing(tables, rows, here, m, out);
    }
  }

  /** The state of the loop after `i` moves. */
  ghost predicate Progress(tables: seq<Table>, rows0: Table, rows: Table, place: Placement, moves: seq<ShardMove>, i: nat, limit: nat, migrated: nat)
    requires i <= |moves|
  {
    && Laid(tables, rows, Follow(place, moves[..i], |tables|))
    && Remains(rows0, rows, Travelled(place, moves[..i], |tables|), limit)
    && (OneMoveEach(moves) ==> migrated == |RowsOf(rows, Travelled(place, moves[..i], |tables|))|)
  }

  lemma {:induction false} ProgressSkip(tables: seq<Table>, rows0: Table, rows: Table, place: Placement, moves: seq<ShardMove>, i: nat, limit: nat, migrated: nat)
    requires i < |moves| && Progress(tables, rows0, rows, place, moves, i, limit, migrated) && !Runs(moves[i], |tables|)
    ensures Progress(tables, rows0, rows, place, moves, i + 1, limit, migrated)
  {
    assert moves[..i + 1][..i] == moves[..i];
    assert Follow(place, moves[..i + 1], |tables|) == Follow(place, moves[..i], |tables|);
    assert Travelled(place, moves[..i + 1], |tables|) == Travelled(place, moves[..i], |tables|);
  }

  lemma {:induction false} ProgressStep(tables: seq<Table>, rows0: Table, rows: Table, place: Placement, moves: seq<ShardMove>, i: nat, limit: nat, migrated: nat, out: set<nat>)
    returns (rows': Table)
    requires i < |moves| && Progress(tables, rows0, rows, place, moves, i, limit, migrated) && Runs(moves[i], |tables|)
    requires IsExport(tables[moves[i].from], moves[i].key, limit, out)
    ensures Progress(Migrate(tables, moves[i], out), rows0, rows', place, moves, i + 1, limit, migrated + |out|)
  {
    rows' := MoveStep(tables, rows0, rows, place, moves, i, limit, out);
    if OneMoveEach(moves) {
      CountStep(tables, rows, place, moves, i, limit, out);
    }
  }

  /** Moves that each start where their tenant is: it ends at its destination, everyone else stays. */
  lemma {:induction false} FollowSnoc(place: Placement, init: seq<ShardMove>, m: ShardMove, shards: nat, t: string)
    ensures var goes := Runs(m, shards) && Follow(place, init, shards)(m.key) == m.from;
            && Follow(place, init + [m], shards)(t) == (if goes && t == m.key then m.dest else Follow(place, init, shards)(t))
            && (t in Travelled(place, init + [m], shards) <==> t in Travelled(place, init, shards) || (goes && t == m.key))
  {
    assert (init + [m])[..|init|] == init;
  }

  lemma {:induction false} FollowPlan(place: Placement, moves: seq<ShardMove>, shards: nat, n: nat, t: string)
    requires n <= |moves| && OneMoveEach(moves) && forall k :: 0 <= k < |moves| ==> Runs(moves[k], shards) && moves[k].from == place(moves[k].key)
    ensures t in Travelled(place, moves[..n], shards) <==> Listed(moves[..n], t)
    ensures !Listed(moves[..n], t) ==> Follow(place, moves[..n], shards)(t) == place(t)
    ensures forall k :: 0 <= k < n && moves[k].key == t ==> Follow(place, moves[..n], shards)(t) == moves[k].dest
  {
    if 0 < n {
      var init, m := moves[..n - 1], moves[n - 1];
      assert moves[..n][..n - 1] == init && moves[..n] == init + [m];
      FollowPlan(place, moves, shards, n - 1, t);
      FollowSnoc(place, init, m, shards, t);
      ListedSnoc(init, m, t);
      if Listed(init, t) && m.key == t {
        var k :| 0 <= k < n - 1 && moves[k].key == t;
        assert moves[k] == m;
      }
    }
  }

  lemma ListedSnoc(moves: seq<ShardMove>, m: ShardMove, t: string)
    ensures Listed(moves + [m], t) <==> Listed(moves, t) || m.key == t
  {
    if k :| 0 <= k < |moves| && moves[k].key == t {
      assert (moves + [m])[k].key == t;
    }
    assert (moves + [m])[|moves|] == m;
  }

  /** The moves of a plan can all be run, start where their tenant is, and send no tenant two ways. */
  lemma PlanRuns(home: Placement, next: Placement, tenants: seq<string>, shards: nat)
    requires forall t :: t in tenants ==> home(t) < shards && next(t) < shards
    ensures var moves := ReshardMoves(home, next, tenants);
            OneMoveEach(moves) && forall k :: 0 <= k < |moves| ==> Runs(moves[k], shards) && IsMove(home, next, tenants, moves[k])
  {
    var moves := ReshardMoves(home, next, tenants);
    MovesExact(home, next, tenants);
    forall k | 0 <= k < |moves|
      ensures Runs(moves[k], shards) && IsMove(home, next, tenants, moves[k])
    {
      assert moves[k] in moves;
    }
    assert forall i, k :: 0 <= i < k < |moves| && moves[i].key == moves[k].key ==>
        IsMove(home, next, tenants, moves[i]) && IsMove(home, next, tenants, moves[k]);
  }

  /** Following a plan takes every listed tenant to its new owner. */
  lemma PlanPlaces(home: Placement, next: Placement, tenants: seq<string>, shards: nat, t: string)
    requires forall t :: t in tenants ==> home(t) < shards && next(t) < shards
    ensures var moves := ReshardMoves(home, next, tenants);
            && (t in tenants ==> Follow(home, moves, shards)(t) == next(t))
            && (t in Travelled(home, moves, shards) <==> t in tenants && home(t) != next(t))
  {
    var moves := ReshardMoves(home, next, tenants);
    PlanRuns(home, next, tenants, shards);
    FollowPlan(home, moves, shards, |moves|, t);
    assert moves[..|moves|] == moves;
    MovesOf(home, next, tenants, t);
    if k :| 0 <= k < |moves| && moves[k].key == t {
      assert IsMove(home, next, tenants, moves[k]);
    }
  }

  lemma LaidAgree(tables: seq<Table>, rows: Table, place: Placement, place': Placement)
    requires Laid(tables, rows, place) && forall id :: id in rows ==> place'(rows[id].tenant) == place(rows[id].tenant)
    ensures Laid(tables, rows, place')
  {
  }

  /** Nothing remains lost exactly if every tenant that travelled was exportable. */
  lemma NothingLostIff(rows0: Table, rows: Table, travelled: set<string>, limit: nat)
    requires Remains(rows0, rows, travelled, limit)
    ensures rows == rows0 <==> forall t :: t in travelled ==> Exportable(rows0, t, limit)
  {
    if forall t :: t in travelled ==> Exportable(rows0, t, limit) {
      forall id | id in rows0
        ensures id in rows
      {
        var t := rows0[id].tenant;
        assert t in travelled ==> TenantIds(rows, t) == TenantIds(rows0, t);
        assert id in TenantIds(rows0, t);
      }
    }
  }

  /** A row on a shard beyond the new ring would belong to nobody. */
  lemma BeyondIsEmpty(tables: seq<Table>, rows: Table, h: Hasher, desired: nat, s: nat)
    requires Laid(tables, rows, OwnerAmong(h, desired)) && AtLeastOne(desired) <= s < |tables|
    ensures tables[s] == map[]
  {
    if id :| id in tables[s] {
      Monotone(h, desired, desired, Vnodes, rows[id].tenant);
      assert false;
    }
  }

  /** What carrying out a whole plan means. */
  lemma {:induction false} PlanOutcome(tables: seq<Table>, home: Placement, next: Placement, tenants: seq<string>, limit: nat, rows0: Table, rows: Table)
    requires forall t :: t in tenants ==> home(t) < |tables| && next(t) < |tables|
    requires Laid(tables, rows, Follow(home, ReshardMoves(home, next, tenants), |tables|))
    requires Remains(rows0, rows, Travelled(home, ReshardMoves(home, next, tenants), |tables|), limit)
    requires forall id :: id in rows0 ==> rows0[id].tenant in tenants
    ensures Laid(tables, rows, next)
    ensures rows == rows0 <==> forall t :: t in tenants && home(t) != next(t) ==> Exportable(rows0, t, limit)
    ensures RowsOf(rows, Travelled(home, ReshardMoves(home, next, tenants), |tables|)) == Changed(home, next, rows)
  {
    var moves := ReshardMoves(home, next, tenants);
    var travelled := Travelled(home, moves, |tables|);
    forall t
      ensures t in tenants ==> Follow(home, moves, |tables|)(t) == next(t)
      ensures t in travelled <==> t in tenants && home(t) != next(t)
    {
      PlanPlaces(home, next, tenants, |tables|, t);
    }
    LaidAgree(tables, rows, Follow(home, moves, |tables|), next);
    NothingLostIff(rows0, rows, travelled, limit);
  }

  /** The rows whose tenant has a new owner. */
  function Changed(home: Placement, next: Placement, rows: Table): set<nat> {
    set id | id in rows && home(rows[id].tenant) != next(rows[id].tenant)
  }

  datatype Outcome = Moves | ExportFails | ImportFails(after: nat) | DeleteFails

  class ShardedCluster {
    var tables: seq<Table>

    constructor (start: seq<Table>)
      ensures tables == start
    {
      tables := start;
    }

    /** Upsert the given rows of `from` into shard `dest`, in order; stops after `upto`. */
    method Import(from: Table, out: seq<nat>, dest: nat, upto: nat)
      requires dest < |tables| && upto <= |out| && forall i :: 0 <= i < |out| ==> out[i] in from
      modifies this
      ensures tables == old(tables)[dest := With(old(tables[dest]), Only(from, Ids(out[..upto])))]
    {
      ImportNone(tables[dest], from, out);
      for i := 0 to upto
        invariant tables == old(tables)[dest := With(old(tables[dest]), Only(from, Ids(out[..i])))]
      {
        ImportOne(old(tables[dest]), from, out, i);
        tables := tables[dest := tables[dest][out[i] := from[out[i]]]];
      }
    }

    /** Move one tenant; `None` when a store reports an error, and then nothing has been deleted. */
    method MigrateTenant(m: ShardMove, limit: nat, w: Outcome) returns (r: Option<nat>, ghost out: set<nat>)
      requires Runs(m, |tables|)
      modifies this
      ensures IsExport(old(tables[m.from]), m.key, limit, out)
      ensures r.Some? <==> w.Moves?
      ensures r.Some? ==> r.value == |out| && tables == Migrate(old(tables), m, out)
      ensures r.None? ==> |tables| == |old(tables)| && exists got ::
                got <= out && tables == old(tables)[m.dest := With(old(tables[m.dest]), Only(old(tables[m.from]), got))]
    {
      var source := tables[m.from];
      var ids := Export(source, m.key, limit);
      out := Ids(ids);
      if w.ExportFails? {
        assert With(tables[m.dest], Only(source, {})) == tables[m.dest];
        return None, out;
      }
      var upto := if w.ImportFails? && w.after < |ids| then w.after else |ids|;
      assert forall i :: 0 <= i < |ids| ==> ids[i] in out;
      Import(source, ids, m.dest, upto);
      assert ids[..|ids|] == ids;
      if !w.Moves? {
        assert Ids(ids[..upto]) <= out;
        return None, out;
      }
      tables := tables[m.from := Without(tables[m.from], m.key)];
      r := Some(|ids|);
    }

    /**
     Execute moves in order. From a cluster laid out by `place`, success lays it out by following the
     moves, a tenant's rows being lost exactly if it travelled without being exportable; an error leaves
     every row that was there after the completed moves.
     */
    method ApplyMoves(moves: seq<ShardMove>, limit: nat, w: nat -> Outcome, ghost rows0: Table, ghost place: Placement)
      returns (r: Option<nat>, ghost rows: Table, ghost done: nat)
      requires Laid(tables, rows0, place)
      modifies this
      ensures |tables| == |old(tables)| && done <= |moves| && (r.Some? ==> done == |moves|)
      ensures Remains(rows0, rows, Travelled(place, moves[..done], |tables|), limit)
      ensures Kept(tables, rows, Follow(place, moves[..done], |tables|))
      ensures r.Some? ==> Laid(tables, rows, Follow(place, moves, |tables|))
      ensures r.Some? && OneMoveEach(moves) ==> r.value == |RowsOf(rows, Travelled(place, moves, |tables|))|
      ensures r.None? <==> done < |moves| && Runs(moves[done], |tables|) && !w(done).Moves?
    {
      rows := rows0;
      var migrated := 0;
      for i := 0 to |moves|
        invariant |tables| == |old(tables)| && Progress(tables, rows0, rows, place, moves, i, limit, migrated)
      {
        done := i;
        var m := moves[i];
        if !Runs(m, |tables|) {
          ProgressSkip(tables, rows0, rows, place, moves, i, limit, migrated);
          continue;
        }
        ghost var before := tables;
        var moved;
        ghost var out;
        moved, out := MigrateTenant(m, limit, w(i));
        if moved.None? {
          CopyKeeps(before, tables, rows, Follow(place, moves[..i], |tables|), m, out);
          return None, rows, i;
        }
        rows := ProgressStep(before, rows0, rows, place, moves, i, limit, migrated, out);
        migrated := migrated + moved.value;
      }
      done := |moves|;
      assert moves[..|moves|] == moves;
      r := Some(migrated);
    }

    /**
     Plan a reshard of a correctly placed cluster and carry it out. When every tenant with data is
     listed, success places the cluster by the new ring, and every memory is still there exactly if
     each moved tenant was exportable; the count is that of the memories that changed shard.
     */
    method Rebalance(h: Hasher, desired: nat, actual: nat, tenants: seq<string>, limit: nat, w: nat -> Outcome, ghost rows0: Table)
      returns (r: Option<nat>, ghost rows: Table)
      requires AtLeastOne(desired) <= |tables| && AtLeastOne(actual) <= |tables|
      requires Laid(tables, rows0, OwnerAmong(h, AtLeastOne(actual))) && forall id :: id in rows0 ==> rows0[id].tenant in tenants
      modifies this
      ensures |tables| == |old(tables)|
      ensures forall id :: id in rows ==> id in rows0 && rows[id] == rows0[id]
      ensures r.Some? ==>
                var d, a := AtLeastOne(desired), AtLeastOne(actual);
                && Laid(tables, rows, OwnerAmong(h, d))
                && (rows == rows0 <==> forall t :: t in tenants && Owner(h, a, t) != Owner(h, d, t) ==> Exportable(rows0, t, limit))
                && r.value == |Changed(OwnerAmong(h, a), OwnerAmong(h, d), rows)|
      ensures r.Some? ==> forall s :: AtLeastOne(desired) <= s < |tables| ==> tables[s] == map[]
      ensures r.Some? && 1 <= limit <= 1_000_000 ==>
                (rows == rows0 <==> forall t :: t in tenants && Owner(h, AtLeastOne(actual), t) != Owner(h, AtLeastOne(desired), t) ==>
                                      AllActive(rows0, t) && |TenantIds(rows0, t)| <= limit)
    {
      var moves := PlanReconcile(h, desired, actual, tenants).moves;
      ghost var home, next := OwnerAmong(h, AtLeastOne(actual)), OwnerAmong(h, AtLeastOne(desired));
      ghost var done;
      r, rows, done := ApplyMoves(moves, limit, w, rows0, home);
      if r.Some? {
        assert moves[..|moves|] == moves;
        forall t: string
          ensures home(t) < |tables| && next(t) < |tables|
        {
          OwnerMonotone(h, AtLeastOne(actual), AtLeastOne(actual), t);
          OwnerMonotone(h, AtLeastOne(desired), AtLeastOne(desired), t);
        }
        PlanRuns(home, next, tenants, |tables|);
        PlanOutcome(tables, home, next, tenants, limit, rows0, rows);
        forall t | t in tenants && 1 <= limit <= 1_000_000
          ensures Exportable(rows0, t, limit) <==> AllActive(rows0, t) && |TenantIds(rows0, t)| <= limit
        {
          ExportableIff(rows0, t, limit);
        }
        forall s | AtLeastOne(desired) <= s < |tables|
          ensures tables[s] == map[]
        {
          BeyondIsEmpty(tables, rows, h, AtLeastOne(desired), s);
        }
      }
    }
  }
}
