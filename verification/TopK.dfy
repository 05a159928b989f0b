/** Cross-shard search: merging every shard's best `k` hits gives the global best `k`. */
module TopK {
  import opened Options

  datatype Hit = Hit(id: string, score: real)

  datatype Side = Above | Level | Below

  function Compare(score: real, v: real): Side {
    if score > v then Above else if score == v then Level else Below
  }

  /** The hits on one side of `v`, in order. */
  function Select(s: seq<Hit>, v: real, side: Side): seq<Hit> {
    if s == [] then []
    else Select(s[..|s| - 1], v, side) + (if Compare(s[|s| - 1].score, v) == side then [s[|s| - 1]] else [])
  }

  predicate Descending(s: seq<Hit>) {
    forall i, k :: 0 <= i < k < |s| ==> s[i].score >= s[k].score
  }

  /** `t` is `s` in descending order, hits of equal score keeping the order they had. */
  ghost predicate IsStableSort(s: seq<Hit>, t: seq<Hit>) {
    Descending(t) && forall v :: AgreesAt(s, t, v)
  }

  lemma {:induction false} SelectAppend(s: seq<Hit>, t: seq<Hit>, v: real, side: Side)
    ensures Select(s + t, v, side) == Select(s, v, side) + Select(t, v, side)
  {
    if t == [] {
      assert s + t == s;
    } else {
      var n := |t| - 1;
      assert (s + t)[..|s| + n] == s + t[..n];
      SelectAppend(s, t[..n], v, side);
    }
  }

  lemma SelectOne(x: Hit, v: real, side: Side)
    ensures Select([x], v, side) == if Compare(x.score, v) == side then [x] else []
  {
    assert [x][..0] == [];
  }

  /** A descending list is what lies above `v`, then what is level with it, then what lies below. */
  lemma {:induction false} Blocks(t: seq<Hit>, v: real)
    requires Descending(t)
    ensures t == Select(t, v, Above) + Select(t, v, Level) + Select(t, v, Below)
  {
    if t != [] {
      var init, last := t[..|t| - 1], t[|t| - 1];
      Blocks(init, v);
      if last.score > v {
        NoneOn(init, v, Level);
      }
      if last.score >= v {
        NoneOn(init, v, Below);
      }
      BlocksSnoc(t, Select(init, v, Above), Select(init, v, Level), Select(init, v, Below), last, Compare(last.score, v));
    }
  }

  lemma {:induction false} NoneOn(s: seq<Hit>, v: real, side: Side)
    requires forall i :: 0 <= i < |s| ==> Compare(s[i].score, v) != side
    ensures Select(s, v, side) == []
  {
    if s != [] {
      NoneOn(s[..|s| - 1], v, side);
    }
  }

  lemma BlocksSnoc(t: seq<Hit>, a: seq<Hit>, l: seq<Hit>, b: seq<Hit>, x: Hit, side: Side)
    requires t != [] && t[|t| - 1] == x && t[..|t| - 1] == a + l + b
    requires (side.Above? ==> l == [] && b == []) && (side.Level? ==> b == [])
    ensures t == (a + if side == Above then [x] else []) + (l + if side == Level then [x] else []) + (b + if side == Below then [x] else [])
  {
    assert t == a + l + b + [x];
  }

  lemma SelectLast(s: seq<Hit>, v: real)
    requires s != []
    ensures var x := s[|s| - 1];
            Select(s, v, Level) == Select(s[..|s| - 1], v, Level) + (if x.score == v then [x] else [])
  {
  }

  lemma CancelLast(a: seq<Hit>, b: seq<Hit>, c: seq<Hit>)
    requires a + c == b + c
    ensures a == b
  {
    assert |a| == |b|;
    assert a == (a + c)[..|a|] && b == (b + c)[..|a|];
  }

  /** A descending list is fixed by its blocks. */
  lemma {:induction false} SortUnique(s: seq<Hit>, t: seq<Hit>)
    requires Descending(s) && Descending(t) && forall v :: Select(s, v, Level) == Select(t, v, Level)
    ensures s == t
    decreases |s|
  {
    if s != [] && t != [] {
      var x, y := s[|s| - 1], t[|t| - 1];
      SameLast(s, t);
      var s', t' := s[..|s| - 1], t[..|t| - 1];
      forall v
        ensures Select(s', v, Level) == Select(t', v, Level)
      {
        assert Select(s, v, Level) == Select(t, v, Level);
        SelectLast(s, v);
        SelectLast(t, v);
        CancelLast(Select(s', v, Level), Select(t', v, Level), if x.score == v then [x] else []);
      }
      SortUnique(s', t');
      assert s == s' + [x] && t == t' + [y];
    } else if s != [] {
      SelectLast(s, s[|s| - 1].score);
    } else if t != [] {
      SelectLast(t, t[|t| - 1].score);
    }
  }

  lemma {:induction false} SameLast(s: seq<Hit>, t: seq<Hit>)
    requires Descending(s) && Descending(t) && s != [] && t != []
    requires Select(s, s[|s| - 1].score, Level) == Select(t, s[|s| - 1].score, Level)
    requires Select(s, t[|t| - 1].score, Level) == Select(t, t[|t| - 1].score, Level)
    ensures s[|s| - 1] == t[|t| - 1]
  {
    var x, y := s[|s| - 1], t[|t| - 1];
    SelectLast(s, x.score);
    SelectLast(t, y.score);
    var i := Somewhere(s, y.score);
    var k := Somewhere(t, x.score);
    assert x.score == y.score;
    var bs, bt := Select(s, x.score, Level), Select(t, x.score, Level);
    assert bs[|bs| - 1] == x && bt[|bt| - 1] == y;
  }

  /** A nonempty block of `v` shows a hit of score `v`. */
  lemma {:induction false} Somewhere(s: seq<Hit>, v: real) returns (i: nat)
    requires Select(s, v, Level) != []
    ensures i < |s| && s[i].score == v
  {
    if s[|s| - 1].score == v {
      i := |s| - 1;
    } else {
      SelectLast(s, v);
      i := Somewhere(s[..|s| - 1], v);
    }
  }

  // ---------- sorting ----------

  /** Put `x` behind the first `p` hits. */
  function InsertAt(t: seq<Hit>, p: nat, x: Hit): seq<Hit>
    requires p <= |t|
  {
    t[..p] + [x] + t[p..]
  }

  /** Where a stable sort of `a + [x] + b` puts `x`. */
  function Rank(a: seq<Hit>, x: Hit, b: seq<Hit>): nat {
    |Select(a, x.score, Above)| + |Select(a, x.score, Level)| + |Select(b, x.score, Above)|
  }

  lemma {:induction false} SelectTwice(s: seq<Hit>, v: real, side: Side, other: Side)
    ensures Select(Select(s, v, side), v, other) == if side == other then Select(s, v, side) else []
  {
    if s != [] {
      var init, last := s[..|s| - 1], s[|s| - 1];
      SelectTwice(init, v, side, other);
      if Compare(last.score, v) == side {
        SelectAppend(Select(init, v, side), [last], v, other);
        SelectOne(last, v, other);
      } else {
        assert Select(s, v, side) == Select(init, v, side);
      }
    }
  }

  lemma {:induction false} SelectSides(s: seq<Hit>, v: real, side: Side)
    ensures forall i :: 0 <= i < |Select(s, v, side)| ==> Compare(Select(s, v, side)[i].score, v) == side
  {
    if s != [] {
      SelectSides(s[..|s| - 1], v, side);
    }
  }

  lemma AppendThree(a: seq<Hit>, x: Hit, b: seq<Hit>, v: real, side: Side)
    ensures Select(a + [x] + b, v, side)
         == Select(a, v, side) + (if Compare(x.score, v) == side then [x] else []) + Select(b, v, side)
  {
    SelectAppend(a + [x], b, v, side);
    SelectAppend(a, [x], v, side);
    SelectOne(x, v, side);
  }

  /** `t` agrees with `s` about what is level with `v` and how much is above it. */
  ghost predicate AgreesAt(s: seq<Hit>, t: seq<Hit>, v: real) {
    Select(t, v, Level) == Select(s, v, Level) && |Select(t, v, Above)| == |Select(s, v, Above)|
  }

  lemma SplitAt(t: seq<Hit>, front: seq<Hit>, back: seq<Hit>)
    requires t == front + back
    ensures |front| <= |t| && t[..|front|] == front && t[|front|..] == back
  {
  }

  lemma Regroup(a: seq<Hit>, b: seq<Hit>, c: seq<Hit>, d: seq<Hit>)
    ensures a + (b + c) + d == (a + b) + (c + d)
  {
    assert a + (b + c) == (a + b) + c;
  }

  /** Cutting a sort of `a + b` at the rank of `x`: before it what is above and `a`'s equals, behind it the rest. */
  lemma {:induction false} CutAtRank(a: seq<Hit>, x: Hit, b: seq<Hit>, t: seq<Hit>)
    requires Descending(t) && AgreesAt(a + b, t, x.score)
    ensures var p, v := Rank(a, x, b), x.score;
            && p <= |t|
            && t[..p] == Select(t, v, Above) + Select(a, v, Level)
            && t[p..] == Select(b, v, Level) + Select(t, v, Below)
  {
    var v := x.score;
    Blocks(t, v);
    SelectAppend(a, b, v, Above);
    SelectAppend(a, b, v, Level);
    Regroup(Select(t, v, Above), Select(a, v, Level), Select(b, v, Level), Select(t, v, Below));
    SplitAt(t, Select(t, v, Above) + Select(a, v, Level), Select(b, v, Level) + Select(t, v, Below));
  }

  lemma CutScores(a: seq<Hit>, x: Hit, b: seq<Hit>, t: seq<Hit>)
    requires Descending(t) && AgreesAt(a + b, t, x.score)
    ensures var p := Rank(a, x, b);
            p <= |t| && (forall i :: 0 <= i < p ==> t[i].score >= x.score) && (forall i :: p <= i < |t| ==> t[i].score <= x.score)
  {
    var p, v := Rank(a, x, b), x.score;
    CutAtRank(a, x, b, t);
    SelectSides(t, v, Above);
    SelectSides(a, v, Level);
    SelectSides(b, v, Level);
    SelectSides(t, v, Below);
    forall i | 0 <= i < p
      ensures t[i].score >= v
    {
      assert t[i] == t[..p][i];
    }
    forall i | p <= i < |t|
      ensures t[i].score <= v
    {
      assert t[i] == t[p..][i - p];
    }
  }

  lemma {:induction false} CutLevels(a: seq<Hit>, x: Hit, b: seq<Hit>, t: seq<Hit>)
    requires Descending(t) && AgreesAt(a + b, t, x.score)
    ensures var p, v := Rank(a, x, b), x.score;
            p <= |t| && Select(t[..p], v, Level) == Select(a, v, Level) && Select(t[p..], v, Level) == Select(b, v, Level)
  {
    var v := x.score;
    CutAtRank(a, x, b, t);
    SelectAppend(Select(t, v, Above), Select(a, v, Level), v, Level);
    SelectTwice(t, v, Above, Level);
    SelectTwice(a, v, Level, Level);
    SelectAppend(Select(b, v, Level), Select(t, v, Below), v, Level);
    SelectTwice(b, v, Level, Level);
    SelectTwice(t, v, Below, Level);
  }

  /** Inserting `x` where the levels part as they do in `a` and `b` agrees with `a + [x] + b` everywhere. */
  lemma {:induction false} InsertAgrees(a: seq<Hit>, x: Hit, b: seq<Hit>, front: seq<Hit>, back: seq<Hit>, w: real)
    requires AgreesAt(a + b, front + back, w)
    requires w == x.score ==> Select(front, w, Level) == Select(a, w, Level) && Select(back, w, Level) == Select(b, w, Level)
    ensures AgreesAt(a + [x] + b, front + [x] + back, w)
  {
    InsertAbove(a, x, b, front, back, w);
    AppendThree(front, x, back, w, Level);
    AppendThree(a, x, b, w, Level);
    if w != x.score {
      Untouched(a, x, b, w);
      Untouched(front, x, back, w);
    }
  }

  lemma Untouched(a: seq<Hit>, x: Hit, b: seq<Hit>, w: real)
    requires w != x.score
    ensures Select(a + [x] + b, w, Level) == Select(a + b, w, Level)
  {
    AppendThree(a, x, b, w, Level);
    SelectAppend(a, b, w, Level);
    NoMiddle(Select(a, w, Level), Select(b, w, Level));
  }

  lemma NoMiddle(a: seq<Hit>, b: seq<Hit>)
    ensures a + [] + b == a + b
  {
    assert a + [] == a;
  }

  lemma InsertAbove(a: seq<Hit>, x: Hit, b: seq<Hit>, front: seq<Hit>, back: seq<Hit>, w: real)
    requires |Select(front + back, w, Above)| == |Select(a + b, w, Above)|
    ensures |Select(front + [x] + back, w, Above)| == |Select(a + [x] + b, w, Above)|
  {
    AppendThree(front, x, back, w, Above);
    AppendThree(a, x, b, w, Above);
    SelectAppend(front, back, w, Above);
    SelectAppend(a, b, w, Above);
  }

  lemma InsertDescending(t: seq<Hit>, p: nat, x: Hit)
    requires p <= |t| && Descending(t)
    requires (forall i :: 0 <= i < p ==> t[i].score >= x.score) && (forall i :: p <= i < |t| ==> t[i].score <= x.score)
    ensures Descending(InsertAt(t, p, x))
  {
  }

  lemma {:induction false} AllAgree(a: seq<Hit>, x: Hit, b: seq<Hit>, front: seq<Hit>, back: seq<Hit>)
    requires forall w :: AgreesAt(a + b, front + back, w)
    requires Select(front, x.score, Level) == Select(a, x.score, Level) && Select(back, x.score, Level) == Select(b, x.score, Level)
    ensures forall w :: AgreesAt(a + [x] + b, front + [x] + back, w)
  {
    forall w
      ensures AgreesAt(a + [x] + b, front + [x] + back, w)
    {
      assert AgreesAt(a + b, front + back, w);
      InsertAgrees(a, x, b, front, back, w);
    }
  }

  /** Sorting without `x` and then putting it at its rank sorts the whole. */
  lemma InsertSorts(a: seq<Hit>, x: Hit, b: seq<Hit>, t: seq<Hit>)
    requires IsStableSort(a + b, t)
    ensures Rank(a, x, b) <= |t| && IsStableSort(a + [x] + b, InsertAt(t, Rank(a, x, b), x))
  {
    assert AgreesAt(a + b, t, x.score);
    CutScores(a, x, b, t);
    CutLevels(a, x, b, t);
    var p := Rank(a, x, b);
    InsertDescending(t, p, x);
    assert t == t[..p] + t[p..];
    AllAgree(a, x, b, t[..p], t[p..]);
  }

  /** Stable sorting by descending score: each hit in turn goes behind those at least as good. */
  function Sorted(s: seq<Hit>): seq<Hit> {
    if s == [] then []
    else
      var init, x := Sorted(s[..|s| - 1]), s[|s| - 1];
      Select(init, x.score, Above) + Select(init, x.score, Level) + [x] + Select(init, x.score, Below)
  }

  /** For the last hit the rank is behind all that are at least as good. */
  lemma {:induction false} InsertLast(a: seq<Hit>, x: Hit, t: seq<Hit>)
    requires Descending(t) && AgreesAt(a, t, x.score)
    ensures Rank(a, x, []) <= |t|
    ensures InsertAt(t, Rank(a, x, []), x)
         == Select(t, x.score, Above) + Select(t, x.score, Level) + [x] + Select(t, x.score, Below)
  {
    var p := Rank(a, x, []);
    assert a + [] == a;
    CutAtRank(a, x, [], t);
    assert t[p..] == Select(t, x.score, Below);
  }

  lemma {:induction false} SortedIs(s: seq<Hit>)
    ensures IsStableSort(s, Sorted(s))
  {
    if s != [] {
      var a, x := s[..|s| - 1], s[|s| - 1];
      SortedIs(a);
      assert a + [] == a && s == a + [x] + [];
      InsertSorts(a, x, [], Sorted(a));
      InsertLast(a, x, Sorted(a));
    }
  }

  lemma {:induction false} CountLevel(s: seq<Hit>, x: Hit)
    ensures multiset(s)[x] == multiset(Select(s, x.score, Level))[x]
  {
    if s != [] {
      var init, last := s[..|s| - 1], s[|s| - 1];
      CountLevel(init, x);
      CountSnoc(init, last, x);
      CountSnoc(Select(init, x.score, Level), last, x);
      assert s == init + [last];
      SelectLast(s, x.score);
    }
  }

  lemma CountSnoc(s: seq<Hit>, last: Hit, x: Hit)
    ensures multiset(s + [last])[x] == multiset(s)[x] + if last == x then 1 else 0
  {
  }

  /** A stable sort neither drops nor invents a hit. */
  lemma SortPermutes(s: seq<Hit>, t: seq<Hit>)
    requires IsStableSort(s, t)
    ensures multiset(t) == multiset(s)
  {
    forall x
      ensures multiset(t)[x] == multiset(s)[x]
    {
      assert AgreesAt(s, t, x.score);
      CountLevel(s, x);
      CountLevel(t, x);
    }
  }

  // ---------- the distributed top k ----------

  function Take(s: seq<Hit>, k: nat): seq<Hit> {
    if |s| <= k then s else s[..k]
  }

  function Flatten(parts: seq<seq<Hit>>): seq<Hit> {
    if parts == [] then [] else Flatten(parts[..|parts| - 1]) + parts[|parts| - 1]
  }

  /** The shards' lists stand one behind the other, each in its own order. */
  lemma {:induction false} FlattenAt(parts: seq<seq<Hit>>, i: nat, j: nat)
    requires i < |parts| && j < |parts[i]|
    ensures |Flatten(parts[..i])| + j < |Flatten(parts)| && Flatten(parts)[|Flatten(parts[..i])| + j] == parts[i][j]
  {
    if i + 1 < |parts| {
      FlattenAt(parts[..|parts| - 1], i, j);
      assert parts[..|parts| - 1][..i] == parts[..i];
    }
  }

  /** A hit behind `k` at least as good ones does not matter to the first `k`. */
  lemma LateHit(a: seq<Hit>, x: Hit, b: seq<Hit>, k: nat)
    requires |Select(a, x.score, Above)| + |Select(a, x.score, Level)| >= k
    ensures Take(Sorted(a + [x] + b), k) == Take(Sorted(a + b), k)
  {
    var t := Sorted(a + b);
    SortedIs(a + b);
    SortedIs(a + [x] + b);
    InsertSorts(a, x, b, t);
    SortsAreEqual(a + [x] + b, Sorted(a + [x] + b), InsertAt(t, Rank(a, x, b), x));
    TakeInsert(t, Rank(a, x, b), x, k);
  }

  lemma TakeInsert(t: seq<Hit>, p: nat, x: Hit, k: nat)
    requires k <= p <= |t|
    ensures Take(InsertAt(t, p, x), k) == Take(t, k)
  {
  }

  lemma SortsAreEqual(s: seq<Hit>, t: seq<Hit>, t': seq<Hit>)
    requires IsStableSort(s, t) && IsStableSort(s, t')
    ensures t == t'
  {
    forall v
      ensures Select(t, v, Level) == Select(t', v, Level)
    {
      assert AgreesAt(s, t, v) && AgreesAt(s, t', v);
    }
    SortUnique(t, t');
  }

  lemma {:induction false} EnoughBetter(r: seq<Hit>, x: Hit)
    requires forall i :: 0 <= i < |r| ==> r[i].score >= x.score
    ensures |Select(r, x.score, Above)| + |Select(r, x.score, Level)| == |r|
  {
    if r != [] {
      EnoughBetter(r[..|r| - 1], x);
    }
  }

  lemma RegroupLast(pre: seq<Hit>, init: seq<Hit>, x: Hit, post: seq<Hit>)
    ensures pre + (init + [x]) + post == (pre + init) + [x] + post
  {
    assert pre + (init + [x]) == (pre + init) + [x];
  }

  /** Cutting one shard's ranking to `k` does not change the global first `k`. */
  lemma {:induction false} TrimOne(pre: seq<Hit>, r: seq<Hit>, post: seq<Hit>, k: nat)
    requires Descending(r)
    ensures Take(Sorted(pre + Take(r, k) + post), k) == Take(Sorted(pre + r + post), k)
    decreases |r|
  {
    if k < |r| {
      var init, x := r[..|r| - 1], r[|r| - 1];
      EnoughBetter(init, x);
      SelectAppend(pre, init, x.score, Above);
      SelectAppend(pre, init, x.score, Level);
      LateHit(pre + init, x, post, k);
      RegroupLast(pre, init, x, post);
      assert r == init + [x] && Take(init, k) == Take(r, k);
      TrimOne(pre, init, post, k);
    }
  }

  ghost predicate AllDescending(rankings: seq<seq<Hit>>) {
    forall i :: 0 <= i < |rankings| ==> Descending(rankings[i])
  }

  function TakeEach(rankings: seq<seq<Hit>>, k: nat): seq<seq<Hit>> {
    seq(|rankings|, i requires 0 <= i < |rankings| => Take(rankings[i], k))
  }

  lemma Assoc(a: seq<Hit>, b: seq<Hit>, c: seq<Hit>)
    ensures a + (b + c) == a + b + c
  {
  }

  lemma FlattenLast(parts: seq<seq<Hit>>)
    requires parts != []
    ensures Flatten(parts) == Flatten(parts[..|parts| - 1]) + parts[|parts| - 1]
  {
  }

  lemma {:induction false} TrimAll(rankings: seq<seq<Hit>>, post: seq<Hit>, k: nat)
    requires AllDescending(rankings)
    ensures Take(Sorted(Flatten(TakeEach(rankings, k)) + post), k) == Take(Sorted(Flatten(rankings) + post), k)
  {
    if rankings != [] {
      var n := |rankings| - 1;
      var init, last := rankings[..n], rankings[n];
      TrimAll(init, Take(last, k) + post, k);
      TrimOne(Flatten(init), last, post, k);
      assert TakeEach(rankings, k)[..n] == TakeEach(init, k);
      FlattenLast(TakeEach(rankings, k));
      FlattenLast(rankings);
      Assoc(Flatten(TakeEach(init, k)), Take(last, k), post);
      Assoc(Flatten(init), Take(last, k), post);
    } else {
      assert TakeEach(rankings, k) == rankings;
    }
  }

  /** Distributed top k is exact: the best `k` of everyone's best `k` are the best `k` of all. */
  lemma DistributedTopK(rankings: seq<seq<Hit>>, k: nat)
    requires AllDescending(rankings)
    ensures Take(Sorted(Flatten(TakeEach(rankings, k))), k) == Take(Sorted(Flatten(rankings)), k)
  {
    TrimAll(rankings, [], k);
    assert Flatten(TakeEach(rankings, k)) + [] == Flatten(TakeEach(rankings, k));
    assert Flatten(rankings) + [] == Flatten(rankings);
  }

  /** Fan out, concatenate, sort, truncate; a shard's error is everyone's. `rankings` are the shards' full rankings. */
  method MemorySearchAll(replies: seq<Option<seq<Hit>>>, k: nat, ghost rankings: seq<seq<Hit>>) returns (r: Option<seq<Hit>>)
    requires AllDescending(rankings) && |rankings| == |replies|
    requires forall i :: 0 <= i < |replies| && replies[i].Some? ==> replies[i].value == Take(rankings[i], k)
    ensures r.None? <==> exists i :: 0 <= i < |replies| && replies[i].None?
    ensures r.Some? ==> r.value == Take(Sorted(Flatten(rankings)), k)
    ensures r.Some? ==> exists t :: IsStableSort(Flatten(rankings), t) && r.value <= t && |r.value| == if |t| <= k then |t| else k
  {
    var all := [];
    for i := 0 to |replies|
      invariant all == Flatten(TakeEach(rankings, k)[..i])
      invariant forall j :: 0 <= j < i ==> replies[j].Some?
    {
      if replies[i].None? {
        return None;
      }
      assert TakeEach(rankings, k)[..i + 1][..i] == TakeEach(rankings, k)[..i];
      all := all + replies[i].value;
    }
    assert TakeEach(rankings, k)[..|replies|] == TakeEach(rankings, k);
    DistributedTopK(rankings, k);
    SortedIs(Flatten(rankings));
    r := Some(Take(Sorted(all), k));
  }
}
