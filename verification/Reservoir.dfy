/**
 The reservoir of `LatencyCollector.Record` (benchkit/metrics.go) over positions: which of the
 recorded samples are retained, counted over every possible sequence of random draws.
 */
module Reservoirs {
  import opened Basics

  function FirstPositions(m: nat): (s: seq<int>)
    ensures |s| == m && forall i :: 0 <= i < m ==> s[i] == i
  {
    seq(m, i => i)
  }

  function Replace(s: seq<int>, item: int, draw: int): (r: seq<int>)
    ensures |r| == |s|
  {
    if 0 <= draw < |s| then s[draw := item] else s
  }

  /** The positions in a full reservoir of size m after further samples with these draws. */
  function Sample(m: nat, draws: seq<int>): (s: seq<int>)
    ensures |s| == m
  {
    if draws == [] then FirstPositions(m)
    else Replace(Sample(m, draws[..|draws| - 1]), m + |draws| - 1, draws[|draws| - 1])
  }

  /** The draw for the n-th sample is below n. */
  predicate ValidDraws(m: nat, draws: seq<int>) {
    forall i :: 0 <= i < |draws| ==> 0 <= draws[i] < m + i + 1
  }

  /** `draws` followed by each of 0 .. n-1. */
  function Row(draws: seq<int>, n: nat): (r: seq<seq<int>>)
    ensures |r| == n
  {
    seq(n, i => draws + [i])
  }

  function Extend(all: seq<seq<int>>, n: nat): seq<seq<int>> {
    if all == [] then [] else Row(all[0], n) + Extend(all[1..], n)
  }

  /** Every sequence of k draws after the reservoir has filled. */
  function AllDraws(m: nat, k: nat): seq<seq<int>> {
    if k == 0 then [[]] else Extend(AllDraws(m, k - 1), m + k)
  }

  function Count<T>(s: seq<T>, p: T -> bool): nat {
    if s == [] then 0 else (if p(s[0]) then 1 else 0) + Count(s[1..], p)
  }

  // ---- AllDraws is exactly the valid draws, once each ----

  lemma {:induction false} CountConcat<T>(a: seq<T>, b: seq<T>, p: T -> bool)
    ensures Count(a + b, p) == Count(a, p) + Count(b, p)
  {
    if a == [] {
      assert a + b == b;
    } else {
      assert (a + b)[1..] == a[1..] + b;
      CountConcat(a[1..], b, p);
    }
  }

  /** Counting over a row of n draws is counting over 0 .. n-1. */
  lemma {:induction false} CountRow(draws: seq<int>, n: nat, p: seq<int> -> bool, q: int -> bool)
    requires forall i :: 0 <= i < n ==> p(draws + [i]) == q(i)
    ensures Count(Row(draws, n), p) == CountBelow(n, q)
    decreases n
  {
    if n > 0 {
      CountRow(draws, n - 1, p, q);
      assert Row(draws, n) == Row(draws, n - 1) + [draws + [n - 1]];
      CountConcat(Row(draws, n - 1), [draws + [n - 1]], p);
      assert Count([draws + [n - 1]], p) == if p(draws + [n - 1]) then 1 else 0;
    }
  }

  function CountBelow(n: nat, q: int -> bool): nat {
    if n == 0 then 0 else CountBelow(n - 1, q) + (if q(n - 1) then 1 else 0)
  }

  lemma {:induction false} CountBelowInterval(n: nat, q: int -> bool, lo: nat, hi: nat)
    requires lo <= hi
    requires forall i :: 0 <= i < n ==> (q(i) <==> lo <= i < hi)
    ensures CountBelow(n, q) == if n <= lo then 0 else if n <= hi then n - lo else hi - lo
    decreases n
  {
    if n > 0 {
      CountBelowInterval(n - 1, q, lo, hi);
    }
  }

  lemma {:induction false} CountBelowAllBut(n: nat, q: int -> bool, hole: nat)
    requires forall i :: 0 <= i < n ==> (q(i) <==> i != hole)
    ensures CountBelow(n, q) == if hole < n then n - 1 else n
    decreases n
  {
    if n > 0 {
      CountBelowAllBut(n - 1, q, hole);
    }
  }

  lemma {:induction false} ExtendLength(all: seq<seq<int>>, n: nat)
    ensures |Extend(all, n)| == |all| * n
  {
    if all != [] {
      ExtendLength(all[1..], n);
      assert |all| * n == |all[1..]| * n + n;
    }
  }

  /** If each prefix has f(prefix) good continuations, f being c or 0, the total is c per good prefix. */
  lemma {:induction false} CountExtend(all: seq<seq<int>>, n: nat, p: seq<int> -> bool, good: seq<int> -> bool, c: nat)
    requires forall i :: 0 <= i < |all| ==> Count(Row(all[i], n), p) == if good(all[i]) then c else 0
    ensures Count(Extend(all, n), p) == c * Count(all, good)
    decreases |all|
  {
    if all != [] {
      CountConcat(Row(all[0], n), Extend(all[1..], n), p);
      var head, rest := if good(all[0]) then 1 else 0, Count(all[1..], good);
      assert Count(Row(all[0], n), p) == c * head;
      CountExtend(all[1..], n, p, good, c);
      Distribute(c, head, rest);
    }
  }

  lemma {:induction false} RowHas(x: seq<int>, n: nat, d: seq<int>)
    ensures d in Row(x, n) <==> d != [] && d[..|d| - 1] == x && 0 <= d[|d| - 1] < n
  {
    if d in Row(x, n) {
      var i :| 0 <= i < n && Row(x, n)[i] == d;
      assert d == x + [i];
    }
    if d != [] && d[..|d| - 1] == x && 0 <= d[|d| - 1] < n {
      assert d == x + [d[|d| - 1]];
      assert Row(x, n)[d[|d| - 1]] == d;
    }
  }

  lemma {:induction false} ExtendHas(all: seq<seq<int>>, n: nat, d: seq<int>)
    ensures d in Extend(all, n) <==> d != [] && d[..|d| - 1] in all && 0 <= d[|d| - 1] < n
  {
    if all != [] {
      ExtendHas(all[1..], n, d);
      RowHas(all[0], n, d);
    }
  }

  lemma {:induction false} ValidDrawsExtend(m: nat, prefix: seq<int>, last: int)
    ensures ValidDraws(m, prefix + [last]) <==> ValidDraws(m, prefix) && 0 <= last < m + |prefix| + 1
  {
    var d := prefix + [last];
    if ValidDraws(m, d) {
      forall i | 0 <= i < |prefix| ensures 0 <= prefix[i] < m + i + 1 {
        assert d[i] == prefix[i];
      }
      assert d[|prefix|] == last;
    }
  }

  lemma {:induction false} AllDrawsAreTheValidOnes(m: nat, k: nat, d: seq<int>)
    ensures d in AllDraws(m, k) <==> |d| == k && ValidDraws(m, d)
    decreases k
  {
    if k > 0 {
      ExtendHas(AllDraws(m, k - 1), m + k, d);
      if d != [] {
        var prefix, last := d[..|d| - 1], d[|d| - 1];
        assert d == prefix + [last];
        AllDrawsAreTheValidOnes(m, k - 1, prefix);
        ValidDrawsExtend(m, prefix, last);
      }
    }
  }

  lemma {:induction false} RowListsOnce(x: seq<int>, n: nat, prefix: seq<int>, last: int, p: seq<int> -> bool)
    requires 0 <= last < n && forall y :: p(y) <==> y == prefix + [last]
    ensures Count(Row(x, n), p) == if x == prefix then 1 else 0
  {
    var q := (j: int) => x == prefix && j == last;
    forall j | 0 <= j < n ensures p(x + [j]) == q(j) {
      assert (x + [j])[..|x|] == x && (x + [j])[|x|] == j;
      assert (prefix + [last])[..|prefix|] == prefix && (prefix + [last])[|prefix|] == last;
    }
    CountRow(x, n, p, q);
    if x == prefix {
      CountBelowInterval(n, q, last, last + 1);
    } else {
      CountBelowInterval(n, q, 0, 0);
    }
  }

  lemma {:induction false} TestIs(d: seq<int>) returns (p: seq<int> -> bool)
    ensures forall x :: p(x) <==> x == d
  {
    p := x => x == d;
  }

  lemma {:induction false} ExtendListsOnce(all: seq<seq<int>>, n: nat, prefix: seq<int>, last: int,
                                           p: seq<int> -> bool, good: seq<int> -> bool)
    requires 0 <= last < n && (forall y :: p(y) <==> y == prefix + [last]) && (forall x :: good(x) <==> x == prefix)
    ensures Count(Extend(all, n), p) == Count(all, good)
  {
    forall i | 0 <= i < |all| ensures Count(Row(all[i], n), p) == if good(all[i]) then 1 else 0 {
      RowListsOnce(all[i], n, prefix, last, p);
    }
    CountExtend(all, n, p, good, 1);
  }

  /** Each valid sequence of draws is listed once. */
  lemma {:induction false} EachDrawIsListedOnce(m: nat, k: nat, d: seq<int>, p: seq<int> -> bool)
    requires |d| == k && ValidDraws(m, d) && forall x :: p(x) <==> x == d
    ensures Count(AllDraws(m, k), p) == 1
    decreases k
  {
    if k == 0 {
      assert AllDraws(m, 0)[1..] == [];
    } else {
      var prefix, last := d[..k - 1], d[k - 1];
      assert d == prefix + [last];
      var good := TestIs(prefix);
      ValidDrawsExtend(m, prefix, last);
      EachDrawIsListedOnce(m, k - 1, prefix, good);
      ExtendListsOnce(AllDraws(m, k - 1), m + k, prefix, last, p, good);
    }
  }

  // ---- Each sample is retained equally often ----

  lemma {:induction false} SampleStep(m: nat, draws: seq<int>, draw: int)
    ensures Sample(m, draws + [draw]) == Replace(Sample(m, draws), m + |draws|, draw)
  {
    assert (draws + [draw])[..|draws|] == draws;
  }

  ghost predicate Distinct(s: seq<int>) {
    forall i, j :: 0 <= i < j < |s| ==> s[i] != s[j]
  }

  /** The reservoir holds m different positions of samples recorded so far. */
  lemma {:induction false} SampleIsDistinct(m: nat, draws: seq<int>)
    ensures Distinct(Sample(m, draws))
    ensures forall i :: 0 <= i < m ==> 0 <= Sample(m, draws)[i] < m + |draws|
    decreases |draws|
  {
    if draws != [] {
      SampleIsDistinct(m, draws[..|draws| - 1]);
    }
  }

  /** `p` tells whether position j is retained. */
  ghost predicate Tests(p: seq<int> -> bool, m: nat, j: int) {
    forall d {:trigger p(d)} :: p(d) <==> j in Sample(m, d)
  }

  lemma {:induction false} RowKeepsOld(m: nat, x: seq<int>, n: nat, j: int, p: seq<int> -> bool)
    requires n == m + |x| + 1 && 0 <= j < m + |x|
    requires Tests(p, m, j)
    ensures Count(Row(x, n), p) == if j in Sample(m, x) then n - 1 else 0
  {
    var s := Sample(m, x);
    SampleIsDistinct(m, x);
    if j in s {
      var slot :| 0 <= slot < m && s[slot] == j;
      var q := (i: int) => i != slot;
      forall i | 0 <= i < n ensures p(x + [i]) == q(i) {
        SampleStep(m, x, i);
        var r := Replace(s, m + |x|, i);
        if i != slot {
          assert r[slot] == j;
        }
      }
      CountRow(x, n, p, q);
      CountBelowAllBut(n, q, slot);
    } else {
      var q := (i: int) => false;
      forall i | 0 <= i < n ensures p(x + [i]) == q(i) {
        SampleStep(m, x, i);
      }
      CountRow(x, n, p, q);
      CountBelowInterval(n, q, 0, 0);
    }
  }

  lemma {:induction false} NewestIsKept(m: nat, x: seq<int>, i: nat)
    ensures m + |x| in Sample(m, x + [i]) <==> i < m
  {
    SampleStep(m, x, i);
    SampleIsDistinct(m, x);
    if i < m {
      assert Sample(m, x + [i])[i] == m + |x|;
    }
  }

  lemma {:induction false} RowKeepsNew(m: nat, x: seq<int>, n: nat, p: seq<int> -> bool)
    requires n == m + |x| + 1
    requires Tests(p, m, m + |x|)
    ensures Count(Row(x, n), p) == m
  {
    var q := (i: int) => i < m;
    forall i | 0 <= i < n ensures p(x + [i]) == q(i) {
      NewestIsKept(m, x, i);
    }
    CountRow(x, n, p, q);
    CountBelowInterval(n, q, 0, m);
  }

  lemma {:induction false} DrawsHaveLength(m: nat, k: nat)
    ensures forall d :: d in AllDraws(m, k) ==> |d| == k
  {
    forall d | d in AllDraws(m, k) ensures |d| == k {
      AllDrawsAreTheValidOnes(m, k, d);
    }
  }

  /** Every prefix of k - 1 draws has c good continuations or none. */
  ghost predicate Continues(p: seq<int> -> bool, good: seq<int> -> bool, len: nat, n: nat, c: nat) {
    forall x: seq<int> {:trigger Count(Row(x, n), p)} :: |x| == len ==> Count(Row(x, n), p) == if good(x) then c else 0
  }

  lemma {:induction false} CountStep(m: nat, k: nat, n: nat, p: seq<int> -> bool, good: seq<int> -> bool, c: nat)
    requires n == m + k + 1 && Continues(p, good, k, n, c)
    ensures Count(AllDraws(m, k + 1), p) == c * Count(AllDraws(m, k), good)
  {
    var all := AllDraws(m, k);
    assert AllDraws(m, k + 1) == Extend(all, n);
    DrawsHaveLength(m, k);
    CountStepOver(all, k, n, p, good, c);
  }

  lemma {:induction false} CountStepOver(all: seq<seq<int>>, len: nat, n: nat, p: seq<int> -> bool,
                                         good: seq<int> -> bool, c: nat)
    requires (forall d :: d in all ==> |d| == len) && Continues(p, good, len, n, c)
    ensures Count(Extend(all, n), p) == c * Count(all, good)
  {
    forall i | 0 <= i < |all| ensures Count(Row(all[i], n), p) == if good(all[i]) then c else 0 {
      assert all[i] in all;
    }
    CountExtend(all, n, p, good, c);
  }

  lemma {:induction false} OldSampleCount(m: nat, k: nat, c: nat, j: int, p: seq<int> -> bool)
    requires c == m + k && 0 <= j < c && Tests(p, m, j)
    ensures Count(AllDraws(m, k + 1), p) == c * Count(AllDraws(m, k), p)
  {
    forall x: seq<int> | |x| == k ensures Count(Row(x, c + 1), p) == if p(x) then c else 0 {
      RowKeepsOld(m, x, c + 1, j, p);
    }
    CountStep(m, k, c + 1, p, p, c);
  }

  lemma {:induction false} Always() returns (any: seq<int> -> bool)
    ensures forall d {:trigger any(d)} :: any(d)
  {
    any := d => true;
  }

  lemma {:induction false} NewSampleCount(m: nat, k: nat, p: seq<int> -> bool)
    requires Tests(p, m, m + k)
    ensures Count(AllDraws(m, k + 1), p) == m * |AllDraws(m, k)|
  {
    var any := Always();
    forall x: seq<int> | |x| == k ensures Count(Row(x, m + k + 1), p) == if any(x) then m else 0 {
      RowKeepsNew(m, x, m + k + 1, p);
    }
    CountStep(m, k, m + k + 1, p, any, m);
    CountAll(AllDraws(m, k), any);
  }

  lemma {:induction false} CountAll<T>(s: seq<T>, p: T -> bool)
    requires forall i :: 0 <= i < |s| ==> p(s[i])
    ensures Count(s, p) == |s|
  {
    if s != [] {
      CountAll(s[1..], p);
    }
  }

  lemma {:induction false} DrawsCount(m: nat, k: nat, n: nat)
    requires k >= 1 && n == m + k
    ensures |AllDraws(m, k)| == |AllDraws(m, k - 1)| * n
  {
    ExtendLength(AllDraws(m, k - 1), n);
  }

  /** Over all draws, a reservoir of size m retains each of n samples in exactly m/n of them. */
  lemma {:induction false} EverySampleIsRetainedEquallyOften(m: nat, n: nat, j: int, p: seq<int> -> bool)
    requires 0 <= j < n && m <= n && Tests(p, m, j)
    ensures n * Count(AllDraws(m, n - m), p) == m * |AllDraws(m, n - m)|
  {
    RetainedShare(m, n - m, n, j, p);
  }

  lemma {:induction false} RetainedShare(m: nat, k: nat, n: nat, j: int, p: seq<int> -> bool)
    requires n == m + k && 0 <= j < n && Tests(p, m, j)
    ensures n * Count(AllDraws(m, k), p) == m * |AllDraws(m, k)|
    decreases k, 0
  {
    if k == 0 {
      NothingDrawn(m, j, p);
    } else {
      CountIsShare(m, k - 1, n - 1, j, p);
      DrawsCount(m, k, n);
      Scale(n, m, Count(AllDraws(m, k), p), |AllDraws(m, k)|, |AllDraws(m, k - 1)|);
    }
  }

  lemma {:induction false} CountIsShare(m: nat, k: nat, c: nat, j: int, p: seq<int> -> bool)
    requires c == m + k && 0 <= j <= c && Tests(p, m, j)
    ensures Count(AllDraws(m, k + 1), p) == m * |AllDraws(m, k)|
    decreases k, 1
  {
    if j < c {
      RetainedShare(m, k, c, j, p);
      OldSampleCount(m, k, c, j, p);
    } else {
      NewSampleCount(m, k, p);
    }
  }

  lemma {:induction false} NothingDrawn(m: nat, j: int, p: seq<int> -> bool)
    requires 0 <= j < m && Tests(p, m, j)
    ensures Count(AllDraws(m, 0), p) == 1 && |AllDraws(m, 0)| == 1
  {
    assert Sample(m, [])[j] == j;
    assert AllDraws(m, 0)[1..] == [];
  }

  lemma {:induction false} Scale(n: int, m: int, count: int, total: int, totalBefore: int)
    requires count == m * totalBefore && total == totalBefore * n
    ensures n * count == m * total
  {
    assert n * (m * totalBefore) == m * (totalBefore * n);
  }

  // ---- Each subset is retained equally often ----

  function Kept(m: nat, draws: seq<int>): set<int> {
    set x | x in Sample(m, draws)
  }

  function Factorial(n: nat): nat {
    if n == 0 then 1 else n * Factorial(n - 1)
  }

  function Below(n: nat): (s: set<int>)
    ensures forall x :: x in s <==> 0 <= x < n
  {
    if n == 0 then {} else Below(n - 1) + {n - 1}
  }

  lemma {:induction false} BelowSize(n: nat)
    ensures |Below(n)| == n
  {
    if n > 0 {
      BelowSize(n - 1);
    }
  }

  lemma {:induction false} DistinctSize(s: seq<int>)
    requires Distinct(s)
    ensures |set x | x in s| == |s|
  {
    if s != [] {
      var rest := s[1..];
      DistinctSize(rest);
      assert s[0] !in rest;
      assert (set x | x in s) == (set x | x in rest) + {s[0]};
    }
  }

  lemma {:induction false} KeptSize(m: nat, draws: seq<int>)
    ensures |Kept(m, draws)| == m && Kept(m, draws) <= Below(m + |draws|)
  {
    SampleIsDistinct(m, draws);
    DistinctSize(Sample(m, draws));
  }

  /** A draw below m swaps one retained position for the new one. */
  lemma {:induction false} KeptStep(m: nat, x: seq<int>, i: int)
    requires 0 <= i
    ensures Kept(m, x + [i]) ==
            if i < m then Kept(m, x) - {Sample(m, x)[i]} + {m + |x|} else Kept(m, x)
  {
    SampleStep(m, x, i);
    SampleIsDistinct(m, x);
    var s, item := Sample(m, x), m + |x|;
    if i < m {
      var r := s[i := item];
      forall y ensures y in r <==> y == item || (y in s && y != s[i]) {
        if y in s && y != s[i] {
          var l :| 0 <= l < m && s[l] == y;
          assert r[l] == y;
        }
        if y == item {
          assert r[i] == y;
        }
      }
    }
  }

  /** `p` tells whether exactly `target` is retained. */
  ghost predicate TestsSet(p: seq<int> -> bool, m: nat, target: set<int>) {
    forall d {:trigger p(d)} :: p(d) <==> Kept(m, d) == target
  }

  ghost predicate IsOneMore(kept: set<int>, rest: set<int>, xs: set<int>) {
    exists x :: x in xs && kept == rest + {x}
  }

  /** `p` tells whether `rest` and one of `xs` are retained. */
  ghost predicate TestsOneMore(p: seq<int> -> bool, m: nat, rest: set<int>, xs: set<int>) {
    forall d {:trigger p(d)} :: p(d) <==> IsOneMore(Kept(m, d), rest, xs)
  }

  /** Continuations that end in a set without the newest position. */
  lemma {:induction false} RowWithoutNewest(m: nat, x: seq<int>, n: nat, target: set<int>, p: seq<int> -> bool)
    requires n == m + |x| + 1 && m + |x| !in target
    requires TestsSet(p, m, target)
    ensures Count(Row(x, n), p) == if p(x) then n - m else 0
  {
    var q := (i: int) => p(x) && m <= i;
    forall i | 0 <= i < n ensures p(x + [i]) == q(i) {
      KeptStep(m, x, i);
    }
    CountRow(x, n, p, q);
    if p(x) {
      CountBelowInterval(n, q, m, n);
    } else {
      CountBelowInterval(n, q, 0, 0);
    }
  }

  /** Exactly one draw throws out the one retained position that is not in `rest`. */
  lemma {:induction false} DrawThatLeaves(m: nat, x: seq<int>, rest: set<int>) returns (slot: int)
    requires rest <= Kept(m, x) && |rest| + 1 == m
    ensures 0 <= slot < m
    ensures forall i :: 0 <= i < m ==> (Kept(m, x) - {Sample(m, x)[i]} == rest <==> i == slot)
  {
    var s, kept := Sample(m, x), Kept(m, x);
    KeptSize(m, x);
    SampleIsDistinct(m, x);
    assert |kept - rest| == 1;
    var y :| y in kept - rest;
    assert kept - rest == {y} by { SubsetSize({y}, kept - rest); }
    slot :| 0 <= slot < m && s[slot] == y;
    forall i | 0 <= i < m ensures kept - {s[i]} == rest <==> i == slot {
      assert s[i] in kept;
      if i == slot {
        assert kept - {y} == rest;
      } else {
        assert y in kept - {s[i]};
      }
    }
  }

  /** Continuations that end in a set with the newest position: one, if the rest was there. */
  lemma {:induction false} RowWithNewest(m: nat, x: seq<int>, n: nat, rest: set<int>, p: seq<int> -> bool)
    requires n == m + |x| + 1 && m + |x| !in rest && |rest| + 1 == m
    requires TestsSet(p, m, rest + {m + |x|})
    ensures Count(Row(x, n), p) == if rest <= Kept(m, x) then 1 else 0
  {
    var slot := -1;
    if rest <= Kept(m, x) {
      slot := DrawThatLeaves(m, x, rest);
    }
    var q := (i: int) => i == slot;
    forall i | 0 <= i < n ensures p(x + [i]) == q(i) {
      NewestArrives(m, x, i, rest);
      if i < m {
        assert Kept(m, x) - {Sample(m, x)[i]} <= Kept(m, x);
      }
    }
    CountRow(x, n, p, q);
    if slot >= 0 {
      CountBelowInterval(n, q, slot, slot + 1);
    } else {
      CountBelowInterval(n, q, 0, 0);
    }
  }

  lemma {:induction false} NewestArrives(m: nat, x: seq<int>, i: int, rest: set<int>)
    requires 0 <= i && m + |x| !in rest
    ensures Kept(m, x + [i]) == rest + {m + |x|} <==> i < m && Kept(m, x) - {Sample(m, x)[i]} == rest
  {
    KeptStep(m, x, i);
    KeptSize(m, x);
    var item := m + |x|;
    if i < m {
      var left := Kept(m, x) - {Sample(m, x)[i]};
      assert left + {item} - {item} == left && rest + {item} - {item} == rest;
    } else {
      assert item in rest + {item};
    }
  }

  // ---- The count of every m-subset ----

  lemma {:induction false} TestFor(m: nat, target: set<int>) returns (p: seq<int> -> bool)
    ensures TestsSet(p, m, target)
  {
    p := d => Kept(m, d) == target;
  }

  lemma {:induction false} TestForOneMore(m: nat, rest: set<int>, xs: set<int>) returns (p: seq<int> -> bool)
    ensures TestsOneMore(p, m, rest, xs)
  {
    p := d => IsOneMore(Kept(m, d), rest, xs);
  }

  lemma {:induction false} OneMoreSplits(m: nat, rest: set<int>, xs: set<int>, y: int, p: seq<int> -> bool,
                                         one: seq<int> -> bool, others: seq<int> -> bool, all: seq<seq<int>>)
    requires xs !! rest && y in xs
    requires TestsOneMore(p, m, rest, xs) && TestsSet(one, m, rest + {y}) && TestsOneMore(others, m, rest, xs - {y})
    ensures Count(all, p) == Count(all, one) + Count(all, others)
  {
    forall i | 0 <= i < |all|
      ensures !(one(all[i]) && others(all[i])) && (p(all[i]) <==> one(all[i]) || others(all[i]))
    {
      CasesExclude(rest, xs, y, Kept(m, all[i]));
    }
    CountSplit(all, p, one, others);
  }

  /** Draws that end in `rest` plus an element of `xs`: the cases add up. */
  lemma {:induction false} CountByMissing(m: nat, k: nat, rest: set<int>, xs: set<int>, p: seq<int> -> bool, f: nat)
    requires xs !! rest && |rest| + 1 == m && rest + xs <= Below(m + k) && TestsOneMore(p, m, rest, xs)
    requires f == Factorial(k)
    ensures Count(AllDraws(m, k), p) == |xs| * f
    decreases k, 1, |xs|
  {
    if xs == {} {
      NoneMore(m, AllDraws(m, k), rest, xs, p);
    } else {
      var y :| y in xs;
      var one := TestFor(m, rest + {y});
      var others := TestForOneMore(m, rest, xs - {y});
      EverySubsetIsRetainedEquallyOften(m, k, rest + {y}, one);
      CountByMissing(m, k, rest, xs - {y}, others, f);
      OneMoreSplits(m, rest, xs, y, p, one, others, AllDraws(m, k));
      OneMore(|xs|, |xs - {y}|, f);
    }
  }

  lemma {:induction false} NoneMore(m: nat, all: seq<seq<int>>, rest: set<int>, xs: set<int>, p: seq<int> -> bool)
    requires xs == {} && TestsOneMore(p, m, rest, xs)
    ensures Count(all, p) == 0
  {
    forall i | 0 <= i < |all| ensures !p(all[i]) {
    }
    CountNone(all, p);
  }

  lemma {:induction false} OneMore(n: int, before: int, f: int)
    requires n == before + 1
    ensures n * f == f + before * f
  {
  }

  lemma {:induction false} CasesExclude(rest: set<int>, xs: set<int>, y: int, kept: set<int>)
    requires xs !! rest && y in xs
    ensures kept == rest + {y} ==> !IsOneMore(kept, rest, xs - {y})
    ensures IsOneMore(kept, rest, xs) <==> kept == rest + {y} || IsOneMore(kept, rest, xs - {y})
  {
    if kept == rest + {y} {
      forall x | x in xs - {y} ensures kept != rest + {x} {
        assert y in kept && y !in rest + {x};
      }
    }
  }

  lemma {:induction false} CountNone<T>(s: seq<T>, p: T -> bool)
    requires forall i :: 0 <= i < |s| ==> !p(s[i])
    ensures Count(s, p) == 0
  {
    if s != [] {
      CountNone(s[1..], p);
    }
  }

  lemma {:induction false} CountSplit<T>(s: seq<T>, p: T -> bool, a: T -> bool, b: T -> bool)
    requires forall i :: 0 <= i < |s| ==> !(a(s[i]) && b(s[i])) && (p(s[i]) <==> a(s[i]) || b(s[i]))
    ensures Count(s, p) == Count(s, a) + Count(s, b)
  {
    if s != [] {
      CountSplit(s[1..], p, a, b);
    }
  }

  /** Over all draws, every set of m of the n = m + k samples is what the reservoir retains in
      exactly k! of them: the sample is uniform over subsets. */
  lemma {:induction false} EverySubsetIsRetainedEquallyOften(m: nat, k: nat, target: set<int>, p: seq<int> -> bool)
    requires target <= Below(m + k) && |target| == m
    requires TestsSet(p, m, target)
    ensures Count(AllDraws(m, k), p) == Factorial(k)
    decreases k, 0, 0
  {
    if k == 0 {
      BelowSize(m);
      SubsetSize(target, Below(m));
      KeptSize(m, []);
      SubsetSize(Kept(m, []), Below(m));
      assert AllDraws(m, 0)[1..] == [];
    } else if m + k - 1 !in target {
      SubsetWithoutNewest(m, k, target, p);
    } else {
      SubsetWithNewest(m, k - 1, target, p);
    }
  }

  lemma {:induction false} SubsetWithoutNewest(m: nat, k: nat, target: set<int>, p: seq<int> -> bool)
    requires k >= 1 && target <= Below(m + k) && |target| == m && m + k - 1 !in target && TestsSet(p, m, target)
    ensures Count(AllDraws(m, k), p) == Factorial(k)
    decreases k - 1, 2, 0
  {
    EverySubsetIsRetainedEquallyOften(m, k - 1, target, p);
    CountWithoutNewest(m, k, target, p, k);
    FactorialStep(k, k);
  }

  lemma {:induction false} CountWithoutNewest(m: nat, k: nat, target: set<int>, p: seq<int> -> bool, c: nat)
    requires k >= 1 && c == k && m + k - 1 !in target && TestsSet(p, m, target)
    ensures Count(AllDraws(m, k), p) == c * Count(AllDraws(m, k - 1), p)
  {
    forall x: seq<int> | |x| == k - 1 ensures Count(Row(x, m + k), p) == if p(x) then c else 0 {
      RowWithoutNewest(m, x, m + k, target, p);
    }
    CountStep(m, k - 1, m + k, p, p, c);
  }

  lemma {:induction false} SubsetWithNewest(m: nat, k: nat, target: set<int>, p: seq<int> -> bool)
    requires target <= Below(m + k + 1) && |target| == m && m + k in target && TestsSet(p, m, target)
    ensures Count(AllDraws(m, k + 1), p) == Factorial(k + 1)
    decreases k, 2, 0
  {
    var rest := WithoutNewest(m + k, target);
    var xs := StandIns(m + k, rest);
    var good := TestForOneMore(m, rest, xs);
    CountViaMissing(m, k, rest, xs, good);
    CountWithNewest(m, k, target, rest, xs, p, good);
  }

  lemma {:induction false} CountViaMissing(m: nat, k: nat, rest: set<int>, xs: set<int>, p: seq<int> -> bool)
    requires xs !! rest && |rest| + 1 == m && rest + xs <= Below(m + k) && TestsOneMore(p, m, rest, xs)
    requires |xs| == k + 1
    ensures Count(AllDraws(m, k), p) == Factorial(k + 1)
    decreases k, 1, |xs| + 1
  {
    CountByMissing(m, k, rest, xs, p, Factorial(k));
    FactorialStep(k + 1, |xs|);
  }

  lemma {:induction false} FactorialStep(k: nat, n: nat)
    requires k >= 1 && n == k
    ensures n * Factorial(k - 1) == Factorial(k)
  {
  }

  /** The other members of the set. */
  lemma {:induction false} WithoutNewest(newest: nat, target: set<int>) returns (rest: set<int>)
    requires target <= Below(newest + 1) && newest in target
    ensures target == rest + {newest} && newest !in rest && |rest| + 1 == |target| && rest <= Below(newest)
  {
    RemoveOne(target, newest);
    rest := target - {newest};
    BelowNewest(newest, rest);
  }

  /** The positions that could have stood in for the newest. */
  lemma {:induction false} StandIns(newest: nat, rest: set<int>) returns (xs: set<int>)
    requires rest <= Below(newest)
    ensures xs == Below(newest) - rest && |xs| == newest - |rest| && xs !! rest && rest + xs <= Below(newest)
  {
    xs := Below(newest) - rest;
    RestOf(rest, Below(newest));
    BelowSize(newest);
  }

  lemma {:induction false} RemoveOne<T>(a: set<T>, y: T)
    requires y in a
    ensures a == (a - {y}) + {y} && y !in a - {y} && |a - {y}| + 1 == |a|
  {
  }

  lemma {:induction false} BelowNewest(n: nat, a: set<int>)
    requires a <= Below(n + 1) && n !in a
    ensures a <= Below(n)
  {
  }

  lemma {:induction false} RestOf<T>(a: set<T>, b: set<T>)
    requires a <= b
    ensures b - a !! a && a + (b - a) <= b && |b - a| == |b| - |a|
  {
    assert a + (b - a) == b;
  }

  lemma {:induction false} CountWithNewest(m: nat, k: nat, target: set<int>, rest: set<int>, xs: set<int>,
                                           p: seq<int> -> bool, good: seq<int> -> bool)
    requires target == rest + {m + k} && m + k !in rest && |rest| + 1 == m && xs == Below(m + k) - rest
    requires TestsSet(p, m, target)
    requires TestsOneMore(good, m, rest, xs)
    ensures Count(AllDraws(m, k + 1), p) == Count(AllDraws(m, k), good)
  {
    forall x: seq<int> | |x| == k ensures Count(Row(x, m + k + 1), p) == if good(x) then 1 else 0 {
      RowWithNewest(m, x, m + k + 1, rest, p);
      OneMissing(m, x, rest, xs);
    }
    CountStep(m, k, m + k + 1, p, good, 1);
  }

  /** A retained set that covers m - 1 positions has exactly one more. */
  lemma {:induction false} OneMissing(m: nat, draws: seq<int>, rest: set<int>, xs: set<int>)
    requires |rest| + 1 == m && xs == Below(m + |draws|) - rest
    ensures rest <= Kept(m, draws) <==> IsOneMore(Kept(m, draws), rest, xs)
  {
    var kept := Kept(m, draws);
    KeptSize(m, draws);
    if rest <= kept {
      assert |kept - rest| == 1;
      var y :| y in kept - rest;
      assert kept - rest == {y} by { SubsetSize({y}, kept - rest); }
      assert kept == rest + {y};
    }
  }
}
