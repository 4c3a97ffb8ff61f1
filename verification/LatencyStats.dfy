/**
 The statistics of `LatencyCollector` (benchkit/metrics.go): tracked extremes, mean, the two
 percentile rules and what the reservoir retains.
 */
module LatencyStatistics {
  import opened Basics
  import opened Reservoirs

  // ---- Extremes and mean, as `Record` tracks them ----

  function Last(h: seq<int>): int
    requires h != []
  {
    h[|h| - 1]
  }

  function Front(h: seq<int>): seq<int>
    requires h != []
  {
    h[..|h| - 1]
  }

  /** The field `min`: zero doubles as "nothing recorded yet". */
  function TrackedMin(h: seq<int>): int {
    if h == [] then 0
    else
      var least := TrackedMin(Front(h));
      if least == 0 || Last(h) < least then Last(h) else least
  }

  function TrackedMax(h: seq<int>): int {
    if h == [] then 0
    else
      var most := TrackedMax(Front(h));
      if Last(h) > most then Last(h) else most
  }

  function Sum(h: seq<int>): int {
    if h == [] then 0 else Sum(Front(h)) + Last(h)
  }

  /** What one more sample does to the tracked values. */
  lemma {:induction false} TrackedStep(h: seq<int>, d: int)
    ensures TrackedMin(h + [d]) == if TrackedMin(h) == 0 || d < TrackedMin(h) then d else TrackedMin(h)
    ensures TrackedMax(h + [d]) == if d > TrackedMax(h) then d else TrackedMax(h)
    ensures Sum(h + [d]) == Sum(h) + d
  {
    assert Front(h + [d]) == h;
  }

  ghost predicate IsLeast(h: seq<int>, x: int) {
    x in h && forall y :: y in h ==> x <= y
  }

  ghost predicate IsGreatest(h: seq<int>, x: int) {
    x in h && forall y :: y in h ==> y <= x
  }

  /** Some sample is negative, or none is zero, or the latest one is. */
  ghost predicate ZeroNeverOverwritten(h: seq<int>)
    requires h != []
  {
    (exists y :: y in h && y < 0) || 0 !in h || Last(h) == 0
  }

  lemma InFront(h: seq<int>, y: int)
    requires h != []
    ensures y in h <==> y in Front(h) || y == Last(h)
  {
    assert h == Front(h) + [Last(h)];
  }

  /** The three ways the tracked minimum can stand to the history. */
  lemma {:induction false} TrackedMinCases(h: seq<int>)
    requires h != []
    ensures TrackedMin(h) in h
    ensures (exists y :: y in h && y < 0) ==> IsLeast(h, TrackedMin(h))
    ensures !(exists y :: y in h && y < 0) && 0 !in h ==> IsLeast(h, TrackedMin(h))
    ensures !(exists y :: y in h && y < 0) && 0 in h ==> (TrackedMin(h) == 0 <==> Last(h) == 0)
    decreases |h|
  {
    forall y ensures y in h <==> y in Front(h) || y == Last(h) {
      InFront(h, y);
    }
    if Front(h) != [] {
      TrackedMinCases(Front(h));
    }
  }

  /**
   `Min` is the true minimum exactly when no zero sample was later overwritten by a positive one.
   Positive samples, the intended use, always meet the condition.
   */
  lemma {:induction false} MinIsExactExactlyWhen(h: seq<int>)
    requires h != []
    ensures IsLeast(h, TrackedMin(h)) <==> ZeroNeverOverwritten(h)
    ensures (forall y :: y in h ==> y > 0) ==> IsLeast(h, TrackedMin(h))
  {
    TrackedMinCases(h);
    assert Last(h) in h;
  }

  /** A zero latency followed by any positive one is forgotten. */
  lemma {:induction false} ZeroIsForgotten()
    ensures TrackedMin([0, 5]) == 5 && !IsLeast([0, 5], TrackedMin([0, 5]))
  {
    assert Front([0, 5]) == [0] && Front([0]) == [];
    assert TrackedMin([0]) == 0;
    assert TrackedMin([0, 5]) == 5;
    assert 0 in [0, 5];
  }

  /** In general: without negative samples it is the least of those recorded after the last zero. */
  lemma {:induction false} MinIsLeastAfterTheLastZero(h: seq<int>, z: nat)
    requires z < |h| - 1 && h[z] == 0 && (forall y :: y in h ==> y >= 0) && forall j :: z < j < |h| ==> h[j] > 0
    ensures IsLeast(h[z + 1..], TrackedMin(h))
    decreases |h|
  {
    var front, after := Front(h), h[z + 1..];
    forall y | y in front ensures y >= 0 {
      InFront(h, y);
    }
    if z < |h| - 2 {
      MinIsLeastAfterTheLastZero(front, z);
      assert after == front[z + 1..] + [Last(h)];
      forall y ensures y in after <==> y in front[z + 1..] || y == Last(h) {
        InFront(after, y);
      }
    } else {
      assert after == [Last(h)];
      TrackedMinCases(front);
      assert 0 in front;
    }
  }

  lemma {:induction false} TrackedMaxBounds(h: seq<int>)
    ensures TrackedMax(h) >= 0
    ensures forall y :: y in h ==> y <= TrackedMax(h)
    ensures TrackedMax(h) == 0 || TrackedMax(h) in h
    decreases |h|
  {
    if h != [] {
      TrackedMaxBounds(Front(h));
      forall y ensures y in h <==> y in Front(h) || y == Last(h) {
        InFront(h, y);
      }
    }
  }

  /** `P100` is the true maximum exactly when some sample is not negative, and 0 otherwise. */
  lemma {:induction false} MaxIsExactExactlyWhen(h: seq<int>)
    ensures IsGreatest(h, TrackedMax(h)) <==> exists y :: y in h && y >= 0
    ensures !(exists y :: y in h && y >= 0) ==> TrackedMax(h) == 0
  {
    TrackedMaxBounds(h);
  }

  /** Go's integer division truncates toward zero. */
  function GoDiv(a: int, b: int): int
    requires b > 0
  {
    if a >= 0 then a / b else -(-a / b)
  }

  lemma {:induction false} SumAddsUp(a: seq<int>, b: seq<int>)
    ensures Sum(a + b) == Sum(a) + Sum(b)
    ensures forall x :: Sum([x]) == x
    decreases |b|
  {
    forall x ensures Sum([x]) == x {
      assert Front([x]) == [];
    }
    if b == [] {
      assert a + b == a;
    } else {
      assert Front(a + b) == a + Front(b);
      SumAddsUp(a, Front(b));
    }
  }

  /** The mean is the sum over the number, with the remainder dropped towards zero. */
  lemma {:induction false} MeanIsTheTruncatedQuotient(a: int, n: nat)
    requires n > 0
    ensures var mean := GoDiv(a, n);
            if a >= 0 then mean * n <= a < (mean + 1) * n else (mean - 1) * n < a <= mean * n
  {
    QuotientTimes(if a >= 0 then a else -a, n);
    var q := (if a >= 0 then a else -a) / n;
    MulOrder(q, q, n);
    assert (-q) * n == -(q * n) && (-q - 1) * n == -(q * n) - n;
  }

  lemma {:induction false} SumBounds(h: seq<int>, lo: int, hi: int)
    requires forall y :: y in h ==> lo <= y <= hi
    ensures lo * |h| <= Sum(h) <= hi * |h|
    decreases |h|
  {
    if h != [] {
      assert forall y :: y in Front(h) ==> y in h;
      SumBounds(Front(h), lo, hi);
      assert Last(h) in h;
      Distribute(lo, |h| - 1, 1);
      Distribute(hi, |h| - 1, 1);
    }
  }

  lemma {:induction false} QuotientBounds(a: nat, n: int, lo: int, hi: int)
    requires n > 0 && lo * n <= a <= hi * n
    ensures lo <= a / n <= hi
  {
    var q := a / n;
    assert q * n <= a < q * n + n by { QuotientTimes(a, n); }
    if q < lo {
      MulOrder(q + 1, lo, n);
      assert false;
    }
    if q > hi {
      MulOrder(hi + 1, q, n);
      assert false;
    }
  }

  /** Truncation never pushes a mean outside the extremes of its samples. */
  lemma {:induction false} MeanIsBetween(h: seq<int>, lo: int, hi: int)
    requires h != []
    requires forall y :: y in h ==> lo <= y <= hi
    ensures lo <= GoDiv(Sum(h), |h|) <= hi
  {
    SumBounds(h, lo, hi);
    var a, n := Sum(h), |h|;
    if a >= 0 {
      QuotientBounds(a, n, lo, hi);
    } else {
      assert (-hi) * n == -(hi * n) && (-lo) * n == -(lo * n);
      QuotientBounds(-a, n, -hi, -lo);
    }
  }

  // ---- Sorting ----

  ghost predicate Ascending(s: seq<int>) {
    forall i, j :: 0 <= i < j < |s| ==> s[i] <= s[j]
  }

  function Insert(x: int, s: seq<int>): seq<int> {
    if s == [] || x <= s[0] then [x] + s else [s[0]] + Insert(x, s[1..])
  }

  /** `slices.Sort`. */
  function Sort(s: seq<int>): seq<int> {
    if s == [] then [] else Insert(s[0], Sort(s[1..]))
  }

  lemma {:induction false} AscendingFront(x: int, s: seq<int>)
    requires Ascending(s) && (s == [] || x <= s[0])
    ensures Ascending([x] + s)
  {
  }

  lemma {:induction false} InsertKeepsOrder(x: int, s: seq<int>)
    requires Ascending(s)
    ensures Ascending(Insert(x, s)) && Insert(x, s) != []
    ensures Insert(x, s)[0] == if s == [] || x <= s[0] then x else s[0]
  {
    if s == [] || x <= s[0] {
      AscendingFront(x, s);
    } else {
      InsertKeepsOrder(x, s[1..]);
      AscendingFront(s[0], Insert(x, s[1..]));
    }
  }

  lemma {:induction false} InsertAdds(x: int, s: seq<int>)
    ensures multiset(Insert(x, s)) == multiset(s) + multiset{x}
  {
    if s != [] && x > s[0] {
      InsertAdds(x, s[1..]);
      assert s == [s[0]] + s[1..];
    }
  }

  lemma {:induction false} SortSorts(s: seq<int>)
    ensures Ascending(Sort(s)) && multiset(Sort(s)) == multiset(s)
    ensures |Sort(s)| == |s|
  {
    if s != [] {
      SortSorts(s[1..]);
      InsertKeepsOrder(s[0], Sort(s[1..]));
      InsertAdds(s[0], Sort(s[1..]));
      assert s == [s[0]] + s[1..];
    }
    assert |multiset(Sort(s))| == |multiset(s)|;
  }

  lemma {:induction false} HeadIsLeast(a: seq<int>, x: int)
    requires Ascending(a) && x in multiset(a)
    ensures a != [] && a[0] <= x
  {
    var i :| 0 <= i < |a| && a[i] == x;
  }

  lemma {:induction false} WithoutHead(a: seq<int>)
    requires a != []
    ensures a[0] in multiset(a) && multiset(a[1..]) == multiset(a) - multiset{a[0]}
  {
    assert a == [a[0]] + a[1..];
  }

  lemma {:induction false} SameHead(a: seq<int>, b: seq<int>)
    requires Ascending(a) && Ascending(b) && multiset(a) == multiset(b) && a != []
    ensures b != [] && a[0] == b[0] && multiset(a[1..]) == multiset(b[1..])
  {
    WithoutHead(a);
    HeadIsLeast(b, a[0]);
    WithoutHead(b);
    HeadIsLeast(a, b[0]);
  }

  /** Any sorting algorithm returns what `Sort` returns. */
  lemma {:induction false} SortIsUnique(a: seq<int>, b: seq<int>)
    requires Ascending(a) && Ascending(b) && multiset(a) == multiset(b)
    ensures a == b
  {
    if a == [] {
      assert |multiset(b)| == 0;
    } else {
      SameHead(a, b);
      SortIsUnique(a[1..], b[1..]);
      assert a == [a[0]] + a[1..] && b == [b[0]] + b[1..];
    }
  }

  function CountAtMost(s: seq<int>, x: int): nat {
    if s == [] then 0 else (if s[0] <= x then 1 else 0) + CountAtMost(s[1..], x)
  }

  lemma {:induction false} CountInsert(y: int, s: seq<int>, x: int)
    ensures CountAtMost(Insert(y, s), x) == CountAtMost(s, x) + if y <= x then 1 else 0
  {
    if s == [] || y <= s[0] {
      assert ([y] + s)[1..] == s;
    } else {
      CountInsert(y, s[1..], x);
      assert ([s[0]] + Insert(y, s[1..]))[1..] == Insert(y, s[1..]);
    }
  }

  lemma {:induction false} CountSorted(s: seq<int>, x: int)
    ensures CountAtMost(Sort(s), x) == CountAtMost(s, x)
  {
    if s != [] {
      CountSorted(s[1..], x);
      CountInsert(s[0], Sort(s[1..]), x);
    }
  }

  /** In sorted order, at least k+1 samples are at most s[k], and at most k are when x is below s[k]. */
  lemma {:induction false} CountInOrder(s: seq<int>, k: nat, x: int)
    requires Ascending(s) && k < |s|
    ensures s[k] <= x ==> CountAtMost(s, x) >= k + 1
    ensures x < s[k] ==> CountAtMost(s, x) <= k
    decreases k
  {
    if k > 0 {
      CountInOrder(s[1..], k - 1, x);
    } else if x < s[0] {
      CountNoneAtMost(s, x);
    }
  }

  lemma {:induction false} CountNoneAtMost(s: seq<int>, x: int)
    requires forall i :: 0 <= i < |s| ==> x < s[i]
    ensures CountAtMost(s, x) == 0
  {
    if s != [] {
      CountNoneAtMost(s[1..], x);
    }
  }

  // ---- The default percentile ----

  /** ceil(n * p / 100). */
  function Ceil(n: nat, p: nat): nat {
    (n * p + 99) / 100
  }

  /** The index `percentile` reads. */
  function Index(n: nat, p: nat): (i: nat)
    requires n > 0
    ensures i < n
  {
    if Ceil(n, p) >= n then n - 1 else Ceil(n, p)
  }

  function Percentile(sorted: seq<int>, p: nat): int {
    if sorted == [] then 0 else sorted[Index(|sorted|, p)]
  }

  lemma {:induction false} CeilGrows(n: nat, p: nat, q: nat)
    requires p <= q
    ensures Ceil(n, p) <= Ceil(n, q)
  {
    Distribute(n, p, q - p);
    assert n * (q - p) >= 0;
  }

  lemma {:induction false} PercentileGrows(s: seq<int>, p: nat, q: nat)
    requires Ascending(s) && p <= q
    ensures Percentile(s, p) <= Percentile(s, q)
  {
    if s != [] {
      CeilGrows(|s|, p, q);
    }
  }

  lemma {:induction false} IndexCovers(n: nat, p: nat)
    requires n > 0 && p <= 100
    ensures 100 * (Index(n, p) + 1) >= n * p
  {
    assert n * p <= n * 100;
  }

  /** At least p percent of the retained samples are at most the default p-th percentile. */
  lemma {:induction false} PercentileCovers(samples: seq<int>, p: nat)
    requires samples != [] && p <= 100
    ensures 100 * CountAtMost(samples, Percentile(Sort(samples), p)) >= p * |samples|
  {
    SortSorts(samples);
    var s := Sort(samples);
    var k := Index(|s|, p);
    CountInOrder(s, k, s[k]);
    CountSorted(samples, s[k]);
    IndexCovers(|s|, p);
  }

  /** x is the sample with k others before it in ascending order, where k is ceil(p/100 * n), or n - 1 if that
      is less: at least p percent of the samples are at most x, and at most ceil(p/100 * n) are below it. */
  ghost predicate RanksAt(samples: seq<int>, p: nat, x: int) {
    var n := |samples|;
    var k := if (n * p + 99) / 100 >= n then n - 1 else (n * p + 99) / 100;
    && x in samples
    && CountAtMost(samples, x - 1) <= k < CountAtMost(samples, x)
    && 100 * CountAtMost(samples, x) >= p * n
    && 100 * CountAtMost(samples, x - 1) <= p * n + 99
  }

  lemma {:induction false} PercentileRanksAt(samples: seq<int>, p: nat)
    requires samples != [] && p <= 100
    ensures RanksAt(samples, p, Percentile(Sort(samples), p))
  {
    SortSorts(samples);
    var s := Sort(samples);
    var k := Index(|s|, p);
    var x := s[k];
    CountInOrder(s, k, x);
    CountInOrder(s, k, x - 1);
    CountSorted(samples, x);
    CountSorted(samples, x - 1);
    assert x in multiset(s);
    assert x in multiset(samples);
    PercentileCovers(samples, p);
    assert 100 * Ceil(|s|, p) <= |s| * p + 99;
  }

  /** The rank the comment on `percentile` names: ceil(p/100 * n) - 1. */
  function NearestRank(n: nat, p: nat): int {
    Ceil(n, p) - 1
  }

  /** The nearest rank is the least sample that p percent of the samples do not exceed. */
  lemma {:induction false} NearestRankIsLeast(samples: seq<int>, p: nat, x: int)
    requires samples != [] && 1 <= p <= 100
    ensures |Sort(samples)| == |samples| && 0 <= NearestRank(|samples|, p) < |samples|
    ensures 100 * CountAtMost(samples, x) >= p * |samples| <==> Sort(samples)[NearestRank(|samples|, p)] <= x
  {
    SortSorts(samples);
    RankInRange(|samples|, p);
    var s, k := Sort(samples), NearestRank(|samples|, p);
    CountInOrder(s, k, x);
    CountSorted(samples, x);
  }

  lemma {:induction false} RankInRange(n: nat, p: nat)
    requires n > 0 && 1 <= p <= 100
    ensures 0 <= NearestRank(n, p) < n
    ensures 100 * NearestRank(n, p) < p * n <= 100 * (NearestRank(n, p) + 1)
  {
    assert n <= n * p <= n * 100;
  }

  /**
   The code reads the nearest rank only where that is the last sample; everywhere else it reads the
   sample one above it.
   */
  lemma {:induction false} IndexIsNearestRankExactlyAtTheEnd(n: nat, p: nat)
    requires n > 0 && 1 <= p <= 100
    ensures Index(n, p) == NearestRank(n, p) <==> n * p > 100 * (n - 1)
    ensures n * p <= 100 * (n - 1) ==> Index(n, p) == NearestRank(n, p) + 1
  {
    RankInRange(n, p);
  }

  /** With five samples P50 is the fourth smallest, not the third. */
  lemma {:induction false} MedianOfFive()
    ensures Percentile([1, 2, 3, 4, 5], 50) == 4 && NearestRank(5, 50) == 2
  {
    assert Ceil(5, 50) == 3;
  }

  // ---- The interpolated percentile ----

  /** Up to here every whole number is a 64-bit floating-point number. */
  const EXACT: int := 0x20_0000_0000_0000

  /** What the machine makes of a real result. */
  type Rounding = real -> real

  /** Rounding never reverses an order, and leaves representable whole numbers alone; so does rounding
      to the nearest 64-bit floating-point number, with or without ties to even. */
  ghost predicate Rounds(fp: Rounding) {
    && (forall x, y :: KeepsOrder(fp, x, y))
    && (forall i: int :: -EXACT <= i <= EXACT ==> Whole(fp, i) == i as real)
  }

  predicate KeepsOrder(fp: Rounding, x: real, y: real) {
    x <= y ==> fp(x) <= fp(y)
  }

  /** The conversion of an integer to floating point. */
  function Whole(fp: Rounding, i: int): real {
    fp(i as real)
  }

  /** The machine's product of two numbers. */
  function Product(fp: Rounding, x: real, y: real): real {
    fp(x * y)
  }

  function Unrounded(x: real): real {
    x
  }

  /** Go's conversion of a float to an integer type. */
  function Trunc(x: real): (i: int)
    ensures x >= 0.0 ==> i >= 0 && i as real <= x < i as real + 1.0
  {
    if x >= 0.0 then x.Floor else -((-x).Floor)
  }

  /** The fractional rank of the p-th percentile among positions 0..m. */
  function Rank(fp: Rounding, p: nat, m: nat): real {
    Product(fp, fp(Whole(fp, p) / 100.0), Whole(fp, m))
  }

  /** How much of the gap above the lower sample the interpolation adds. */
  function Part(fp: Rounding, rank: real, gap: int): int {
    Trunc(Product(fp, fp(rank - Whole(fp, Trunc(rank))), Whole(fp, gap)))
  }

  /** The value at a fractional rank, on the line between the two surrounding samples. */
  function AtRank(fp: Rounding, sorted: seq<int>, rank: real): int
    requires |sorted| >= 2
  {
    var lower := Trunc(rank);
    if lower >= |sorted| - 1 then sorted[|sorted| - 1]
    else if lower < 0 then 0
    else sorted[lower] + Part(fp, rank, sorted[lower + 1] - sorted[lower])
  }

  function Interpolated(fp: Rounding, sorted: seq<int>, p: nat): int {
    if sorted == [] then 0
    else if |sorted| == 1 then sorted[0]
    else AtRank(fp, sorted, Rank(fp, p, |sorted| - 1))
  }

  // ---- Without rounding ----

  lemma {:induction false} FloorOfHundredths(a: nat)
    ensures (a as real / 100.0).Floor == a / 100
    ensures a as real / 100.0 - (a / 100) as real == (a % 100) as real / 100.0
  {
    assert a == 100 * (a / 100) + a % 100;
  }

  lemma {:induction false} RealProduct(a: int, b: int)
    ensures a as real * b as real == (a * b) as real
  {
  }

  lemma {:induction false} PartInHundredths(at: nat, gap: nat)
    ensures Part(Unrounded, at as real / 100.0, gap) == at % 100 * gap / 100
  {
    FloorOfHundredths(at);
    RealProduct(at % 100, gap);
    FloorOfHundredths(at % 100 * gap);
  }

  lemma {:induction false} RankInHundredths(p: nat, m: nat)
    ensures Rank(Unrounded, p, m) == (p * m) as real / 100.0
  {
    RealProduct(p, m);
  }

  /** The rule in whole numbers: without rounding nothing is lost but in the last truncation. */
  lemma {:induction false} InterpolatedExactly(s: seq<int>, p: nat)
    requires Ascending(s) && |s| >= 2
    ensures var at := p * (|s| - 1);
      Interpolated(Unrounded, s, p) == if at / 100 >= |s| - 1 then s[|s| - 1]
                                       else s[at / 100] + at % 100 * (s[at / 100 + 1] - s[at / 100]) / 100
  {
    var at := p * (|s| - 1);
    RankInHundredths(p, |s| - 1);
    FloorOfHundredths(at);
    if at / 100 < |s| - 1 {
      PartInHundredths(at, s[at / 100 + 1] - s[at / 100]);
    }
  }

  // ---- With any rounding ----

  lemma {:induction false} MulGrows(x: real, y: real, z: real)
    requires x <= y && 0.0 <= z
    ensures x * z <= y * z
  {
    assert (y - x) * z >= 0.0;
  }

  /** What is asked of a rounding can be met: exact arithmetic meets it. */
  lemma {:induction false} UnroundedRounds()
    ensures Rounds(Unrounded)
  {
  }

  /** Rounding the product of ordered factors with a factor that is not negative. */
  lemma {:induction false} ProductGrows(fp: Rounding, x: real, y: real, z: real)
    requires Rounds(fp) && 0.0 <= x <= y && 0.0 <= z
    ensures 0.0 <= Product(fp, x, z) <= Product(fp, y, z)
  {
    MulGrows(0.0, x, z);
    MulGrows(x, y, z);
    assert Whole(fp, 0) == 0.0;
    assert KeepsOrder(fp, 0.0, x * z) && KeepsOrder(fp, x * z, y * z);
  }

  lemma {:induction false} RankGrows(fp: Rounding, p: nat, q: nat, m: nat)
    requires Rounds(fp) && p <= q && m <= EXACT
    ensures 0.0 <= Rank(fp, p, m) <= Rank(fp, q, m)
  {
    assert Whole(fp, 0) == 0.0 && Whole(fp, m) == m as real;
    assert KeepsOrder(fp, 0.0, p as real) && KeepsOrder(fp, p as real, q as real);
    var a, b := Whole(fp, p) / 100.0, Whole(fp, q) / 100.0;
    assert KeepsOrder(fp, 0.0, a) && KeepsOrder(fp, a, b);
    ProductGrows(fp, fp(a), fp(b), m as real);
  }

  lemma {:induction false} TruncGrows(x: real, y: real)
    requires 0.0 <= x <= y
    ensures 0 <= Trunc(x) <= Trunc(y)
  {
  }

  /** The fraction of a rank stays within one, and grows with it. */
  lemma {:induction false} FractionGrows(fp: Rounding, x: real, y: real)
    requires Rounds(fp) && 0.0 <= x <= y && Trunc(x) == Trunc(y) <= EXACT
    ensures 0.0 <= fp(x - Whole(fp, Trunc(x))) <= fp(y - Whole(fp, Trunc(y))) <= 1.0
  {
    var lower := Trunc(x);
    assert Whole(fp, 0) == 0.0 && Whole(fp, 1) == 1.0 && Whole(fp, lower) == lower as real;
    assert 0.0 <= x - lower as real <= y - lower as real <= 1.0;
    var a, b := x - lower as real, y - lower as real;
    assert KeepsOrder(fp, 0.0, a) && KeepsOrder(fp, a, b) && KeepsOrder(fp, b, 1.0);
  }

  /** The part added stays within the gap, and grows with the rank. */
  lemma {:induction false} PartGrows(fp: Rounding, x: real, y: real, gap: nat)
    requires Rounds(fp) && 0.0 <= x <= y && Trunc(x) == Trunc(y) <= EXACT && gap <= EXACT
    ensures 0 <= Part(fp, x, gap) <= Part(fp, y, gap) <= gap
  {
    FractionGrows(fp, x, y);
    var a, b := fp(x - Whole(fp, Trunc(x))), fp(y - Whole(fp, Trunc(y)));
    assert Whole(fp, gap) == gap as real;
    ProductGrows(fp, a, b, gap as real);
    ProductGrows(fp, b, 1.0, gap as real);
    assert Product(fp, 1.0, gap as real) == fp(gap as real) by { assert 1.0 * gap as real == gap as real; }
    TruncGrows(Product(fp, a, gap as real), Product(fp, b, gap as real));
    TruncGrows(Product(fp, b, gap as real), gap as real);
  }

  /** Few and close enough samples for their number and differences to be exact in floating point. */
  ghost predicate Representable(s: seq<int>) {
    |s| <= EXACT && forall x, y :: x in s && y in s ==> y - x <= EXACT
  }

  /** Whatever the rounding, the interpolated value lies between the two samples around its rank. */
  lemma {:induction false} InterpolatedIsBetween(fp: Rounding, s: seq<int>, p: nat)
    requires Rounds(fp) && Ascending(s) && |s| >= 2 && Representable(s)
    ensures var lower := Trunc(Rank(fp, p, |s| - 1));
      && lower >= 0
      && if lower >= |s| - 1 then Interpolated(fp, s, p) == s[|s| - 1]
         else s[lower] <= Interpolated(fp, s, p) <= s[lower + 1]
  {
    var rank := Rank(fp, p, |s| - 1);
    RankGrows(fp, p, p, |s| - 1);
    var lower := Trunc(rank);
    if lower < |s| - 1 {
      assert s[lower] in s && s[lower + 1] in s;
      PartGrows(fp, rank, rank, s[lower + 1] - s[lower]);
    }
  }

  /** Between the same two samples the value grows with the rank. */
  lemma {:induction false} AtRankGrows(fp: Rounding, s: seq<int>, x: real, y: real)
    requires Rounds(fp) && Ascending(s) && |s| >= 2 && Representable(s)
    requires 0.0 <= x <= y && Trunc(x) == Trunc(y) < |s| - 1
    ensures AtRank(fp, s, x) <= AtRank(fp, s, y)
  {
    var lower := Trunc(x);
    assert s[lower] in s && s[lower + 1] in s;
    PartGrows(fp, x, y, s[lower + 1] - s[lower]);
  }

  /** Whatever the rounding, it never falls as p grows. */
  lemma {:induction false} InterpolatedGrows(fp: Rounding, s: seq<int>, p: nat, q: nat)
    requires Rounds(fp) && Ascending(s) && Representable(s) && p <= q
    ensures Interpolated(fp, s, p) <= Interpolated(fp, s, q)
  {
    if |s| >= 2 {
      var m := |s| - 1;
      RankGrows(fp, p, q, m);
      var x, y := Rank(fp, p, m), Rank(fp, q, m);
      TruncGrows(x, y);
      if Trunc(x) == Trunc(y) && Trunc(x) < m {
        AtRankGrows(fp, s, x, y);
      } else {
        InterpolatedIsBetween(fp, s, p);
        InterpolatedIsBetween(fp, s, q);
      }
    }
  }

  // ---- What the reservoir retains ----

  /** One draw for each sample recorded after the reservoir filled. */
  predicate Drawn(m: nat, h: seq<int>, draws: seq<int>) {
    |draws| == (if |h| <= m then 0 else |h| - m) && ValidDraws(m, draws)
  }

  /** The retained samples: everything until the reservoir is full, then the sampled positions. */
  function Retained(m: nat, h: seq<int>, draws: seq<int>): (r: seq<int>)
    requires Drawn(m, h, draws)
    ensures |r| == if |h| <= m then |h| else m
  {
    if |h| <= m then h
    else
      SampleIsDistinct(m, draws);
      seq(m, i requires 0 <= i < m => h[Sample(m, draws)[i]])
  }

  lemma {:induction false} DrawnStep(m: nat, h: seq<int>, draws: seq<int>, d: int, draw: int)
    requires Drawn(m, h, draws) && |h| >= m && 0 <= draw <= |h|
    ensures Drawn(m, h + [d], draws + [draw])
  {
    SampleStep(m, draws, draw);
  }

  lemma {:induction false} RetainedSlot(m: nat, h: seq<int>, draws: seq<int>, d: int, draw: int, i: nat)
    requires Drawn(m, h, draws) && Drawn(m, h + [d], draws + [draw])
    requires |h| >= m && 0 <= draw <= |h| && i < m
    ensures Retained(m, h + [d], draws + [draw])[i] == if i == draw then d else Retained(m, h, draws)[i]
  {
    SampleStep(m, draws, draw);
    SampleIsDistinct(m, draws);
    SampleIsDistinct(m, draws + [draw]);
    if |h| == m {
      assert h[Sample(m, draws)[i]] == Retained(m, h, draws)[i];
    }
  }

  /** Recording into a full reservoir overwrites the drawn slot, if the draw names one. */
  lemma {:induction false} RetainedStep(m: nat, h: seq<int>, draws: seq<int>, d: int, draw: int)
    requires Drawn(m, h, draws) && |h| >= m && 0 <= draw <= |h|
    ensures Drawn(m, h + [d], draws + [draw])
    ensures Retained(m, h + [d], draws + [draw])
         == if draw < m then Retained(m, h, draws)[draw := d] else Retained(m, h, draws)
  {
    DrawnStep(m, h, draws, d, draw);
    var before, after := Retained(m, h, draws), Retained(m, h + [d], draws + [draw]);
    forall i | 0 <= i < m ensures after[i] == if i == draw then d else before[i] {
      RetainedSlot(m, h, draws, d, draw, i);
    }
    if draw < m {
      assert after == before[draw := d];
    } else {
      assert after == before;
    }
  }

  /** The samples are what the reservoir retains of the history. */
  ghost predicate Keeps(m: nat, h: seq<int>, draws: seq<int>, samples: seq<int>) {
    Drawn(m, h, draws) && samples == Retained(m, h, draws)
  }

  lemma {:induction false} KeepsWithRoom(m: nat, h: seq<int>, draws: seq<int>, samples: seq<int>, d: int)
    requires Keeps(m, h, draws, samples) && |h| < m
    ensures Keeps(m, h + [d], draws, samples + [d])
  {
  }

  lemma {:induction false} KeepsWhenFull(m: nat, h: seq<int>, draws: seq<int>, samples: seq<int>, d: int, draw: int)
    requires Keeps(m, h, draws, samples) && |h| >= m && 0 <= draw <= |h|
    ensures Keeps(m, h + [d], draws + [draw], if draw < m then samples[draw := d] else samples)
  {
    RetainedStep(m, h, draws, d, draw);
  }

  lemma {:induction false} OverwriteOne(s: seq<int>, i: nat, d: int, all: multiset<int>)
    requires i < |s| && multiset(s) <= all
    ensures multiset(s[i := d]) <= all + multiset{d}
  {
    assert multiset(s[i := d]) == multiset(s) - multiset{s[i]} + multiset{d};
  }

  lemma {:induction false} RetainedStaysWithin(m: nat, h: seq<int>, draws: seq<int>, d: int, draw: int)
    requires Drawn(m, h, draws) && |h| >= m && 0 <= draw <= |h|
    requires multiset(Retained(m, h, draws)) <= multiset(h)
    ensures Drawn(m, h + [d], draws + [draw])
    ensures multiset(Retained(m, h + [d], draws + [draw])) <= multiset(h + [d])
  {
    RetainedStep(m, h, draws, d, draw);
    assert multiset(h + [d]) == multiset(h) + multiset{d};
    if draw < m {
      OverwriteOne(Retained(m, h, draws), draw, d, multiset(h));
    }
  }

  lemma {:induction false} DrawnBefore(m: nat, h: seq<int>, draws: seq<int>)
    requires Drawn(m, h, draws) && |h| > m
    ensures draws != [] && Drawn(m, Front(h), Front(draws)) && 0 <= Last(draws) <= |Front(h)|
  {
  }

  /** No draw can duplicate or invent a sample. */
  lemma {:induction false} RetainedIsSubMultiset(m: nat, h: seq<int>, draws: seq<int>)
    requires Drawn(m, h, draws)
    ensures multiset(Retained(m, h, draws)) <= multiset(h)
    decreases |h|
  {
    if |h| > m {
      DrawnBefore(m, h, draws);
      RetainedIsSubMultiset(m, Front(h), Front(draws));
      RetainedStaysWithin(m, Front(h), Front(draws), Last(h), Last(draws));
      assert draws == Front(draws) + [Last(draws)] && h == Front(h) + [Last(h)];
    }
  }

  lemma {:induction false} RetainedIn(m: nat, h: seq<int>, draws: seq<int>, y: int)
    requires Drawn(m, h, draws) && y in Retained(m, h, draws)
    ensures y in h
  {
    RetainedIsSubMultiset(m, h, draws);
    assert y in multiset(Retained(m, h, draws));
  }

  // ---- The reported statistics ----

  datatype LatencyStats = LatencyStats(
    count: int, p50: int, p75: int, p90: int, p95: int, p99: int, p100: int, mean: int, min: int)

  /** The two percentile modes; interpolation depends on how the machine rounds. */
  datatype Mode = Ranked | Interpolating(fp: Rounding)

  function Pct(sorted: seq<int>, p: nat, mode: Mode): int {
    match mode
    case Ranked => Percentile(sorted, p)
    case Interpolating(fp) => Interpolated(fp, sorted, p)
  }

  /** Nothing is asked of the ranked mode. */
  ghost predicate Suits(mode: Mode, samples: seq<int>) {
    mode.Interpolating? ==> Rounds(mode.fp) && Representable(samples)
  }

  function StatsOf(h: seq<int>, samples: seq<int>, mode: Mode): LatencyStats {
    if h == [] then LatencyStats(0, 0, 0, 0, 0, 0, 0, 0, 0)
    else
      var s := Sort(samples);
      LatencyStats(|h|, Pct(s, 50, mode), Pct(s, 75, mode), Pct(s, 90, mode),
                   Pct(s, 95, mode), Pct(s, 99, mode), TrackedMax(h),
                   GoDiv(Sum(h), |h|), TrackedMin(h))
  }

  lemma {:induction false} PctGrows(s: seq<int>, p: nat, q: nat, mode: Mode)
    requires Ascending(s) && p <= q && Suits(mode, s)
    ensures Pct(s, p, mode) <= Pct(s, q, mode)
  {
    match mode
    case Ranked => PercentileGrows(s, p, q);
    case Interpolating(fp) => InterpolatedGrows(fp, s, p, q);
  }

  lemma {:induction false} PctBetween(s: seq<int>, p: nat, mode: Mode, lo: int, hi: int)
    requires Ascending(s) && s != [] && Suits(mode, s)
    requires forall y :: y in s ==> lo <= y <= hi
    ensures lo <= Pct(s, p, mode) <= hi
  {
    match mode
    case Ranked => assert s[Index(|s|, p)] in s;
    case Interpolating(fp) =>
      if |s| == 1 {
        assert s[0] in s;
      } else {
        InterpolatedIsBetween(fp, s, p);
        var lower := Trunc(Rank(fp, p, |s| - 1));
        if lower >= |s| - 1 {
          assert s[|s| - 1] in s;
        } else {
          assert s[lower] in s && s[lower + 1] in s;
        }
      }
  }

  lemma {:induction false} SortedMembers(samples: seq<int>, y: int)
    ensures y in Sort(samples) <==> y in samples
  {
    SortSorts(samples);
    assert y in multiset(Sort(samples)) <==> y in multiset(samples);
  }

  /** The extremes that `Record` tracks are the true ones. */
  ghost predicate ExtremesTracked(h: seq<int>)
    requires h != []
  {
    ZeroNeverOverwritten(h) && exists y :: y in h && y >= 0
  }

  lemma {:induction false} PositiveSamplesTrackExtremes(h: seq<int>)
    requires h != [] && forall y :: y in h ==> y > 0
    ensures ExtremesTracked(h)
  {
    assert Last(h) in h;
  }

  lemma {:induction false} SortSuits(mode: Mode, samples: seq<int>)
    requires Suits(mode, samples)
    ensures Suits(mode, Sort(samples))
  {
    SortSorts(samples);
    assert |multiset(Sort(samples))| == |multiset(samples)|;
    forall x | x in Sort(samples) ensures x in samples {
      SortedMembers(samples, x);
    }
  }

  // ---- What each reported field is ----

  /** Each percentile is its own order statistic of the retained samples. */
  ghost predicate RankedBy(samples: seq<int>, r: LatencyStats) {
    && RanksAt(samples, 50, r.p50) && RanksAt(samples, 75, r.p75) && RanksAt(samples, 90, r.p90)
    && RanksAt(samples, 95, r.p95) && RanksAt(samples, 99, r.p99)
  }

  lemma {:induction false} RankedFields(h: seq<int>, samples: seq<int>)
    requires h != [] && samples != []
    ensures RankedBy(samples, StatsOf(h, samples, Ranked))
  {
    PercentileRanksAt(samples, 50);
    PercentileRanksAt(samples, 75);
    PercentileRanksAt(samples, 90);
    PercentileRanksAt(samples, 95);
    PercentileRanksAt(samples, 99);
  }

  /** x lies p percent of the way through the sorted samples, on the line between its neighbours, with the
      fraction dropped. */
  ghost predicate LiesAt(sorted: seq<int>, p: nat, x: int)
    requires sorted != []
  {
    var at := p * (|sorted| - 1);
    x == if at / 100 >= |sorted| - 1 then sorted[|sorted| - 1]
         else sorted[at / 100] + at % 100 * (sorted[at / 100 + 1] - sorted[at / 100]) / 100
  }

  lemma {:induction false} InterpolatedLiesAt(s: seq<int>, p: nat)
    requires Ascending(s) && s != []
    ensures LiesAt(s, p, Interpolated(Unrounded, s, p))
  {
    if |s| >= 2 {
      InterpolatedExactly(s, p);
    }
  }

  /** Each percentile lies at its own place among the sorted samples. */
  ghost predicate InterpolatedBy(sorted: seq<int>, r: LatencyStats) {
    && sorted != [] && LiesAt(sorted, 50, r.p50) && LiesAt(sorted, 75, r.p75) && LiesAt(sorted, 90, r.p90)
    && LiesAt(sorted, 95, r.p95) && LiesAt(sorted, 99, r.p99)
  }

  lemma {:induction false} InterpolatedFields(h: seq<int>, samples: seq<int>)
    requires h != [] && samples != []
    ensures InterpolatedBy(Sort(samples), StatsOf(h, samples, Interpolating(Unrounded)))
  {
    SortSorts(samples);
    var s := Sort(samples);
    InterpolatedLiesAt(s, 50);
    InterpolatedLiesAt(s, 75);
    InterpolatedLiesAt(s, 90);
    InterpolatedLiesAt(s, 95);
    InterpolatedLiesAt(s, 99);
  }

  /** With any rounding each lies between the two samples around its own rank. */
  ghost predicate LiesAround(fp: Rounding, sorted: seq<int>, p: nat, x: int)
    requires sorted != []
  {
    if |sorted| == 1 then x == sorted[0]
    else
      var lower := Trunc(Rank(fp, p, |sorted| - 1));
      && lower >= 0
      && if lower >= |sorted| - 1 then x == sorted[|sorted| - 1] else sorted[lower] <= x <= sorted[lower + 1]
  }

  lemma {:induction false} InterpolatedLiesAround(fp: Rounding, s: seq<int>, p: nat)
    requires Rounds(fp) && Ascending(s) && s != [] && Representable(s)
    ensures LiesAround(fp, s, p, Interpolated(fp, s, p))
  {
    if |s| >= 2 {
      InterpolatedIsBetween(fp, s, p);
    }
  }

  lemma {:induction false} RoundedFields(h: seq<int>, samples: seq<int>, fp: Rounding)
    requires h != [] && samples != [] && Suits(Interpolating(fp), samples)
    ensures var r, s := StatsOf(h, samples, Interpolating(fp)), Sort(samples);
      && s != [] && LiesAround(fp, s, 50, r.p50) && LiesAround(fp, s, 75, r.p75) && LiesAround(fp, s, 90, r.p90)
      && LiesAround(fp, s, 95, r.p95) && LiesAround(fp, s, 99, r.p99)
  {
    SortSorts(samples);
    SortSuits(Interpolating(fp), samples);
    var s := Sort(samples);
    InterpolatedLiesAround(fp, s, 50);
    InterpolatedLiesAround(fp, s, 75);
    InterpolatedLiesAround(fp, s, 90);
    InterpolatedLiesAround(fp, s, 95);
    InterpolatedLiesAround(fp, s, 99);
  }

  /** The mean is the sum over the number, with the remainder dropped towards zero. */
  ghost predicate MeanOf(h: seq<int>, mean: int) {
    if Sum(h) >= 0 then mean * |h| <= Sum(h) < (mean + 1) * |h| else (mean - 1) * |h| < Sum(h) <= mean * |h|
  }

  lemma {:induction false} MeanField(h: seq<int>, samples: seq<int>, mode: Mode)
    requires h != []
    ensures var r := StatsOf(h, samples, mode); r.count == |h| && MeanOf(h, r.mean)
  {
    MeanIsTheTruncatedQuotient(Sum(h), |h|);
  }

  /**
   Whatever was drawn, in either percentile mode, whatever the rounding: Min and P100 are the true
   extremes, and Min <= P50 <= P75 <= P90 <= P95 <= P99 <= P100 with the mean between Min and P100.
   */
  lemma {:induction false} StatsAreOrdered(m: nat, h: seq<int>, draws: seq<int>, mode: Mode)
    requires h != [] && m > 0 && Drawn(m, h, draws) && ExtremesTracked(h)
    requires Suits(mode, Retained(m, h, draws))
    ensures var r := StatsOf(h, Retained(m, h, draws), mode);
      && IsLeast(h, r.min) && IsGreatest(h, r.p100) && r.count == |h|
      && r.min <= r.p50 <= r.p75 <= r.p90 <= r.p95 <= r.p99 <= r.p100
      && r.min <= r.mean <= r.p100
  {
    MinIsExactExactlyWhen(h);
    MaxIsExactExactlyWhen(h);
    var lo, hi := TrackedMin(h), TrackedMax(h);
    var samples := Retained(m, h, draws);
    var s := Sort(samples);
    SortSorts(samples);
    SortSuits(mode, samples);
    forall y | y in s ensures lo <= y <= hi {
      SortedMembers(samples, y);
      RetainedIn(m, h, draws, y);
    }
    PctBetween(s, 50, mode, lo, hi);
    PctBetween(s, 99, mode, lo, hi);
    PctGrows(s, 50, 75, mode);
    PctGrows(s, 75, 90, mode);
    PctGrows(s, 90, 95, mode);
    PctGrows(s, 95, 99, mode);
    MeanIsBetween(h, lo, hi);
  }

  /** In exact arithmetic the interpolated statistics are ordered with nothing asked of the machine. */
  lemma {:induction false} ExactStatsAreOrdered(m: nat, h: seq<int>, draws: seq<int>)
    requires h != [] && m > 0 && Drawn(m, h, draws) && ExtremesTracked(h)
    requires Representable(Retained(m, h, draws))
    ensures var r := StatsOf(h, Retained(m, h, draws), Interpolating(Unrounded));
      r.min <= r.p50 <= r.p75 <= r.p90 <= r.p95 <= r.p99 <= r.p100 && r.min <= r.mean <= r.p100
  {
    UnroundedRounds();
    StatsAreOrdered(m, h, draws, Interpolating(Unrounded));
  }
}

module LatencyObjects {
  import opened Reservoirs
  import opened LatencyStatistics

  const DEFAULT_RESERVOIR_SIZE := 10000

  /** The collector; the random generator's next value is a parameter of `Record`. */
  /** All that is promised of the statistics of a history. */
  lemma {:induction false} StatsMean(m: nat, h: seq<int>, draws: seq<int>, mode: Mode)
    requires h != [] && m > 0 && Drawn(m, h, draws)
    ensures var samples := Retained(m, h, draws);
      var r := StatsOf(h, samples, mode);
      && r.count == |h| && MeanOf(h, r.mean)
      && (mode.Ranked? ==> RankedBy(samples, r))
      && (mode == Interpolating(Unrounded) ==> InterpolatedBy(Sort(samples), r))
      && (ExtremesTracked(h) && Suits(mode, samples) ==>
            && IsLeast(h, r.min) && IsGreatest(h, r.p100)
            && r.min <= r.p50 <= r.p75 <= r.p90 <= r.p95 <= r.p99 <= r.p100
            && r.min <= r.mean <= r.p100)
  {
    var samples := Retained(m, h, draws);
    MeanField(h, samples, mode);
    if mode.Ranked? {
      RankedFields(h, samples);
    }
    if mode == Interpolating(Unrounded) {
      InterpolatedFields(h, samples);
    }
    if ExtremesTracked(h) && Suits(mode, samples) {
      StatsAreOrdered(m, h, draws, mode);
    }
  }

  class LatencyCollector {
    var samples: seq<int>
    var count: int
    var sumNs: int
    var min: int
    var max: int
    const maxLen: int
    const mode: Mode
    ghost var history: seq<int>
    ghost var draws: seq<int>

    ghost predicate Valid()
      reads this
    {
      && maxLen > 0
      && count == |history| && sumNs == Sum(history)
      && min == TrackedMin(history) && max == TrackedMax(history)
      && Keeps(maxLen, history, draws, samples)
    }

    constructor (limit: int, mode: Mode)
      ensures Valid() && history == [] && this.mode == mode
      ensures maxLen == if limit <= 0 then DEFAULT_RESERVOIR_SIZE else limit
    {
      samples, count, sumNs, min, max := [], 0, 0, 0, 0;
      maxLen := if limit <= 0 then DEFAULT_RESERVOIR_SIZE else limit;
      this.mode := mode;
      history, draws := [], [];
    }

    method Record(d: int, draw: int)
      requires Valid() && 0 <= draw <= count
      modifies this
      ensures Valid() && history == old(history) + [d]
      ensures draws == if old(count) < maxLen then old(draws) else old(draws) + [draw]
    {
      count := count + 1;
      sumNs := sumNs + d;
      if min == 0 || d < min {
        min := d;
      }
      if d > max {
        max := d;
      }
      history := history + [d];
      TrackedStep(old(history), d);
      if |samples| < maxLen {
        KeepsWithRoom(maxLen, old(history), draws, samples, d);
        samples := samples + [d];
        return;
      }
      KeepsWhenFull(maxLen, old(history), draws, samples, d, draw);
      draws := draws + [draw];
      if draw < maxLen {
        samples := samples[draw := d];
      }
    }

    method Stats() returns (r: LatencyStats)
      requires Valid()
      ensures r == StatsOf(history, Retained(maxLen, history, draws), mode)
      ensures history == [] ==> r == LatencyStats(0, 0, 0, 0, 0, 0, 0, 0, 0)
      ensures history != [] && ExtremesTracked(history) && Suits(mode, Retained(maxLen, history, draws)) ==>
        && IsLeast(history, r.min) && IsGreatest(history, r.p100)
        && r.min <= r.p50 <= r.p75 <= r.p90 <= r.p95 <= r.p99 <= r.p100
        && r.min <= r.mean <= r.p100
      ensures history != [] ==>
        && r.count == |history| && MeanOf(history, r.mean)
        && (mode.Ranked? ==> RankedBy(samples, r))
        && (mode == Interpolating(Unrounded) ==> InterpolatedBy(Sort(samples), r))
    {
      if count == 0 {
        return LatencyStats(0, 0, 0, 0, 0, 0, 0, 0, 0);
      }
      var sorted := Sort(samples);
      r := LatencyStats(count, Pct(sorted, 50, mode), Pct(sorted, 75, mode),
                        Pct(sorted, 90, mode), Pct(sorted, 95, mode),
                        Pct(sorted, 99, mode), max, GoDiv(sumNs, count), min);
      StatsMean(maxLen, history, draws, mode);
    }
  }
}
