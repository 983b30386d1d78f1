/** Streaming statistics over windows of samples, with exact reals for doubles. */
module Summary {
  import opened ATree

  // ---------- Sums ----------

  ghost function Sum(xs: seq<real>): real {
    if xs == [] then 0.0 else Sum(xs[..|xs| - 1]) + xs[|xs| - 1]
  }

  /** A product that the induction below need not multiply out. */
  function Times(a: real, b: real): real { a * b }

  ghost function SumSquares(xs: seq<real>): real {
    if xs == [] then 0.0 else SumSquares(xs[..|xs| - 1]) + Times(xs[|xs| - 1], xs[|xs| - 1])
  }

  /** The sum of squared distances from `mu`. */
  ghost function Spread(xs: seq<real>, mu: real): real {
    if xs == [] then 0.0
    else Spread(xs[..|xs| - 1], mu) + Times(xs[|xs| - 1] - mu, xs[|xs| - 1] - mu)
  }

  ghost function Mean(xs: seq<real>): real
    requires xs != []
  {
    Sum(xs) / |xs| as real
  }

  ghost function PopulationVariance(xs: seq<real>): real
    requires xs != []
  {
    Spread(xs, Mean(xs)) / |xs| as real
  }

  lemma Square(a: real)
    ensures Times(a, a) >= 0.0
  {}

  lemma {:induction false} SpreadExpands(xs: seq<real>, mu: real)
    ensures Spread(xs, mu) == SumSquares(xs) - 2.0 * Times(mu, Sum(xs)) + Times(|xs| as real, Times(mu, mu))
    ensures Spread(xs, mu) >= 0.0
  {
    hide Times;
    if xs == [] {
      Zero(mu);
    } else {
      var x, rest := xs[|xs| - 1], xs[..|xs| - 1];
      SpreadExpands(rest, mu);
      Square(x - mu);
      SpreadStep(Spread(rest, mu), SumSquares(rest), Sum(rest), |rest| as real, x, mu);
      assert |xs| as real == |rest| as real + 1.0;
    }
  }

  lemma Zero(mu: real)
    ensures Times(mu, 0.0) == 0.0 && Times(0.0, Times(mu, mu)) == 0.0
  {}

  lemma SpreadStep(spread: real, squares: real, sum: real, n: real, x: real, mu: real)
    requires spread == squares - 2.0 * Times(mu, sum) + Times(n, Times(mu, mu))
    ensures spread + Times(x - mu, x - mu) ==
      (squares + Times(x, x)) - 2.0 * Times(mu, sum + x) + Times(n + 1.0, Times(mu, mu))
  {
    SquareOfDifference(x, mu);
    Distribute(mu, sum, x);
    Distribute(mu * mu, n, 1.0);
  }

  lemma SquareOfDifference(x: real, mu: real)
    ensures (x - mu) * (x - mu) == x * x - 2.0 * (mu * x) + mu * mu
  {}

  lemma Distribute(c: real, a: real, b: real)
    ensures c * (a + b) == c * a + c * b && (a + b) * c == a * c + b * c
  {}

  /** The mean of squares less the square of the mean is the population variance, and never negative. */
  lemma VarianceIs(xs: seq<real>)
    requires xs != []
    ensures SumSquares(xs) / |xs| as real - Mean(xs) * Mean(xs) == PopulationVariance(xs) >= 0.0
  {
    hide Sum; hide SumSquares; hide Spread; hide Times;
    SpreadExpands(xs, Mean(xs));
    VarianceFormula(Spread(xs, Mean(xs)), SumSquares(xs), Sum(xs), |xs| as real, Mean(xs));
    Nonnegative(Spread(xs, Mean(xs)), |xs| as real);
  }

  lemma VarianceFormula(spread: real, squares: real, sum: real, n: real, mu: real)
    requires n > 0.0 && mu == sum / n && spread == squares - 2.0 * Times(mu, sum) + Times(n, Times(mu, mu))
    ensures squares / n - mu * mu == spread / n
  {
    assert sum == n * mu;
    assert mu * sum == n * (mu * mu);
    Quotient(squares, mu * mu, n);
  }

  lemma Quotient(q: real, m: real, n: real)
    requires n > 0.0
    ensures (q - n * m) / n == q / n - m
  {
    assert (q - n * m) / n == q / n - n * m / n;
  }

  lemma Nonnegative(a: real, n: real)
    requires a >= 0.0 && n > 0.0
    ensures a / n >= 0.0
  {}

  /** The running mean. */
  lemma MeanStep(xs: seq<real>, x: real, mean: real)
    requires xs != [] ==> mean == Mean(xs)
    ensures Mean(xs + [x]) == mean + (x - mean) / (|xs| + 1) as real
  {
    var ys, n := xs + [x], |xs| as real;
    assert ys[..|ys| - 1] == xs && ys[|ys| - 1] == x;
    assert mean * n == Sum(xs) by {
      if xs == [] { assert n == 0.0; }
    }
    RunningMean(mean, n, x);
  }

  lemma RunningMean(mean: real, n: real, x: real)
    requires n >= 0.0
    ensures (mean * n + x) / (n + 1.0) == mean + (x - mean) / (n + 1.0)
  {
    var m := n + 1.0;
    assert mean * n + x == mean * m + (x - mean);
    assert (mean * m + (x - mean)) / m == mean * m / m + (x - mean) / m;
  }

  lemma SquaresStep(xs: seq<real>, x: real)
    ensures SumSquares(xs + [x]) == SumSquares(xs) + x * x
  {
    assert (xs + [x])[..|xs|] == xs;
  }

  // ---------- Extremes ----------

  ghost predicate IsMin(m: real, xs: multiset<real>) { m in xs && forall x | x in xs :: m <= x }

  ghost predicate IsMax(m: real, xs: multiset<real>) { m in xs && forall x | x in xs :: x <= m }

  function MinOf(a: real, b: real): real { if b < a then b else a }

  function MaxOf(a: real, b: real): real { if a < b then b else a }

  /** The sample that a percentile stands for among sorted samples. */
  ghost function Sample(xs: seq<real>, p: real): real
    requires xs != [] && 0.0 <= p <= 100.0
  {
    PositionExists(p, |xs|);
    var k :| IsPosition(k, p, |xs|);
    xs[k - 1]
  }

  lemma SampleAt(xs: seq<real>, p: real, k: int)
    requires xs != [] && 0.0 <= p <= 100.0 && IsPosition(k, p, |xs|)
    ensures Sample(xs, p) == xs[k - 1]
  {
    var l :| IsPosition(l, p, |xs|) && Sample(xs, p) == xs[l - 1];
    OnePosition(k, l, p, |xs|);
  }

  ghost predicate Increasing(xs: seq<real>) { forall i, j | 0 <= i <= j < |xs| :: xs[i] <= xs[j] }

  /** Larger percentiles stand for larger samples. */
  lemma SampleInOrder(xs: seq<real>, p: real, q: real)
    requires xs != [] && Increasing(xs) && 0.0 <= p <= q <= 100.0
    ensures Sample(xs, p) <= Sample(xs, q)
  {
    hide Share;
    var k := PositionIs(p, |xs|);
    var l := PositionIs(q, |xs|);
    SampleAt(xs, p, k);
    SampleAt(xs, q, l);
    hide Sample;
    ShareGrows(p, q, |xs|);
    LaterPosition(k, Share(p, |xs|), l, Share(q, |xs|), |xs|);
  }

  lemma ShareGrows(p: real, q: real, n: nat)
    requires p <= q
    ensures Share(p, n) <= Share(q, n)
  {
    ScaleReal(p, q, n as real);
  }

  lemma LaterPosition(k: int, a: real, l: int, b: real, n: nat)
    requires 1 <= k <= n && 1 <= l <= n && a <= b && (k == 1 || Hundredfold(k) <= a)
    requires forall j | l < j <= n :: Hundredfold(j) > b
    ensures k <= l
  {}

  /** The percentiles 0 and 100 stand for the first and the last sample. */
  lemma SampleEnds(xs: seq<real>)
    requires xs != []
    ensures Sample(xs, 0.0) == xs[0] && Sample(xs, 100.0) == xs[|xs| - 1]
  {
    var n := |xs|;
    assert IsPosition(1, 0.0, n) by {
      forall j | 1 < j <= n ensures Hundredfold(j) > Share(0.0, n) {}
    }
    SampleAt(xs, 0.0, 1);
    assert IsPosition(n, 100.0, n) by { assert Hundredfold(n) == Share(100.0, n); }
    SampleAt(xs, 100.0, n);
  }

  lemma Extremes(xs: seq<real>)
    requires xs != [] && Increasing(xs)
    ensures IsMin(xs[0], multiset(xs)) && IsMax(xs[|xs| - 1], multiset(xs))
  {
    forall x | x in xs ensures xs[0] <= x <= xs[|xs| - 1] {
      var i :| 0 <= i < |xs| && xs[i] == x;
    }
  }

  // ---------- Sorted windows ----------

  /** The samples `xs` in increasing order. */
  ghost predicate IsSorting(w: seq<real>, xs: seq<real>) { Increasing(w) && multiset(w) == multiset(xs) }

  /** There is one way to sort. */
  lemma {:induction false} OneSorting(v: seq<real>, w: seq<real>)
    requires Increasing(v) && Increasing(w) && multiset(v) == multiset(w)
    ensures v == w
  {
    assert |v| == |multiset(v)| == |multiset(w)| == |w|;
    if v != [] {
      LastTwo(v, w);
      var l := |v| - 1;
      assert v == v[..l] + [v[l]] && w == w[..l] + [w[l]];
      hide Increasing;
      OneSorting(v[..l], w[..l]);
    }
  }

  lemma LastTwo(v: seq<real>, w: seq<real>)
    requires |v| == |w| > 0 && Increasing(v) && Increasing(w) && multiset(v) == multiset(w)
    ensures var l := |v| - 1;
      v[l] == w[l] && Increasing(v[..l]) && Increasing(w[..l]) && multiset(v[..l]) == multiset(w[..l])
  {
    var l := |v| - 1;
    Extremes(v);
    Extremes(w);
    hide Increasing;
    WithoutLast(v);
    WithoutLast(w);
  }

  lemma WithoutLast(v: seq<real>)
    requires v != []
    ensures multiset(v[..|v| - 1]) == multiset(v) - multiset{v[|v| - 1]}
    ensures Increasing(v) ==> Increasing(v[..|v| - 1])
  {
    assert v == v[..|v| - 1] + [v[|v| - 1]];
  }

  /** A step of one statistic towards its selected sample. */
  function Toward(a: real, v: real, n: int): real
    requires n >= 1
  {
    a + (v - a) / n as real
  }

  /** Steps of the same size keep two statistics in order. */
  lemma TowardKeepsOrder(a: real, va: real, b: real, vb: real, n: int)
    requires a <= b && va <= vb && n >= 1
    ensures Toward(a, va, n) <= Toward(b, vb, n)
    ensures MinOf(a, va) <= Toward(b, vb, n)
    ensures Toward(a, va, n) <= MaxOf(b, vb)
  {
    TowardBetween(a, va, n);
    TowardBetween(b, vb, n);
    var t := 1.0 / n as real;
    assert Toward(b, vb, n) - Toward(a, va, n) == (b - a) * (1.0 - t) + (vb - va) * t by {
      assert (va - a) / n as real == (va - a) * t && (vb - b) / n as real == (vb - b) * t;
    }
    Product(b - a, 1.0 - t);
    Product(vb - va, t);
  }

  lemma Product(a: real, b: real)
    requires a >= 0.0 && b >= 0.0
    ensures a * b >= 0.0
  {}

  lemma TowardBetween(a: real, v: real, n: int)
    requires n >= 1
    ensures MinOf(a, v) <= Toward(a, v, n) <= MaxOf(a, v)
  {
    var t := 1.0 / n as real;
    assert 0.0 < t <= 1.0;
    assert (v - a) / n as real == (v - a) * t;
    if v >= a { ScaleReal(t, 1.0, v - a); } else { ScaleReal(t, 1.0, a - v); }
  }

  // ---------- The statistics ----------

  datatype Stats = Stats(min: real, p50: real, p90: real, p95: real, p99: real, p999: real, max: real) {
    /** The statistic that a percentile names. */
    function At(p: real): real {
      if p == 0.0 then min else if p == 50.0 then p50 else if p == 90.0 then p90 else if p == 95.0 then p95
      else if p == 99.0 then p99 else if p == 99.9 then p999 else max
    }
  }

  lemma SameStats(a: Stats, b: Stats)
    requires a.At(0.0) == b.At(0.0) && a.At(50.0) == b.At(50.0) && a.At(90.0) == b.At(90.0) && a.At(95.0) == b.At(95.0)
    requires a.At(99.0) == b.At(99.0) && a.At(99.9) == b.At(99.9) && a.At(100.0) == b.At(100.0)
    ensures a == b
  {}

  ghost predicate InOrder(z: Stats) {
    z.min <= z.p50 <= z.p90 <= z.p95 <= z.p99 <= z.p999 <= z.max
  }

  /** What a flush does to the statistics, given the sorted samples since the last one. With no such sample nothing
      changes. The first flush takes the sample at each percentile's position. A later one moves each statistic between
      the extremes towards that sample by its share of all samples, and widens the extremes. */
  ghost predicate TakesIn(init: bool, was: Stats, now: Stats, w: seq<real>, total: int)
    requires w != [] ==> total >= 1
  {
    if w == [] then now == was
    else if !init then forall p | Used(p) :: now.At(p) == Sample(w, p)
    else
      && now.min == MinOf(was.min, w[0]) && now.max == MaxOf(was.max, w[|w| - 1])
      && forall p | Used(p) && 0.0 < p < 100.0 :: now.At(p) == was.At(p) + (Sample(w, p) - was.At(p)) / total as real
  }

  /** The statistics stay in order. */
  lemma TakesInOrder(init: bool, was: Stats, now: Stats, w: seq<real>, total: int)
    requires Increasing(w) && w != [] && total >= 1 && TakesIn(init, was, now, w, total) && (init ==> InOrder(was))
    ensures InOrder(now)
    ensures !init ==> now.min == w[0] && now.max == w[|w| - 1]
  {
    SampleEnds(w);
    SampleInOrder(w, 0.0, 50.0);
    SampleInOrder(w, 50.0, 90.0);
    SampleInOrder(w, 90.0, 95.0);
    SampleInOrder(w, 95.0, 99.0);
    SampleInOrder(w, 99.0, 99.9);
    SampleInOrder(w, 99.9, 100.0);
    var v := Samples(w);
    assert now.At(0.0) == now.min && now.At(50.0) == now.p50 && now.At(90.0) == now.p90 && now.At(95.0) == now.p95;
    assert now.At(99.0) == now.p99 && now.At(99.9) == now.p999 && now.At(100.0) == now.max;
    if init {
      hide Sample; hide Increasing; hide MinOf; hide MaxOf;
      LaterInOrder(was, now, v, total);
    }
  }

  ghost function Samples(w: seq<real>): Stats
    requires w != []
  {
    Stats(Sample(w, 0.0), Sample(w, 50.0), Sample(w, 90.0), Sample(w, 95.0), Sample(w, 99.0), Sample(w, 99.9), Sample(w, 100.0))
  }

  /** Equal shares keep the order of the statistics. */
  lemma LaterInOrder(was: Stats, now: Stats, v: Stats, n: int)
    requires InOrder(was) && InOrder(v) && n >= 1
    requires now.min == MinOf(was.min, v.min) && now.max == MaxOf(was.max, v.max)
    requires now.p50 == Toward(was.p50, v.p50, n) && now.p90 == Toward(was.p90, v.p90, n) && now.p95 == Toward(was.p95, v.p95, n)
    requires now.p99 == Toward(was.p99, v.p99, n) && now.p999 == Toward(was.p999, v.p999, n)
    ensures InOrder(now)
  {
    hide Toward; hide MinOf; hide MaxOf;
    TowardKeepsOrder(was.min, v.min, was.p50, v.p50, n);
    TowardKeepsOrder(was.p50, v.p50, was.p90, v.p90, n);
    TowardKeepsOrder(was.p90, v.p90, was.p95, v.p95, n);
    TowardKeepsOrder(was.p95, v.p95, was.p99, v.p99, n);
    TowardKeepsOrder(was.p99, v.p99, was.p999, v.p999, n);
    TowardKeepsOrder(was.p999, v.p999, was.max, v.max, n);
  }

  lemma MinOfBoth(a: real, xs: multiset<real>, b: real, ys: multiset<real>)
    requires IsMin(a, xs) && IsMin(b, ys)
    ensures IsMin(MinOf(a, b), xs + ys)
  {}

  lemma MaxOfBoth(a: real, xs: multiset<real>, b: real, ys: multiset<real>)
    requires IsMax(a, xs) && IsMax(b, ys)
    ensures IsMax(MaxOf(a, b), xs + ys)
  {}

  /** A flush covers what was flushed before and what is in the window: all samples. */
  lemma FlushCovers(init: bool, was: Stats, now: Stats, all: seq<real>, flushed: nat, w: seq<real>)
    requires flushed < |all| && IsSorting(w, all[flushed..]) && w != [] && (init <==> flushed > 0)
    requires init ==> InOrder(was) && IsMin(was.min, multiset(all[..flushed])) && IsMax(was.max, multiset(all[..flushed]))
    requires TakesIn(init, was, now, w, |all|)
    ensures InOrder(now) && IsMin(now.min, multiset(all)) && IsMax(now.max, multiset(all))
  {
    TakesInOrder(init, was, now, w, |all|);
    Split(all, flushed, multiset(w), w);
    Extremes(w);
    hide InOrder; hide IsMin; hide IsMax; hide MinOf; hide MaxOf; hide Sample; hide Increasing;
    if init {
      MinOfBoth(was.min, multiset(all[..flushed]), w[0], multiset(w));
      MaxOfBoth(was.max, multiset(all[..flushed]), w[|w| - 1], multiset(w));
    }
  }

  lemma NothingTaken(init: bool, z: Stats, total: int)
    ensures TakesIn(init, z, z, [], total)
  {}

  /** The first flush does not look at the old statistics. */
  lemma SameFirst(was: Stats, now: Stats, w: seq<real>, total: int)
    requires w != [] && total >= 1 && TakesIn(false, was, now, w, 1)
    ensures TakesIn(false, was, now, w, total)
  {}

  lemma Split(all: seq<real>, flushed: nat, rest: multiset<real>, listed: seq<real>)
    requires flushed <= |all| && rest == multiset(all[flushed..]) == multiset(listed) && |listed| >= 1
    ensures |all| >= 1 && multiset(all) == multiset(all[..flushed]) + rest
    ensures flushed == 0 ==> multiset(all) == rest
  {
    assert all[..flushed] + all[flushed..] == all;
    assert listed[0] in rest;
  }

  lemma NothingLeft(all: seq<real>)
    ensures all[..|all|] == all && multiset(all[|all|..]) == multiset(Sorted(Nil))
  {}

  lemma Tail(all: seq<real>, flushed: nat, value: real)
    requires flushed <= |all|
    ensures multiset((all + [value])[flushed..]) == multiset(all[flushed..]) + multiset{value}
  {
    assert (all + [value])[flushed..] == all[flushed..] + [value];
  }

  lemma OneMoreCounted(was: Shape, now: Shape, value: real)
    requires Counted(was) && Counted(now) && multiset(Sorted(now)) == multiset(Sorted(was)) + multiset{value}
    ensures Count(now) == Count(was) + 1
  {
    SortedLength(was);
    SortedLength(now);
    assert |multiset(Sorted(now))| == |multiset(Sorted(was))| + 1;
  }

  /** An empty tree means that everything has been flushed. */
  lemma AllFlushed(all: seq<real>, flushed: nat, s: Shape)
    requires Counted(s) && Count(s) == 0 && flushed <= |all| && multiset(Sorted(s)) == multiset(all[flushed..])
    ensures flushed == |all| && s.Nil? && all[..flushed] == all
  {
    SortedLength(s);
    assert |multiset(all[flushed..])| == |all| - flushed && |multiset(Sorted(s))| == 0;
  }

  class Summary {
    const windowSize: int
    const samples: Tree
    var initialized: bool
    var stats: Stats
    var totalSamples: int
    var mean: real
    var squaredTotal: real
    var variance: real

    // All samples ever seen, and how many of them have been flushed from the tree.
    ghost var all: seq<real>
    ghost var flushed: nat

    ghost predicate StatsOK()
      reads this
    {
      && flushed <= |all| && (initialized <==> flushed > 0)
      && (initialized ==>
            && InOrder(stats)
            && IsMin(stats.min, multiset(all[..flushed])) && IsMax(stats.max, multiset(all[..flushed])))
      && (!initialized ==> stats == Stats(0.0, 0.0, 0.0, 0.0, 0.0, 0.0, 0.0))
    }

    ghost predicate MomentsOK()
      reads this
    {
      && totalSamples == |all| && squaredTotal == SumSquares(all)
      && (all != [] ==> mean == Mean(all) && variance == PopulationVariance(all) >= 0.0)
      && (all == [] ==> mean == 0.0)
    }

    ghost predicate Valid()
      reads this, samples, samples.nodes
    {
      && samples.Valid()
      && StatsOK() && MomentsOK()
      && multiset(Sorted(samples.shape)) == multiset(all[flushed..])
      && (windowSize >= 1 ==> Count(samples.shape) <= windowSize)
    }

    constructor (windowSize: int)
      ensures Valid() && all == [] && this.windowSize == windowSize && fresh(samples)
    {
      this.windowSize := windowSize;
      samples := new Tree();
      initialized, stats := false, Stats(0.0, 0.0, 0.0, 0.0, 0.0, 0.0, 0.0);
      totalSamples, mean, squaredTotal, variance := 0, 0.0, 0.0, 0.0;
      all, flushed := [], 0;
    }

    /** One call of `FindNthPercentile`, as a value. */
    method Find(p: real) returns (v: real)
      requires samples.Valid() && samples.shape.Fork? && (p == 0.0 || 50.0 <= p <= 100.0)
      ensures Sorted(samples.shape) != [] && v == Sample(Sorted(samples.shape), p)
    {
      SortedLength(samples.shape);
      var node := samples.FindNthPercentile(p);
      ghost var k :| IsPosition(k, p, |Sorted(samples.shape)|);
      SampleAt(Sorted(samples.shape), p, k);
      return node.key;
    }

    /** `UpdatePercentile`. */
    method UpdatePercentile(p: real)
      requires samples.Valid() && samples.shape.Fork? && Used(p) && totalSamples >= 1
      modifies this`stats
      ensures Sorted(samples.shape) != []
      ensures p == 0.0 ==> stats.min == MinOf(old(stats).min, Sample(Sorted(samples.shape), p))
      ensures p == 100.0 ==> stats.max == MaxOf(old(stats).max, Sample(Sorted(samples.shape), p))
      ensures 0.0 < p < 100.0 ==>
        stats.At(p) == old(stats).At(p) + (Sample(Sorted(samples.shape), p) - old(stats).At(p)) / totalSamples as real
      ensures forall q | Used(q) && q != p :: stats.At(q) == old(stats).At(q)
    {
      var value := Find(p);
      hide Sample; hide Sorted;
      if p == 0.0 {
        stats := stats.(min := MinOf(stats.min, value));
      } else if p == 50.0 {
        var delta := value - stats.p50;
        stats := stats.(p50 := stats.p50 + delta / totalSamples as real);
      } else if p == 90.0 {
        var delta := value - stats.p90;
        stats := stats.(p90 := stats.p90 + delta / totalSamples as real);
      } else if p == 95.0 {
        var delta := value - stats.p95;
        stats := stats.(p95 := stats.p95 + delta / totalSamples as real);
      } else if p == 99.0 {
        var delta := value - stats.p99;
        stats := stats.(p99 := stats.p99 + delta / totalSamples as real);
      } else if p == 99.9 {
        var delta := value - stats.p999;
        stats := stats.(p999 := stats.p999 + delta / totalSamples as real);
      } else {
        stats := stats.(max := MaxOf(stats.max, value));
      }
    }

    /** All percentiles from the samples of the first window. */
    method TakeFirst()
      requires samples.Valid() && samples.shape.Fork?
      modifies this`stats
      ensures Sorted(samples.shape) != [] && TakesIn(false, old(stats), stats, Sorted(samples.shape), 1)
    {
      hide Sample; hide Sorted;
      var min := Find(0.0);
      var p50 := Find(50.0);
      var p90 := Find(90.0);
      var p95 := Find(95.0);
      var p99 := Find(99.0);
      var p999 := Find(99.9);
      var max := Find(100.0);
      stats := Stats(min, p50, p90, p95, p99, p999, max);
    }

    /** All percentiles moved by the samples of a later window. */
    method TakeLater()
      requires samples.Valid() && samples.shape.Fork? && totalSamples >= 1
      modifies this`stats
      ensures Sorted(samples.shape) != [] && TakesIn(true, old(stats), stats, Sorted(samples.shape), totalSamples)
    {
      hide Sample; hide Sorted; hide MinOf; hide MaxOf;
      UpdatePercentile(0.0);
      UpdatePercentile(50.0);
      UpdatePercentile(90.0);
      UpdatePercentile(95.0);
      UpdatePercentile(99.0);
      UpdatePercentile(99.9);
      UpdatePercentile(100.0);
      SampleEnds(Sorted(samples.shape));
    }

    /** The statistics take in the samples of the tree. */
    method TakeIn()
      requires Valid() && samples.shape.Fork?
      modifies this`initialized, this`stats, this`flushed
      ensures StatsOK() && MomentsOK() && flushed == |all| && initialized
      ensures old(flushed) < |all| && TakesIn(old(initialized), old(stats), stats, Sorted(samples.shape), |all|)
    {
      hide Matches; hide Nodes; hide Apart; hide Size; hide InOrder; hide IsMin; hide IsMax; hide Sample;
      WindowSorted();
      hide Counted; hide Ordered; hide Sorted; hide TakesIn;
      ghost var was, w := stats, Sorted(samples.shape);
      if !initialized {
        TakeFirst();
        SameFirst(was, stats, w, |all|);
        FlushCovers(false, was, stats, all, flushed, w);
        initialized := true;
      } else {
        TakeLater();
        FlushCovers(true, was, stats, all, flushed, w);
      }
      flushed := |all|;
      NothingLeft(all);
    }

    /** The tree lists the samples not flushed yet in increasing order. */
    lemma WindowSorted()
      requires Valid()
      ensures IsSorting(Sorted(samples.shape), all[flushed..]) && |Sorted(samples.shape)| == Count(samples.shape) == |all| - flushed
      ensures samples.shape.Fork? ==> Sorted(samples.shape) != []
    {
      SortedLength(samples.shape);
      SortedIsSorted(samples.shape);
      assert |multiset(Sorted(samples.shape))| == |multiset(all[flushed..])|;
    }

    lemma TreeSize()
      requires samples.Valid()
      ensures Count(samples.shape) == 0 <==> samples.shape.Nil?
    {
      SortedLength(samples.shape);
    }

    lemma NothingToFlush()
      requires Valid() && Count(samples.shape) == 0
      ensures flushed == |all| && samples.shape.Nil?
    {
      AllFlushed(all, flushed, samples.shape);
    }

    lemma Covered()
      requires StatsOK() && flushed == |all|
      ensures all != [] ==> initialized && InOrder(stats) && IsMin(stats.min, multiset(all)) && IsMax(stats.max, multiset(all))
      ensures all == [] ==> stats == Stats(0.0, 0.0, 0.0, 0.0, 0.0, 0.0, 0.0)
    {
      assert all[..|all|] == all;
    }

    /** `UpdatePercentilesAndClearSamples`: afterwards the statistics cover every sample ever seen, in order, with the
        exact extremes. */
    method Flush()
      requires Valid()
      modifies this`initialized, this`stats, this`flushed, samples
      ensures Valid() && all == old(all) && flushed == |all| && samples.shape == Nil && samples.nodes <= old(samples.nodes)
      ensures all != [] ==> initialized && InOrder(stats) && IsMin(stats.min, multiset(all)) && IsMax(stats.max, multiset(all))
      ensures exists w :: IsSorting(w, all[old(flushed)..])
      ensures forall w | IsSorting(w, all[old(flushed)..]) :: TakesIn(old(initialized), old(stats), stats, w, |all|)
      ensures all == [] ==> stats == Stats(0.0, 0.0, 0.0, 0.0, 0.0, 0.0, 0.0)
    {
      hide InOrder; hide IsMin; hide IsMax; hide Sorted; hide Mean; hide PopulationVariance; hide SumSquares;
      hide Matches; hide Nodes; hide Apart; hide Counted; hide Ordered; hide Size; hide StatsOK; hide MomentsOK;
      hide Increasing; hide TakesIn;
      TreeSize();
      WindowSorted();
      ghost var window := Sorted(samples.shape);
      var size := samples.GetSize();
      if size == 0 {
        NothingToFlush();
        NothingTaken(initialized, stats, |all|);
      } else {
        TakeIn();
        samples.Clear();
        NothingLeft(all);
      }
      Covered();
      forall w | IsSorting(w, all[old(flushed)..]) ensures w == window {
        OneSorting(w, window);
      }
    }

    /** The running mean and variance with one more sample. */
    method CountIn(value: real)
      requires MomentsOK() && StatsOK()
      modifies this`totalSamples, this`mean, this`squaredTotal, this`variance, this`all
      ensures MomentsOK() && StatsOK() && all == old(all) + [value]
    {
      hide Mean; hide PopulationVariance; hide SumSquares; hide Sum; hide InOrder; hide IsMin; hide IsMax;
      MeanStep(all, value, mean);
      SquaresStep(all, value);
      VarianceIs(all + [value]);
      assert (all + [value])[..flushed] == all[..flushed];
      totalSamples := totalSamples + 1;
      var delta := value - mean;
      mean := mean + delta / totalSamples as real;
      squaredTotal := squaredTotal + value * value;
      variance := squaredTotal / totalSamples as real - mean * mean;
      all := all + [value];
    }

    /** A sample goes into the tree and into the running moments. */
    method Add(value: real)
      requires Valid() && (windowSize >= 1 ==> Count(samples.shape) < windowSize)
      modifies this`totalSamples, this`mean, this`squaredTotal, this`variance, this`all, samples, samples.nodes
      ensures Valid() && all == old(all) + [value] && fresh(samples.nodes - old(samples.nodes))
      ensures Count(samples.shape) == old(Count(samples.shape)) + 1
    {
      hide Sorted; hide Mean; hide PopulationVariance; hide SumSquares; hide InOrder; hide IsMin; hide IsMax;
      hide Matches; hide Nodes; hide Apart; hide Counted; hide Ordered; hide Size; hide MomentsOK;
      ghost var was := samples.shape;
      Tail(all, flushed, value);
      samples.InsertOrUpdate(value);
      OneMoreCounted(was, samples.shape, value);
      hide Tree.Valid;
      CountIn(value);
    }

    /** `operator<<`: a full window is flushed first. With a window of at least one the tree never holds more than
        the window; with a smaller one it only grows. */
    method Observe(value: real)
      requires Valid()
      modifies this`initialized, this`stats, this`flushed, this`totalSamples, this`mean, this`squaredTotal, this`variance,
               this`all, samples, samples.nodes
      ensures Valid() && all == old(all) + [value] && fresh(samples.nodes - old(samples.nodes))
      ensures mean == Mean(all) && variance == PopulationVariance(all) >= 0.0
      ensures if |old(all)| - old(flushed) == windowSize then
          && flushed == |old(all)|
          && forall w | IsSorting(w, old(all)[old(flushed)..]) :: TakesIn(old(initialized), old(stats), stats, w, |old(all)|)
        else flushed == old(flushed) && stats == old(stats) && initialized == old(initialized)
      ensures windowSize < 1 ==> Count(samples.shape) == old(Count(samples.shape)) + 1
    {
      hide Sorted; hide Mean; hide PopulationVariance; hide SumSquares; hide StatsOK;
      hide Matches; hide Nodes; hide Apart; hide Size; hide TakesIn; hide Increasing;
      WindowSorted();
      hide Counted; hide Ordered;
      var size := samples.GetSize();
      if size == windowSize { Flush(); }
      Add(value);
    }

    /** A getter: the window is flushed, and one statistic returned. */
    method GetPercentile(p: real) returns (v: real)
      requires Valid() && Used(p)
      modifies this`initialized, this`stats, this`flushed, samples
      ensures Valid() && all == old(all) && flushed == |all| && samples.nodes <= old(samples.nodes)
      ensures all != [] ==> InOrder(stats) && IsMin(stats.min, multiset(all)) && IsMax(stats.max, multiset(all))
      ensures forall w | IsSorting(w, all[old(flushed)..]) :: TakesIn(old(initialized), old(stats), stats, w, |all|)
      ensures all == [] ==> v == 0.0
      ensures v == if p == 0.0 then stats.min else if p == 50.0 then stats.p50 else if p == 90.0 then stats.p90
        else if p == 95.0 then stats.p95 else if p == 99.0 then stats.p99 else if p == 99.9 then stats.p999 else stats.max
    {
      Flush();
      if p == 0.0 { return stats.min; }
      else if p == 50.0 { return stats.p50; }
      else if p == 90.0 { return stats.p90; }
      else if p == 95.0 { return stats.p95; }
      else if p == 99.0 { return stats.p99; }
      else if p == 99.9 { return stats.p999; }
      else { return stats.max; }
    }
  }
}
