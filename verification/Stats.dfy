/** The online statistics behind the aggregations, over exact reals: which
    inputs a running state stands for, however it was added up and merged.
    `inf` and `finite` say which values a float computation would have taken
    for infinite or finite; nothing here depends on what they answer. */
module Stats {
  import opened Permutations

  function Total(f: real -> real, xs: seq<real>): real {
    if xs == [] then 0.0 else Total(f, xs[..|xs| - 1]) + f(xs[|xs| - 1])
  }

  function Same(): real -> real {
    (x: real) => x
  }

  function Square(): real -> real {
    (x: real) => x * x
  }

  function Sum(xs: seq<real>): real {
    Total(Same(), xs)
  }

  function SumSquares(xs: seq<real>): real {
    Total(Square(), xs)
  }

  lemma TotalAppend(f: real -> real, xs: seq<real>, x: real)
    ensures Total(f, xs + [x]) == Total(f, xs) + f(x)
  {
    assert (xs + [x])[..|xs|] == xs;
  }

  lemma {:induction false} TotalConcat(f: real -> real, xs: seq<real>, ys: seq<real>)
    ensures Total(f, xs + ys) == Total(f, xs) + Total(f, ys)
    decreases |ys|
  {
    if ys == [] {
      assert xs + ys == xs;
    } else {
      var n := |ys| - 1;
      assert (xs + ys)[..|xs + ys| - 1] == xs + ys[..n];
      TotalConcat(f, xs, ys[..n]);
    }
  }

  /** A total does not depend on the order. */
  lemma {:induction false} TotalPermuted(f: real -> real, xs: seq<real>, ys: seq<real>)
    requires multiset(xs) == multiset(ys)
    ensures Total(f, xs) == Total(f, ys)
    decreases |xs|
  {
    SameLength(xs, ys);
    if xs != [] {
      var n := |xs| - 1;
      var j := TakeLast(xs, ys);
      var before, after := ys[..j], ys[j + 1..];
      TotalPermuted(f, xs[..n], before + after);
      TotalConcat(f, before, after);
      TotalConcat(f, before + [ys[j]], after);
      TotalAppend(f, before, ys[j]);
    }
  }

  // ── Compensated sum ──

  datatype KahanSum = KahanSum(sum: real, c: real)

  /** Division, where no state that stands for inputs divides by zero. */
  function Over(x: real, n: real): real {
    if n == 0.0 then 0.0 else x / n
  }

  lemma OverTimes(x: real, n: real)
    requires n != 0.0
    ensures Over(x, n) * n == x
  {
  }

  lemma OverIs(v: real, n: real, x: real)
    requires n != 0.0 && v * n == x
    ensures Over(x, n) == v
  {
  }

  function Abs(x: real): real {
    if x < 0.0 then -x else x
  }

  /** `kahan_inc`: the total and its compensation after one more term. */
  function KahanInc(inf: real -> bool, inc: real, s: KahanSum): KahanSum {
    var t := s.sum + inc;
    KahanSum(t,
             if inf(t) then 0.0
             else if Abs(s.sum) >= Abs(inc) then s.c + ((s.sum - t) + inc)
             else s.c + ((inc - t) + s.sum))
  }

  function KahanMerge(inf: real -> bool, s: KahanSum, other: KahanSum): KahanSum {
    KahanInc(inf, other.c, KahanInc(inf, other.sum, s))
  }

  predicate SumOf(s: KahanSum, xs: seq<real>) {
    s == KahanSum(Sum(xs), 0.0)
  }

  lemma SumAdds(inf: real -> bool, s: KahanSum, xs: seq<real>, x: real)
    requires SumOf(s, xs)
    ensures SumOf(KahanInc(inf, x, s), xs + [x])
  {
    TotalAppend(Same(), xs, x);
  }

  lemma SumMerges(inf: real -> bool, s: KahanSum, xs: seq<real>, t: KahanSum, ys: seq<real>)
    requires SumOf(s, xs) && SumOf(t, ys)
    ensures SumOf(KahanMerge(inf, s, t), xs + ys)
  {
    TotalConcat(Same(), xs, ys);
  }

  // ── Mean, direct or incremental ──

  datatype Mean = Mean(value: real, c: real, count: real, incremental: bool)

  const NO_MEAN := Mean(0.0, 0.0, 0.0, false)

  function MeanAdd(inf: real -> bool, m: Mean, f: real): Mean {
    var count := m.count + 1.0;
    var s := KahanInc(inf, f, KahanSum(m.value, m.c));
    if !m.incremental && (!inf(s.sum) || count == 1.0) then Mean(s.sum, s.c, count, false)
    else
      // Past this point the running value is a mean, not a sum.
      var value := if m.incremental then m.value else Over(m.value, count - 1.0);
      var c := if m.incremental then m.c else Over(m.c, count - 1.0);
      var q := Over(count - 1.0, count);
      var s' := KahanInc(inf, Over(f, count), KahanSum(q * value, q * c));
      Mean(s'.sum, s'.c, count, true)
  }

  function MeanResult(m: Mean): real {
    if m.incremental then m.value + m.c else Over(m.value, m.count) + Over(m.c, m.count)
  }

  function MeanMerge(inf: real -> bool, m: Mean, other: Mean): Mean {
    if other.count == 0.0 then m
    else if m.count == 0.0 then other
    else
      var total := m.count + other.count;
      var s := KahanMerge(inf, KahanSum(m.value, m.c), KahanSum(other.value, other.c));
      if !m.incremental && !other.incremental && !inf(s.sum) then Mean(s.sum, s.c, total, false)
      else Mean(MeanResult(m) * Over(m.count, total) + MeanResult(other) * Over(other.count, total), 0.0, total, true)
  }

  /** Whether kept as a sum or as a mean, at whatever step it switched. */
  predicate Averages(m: Mean, n: real, s: real) {
    m.count == n && m.c == 0.0 && (if m.incremental then n > 0.0 && m.value * n == s else m.value == s)
  }

  predicate MeanOf(m: Mean, xs: seq<real>) {
    Averages(m, |xs| as real, Sum(xs))
  }

  /** A mean that stands for some inputs gives their sum over their count. */
  lemma MeanGives(m: Mean, xs: seq<real>)
    requires MeanOf(m, xs) && xs != []
    ensures MeanResult(m) == Over(Sum(xs), |xs| as real)
  {
    hide Sum, Over, MeanResult;
    AverageGives(m, |xs| as real, Sum(xs));
    OverIs(MeanResult(m), |xs| as real, Sum(xs));
  }

  lemma AverageGives(m: Mean, n: real, s: real)
    requires Averages(m, n, s) && n > 0.0
    ensures MeanResult(m) * n == s
  {
    OverTimes(s, n);
    ZeroOver(n);
    hide Over;
  }

  lemma MeanAdds(inf: real -> bool, m: Mean, xs: seq<real>, x: real)
    requires MeanOf(m, xs)
    ensures MeanOf(MeanAdd(inf, m, x), xs + [x])
  {
    TotalAppend(Same(), xs, x);
    assert Sum(xs + [x]) == Sum(xs) + x && (xs == [] ==> Sum(xs) == 0.0);
    hide Sum, Averages, MeanAdd;
    AverageAdds(inf, m, |xs| as real, Sum(xs), x);
  }

  lemma AverageAdds(inf: real -> bool, m: Mean, n: real, s: real, x: real)
    requires Averages(m, n, s) && (n >= 1.0 || (n == 0.0 && s == 0.0))
    ensures Averages(MeanAdd(inf, m, x), n + 1.0, s + x)
  {
    hide Over;
    if n > 0.0 {
      OverTimes(m.value, n);
      ZeroOver(n);
      var value := if m.incremental then m.value else Over(m.value, n);
      assert value * n == s;
      Weighted(value, n, x);
    }
  }

  lemma ZeroOver(n: real)
    ensures Over(0.0, n) == 0.0
  {
  }

  /** One more term in a mean of `n`. */
  lemma Weighted(value: real, n: real, x: real)
    requires n + 1.0 != 0.0
    ensures (Over(n, n + 1.0) * value + Over(x, n + 1.0)) * (n + 1.0) == value * n + x
  {
    var k := n + 1.0;
    OverTimes(n, k);
    OverTimes(x, k);
    hide Over;
    var p, q := Over(n, k), Over(x, k);
    assert (p * value + q) * k == (p * k) * value + q * k;
  }

  /** Two means by their weights. */
  lemma Blended(a: real, n: real, b: real, k: real)
    requires n + k != 0.0
    ensures (a * Over(n, n + k) + b * Over(k, n + k)) * (n + k) == a * n + b * k
  {
    var t := n + k;
    OverTimes(n, t);
    OverTimes(k, t);
    hide Over;
    var p, q := Over(n, t), Over(k, t);
    assert (a * p + b * q) * t == a * (p * t) + b * (q * t);
  }

  lemma MeanMerges(inf: real -> bool, m: Mean, xs: seq<real>, other: Mean, ys: seq<real>)
    requires MeanOf(m, xs) && MeanOf(other, ys)
    ensures MeanOf(MeanMerge(inf, m, other), xs + ys)
  {
    if ys == [] {
      assert xs + ys == xs;
    } else if xs == [] {
      assert xs + ys == ys;
    } else {
      TotalConcat(Same(), xs, ys);
      assert Sum(xs + ys) == Sum(xs) + Sum(ys);
      hide Sum, Averages, MeanMerge;
      Averaged(m, xs);
      Averaged(other, ys);
      AverageMerges(inf, m, Sum(xs), other, Sum(ys));
      assert |xs + ys| as real == |xs| as real + |ys| as real;
    }
  }

  lemma Averaged(m: Mean, xs: seq<real>)
    requires MeanOf(m, xs)
    ensures m.count == |xs| as real
  {
  }

  lemma AverageMerges(inf: real -> bool, m: Mean, s: real, other: Mean, t: real)
    requires Averages(m, m.count, s) && Averages(other, other.count, t) && m.count > 0.0 && other.count > 0.0
    ensures Averages(MeanMerge(inf, m, other), m.count + other.count, s + t)
  {
    AverageGives(m, m.count, s);
    AverageGives(other, other.count, t);
    hide MeanResult, Over, MeanMerge;
    MeanBlends(inf, m, s, other, t);
  }

  lemma MeanBlends(inf: real -> bool, m: Mean, s: real, other: Mean, t: real)
    requires m.count > 0.0 && other.count > 0.0 && m.c == 0.0 == other.c
    requires MeanResult(m) * m.count == s && MeanResult(other) * other.count == t
    ensures var r := MeanMerge(inf, m, other);
            && r.count == m.count + other.count && r.c == 0.0
            && (r.incremental ==> r.value * (m.count + other.count) == s + t)
            && (!r.incremental ==> !m.incremental && !other.incremental && r.value == m.value + other.value)
  {
    hide MeanResult, Over;
    Blended(MeanResult(m), m.count, MeanResult(other), other.count);
  }

  // ── Variance ──

  datatype Welford = Welford(mean: real, m2: real, count: real)

  const NO_VARIANCE := Welford(0.0, 0.0, 0.0)

  function WelfordAdd(w: Welford, f: real): Welford {
    var count := w.count + 1.0;
    var delta := f - w.mean;
    var mean := w.mean + Over(delta, count);
    Welford(mean, w.m2 + delta * (f - mean), count)
  }

  /** Chan's combination, with singletons replayed and an overflowing square
      weighted before it is formed. */
  function WelfordMerge(inf: real -> bool, finite: real -> bool, w: Welford, other: Welford): Welford {
    if other.count == 0.0 then w
    else if w.count == 0.0 then other
    else if other.count == 1.0 && other.m2 == 0.0 && finite(other.mean) then WelfordAdd(w, other.mean)
    else ChanMerge(inf, finite, w, other)
  }

  function ChanMerge(inf: real -> bool, finite: real -> bool, w: Welford, other: Welford): Welford {
    var total := w.count + other.count;
    var delta := other.mean - w.mean;
    var weight := Weight(w.count, other.count);
    Welford(w.mean + delta * Over(other.count, total), w.m2 + (other.m2 + Correction(inf, finite, delta, weight)),
            total)
  }

  function Weight(n: real, k: real): real {
    Over(n * k, n + k)
  }

  function Correction(inf: real -> bool, finite: real -> bool, delta: real, weight: real): real {
    if finite(delta) && inf(delta * delta) && 0.0 < weight < 1.0 then delta * (delta * weight)
       else delta * delta * weight
  }

  lemma CorrectionIs(inf: real -> bool, finite: real -> bool, delta: real, weight: real)
    ensures Correction(inf, finite, delta, weight) == delta * delta * weight
  {
  }

  function Variance(w: Welford): real {
    Over(w.m2, w.count)
  }

  /** A state of `n` values with total `s` and total square `q`. */
  predicate Spread(w: Welford, n: real, s: real, q: real) {
    w.count == n && w.mean * n == s && w.m2 == q - w.mean * s
  }

  predicate WelfordOf(w: Welford, xs: seq<real>) {
    && Spread(w, |xs| as real, Sum(xs), SumSquares(xs))
    && (xs == [] ==> w == NO_VARIANCE)
  }

  /** The mean of the squared deviations from the mean. */
  function SquaredDeviations(mean: real, xs: seq<real>): real {
    if xs == [] then 0.0
    else SquaredDeviations(mean, xs[..|xs| - 1]) + (xs[|xs| - 1] - mean) * (xs[|xs| - 1] - mean)
  }

  lemma {:induction false} DeviationsExpand(mean: real, xs: seq<real>)
    ensures SquaredDeviations(mean, xs) == SumSquares(xs) - 2.0 * mean * Sum(xs) + mean * mean * |xs| as real
  {
    if xs != [] {
      var n := |xs| - 1;
      var x, s, k := xs[n], Sum(xs[..n]), n as real;
      DeviationsExpand(mean, xs[..n]);
      assert Sum(xs) == s + x && SumSquares(xs) == SumSquares(xs[..n]) + x * x;
      assert (x - mean) * (x - mean) == x * x - 2.0 * mean * x + mean * mean;
      assert mean * mean * (k + 1.0) == mean * mean * k + mean * mean;
      assert 2.0 * mean * (s + x) == 2.0 * mean * s + 2.0 * mean * x;
    }
  }

  /** What a running variance stands for is the population variance. */
  lemma VarianceGives(w: Welford, xs: seq<real>)
    requires WelfordOf(w, xs) && xs != []
    ensures w.mean == Over(Sum(xs), |xs| as real)
    ensures w.m2 == SquaredDeviations(w.mean, xs)
    ensures Variance(w) == Over(SquaredDeviations(Over(Sum(xs), |xs| as real), xs), |xs| as real)
  {
    var n := |xs| as real;
    hide Sum, SumSquares, SquaredDeviations, Over;
    DeviationsExpand(w.mean, xs);
    assert w.mean * w.mean * n == w.mean * (w.mean * n);
    OverIs(w.mean, n, Sum(xs));
  }

  lemma WelfordAdds(w: Welford, xs: seq<real>, x: real)
    requires WelfordOf(w, xs)
    ensures WelfordOf(WelfordAdd(w, x), xs + [x])
  {
    TotalAppend(Same(), xs, x);
    TotalAppend(Square(), xs, x);
    assert Sum(xs + [x]) == Sum(xs) + x && SumSquares(xs + [x]) == SumSquares(xs) + x * x;
    hide Sum, SumSquares, WelfordAdd, Spread;
    SpreadAdds(w, |xs| as real, Sum(xs), SumSquares(xs), x);
  }

  lemma SpreadAdds(w: Welford, n: real, s: real, q: real, x: real)
    requires Spread(w, n, s, q) && n >= 0.0
    ensures Spread(WelfordAdd(w, x), n + 1.0, s + x, q + x * x)
  {
    hide Over;
    OneMoreMean(w.mean, n, x);
    OneMoreSquare(w.mean, WelfordAdd(w, x).mean, n, s, q, x);
  }

  lemma OneMoreMean(mean: real, n: real, x: real)
    requires n + 1.0 != 0.0
    ensures (mean + Over(x - mean, n + 1.0)) * (n + 1.0) == mean * n + x
  {
    OverTimes(x - mean, n + 1.0);
    hide Over;
    var d := Over(x - mean, n + 1.0);
    assert (mean + d) * (n + 1.0) == mean * n + mean + d * (n + 1.0);
  }

  lemma OneMoreSquare(mean: real, mean': real, n: real, s: real, q: real, x: real)
    requires mean * n == s && mean' * (n + 1.0) == s + x
    ensures q - mean * s + (x - mean) * (x - mean') == q + x * x - mean' * (s + x)
  {
    assert mean' * (mean + s) == mean' * (mean * (n + 1.0));
    assert mean' * (mean * (n + 1.0)) == mean * (mean' * (n + 1.0));
    assert mean' * (mean + s) == mean * (s + x);
    assert (x - mean) * (x - mean') == x * x - x * mean' - mean * x + mean * mean';
  }

  lemma WelfordMerges(inf: real -> bool, finite: real -> bool, w: Welford, xs: seq<real>, other: Welford, ys: seq<real>)
    requires WelfordOf(w, xs) && WelfordOf(other, ys)
    ensures WelfordOf(WelfordMerge(inf, finite, w, other), xs + ys)
  {
    Counts(w, xs);
    Counts(other, ys);
    if ys == [] {
      assert xs + ys == xs;
    } else if xs == [] {
      assert xs + ys == ys;
    } else {
      hide *;
      BranchesAgree(inf, finite, w, other);
      ChanJoins(inf, finite, w, xs, other, ys);
    }
  }

  /** Replaying the one value of a singleton is what Chan's formula gives, so
      which branch a merge of two inhabited states takes does not matter. */
  lemma BranchesAgree(inf: real -> bool, finite: real -> bool, w: Welford, other: Welford)
    requires w.count > 0.0 && other.count > 0.0
    ensures WelfordMerge(inf, finite, w, other) == ChanMerge(inf, finite, w, other)
  {
    if other.count == 1.0 && other.m2 == 0.0 { ReplayIsChan(inf, finite, w, other); }
  }

  lemma ReplayIsChan(inf: real -> bool, finite: real -> bool, w: Welford, other: Welford)
    requires w.count > 0.0 && other.count == 1.0 && other.m2 == 0.0
    ensures ChanMerge(inf, finite, w, other) == WelfordAdd(w, other.mean)
  {
    var n, delta := w.count, other.mean - w.mean;
    var k := n + 1.0;
    CorrectionIs(inf, finite, delta, Weight(n, 1.0));
    OverTimes(1.0, k);
    OverTimes(n, k);
    OverTimes(delta, k);
    hide Over, Correction;
    var one, most, part := Over(1.0, k), Over(n, k), Over(delta, k);
    Cancel(delta * one, part, k);
    assert delta * (delta - part) == delta * delta * most by {
      assert (delta - part) * k == (delta * most) * k by { assert (delta * most) * k == delta * (most * k); }
      Cancel(delta - part, delta * most, k);
    }
  }

  lemma Counts(w: Welford, xs: seq<real>)
    requires WelfordOf(w, xs)
    ensures w.count == |xs| as real
  {
  }

  lemma ChanJoins(inf: real -> bool, finite: real -> bool, w: Welford, xs: seq<real>, other: Welford, ys: seq<real>)
    requires WelfordOf(w, xs) && WelfordOf(other, ys) && xs != [] && ys != []
    ensures WelfordOf(ChanMerge(inf, finite, w, other), xs + ys)
  {
    TotalConcat(Same(), xs, ys);
    TotalConcat(Square(), xs, ys);
    assert Sum(xs + ys) == Sum(xs) + Sum(ys) && SumSquares(xs + ys) == SumSquares(xs) + SumSquares(ys);
    hide Sum, SumSquares, ChanMerge, Spread;
    Counts(w, xs);
    Counts(other, ys);
    SpreadMerges(inf, finite, w, Sum(xs), SumSquares(xs), other, Sum(ys), SumSquares(ys));
    assert |xs + ys| as real == |xs| as real + |ys| as real;
  }

  /** Chan's formula, whichever way the correction is associated. */
  lemma SpreadMerges(inf: real -> bool, finite: real -> bool, w: Welford, s: real, p: real, other: Welford, t: real,
                     q: real)
    requires w.count > 0.0 && other.count > 0.0
    requires Spread(w, w.count, s, p) && Spread(other, other.count, t, q)
    ensures Spread(ChanMerge(inf, finite, w, other), w.count + other.count, s + t, p + q)
  {
    hide ChanMerge;
    ChanMerges(inf, finite, w, other, s, t);
  }

  lemma ChanMerges(inf: real -> bool, finite: real -> bool, w: Welford, other: Welford, s: real, t: real)
    requires w.count > 0.0 && other.count > 0.0 && w.mean * w.count == s && other.mean * other.count == t
    ensures var r := ChanMerge(inf, finite, w, other);
            && r.count == w.count + other.count
            && r.mean * r.count == s + t
            && r.m2 == w.m2 + other.m2 + w.mean * s + other.mean * t - r.mean * (s + t)
  {
    hide Over, Correction, Weight;
    var a, n, b, k := w.mean, w.count, other.mean, other.count;
    ChanMean(a, n, b, k);
    Chan(inf, finite, a, n, b, k, b - a, a + (b - a) * Over(k, n + k));
  }

  lemma Chan(inf: real -> bool, finite: real -> bool, a: real, n: real, b: real, k: real, delta: real, mean: real)
    requires n + k != 0.0 && delta == b - a && mean * (n + k) == a * n + b * k
    ensures Correction(inf, finite, delta, Weight(n, k)) == a * (a * n) + b * (b * k) - mean * (a * n + b * k)
  {
    hide Over, Correction;
    CorrectionIs(inf, finite, delta, Weight(n, k));
    ChanSquare(a, n, b, k, delta, mean);
  }

  lemma ChanMean(a: real, n: real, b: real, k: real)
    requires n + k != 0.0
    ensures (a + (b - a) * Over(k, n + k)) * (n + k) == a * n + b * k
  {
    OverTimes(k, n + k);
    hide Over;
    var p := Over(k, n + k);
    assert (a + (b - a) * p) * (n + k) == a * (n + k) + (b - a) * (p * (n + k));
  }

  /** The two spreads and the gap between their means are the joint spread. */
  lemma ChanSquare(a: real, n: real, b: real, k: real, delta: real, mean: real)
    requires n + k != 0.0 && delta == b - a && mean * (n + k) == a * n + b * k
    ensures a * (a * n) + b * (b * k) - delta * delta * Over(n * k, n + k) == mean * (a * n + b * k)
  {
    var t := n + k;
    OverTimes(n * k, t);
    hide Over;
    var w, d, s := Over(n * k, t), delta * delta, a * n + b * k;
    var left, right := a * (a * n) + b * (b * k) - d * w, mean * s;
    Expand(a, n, b, k);
    assert left * t == (a * (a * n) + b * (b * k)) * t - d * (w * t);
    assert right * t == s * s by { assert mean * s * t == (mean * t) * s; }
    Cancel(left, right, t);
  }

  lemma Expand(a: real, n: real, b: real, k: real)
    ensures (a * (a * n) + b * (b * k)) * (n + k) - (b - a) * (b - a) * (n * k) == (a * n + b * k) * (a * n + b * k)
  {
    var aa, bb, ab, nk := a * a, b * b, a * b, n * k;
    assert (b - a) * (b - a) == bb - 2.0 * ab + aa;
    assert (a * (a * n)) * (n + k) == aa * (n * n) + aa * nk;
    assert (b * (b * k)) * (n + k) == bb * nk + bb * (k * k);
    assert (bb - 2.0 * ab + aa) * nk == bb * nk - 2.0 * (ab * nk) + aa * nk;
    assert (a * n) * (a * n) == aa * (n * n) && (b * k) * (b * k) == bb * (k * k) && (a * n) * (b * k) == ab * nk;
    assert (a * n + b * k) * (a * n + b * k) == (a * n) * (a * n) + 2.0 * ((a * n) * (b * k)) + (b * k) * (b * k);
  }

  lemma Cancel(x: real, y: real, t: real)
    requires t != 0.0 && x * t == y * t
    ensures x == y
  {
    assert (x - y) * t == 0.0;
  }

  // ── Any tree of additions and merges ──

  /** How a state came about, from nothing. */
  datatype Tree = Empty | Add(before: Tree, x: real) | Merge(left: Tree, right: Tree)

  function Flattened(t: Tree): seq<real> {
    match t
    case Empty => []
    case Add(before, x) => Flattened(before) + [x]
    case Merge(left, right) => Flattened(left) + Flattened(right)
  }

  function SumState(inf: real -> bool, t: Tree): KahanSum {
    match t
    case Empty => KahanSum(0.0, 0.0)
    case Add(before, x) => KahanInc(inf, x, SumState(inf, before))
    case Merge(left, right) => KahanMerge(inf, SumState(inf, left), SumState(inf, right))
  }

  function MeanState(inf: real -> bool, t: Tree): Mean {
    match t
    case Empty => NO_MEAN
    case Add(before, x) => MeanAdd(inf, MeanState(inf, before), x)
    case Merge(left, right) => MeanMerge(inf, MeanState(inf, left), MeanState(inf, right))
  }

  function WelfordState(inf: real -> bool, finite: real -> bool, t: Tree): Welford {
    match t
    case Empty => NO_VARIANCE
    case Add(before, x) => WelfordAdd(WelfordState(inf, finite, before), x)
    case Merge(left, right) =>
      WelfordMerge(inf, finite, WelfordState(inf, finite, left), WelfordState(inf, finite, right))
  }

  lemma {:induction false} SumTree(inf: real -> bool, t: Tree)
    ensures SumOf(SumState(inf, t), Flattened(t))
  {
    match t
    case Empty =>
    case Add(before, x) =>
      SumTree(inf, before);
      SumAdds(inf, SumState(inf, before), Flattened(before), x);
    case Merge(left, right) =>
      SumTree(inf, left);
      SumTree(inf, right);
      SumMerges(inf, SumState(inf, left), Flattened(left), SumState(inf, right), Flattened(right));
  }

  /** At whatever additions and merges a mean turns incremental. */
  lemma {:induction false} MeanTree(inf: real -> bool, t: Tree)
    ensures MeanOf(MeanState(inf, t), Flattened(t))
  {
    hide MeanAdd, MeanMerge;
    match t
    case Empty =>
    case Add(before, x) =>
      MeanTree(inf, before);
      hide MeanOf;
      MeanAdds(inf, MeanState(inf, before), Flattened(before), x);
    case Merge(left, right) =>
      MeanTree(inf, left);
      MeanTree(inf, right);
      hide MeanOf;
      MeanMerges(inf, MeanState(inf, left), Flattened(left), MeanState(inf, right), Flattened(right));
  }

  /** So it is the average of what went into it. */
  lemma AverageTree(inf: real -> bool, t: Tree)
    requires Flattened(t) != []
    ensures MeanResult(MeanState(inf, t)) == Over(Sum(Flattened(t)), |Flattened(t)| as real)
  {
    MeanTree(inf, t);
    MeanGives(MeanState(inf, t), Flattened(t));
  }

  /** Whether singletons are replayed or combined. */
  lemma {:induction false} WelfordTree(inf: real -> bool, finite: real -> bool, t: Tree)
    ensures WelfordOf(WelfordState(inf, finite, t), Flattened(t))
  {
    hide WelfordAdd, WelfordMerge;
    match t
    case Empty =>
    case Add(before, x) =>
      WelfordTree(inf, finite, before);
      hide WelfordOf;
      WelfordAdds(WelfordState(inf, finite, before), Flattened(before), x);
    case Merge(left, right) =>
      WelfordTree(inf, finite, left);
      WelfordTree(inf, finite, right);
      hide WelfordOf;
      WelfordMerges(inf, finite, WelfordState(inf, finite, left), Flattened(left),
                    WelfordState(inf, finite, right), Flattened(right));
  }

  /** The running variance of any tree is the one-pass population variance of
      what went into it. */
  lemma VarianceTree(inf: real -> bool, finite: real -> bool, t: Tree)
    requires Flattened(t) != []
    ensures var w, xs := WelfordState(inf, finite, t), Flattened(t);
            && w.count == |xs| as real
            && w.mean == Over(Sum(xs), |xs| as real)
            && w.m2 == SquaredDeviations(w.mean, xs)
            && Variance(w) == Over(SquaredDeviations(Over(Sum(xs), |xs| as real), xs), |xs| as real)
  {
    var w, xs := WelfordState(inf, finite, t), Flattened(t);
    WelfordTree(inf, finite, t);
    Counts(w, xs);
    VarianceGives(w, xs);
  }
}
