/** The float kernels in place: reductions of a slice to one value, and one
    more value, or one more partial state, at each of a run of positions. */
module Lanes {
  import opened Stats
  import opened Operators

  // ── Reductions ──

  method KahanSumOf(inf: real -> bool, values: seq<real>) returns (s: KahanSum)
    ensures SumOf(s, values)
  {
    s := KahanSum(0.0, 0.0);
    for i := 0 to |values|
      invariant SumOf(s, values[..i])
    {
      SumAdds(inf, s, values[..i], values[i]);
      assert values[..i + 1] == values[..i] + [values[i]];
      s := KahanInc(inf, values[i], s);
    }
    assert values[..|values|] == values;
  }

  method MeanValue(inf: real -> bool, values: seq<real>) returns (mean: real)
    requires values != []
    ensures mean == Over(Sum(values), |values| as real)
  {
    hide MeanOf, MeanAdd, MeanResult, Over;
    var m := NO_MEAN;
    NoMean();
    for i := 0 to |values|
      invariant MeanOf(m, values[..i])
    {
      MeanAdds(inf, m, values[..i], values[i]);
      assert values[..i + 1] == values[..i] + [values[i]];
      m := MeanAdd(inf, m, values[i]);
    }
    assert values[..|values|] == values;
    MeanGives(m, values);
    mean := MeanResult(m);
  }

  lemma KahanExact(inf: real -> bool, inc: real, s: KahanSum)
    requires s.c == 0.0
    ensures KahanInc(inf, inc, s) == KahanSum(s.sum + inc, 0.0)
  {
  }

  /** The recurrence of `Welford` with both its sums compensated. */
  method VarianceOf(inf: real -> bool, values: seq<real>) returns (variance: real)
    requires values != []
    ensures variance == Over(SquaredDeviations(Over(Sum(values), |values| as real), values), |values| as real)
  {
    hide WelfordOf, Over, SquaredDeviations, Sum, KahanInc;
    var count, mean, aux := 0.0, KahanSum(0.0, 0.0), KahanSum(0.0, 0.0);
    NoVariance();
    for i := 0 to |values|
      invariant mean.c == 0.0 == aux.c
      invariant WelfordOf(Welford(mean.sum, aux.sum, count), values[..i])
    {
      var f := values[i];
      WelfordAdds(Welford(mean.sum, aux.sum, count), values[..i], f);
      assert values[..i + 1] == values[..i] + [f];
      ghost var w := WelfordAdd(Welford(mean.sum, aux.sum, count), f);
      count := count + 1.0;
      var delta := f - (mean.sum + mean.c);
      KahanExact(inf, Over(delta, count), mean);
      mean := KahanInc(inf, Over(delta, count), mean);
      var residual := f - (mean.sum + mean.c);
      KahanExact(inf, delta * residual, aux);
      aux := KahanInc(inf, delta * residual, aux);
      assert Welford(mean.sum, aux.sum, count) == w;
    }
    assert values[..|values|] == values;
    VarianceGives(Welford(mean.sum, aux.sum, count), values);
    variance := Over(aux.sum + aux.c, count);
  }

  /** `min_of` and `max_of`: none if empty. */
  method BestValueOf(low: bool, values: seq<Float>) returns (best: Float)
    requires values != []
    ensures BestOf(low, best, values)
  {
    best := values[0];
    for i := 1 to |values|
      invariant BestOf(low, best, values[..i])
    {
      BestJoins(low, best, values[..i], values[i], [values[i]]);
      assert values[..i + 1] == values[..i] + [values[i]];
      best := NanLoses(low, best, values[i]);
    }
    assert values[..|values|] == values;
  }

  // ── Elementwise updates ──

  /** The lanes a sum and its compensation are kept in. */
  function SumAt(sums: seq<real>, comps: seq<real>, i: nat): KahanSum
    requires i < |sums| && i < |comps|
  {
    KahanSum(sums[i], comps[i])
  }

  /** Only positions `at..at + n` may differ. */
  predicate Elsewhere<T(==)>(was: seq<T>, now: seq<T>, at: nat, n: nat) {
    |now| == |was| && forall i :: 0 <= i < |was| && !(at <= i < at + n) ==> now[i] == was[i]
  }

  method KahanMergeEach(inf: real -> bool, sums: array<real>, comps: array<real>, at: nat, otherSums: seq<real>,
                        otherComps: seq<real>)
    requires sums != comps && at + |otherSums| <= sums.Length && at + |otherSums| <= comps.Length
             && |otherComps| == |otherSums|
    modifies sums, comps
    ensures Elsewhere(old(sums[..]), sums[..], at, |otherSums|) && Elsewhere(old(comps[..]), comps[..], at, |otherSums|)
    ensures forall i :: at <= i < at + |otherSums| ==>
              SumAt(sums[..], comps[..], i) ==
              KahanMerge(inf, SumAt(old(sums[..]), old(comps[..]), i), SumAt(otherSums, otherComps, i - at))
  {
    hide KahanInc;
    for k := 0 to |otherSums|
      invariant forall i :: 0 <= i < sums.Length && !(at <= i < at + k) ==> sums[i] == old(sums[i])
      invariant forall i :: 0 <= i < comps.Length && !(at <= i < at + k) ==> comps[i] == old(comps[i])
      invariant forall i :: at <= i < at + k ==>
                  KahanSum(sums[i], comps[i]) ==
                  KahanMerge(inf, KahanSum(old(sums[i]), old(comps[i])),
                             KahanSum(otherSums[i - at], otherComps[i - at]))
    {
      var s := KahanInc(inf, otherSums[k], KahanSum(sums[at + k], comps[at + k]));
      s := KahanInc(inf, otherComps[k], s);
      sums[at + k], comps[at + k] := s.sum, s.c;
    }
  }

  function WelfordAt(means: seq<real>, m2s: seq<real>, counts: seq<real>, i: nat): Welford
    requires i < |means| && i < |m2s| && i < |counts|
  {
    Welford(means[i], m2s[i], counts[i])
  }

  /** Adds a value at each of consecutive positions. */
  method WelfordAddEach(means: array<real>, m2s: array<real>, counts: array<real>, at: nat, values: seq<real>)
    requires means != m2s && m2s != counts && counts != means
    requires at + |values| <= means.Length == m2s.Length == counts.Length
    modifies means, m2s, counts
    ensures Elsewhere(old(means[..]), means[..], at, |values|)
    ensures Elsewhere(old(m2s[..]), m2s[..], at, |values|)
    ensures Elsewhere(old(counts[..]), counts[..], at, |values|)
    ensures forall i :: at <= i < at + |values| ==>
              WelfordAt(means[..], m2s[..], counts[..], i) ==
              WelfordAdd(WelfordAt(old(means[..]), old(m2s[..]), old(counts[..]), i), values[i - at])
  {
    hide Over;
    for k := 0 to |values|
      invariant forall i :: 0 <= i < means.Length && !(at <= i < at + k) ==>
                  means[i] == old(means[i]) && m2s[i] == old(m2s[i]) && counts[i] == old(counts[i])
      invariant forall i :: at <= i < at + k ==>
                  Welford(means[i], m2s[i], counts[i]) ==
                  WelfordAdd(Welford(old(means[i]), old(m2s[i]), old(counts[i])), values[i - at])
    {
      var i := at + k;
      counts[i] := counts[i] + 1.0;
      var delta := values[k] - means[i];
      means[i] := means[i] + Over(delta, counts[i]);
      m2s[i] := m2s[i] + delta * (values[k] - means[i]);
    }
  }

  function MeanAt(values: seq<real>, comps: seq<real>, counts: seq<real>, flags: seq<bool>, i: nat): Mean
    requires i < |values| && i < |comps| && i < |counts| && i < |flags|
  {
    Mean(values[i], comps[i], counts[i], flags[i])
  }

  /** One more partial mean at each position; the flag lane is packed apart,
      and read and written at its own offset. */
  method MeanMergeEach(inf: real -> bool, values: array<real>, comps: array<real>, counts: array<real>,
                       flags: array<bool>, at: nat, other: seq<Mean>)
    requires values != comps && comps != counts && counts != values
    requires at + |other| <= values.Length == comps.Length == counts.Length == flags.Length
    modifies values, comps, counts, flags
    ensures Elsewhere(old(values[..]), values[..], at, |other|) && Elsewhere(old(comps[..]), comps[..], at, |other|)
    ensures Elsewhere(old(counts[..]), counts[..], at, |other|) && Elsewhere(old(flags[..]), flags[..], at, |other|)
    ensures forall i :: at <= i < at + |other| ==>
              MeanAt(values[..], comps[..], counts[..], flags[..], i) ==
              MeanMerge(inf, MeanAt(old(values[..]), old(comps[..]), old(counts[..]), old(flags[..]), i), other[i - at])
  {
    hide MeanMerge;
    for k := 0 to |other|
      invariant forall i :: 0 <= i < values.Length && !(at <= i < at + k) ==>
                  values[i] == old(values[i]) && comps[i] == old(comps[i]) && counts[i] == old(counts[i])
                      && flags[i] == old(flags[i])
      invariant forall i :: at <= i < at + k ==>
                  Mean(values[i], comps[i], counts[i], flags[i]) ==
                  MeanMerge(inf, Mean(old(values[i]), old(comps[i]), old(counts[i]), old(flags[i])), other[i - at])
    {
      var i := at + k;
      var m := MeanMerge(inf, Mean(values[i], comps[i], counts[i], flags[i]), other[k]);
      values[i], comps[i], counts[i], flags[i] := m.value, m.c, m.count, m.incremental;
    }
  }

  // ── Bit runs ──

  /** A range of bits, bytes at a time where it covers them. */
  method SetRun(bits: array<bool>, from: nat, until: nat)
    requires from <= until <= bits.Length
    modifies bits
    ensures forall i :: 0 <= i < bits.Length ==> bits[i] == (old(bits[i]) || from <= i < until)
  {
    var first, last := (from + 7) / 8, until / 8;
    if first >= last {
      SetBits(bits, from, until);
      return;
    }
    SetBits(bits, from, first * 8);
    SetBytes(bits, first, last);
    SetBits(bits, last * 8, until);
  }

  method SetBits(bits: array<bool>, from: nat, until: nat)
    requires from <= until <= bits.Length
    modifies bits
    ensures forall i :: 0 <= i < bits.Length ==> bits[i] == (old(bits[i]) || from <= i < until)
  {
    for i := from to until
      invariant forall j :: 0 <= j < bits.Length ==> bits[j] == (old(bits[j]) || from <= j < i)
    {
      bits[i] := true;
    }
  }

  /** Whole bytes `first..last`. */
  method SetBytes(bits: array<bool>, first: nat, last: nat)
    requires first <= last && last * 8 <= bits.Length
    modifies bits
    ensures forall i :: 0 <= i < bits.Length ==> bits[i] == (old(bits[i]) || first * 8 <= i < last * 8)
  {
    forall i | first * 8 <= i < last * 8 {
      bits[i] := true;
    }
  }
}
