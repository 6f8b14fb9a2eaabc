/** The aggregation operators as accumulator states, and why splitting their
    input changes no finished value. */
module Operators {
  import opened Permutations
  import opened Spans
  import opened Stats
  import opened TwoPhase

  /** A number, or the NaN that any number beats. */
  datatype Float = NaN | Num(r: real)

  predicate Beats(low: bool, x: Float, y: Float) {
    x.Num? && y.Num? && if low then x.r < y.r else x.r > y.r
  }

  /** `min_nan_loses` and, not `low`, its mirror image `max_nan_loses`. */
  function NanLoses(low: bool, current: Float, f: Float): Float {
    if Beats(low, f, current) || current.NaN? then f else current
  }

  /** The best number among the values, NaN only if there is none. */
  ghost predicate BestOf(low: bool, s: Float, xs: seq<Float>) {
    && (s.Num? ==> s in xs)
    && (forall x :: x in xs ==> !Beats(low, x, s) && (x.Num? ==> s.Num?))
  }

  lemma BestJoins(low: bool, s: Float, xs: seq<Float>, t: Float, ys: seq<Float>)
    requires BestOf(low, s, xs) && BestOf(low, t, ys)
    ensures BestOf(low, NanLoses(low, s, t), xs + ys)
  {
  }

  lemma BestIsOne(low: bool, s: Float, xs: seq<Float>, t: Float, ys: seq<Float>)
    requires BestOf(low, s, xs) && BestOf(low, t, ys) && multiset(xs) == multiset(ys)
    ensures s == t
  {
    assert forall x :: x in xs <==> x in multiset(xs);
    assert forall y :: y in ys <==> y in multiset(ys);
  }

  datatype Nothing = Nothing

  function SumOps(inf: real -> bool): Ops<KahanSum, real> {
    Ops(KahanSum(0.0, 0.0), (s: KahanSum, v: real) => KahanInc(inf, v, s),
        (s: KahanSum, t: KahanSum) => KahanMerge(inf, s, t))
  }

  function SumValue(): KahanSum -> real {
    (s: KahanSum) => s.sum + s.c
  }

  function AvgOps(inf: real -> bool): Ops<Mean, real> {
    Ops(NO_MEAN, (s: Mean, v: real) => MeanAdd(inf, s, v), (s: Mean, t: Mean) => MeanMerge(inf, s, t))
  }

  function AvgValue(): Mean -> real {
    (s: Mean) => MeanResult(s)
  }

  function CountOps<V>(): Ops<real, V> {
    Ops(0.0, (n: real, v: V) => n + 1.0, (n: real, o: real) => n + o)
  }

  function CountValue(): real -> real {
    (n: real) => n
  }

  function BestOps(low: bool): Ops<Float, Float> {
    Ops(NaN, (s: Float, v: Float) => NanLoses(low, s, v), (s: Float, t: Float) => NanLoses(low, s, t))
  }

  function BestValue(): Float -> Float {
    (s: Float) => s
  }

  function GroupOps<V>(): Ops<Nothing, V> {
    Ops(Nothing, (s: Nothing, v: V) => s, (s: Nothing, t: Nothing) => s)
  }

  function GroupValue(): Nothing -> real {
    (s: Nothing) => 1.0
  }

  function VarianceOps(inf: real -> bool, finite: real -> bool): Ops<Welford, real> {
    Ops(NO_VARIANCE, (w: Welford, v: real) => WelfordAdd(w, v),
        (w: Welford, o: Welford) => WelfordMerge(inf, finite, w, o))
  }

  /** `stdvar`, and `stddev` with its square root. */
  function VarianceValue(root: real -> real): Welford -> real {
    (w: Welford) => root(Variance(w))
  }

  // ── What each state stands for ──

  ghost function SumStands(): (KahanSum, seq<real>) -> bool {
    (s: KahanSum, xs: seq<real>) => SumOf(s, xs)
  }

  ghost function AvgStands(): (Mean, seq<real>) -> bool {
    (s: Mean, xs: seq<real>) => MeanOf(s, xs)
  }

  ghost function CountStands<V>(): (real, seq<V>) -> bool {
    (n: real, xs: seq<V>) => n == |xs| as real
  }

  ghost function BestStands(low: bool): (Float, seq<Float>) -> bool {
    (s: Float, xs: seq<Float>) => BestOf(low, s, xs)
  }

  ghost function GroupStands<V>(): (Nothing, seq<V>) -> bool {
    (s: Nothing, xs: seq<V>) => true
  }

  ghost function VarianceStands(): (Welford, seq<real>) -> bool {
    (w: Welford, xs: seq<real>) => WelfordOf(w, xs)
  }

  lemma SumIsLawful(inf: real -> bool)
    ensures Lawful(SumOps(inf), SumStands()) && Settles(SumStands(), SumValue())
  {
    hide SumOf, KahanInc, KahanMerge;
    var ops, stands := SumOps(inf), SumStands();
    NoSum();
    forall v: real ensures stands(ops.add(ops.blank, v), [v]) {
      SumAdds(inf, ops.blank, [], v);
      assert [] + [v] == [v];
    }
    forall s, xs, v | stands(s, xs) ensures stands(ops.add(s, v), xs + [v]) { SumAdds(inf, s, xs, v); }
    forall s, xs, t, ys | stands(s, xs) && stands(t, ys)
      ensures stands(ops.merge(s, t), xs + ys)
    {
      SumMerges(inf, s, xs, t, ys);
    }
    forall s, xs, t, ys | stands(s, xs) && stands(t, ys) && multiset(xs) == multiset(ys)
      ensures SumValue()(s) == SumValue()(t)
    {
      SumIs(s, xs);
      SumIs(t, ys);
      TotalPermuted(Same(), xs, ys);
    }
  }

  lemma NoSum()
    ensures SumOf(KahanSum(0.0, 0.0), [])
  {
  }

  lemma SumIs(s: KahanSum, xs: seq<real>)
    requires SumOf(s, xs)
    ensures s.sum + s.c == Total(Same(), xs)
  {
  }

  lemma AvgIsLawful(inf: real -> bool)
    ensures Lawful(AvgOps(inf), AvgStands()) && Settles(AvgStands(), AvgValue())
  {
    hide MeanOf, MeanAdd, MeanMerge, MeanResult, Over;
    var ops, stands := AvgOps(inf), AvgStands();
    NoMean();
    forall v: real ensures stands(ops.add(ops.blank, v), [v]) {
      MeanAdds(inf, ops.blank, [], v);
      assert [] + [v] == [v];
    }
    forall s, xs, v | stands(s, xs) ensures stands(ops.add(s, v), xs + [v]) { MeanAdds(inf, s, xs, v); }
    forall s, xs, t, ys | stands(s, xs) && xs != [] && stands(t, ys) && ys != []
      ensures stands(ops.merge(s, t), xs + ys)
    {
      MeanMerges(inf, s, xs, t, ys);
    }
    forall s, xs, t, ys | stands(s, xs) && stands(t, ys) && xs != [] && multiset(xs) == multiset(ys)
      ensures AvgValue()(s) == AvgValue()(t)
    {
      SameLength(xs, ys);
      MeanGives(s, xs);
      MeanGives(t, ys);
      TotalPermuted(Same(), xs, ys);
    }
  }

  lemma NoMean()
    ensures MeanOf(NO_MEAN, [])
  {
  }

  lemma CountIsLawful<V(!new)>()
    ensures Lawful(CountOps<V>(), CountStands()) && Settles(CountStands<V>(), CountValue())
  {
    forall xs: seq<V>, ys | multiset(xs) == multiset(ys) ensures |xs| == |ys| { SameLength(xs, ys); }
  }

  lemma BestIsLawful(low: bool)
    ensures Lawful(BestOps(low), BestStands(low)) && Settles(BestStands(low), BestValue())
  {
    hide BestOf, NanLoses;
    var ops, stands := BestOps(low), BestStands(low);
    forall v ensures BestOf(low, v, [v]) { OneBest(low, v); }
    forall v ensures stands(ops.add(ops.blank, v), [v]) { NanYields(low, v); }
    forall s, xs, v | stands(s, xs) ensures stands(ops.add(s, v), xs + [v]) { BestJoins(low, s, xs, v, [v]); }
    forall s, xs, t, ys | stands(s, xs) && stands(t, ys)
      ensures stands(ops.merge(s, t), xs + ys)
    {
      BestJoins(low, s, xs, t, ys);
    }
    forall s, xs, t, ys | stands(s, xs) && stands(t, ys) && multiset(xs) == multiset(ys)
      ensures BestValue()(s) == BestValue()(t)
    {
      BestIsOne(low, s, xs, t, ys);
    }
  }

  lemma OneBest(low: bool, v: Float)
    ensures BestOf(low, v, [v])
  {
  }

  lemma NanYields(low: bool, v: Float)
    ensures NanLoses(low, NaN, v) == v
  {
  }

  lemma GroupIsLawful<V(!new)>()
    ensures Lawful(GroupOps<V>(), GroupStands()) && Settles(GroupStands<V>(), GroupValue())
  {
  }

  lemma VarianceIsLawful(inf: real -> bool, finite: real -> bool, root: real -> real)
    ensures Lawful(VarianceOps(inf, finite), VarianceStands()) && Settles(VarianceStands(), VarianceValue(root))
  {
    hide WelfordOf, WelfordAdd, WelfordMerge, Variance;
    var ops, stands := VarianceOps(inf, finite), VarianceStands();
    NoVariance();
    forall v: real ensures stands(ops.add(ops.blank, v), [v]) {
      WelfordAdds(ops.blank, [], v);
      assert [] + [v] == [v];
    }
    forall s, xs, v | stands(s, xs) ensures stands(ops.add(s, v), xs + [v]) { WelfordAdds(s, xs, v); }
    forall s, xs, t, ys | stands(s, xs) && xs != [] && stands(t, ys) && ys != []
      ensures stands(ops.merge(s, t), xs + ys)
    {
      WelfordMerges(inf, finite, s, xs, t, ys);
    }
    forall s, xs, t, ys | stands(s, xs) && stands(t, ys) && xs != [] && multiset(xs) == multiset(ys)
      ensures VarianceValue(root)(s) == VarianceValue(root)(t)
    {
      SameWelford(s, xs, t, ys);
    }
  }

  lemma NoVariance()
    ensures WelfordOf(NO_VARIANCE, [])
  {
  }

  /** A running variance is settled by its values, in any order. */
  lemma SameWelford(w: Welford, xs: seq<real>, o: Welford, ys: seq<real>)
    requires WelfordOf(w, xs) && WelfordOf(o, ys) && xs != [] && multiset(xs) == multiset(ys)
    ensures w == o
  {
    SameLength(xs, ys);
    TotalPermuted(Same(), xs, ys);
    TotalPermuted(Square(), xs, ys);
    var n, s := |xs| as real, Sum(xs);
    assert Sum(ys) == s && SumSquares(ys) == SumSquares(xs);
    hide Sum, SumSquares;
    Stats.Cancel(w.mean, o.mean, n);
  }
}
