/** Runs folded into parallel lanes and a bitmap, against the same runs folded
    into a span of whole states. */
module LaneRuns {
  import opened Series
  import opened Spans
  import opened Stats
  import opened Operators
  import opened Lanes

  // ── A run at once ──

  /** Each index of a run takes its own value, and the others none. */
  lemma {:induction false} FoldRunAt<S, X>(step: (Option<S>, X) -> S, m: map<nat, S>, index: nat, xs: seq<X>, i: nat)
    ensures Held(FoldRun(step, m, index, xs), i) ==
            if index <= i < index + |xs| then Some(step(Held(m, i), xs[i - index])) else Held(m, i)
  {
    if xs != [] { FoldRunAt(step, m, index, xs[..|xs| - 1], i); }
  }

  function HeldAt<S>(l: Lane<S>, p: nat): Option<S>
    requires Sized(l) && p < |l.seen|
  {
    if l.seen[p] then Some(l.states[p]) else None
  }

  /** Positions from `at` on have each taken their value; no other changed. */
  ghost predicate Taken<S, X>(step: (Option<S>, X) -> S, l: Lane<S>, l': Lane<S>, at: nat, xs: seq<X>) {
    && Sized(l) && Sized(l') && l'.first == l.first && l'.start == l.start && |l'.seen| == |l.seen|
    && forall p :: 0 <= p < |l.seen| ==>
         HeldAt(l', p) == (if at <= p < at + |xs| then Some(step(HeldAt(l, p), xs[p - at])) else HeldAt(l, p)) &&
         (!l'.seen[p] ==> l'.states[p] == l.states[p])
  }

  /** So the span holds what folding the run gives. */
  lemma TakenFolds<S, X>(step: (Option<S>, X) -> S, l: Lane<S>, l': Lane<S>, at: nat, xs: seq<X>, blank: S)
    requires Clean(l, blank) && l.start <= at && at + |xs| <= |l.seen| && Taken(step, l, l', at, xs)
    ensures Clean(l', blank) && Sized(l') && Sized(l)
    ensures Contents(l') == FoldRun(step, Contents(l), l.first + at - l.start, xs)
  {
    forall p | 0 <= p < |l.seen| && !l'.seen[p] ensures !l.seen[p] { assert HeldAt(l', p) == None; }
    var m := FoldRun(step, Contents(l), l.first + at - l.start, xs);
    hide Contents;
    forall i: nat ensures Held(Contents(l'), i) == Held(m, i) {
      ContentsAt(l, i);
      ContentsAt(l', i);
      FoldRunAt(step, Contents(l), l.first + at - l.start, xs, i);
      if l.first <= i < l.first + Width(l) {
        var p := l.start + i - l.first;
        assert HeldAt(l', p) == if at <= p < at + |xs| then Some(step(HeldAt(l, p), xs[p - at])) else HeldAt(l, p);
      }
    }
    SameHeld(Contents(l'), m);
  }

  lemma SameHeld<S>(m: map<nat, S>, m': map<nat, S>)
    requires forall i: nat :: Held(m, i) == Held(m', i)
    ensures m == m'
  {
    forall i: nat ensures i in m <==> i in m' {
      assert Held(m, i) == Held(m', i);
    }
    forall i: nat | i in m ensures m[i] == m'[i] {
      assert Held(m, i) == Held(m', i);
    }
  }

  // ── Lanes as spans ──

  function VarianceLane(first: nat, start: nat, bits: seq<bool>, means: seq<real>, m2s: seq<real>,
                        counts: seq<real>): Lane<Welford>
    requires |means| == |m2s| == |counts|
  {
    Lane(first, start, bits, seq(|means|, i requires 0 <= i < |means| => WelfordAt(means, m2s, counts, i)))
  }

  function SumsIn(sums: seq<real>, comps: seq<real>): seq<KahanSum>
    requires |sums| == |comps|
  {
    seq(|sums|, i requires 0 <= i < |sums| => SumAt(sums, comps, i))
  }

  function SumLane(first: nat, start: nat, bits: seq<bool>, sums: seq<real>, comps: seq<real>): Lane<KahanSum>
    requires |sums| == |comps|
  {
    Lane(first, start, bits, SumsIn(sums, comps))
  }

  function MeanLane(first: nat, start: nat, bits: seq<bool>, values: seq<real>, comps: seq<real>, counts: seq<real>,
                    flags: seq<bool>): Lane<Mean>
    requires |values| == |comps| == |counts| == |flags|
  {
    Lane(first, start, bits, seq(|values|, i requires 0 <= i < |values| => MeanAt(values, comps, counts, flags, i)))
  }

  // ── Adding and merging a run ──

  /** `Span::add_run` for a variance: the kernel over the lanes, and the run
      marked in the bitmap. */
  method AddVariances(inf: real -> bool, finite: real -> bool, means: array<real>, m2s: array<real>,
                      counts: array<real>, bits: array<bool>, ghost first: nat, start: nat, at: nat, values: seq<real>)
    requires means != m2s && m2s != counts && counts != means
    requires means.Length == m2s.Length == counts.Length == bits.Length
    requires Clean(VarianceLane(first, start, bits[..], means[..], m2s[..], counts[..]), NO_VARIANCE)
    requires start <= at && at + |values| <= bits.Length
    modifies means, m2s, counts, bits
    ensures var l, l' := old(VarianceLane(first, start, bits[..], means[..], m2s[..], counts[..])),
                         VarianceLane(first, start, bits[..], means[..], m2s[..], counts[..]);
            && Clean(l', NO_VARIANCE) && Sized(l) && Sized(l')
            && Contents(l') == FoldRun(AddStep(VarianceOps(inf, finite)), Contents(l), first + at - start, values)
  {
    hide WelfordAdd, Contents, FoldRun;
    ghost var l := VarianceLane(first, start, bits[..], means[..], m2s[..], counts[..]);
    SetRun(bits, at, at + |values|);
    WelfordAddEach(means, m2s, counts, at, values);
    ghost var l' := VarianceLane(first, start, bits[..], means[..], m2s[..], counts[..]);
    TakenFolds(AddStep(VarianceOps(inf, finite)), l, l', at, values, NO_VARIANCE);
  }

  /** Where positions from `at` on stop being all seen, or all unseen. */
  method StretchEnd(bits: array<bool>, at: nat, until: nat, bit: bool) returns (end: nat)
    requires at < until <= bits.Length && bits[at] == bit
    ensures at < end <= until
    ensures forall i :: at <= i < end ==> bits[i] == bit
  {
    end := at + 1;
    while end < until && bits[end] == bit
      invariant at < end <= until && forall i :: at <= i < end ==> bits[i] == bit
    {
      end := end + 1;
    }
  }

  /** `copy_from_slice`. */
  method CopyEach<T(==)>(lane: array<T>, at: nat, values: seq<T>)
    requires at + |values| <= lane.Length
    modifies lane
    ensures forall i :: 0 <= i < lane.Length ==>
              lane[i] == if at <= i < at + |values| then values[i - at] else old(lane[i])
  {
    forall i | at <= i < at + |values| {
      lane[i] := values[i - at];
    }
  }

  /** One stretch of a sum's run: merged where seen, copied where not. */
  method MergeSumStretch(inf: real -> bool, sums: array<real>, comps: array<real>, bits: array<bool>, at: nat,
                         seen: bool, otherSums: seq<real>, otherComps: seq<real>)
    requires sums != comps && sums.Length == comps.Length == bits.Length && |otherSums| == |otherComps|
    requires at + |otherSums| <= bits.Length && forall p :: at <= p < at + |otherSums| ==> bits[p] == seen
    modifies sums, comps, bits
    ensures Elsewhere(old(sums[..]), sums[..], at, |otherSums|) && Elsewhere(old(comps[..]), comps[..], at, |otherSums|)
    ensures forall p :: 0 <= p < bits.Length ==> bits[p] == (old(bits[p]) || at <= p < at + |otherSums|)
    ensures forall p :: at <= p < at + |otherSums| ==>
              SumAt(sums[..], comps[..], p) ==
              var other := SumAt(otherSums, otherComps, p - at);
              if seen then KahanMerge(inf, SumAt(old(sums[..]), old(comps[..]), p), other) else other
  {
    hide KahanMerge;
    if seen {
      KahanMergeEach(inf, sums, comps, at, otherSums, otherComps);
    } else {
      CopyEach(sums, at, otherSums);
      CopyEach(comps, at, otherComps);
      SetRun(bits, at, at + |otherSums|);
    }
  }

  /** The run's first `k` positions have taken their states, from `l`. */
  ghost predicate SumsTaken(inf: real -> bool, l: Lane<KahanSum>, bits: seq<bool>, sums: seq<real>, comps: seq<real>,
                            at: nat, k: nat, otherSums: seq<real>, otherComps: seq<real>)
  {
    && Sized(l) && |l.seen| == |bits| == |sums| == |comps| && k <= |otherSums| == |otherComps|
    && forall p :: 0 <= p < |bits| ==>
         if at <= p < at + k then
           bits[p] && SumAt(sums, comps, p) == MergeStep(SumOps(inf))(HeldAt(l, p), SumAt(otherSums, otherComps,
               p - at))
         else bits[p] == l.seen[p] && SumAt(sums, comps, p) == l.states[p]
  }

  /** `Span::merge_run` for a sum: stretch by stretch. */
  method MergeSums(inf: real -> bool, sums: array<real>, comps: array<real>, bits: array<bool>, ghost first: nat,
                   start: nat, at: nat, otherSums: seq<real>, otherComps: seq<real>)
    requires sums != comps && sums.Length == comps.Length == bits.Length && |otherSums| == |otherComps|
    requires Clean(SumLane(first, start, bits[..], sums[..], comps[..]), KahanSum(0.0, 0.0))
    requires start <= at && at + |otherSums| <= bits.Length
    modifies sums, comps, bits
    ensures var l, l' := old(SumLane(first, start, bits[..], sums[..], comps[..])),
                         SumLane(first, start, bits[..], sums[..], comps[..]);
            && Clean(l', KahanSum(0.0, 0.0)) && Sized(l) && Sized(l')
            && Contents(l') == FoldRun(MergeStep(SumOps(inf)), Contents(l), first + at - start,
                                       SumsIn(otherSums, otherComps))
  {
    hide KahanMerge, Contents, FoldRun;
    ghost var l := SumLane(first, start, bits[..], sums[..], comps[..]);
    var k, n := 0, |otherSums|;
    while k < n
      invariant SumsTaken(inf, l, bits[..], sums[..], comps[..], at, k, otherSums, otherComps)
    {
      var seen := bits[at + k];
      var end := StretchEnd(bits, at + k, at + n, seen);
      var j := end - at;
      ghost var b, s, c := bits[..], sums[..], comps[..];
      MergeSumStretch(inf, sums, comps, bits, at + k, seen, otherSums[k..j], otherComps[k..j]);
      SumsTakeStretch(inf, l, b, s, c, bits[..], sums[..], comps[..], at, k, j, seen, otherSums, otherComps);
      k := j;
    }
    ghost var l' := SumLane(first, start, bits[..], sums[..], comps[..]);
    SumsAllTaken(inf, l, l', bits[..], sums[..], comps[..], at, otherSums, otherComps);
    TakenFolds(MergeStep(SumOps(inf)), l, l', at, SumsIn(otherSums, otherComps), KahanSum(0.0, 0.0));
  }

  lemma SumsTakeStretch(inf: real -> bool, l: Lane<KahanSum>, b: seq<bool>, s: seq<real>, c: seq<real>, b': seq<bool>,
                        s': seq<real>, c': seq<real>, at: nat, k: nat, j: nat, seen: bool, otherSums: seq<real>,
                        otherComps: seq<real>)
    requires SumsTaken(inf, l, b, s, c, at, k, otherSums, otherComps) && k <= j <= |otherSums| && at + j <= |b|
    requires forall p :: at + k <= p < at + j ==> b[p] == seen
    requires Elsewhere(s, s', at + k, j - k) && Elsewhere(c, c', at + k, j - k) && |b'| == |b|
    requires forall p :: 0 <= p < |b| ==> b'[p] == (b[p] || at + k <= p < at + j)
    requires forall p :: at + k <= p < at + j ==>
               SumAt(s', c', p) ==
               var other := SumAt(otherSums[k..j], otherComps[k..j], p - at - k);
               if seen then KahanMerge(inf, SumAt(s, c, p), other) else other
    ensures SumsTaken(inf, l, b', s', c', at, j, otherSums, otherComps)
  {
    hide KahanMerge;
    forall p | 0 <= p < |b|
      ensures if at <= p < at + j then
                b'[p] && SumAt(s', c', p) == MergeStep(SumOps(inf))(HeldAt(l, p), SumAt(otherSums, otherComps, p - at))
              else b'[p] == l.seen[p] && SumAt(s', c', p) == l.states[p]
    {
      if at + k <= p < at + j {
        assert SumAt(otherSums[k..j], otherComps[k..j], p - at - k) == SumAt(otherSums, otherComps, p - at);
        assert SumAt(s, c, p) == l.states[p] && l.seen[p] == seen;
      } else {
        assert SumAt(s', c', p) == SumAt(s, c, p);
      }
    }
  }

  lemma SumsAllTaken(inf: real -> bool, l: Lane<KahanSum>, l': Lane<KahanSum>, b: seq<bool>, s: seq<real>, c: seq<real>,
                     at: nat, otherSums: seq<real>, otherComps: seq<real>)
    requires SumsTaken(inf, l, b, s, c, at, |otherSums|, otherSums, otherComps)
             && l' == SumLane(l.first, l.start, b, s, c)
    ensures Taken(MergeStep(SumOps(inf)), l, l', at, SumsIn(otherSums, otherComps))
  {
    hide KahanMerge, MergeStep;
  }

  /** `Lanes::merge_run` for an average, on positions already seen; the
      `incremental` flags are a lane of their own. */
  method MergeSeenMeans(inf: real -> bool, values: array<real>, comps: array<real>, counts: array<real>,
                        flags: array<bool>,
                        ghost bits: seq<bool>, ghost first: nat, start: nat, at: nat, other: seq<Mean>)
    requires values != comps && comps != counts && counts != values
    requires values.Length == comps.Length == counts.Length == flags.Length == |bits|
    requires Clean(MeanLane(first, start, bits, values[..], comps[..], counts[..], flags[..]), NO_MEAN)
    requires start <= at && at + |other| <= |bits| && forall p :: at <= p < at + |other| ==> bits[p]
    modifies values, comps, counts, flags
    ensures var l, l' := old(MeanLane(first, start, bits, values[..], comps[..], counts[..], flags[..])),
                         MeanLane(first, start, bits, values[..], comps[..], counts[..], flags[..]);
            && Clean(l', NO_MEAN) && Sized(l) && Sized(l')
            && Contents(l') == FoldRun(MergeStep(AvgOps(inf)), Contents(l), first + at - start, other)
  {
    hide MeanMerge, Contents, FoldRun;
    ghost var l := MeanLane(first, start, bits, values[..], comps[..], counts[..], flags[..]);
    MeanMergeEach(inf, values, comps, counts, flags, at, other);
    ghost var l' := MeanLane(first, start, bits, values[..], comps[..], counts[..], flags[..]);
    TakenFolds(MergeStep(AvgOps(inf)), l, l', at, other, NO_MEAN);
  }
}
