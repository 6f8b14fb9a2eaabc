/** The operator over every pair at once, end to end, and cut back into series. */
module Evaluation {
  import opened Series
  import opened Grids
  import opened Ordering
  import opened Matching
  import opened Pairings

  /** Float arithmetic and comparison, left uninterpreted, and the scores of a
      `bool` comparison. */
  datatype Machine = Machine(arithmetic: (Op, Value, Value) -> Value, compare: (Op, Value, Value) -> bool, one: Value,
                             zero: Value)

  /** `Op::value`: one pair of floats, none where a comparison filters it out. */
  function OpValue(m: Machine, c: Config, lhs: Value, rhs: Value): Option<Value> {
    if !IsComparison(c.op) then Some(m.arithmetic(c.op, lhs, rhs))
    else
      var keep := m.compare(c.op, lhs, rhs);
      if c.returnBool then Some(if keep then m.one else m.zero)
      else if keep then Some(lhs) else None
  }

  /** What a pair, or a kept sample, comes to. */
  function PairValue(m: Machine, c: Config, p: Paired): Option<Value> {
    match p.operands
    case Both(lhs, rhs) => OpValue(m, c, lhs, rhs)
    case Kept(v) => Some(v)
  }

  function ValueOf(m: Machine, c: Config, p: Paired): seq<Sample> {
    match PairValue(m, c, p) case Some(v) => [Sample(p.t, v)] case None => []
  }

  /** A series' samples, pair by pair. */
  function Computed(m: Machine, c: Config, samples: seq<Paired>): seq<Sample> {
    if samples == [] then [] else Computed(m, c, samples[..|samples| - 1]) + ValueOf(m, c, samples[|samples| - 1])
  }

  datatype Answered = Answered(labels: Labels, samples: seq<Sample>)

  /** A series for each bucket the operator leaves something in. */
  function Evaluated(m: Machine, c: Config, out: seq<Output>): seq<Answered> {
    if out == [] then []
    else
      var last := out[|out| - 1];
      var samples := Computed(m, c, last.samples);
      Evaluated(m, c, out[..|out| - 1]) + (if samples == [] then [] else [Answered(last.labels, samples)])
  }

  lemma {:induction false} ComputedConcat(m: Machine, c: Config, a: seq<Paired>, b: seq<Paired>)
    ensures Computed(m, c, a + b) == Computed(m, c, a) + Computed(m, c, b)
    decreases |b|
  {
    hide ValueOf;
    if b == [] {
      assert a + b == a;
    } else {
      var n := |b| - 1;
      assert (a + b)[..|a + b| - 1] == a + b[..n];
      ComputedConcat(m, c, a, b[..n]);
    }
  }

  function LengthsOf(m: Machine, c: Config, out: seq<Output>): seq<nat> {
    seq(|out|, i requires 0 <= i < |out| => |Computed(m, c, out[i].samples)|)
  }

  /** Elementwise: where the comparison holds, or what the operator gives. */
  function Holds(m: Machine, c: Config, p: Paired): bool {
    p.operands.Kept? || m.compare(c.op, p.operands.lhs, p.operands.rhs)
  }

  /** The kept pairs of a filtering comparison, with their left operands. */
  method Filtered(m: Machine, c: Config, lanes: seq<Paired>, holds: seq<bool>) returns (kept: seq<Sample>)
    requires IsComparison(c.op) && !c.returnBool && |holds| == |lanes|
    requires forall i :: 0 <= i < |lanes| ==> lanes[i].operands.Both? && holds[i] == Holds(m, c, lanes[i])
    ensures kept == Computed(m, c, lanes)
  {
    kept := [];
    for i := 0 to |lanes|
      invariant kept == Computed(m, c, lanes[..i])
    {
      assert lanes[..i + 1][..i] == lanes[..i];
      if holds[i] { kept := kept + [Sample(lanes[i].t, lanes[i].operands.lhs)]; }
    }
    assert lanes[..|lanes|] == lanes;
  }

  /** `count_set_bits` of a slice. */
  method CountHolds(m: Machine, c: Config, holds: seq<bool>, from: nat, samples: seq<Paired>) returns (kept: nat)
    requires IsComparison(c.op) && !c.returnBool && from + |samples| <= |holds|
    requires forall i :: 0 <= i < |samples| ==> samples[i].operands.Both? && holds[from + i] == Holds(m, c, samples[i])
    ensures kept == |Computed(m, c, samples)|
  {
    kept := 0;
    for i := 0 to |samples|
      invariant kept == |Computed(m, c, samples[..i])|
    {
      assert samples[..i + 1][..i] == samples[..i];
      if holds[from + i] { kept := kept + 1; }
    }
    assert samples[..|samples|] == samples;
  }

  /** The operator over whole lanes, where it filters nothing. */
  method Kernel(m: Machine, c: Config, lanes: seq<Paired>) returns (values: seq<Sample>)
    requires IsSet(c.op) || !IsComparison(c.op) || c.returnBool
    ensures values == Computed(m, c, lanes) && |values| == |lanes|
  {
    values := [];
    for i := 0 to |lanes|
      invariant values == Computed(m, c, lanes[..i]) && |values| == i
    {
      assert lanes[..i + 1][..i] == lanes[..i];
      values := values + [Sample(lanes[i].t, PairValue(m, c, lanes[i]).value)];
    }
    assert lanes[..|lanes|] == lanes;
  }

  lemma {:induction false} KernelLength(m: Machine, c: Config, samples: seq<Paired>)
    requires IsSet(c.op) || !IsComparison(c.op) || c.returnBool
    ensures |Computed(m, c, samples)| == |samples|
  {
    if samples != [] { KernelLength(m, c, samples[..|samples| - 1]); }
  }

  /** Everything the first `n` buckets hold. */
  ghost function LanesTo(out: seq<Output>, n: nat): seq<Paired>
    requires n <= |out|
  {
    if n == 0 then [] else LanesTo(out, n - 1) + out[n - 1].samples
  }

  lemma {:induction false} LanesSlice(out: seq<Output>, i: nat, n: nat)
    requires i < n <= |out|
    ensures |LanesTo(out, i)| + |out[i].samples| <= |LanesTo(out, n)|
    ensures LanesTo(out, n)[|LanesTo(out, i)|..|LanesTo(out, i)| + |out[i].samples|] == out[i].samples
    decreases n
  {
    if i < n - 1 { LanesSlice(out, i, n - 1); }
  }

  ghost predicate Shaped(c: Config, out: seq<Output>) {
    !IsSet(c.op) ==> forall i, j :: 0 <= i < |out| && 0 <= j < |out[i].samples| ==> out[i].samples[j].operands.Both?
  }

  /** How many samples each bucket keeps. */
  method Lengths(m: Machine, c: Config, out: seq<Output>, holds: seq<bool>) returns (lengths: seq<nat>)
    requires Shaped(c, out) && IsComparison(c.op) && !c.returnBool && |holds| == |LanesTo(out, |out|)|
    requires forall i :: 0 <= i < |holds| ==> holds[i] == Holds(m, c, LanesTo(out, |out|)[i])
    ensures lengths == LengthsOf(m, c, out)
  {
    hide Holds, Computed;
    lengths := [];
    var from := 0;
    for i := 0 to |out|
      invariant |lengths| == i && from == |LanesTo(out, i)|
      invariant forall j :: 0 <= j < i ==> lengths[j] == |Computed(m, c, out[j].samples)|
    {
      LanesSlice(out, i, |out|);
      assert forall j :: 0 <= j < |out[i].samples| ==>
               LanesTo(out, |out|)[from..from + |out[i].samples|][j] == out[i].samples[j];
      var kept := CountHolds(m, c, holds, from, out[i].samples);
      lengths := lengths + [kept];
      from := from + |out[i].samples|;
    }
  }

  lemma {:induction false} ComputedTo(m: Machine, c: Config, out: seq<Output>, n: nat)
    requires n < |out|
    ensures Computed(m, c, LanesTo(out, n + 1)) == Computed(m, c, LanesTo(out, n)) + Computed(m, c, out[n].samples)
  {
    ComputedConcat(m, c, LanesTo(out, n), out[n].samples);
  }

  lemma {:induction false} ComputedPrefix(m: Machine, c: Config, out: seq<Output>, n: nat, k: nat)
    requires n <= k <= |out|
    ensures Computed(m, c, LanesTo(out, n)) <= Computed(m, c, LanesTo(out, k))
    decreases k
  {
    hide Computed, LanesTo;
    if n < k {
      ComputedPrefix(m, c, out, n, k - 1);
      ComputedTo(m, c, out, k - 1);
    }
  }

  /** The flat samples cut by the kept lengths; a bucket that kept nothing is
      no series. */
  method Cut(m: Machine, c: Config, out: seq<Output>, flat: seq<Sample>, lengths: seq<nat>)
    returns (series: seq<Answered>)
    requires flat == Computed(m, c, LanesTo(out, |out|)) && lengths == LengthsOf(m, c, out)
    ensures series == Evaluated(m, c, out)
  {
    hide Computed;
    series := [];
    var from := 0;
    ComputedNone(m, c);
    for i := 0 to |out|
      invariant from == |Computed(m, c, LanesTo(out, i))| <= |flat|
      invariant series == Evaluated(m, c, out[..i])
    {
      ComputedTo(m, c, out, i);
      ComputedPrefix(m, c, out, i + 1, |out|);
      assert out[..i + 1][..i] == out[..i];
      SliceAfter(Computed(m, c, LanesTo(out, i)), Computed(m, c, out[i].samples), flat);
      if lengths[i] > 0 { series := series + [Answered(out[i].labels, flat[from..from + lengths[i]])]; }
      from := from + lengths[i];
    }
    assert out[..|out|] == out;
  }

  lemma SliceAfter<T>(a: seq<T>, b: seq<T>, whole: seq<T>)
    requires a + b <= whole
    ensures whole[|a|..|a| + |b|] == b
  {
  }

  lemma ComputedNone(m: Machine, c: Config)
    ensures Computed(m, c, []) == []
  {
  }

  /** The pairs of all series go through the operator as one lane, and each
      series gets back what its own come to. */
  method Evaluate(m: Machine, c: Config, out: seq<Output>) returns (series: seq<Answered>)
    requires Shaped(c, out)
    ensures series == Evaluated(m, c, out)
  {
    hide Computed, Holds;
    var lanes := [];
    for i := 0 to |out|
      invariant lanes == LanesTo(out, i)
    {
      lanes := lanes + out[i].samples;
    }
    if IsComparison(c.op) && !c.returnBool {
      LanesShaped(c, out, |out|);
      var holds := seq(|lanes|, i requires 0 <= i < |lanes| => Holds(m, c, lanes[i]));
      var lengths := Lengths(m, c, out, holds);
      var kept := Filtered(m, c, lanes, holds);
      series := Cut(m, c, out, kept, lengths);
    } else {
      var values := Kernel(m, c, lanes);
      forall i | 0 <= i < |out|
        ensures |Computed(m, c, out[i].samples)| == |out[i].samples|
      {
        KernelLength(m, c, out[i].samples);
      }
      var lengths := seq(|out|, i requires 0 <= i < |out| => |out[i].samples|);
      assert lengths == LengthsOf(m, c, out);
      series := Cut(m, c, out, values, lengths);
    }
  }

  lemma {:induction false} LanesShaped(c: Config, out: seq<Output>, n: nat)
    requires Shaped(c, out) && !IsSet(c.op) && n <= |out|
    ensures forall i :: 0 <= i < |LanesTo(out, n)| ==> LanesTo(out, n)[i].operands.Both?
  {
    if n > 0 { LanesShaped(c, out, n - 1); }
  }

  /** What the matching answers is a pair of operands for each sample. */
  lemma AnswerShaped(c: Config, g: Grid, v: View, out: seq<Output>)
    requires |v.one| == g.len && Answers(c, g, v, Ok(out))
    ensures Shaped(c, out)
  {
    if !IsSet(c.op) {
      hide PairAt;
      forall i | 0 <= i < |out| ensures forall j :: 0 <= j < |out[i].samples| ==> out[i].samples[j].operands.Both? {
        SamplesPair(c, g, v, out[i].labels, g.len);
      }
    }
  }

  lemma {:induction false} SamplesPair(c: Config, g: Grid, v: View, x: Labels, n: nat)
    ensures forall j :: 0 <= j < |SamplesTo(g, PairAt(c, v), x, n)| ==>
              SamplesTo(g, PairAt(c, v), x, n)[j].operands.Both?
  {
    hide Timestamp, Pairs, PairLabels;
    if n > 0 { SamplesPair(c, g, v, x, n - 1); }
  }

  /** `evaluate`: the matching's failure, or the operator over its pairs. */
  method EvaluateGroup(m: Machine, p: Pairing) returns (r: Result, series: seq<Answered>)
    requires p.Valid()
    ensures |p.Holds().one| == p.grid.len && Answers(p.c, p.grid, p.Holds(), r)
    ensures r.Ok? ==> series == Evaluated(m, p.c, r.out)
  {
    hide Answers, Evaluated, Shaped;
    series := [];
    r := p.Answer();
    if r.Ok? {
      AnswerShaped(p.c, p.grid, p.Holds(), r.out);
      series := Evaluate(m, p.c, r.out);
    }
  }
}
