/** The kernels' walks under a work budget. Edge and step cursors survive its
    exhaustion; one value's computation is indivisible. */
module Kernels {
  import opened Series
  import opened Params
  import opened Fresh
  import opened Reading

  /** Counts ingestion, edge movement and evaluated steps. */
  class WorkBudget {
    var remaining: nat

    constructor (units: nat)
      ensures remaining == units
    {
      remaining := units;
    }

    method Take() returns (ok: bool)
      modifies this
      ensures ok == (old(remaining) > 0)
      ensures remaining == if ok then old(remaining) - 1 else old(remaining)
    {
      ok := remaining != 0;
      if ok { remaining := remaining - 1; }
    }

    method TakeUpTo(count: nat) returns (taken: nat)
      modifies this
      ensures taken == if count < old(remaining) then count else old(remaining)
      ensures remaining == old(remaining) - taken
    {
      taken := if count < remaining then count else remaining;
      remaining := remaining - taken;
    }

    method AccountKernel(samples: nat)
      modifies this
      ensures remaining == if samples < old(remaining) then old(remaining) - samples else 0
    {
      remaining := if samples < remaining then remaining - samples else 0;
    }
  }

  /** Moves one window edge past the samples at or before `bound`. */
  method WalkEdge(data: seq<Sample>, from: nat, bound: int, budget: WorkBudget) returns (n: nat, ok: bool)
    requires from <= |data| && AtMost(data, from, bound)
    modifies budget
    ensures from <= n <= |data| && AtMost(data, n, bound)
    ensures n - from == old(budget.remaining) - budget.remaining
    ensures if ok then n == |data| || bound < data[n].t else budget.remaining == 0
  {
    n := from;
    while n < |data| && data[n].t <= bound
      invariant from <= n <= |data| && AtMost(data, n, bound)
      invariant n - from == old(budget.remaining) - budget.remaining
    {
      ok := budget.Take();
      if !ok { return; }
      n := n + 1;
    }
    ok := true;
  }

  /** The selector's walk, on indices into the lent slice. */
  method WalkSelector(ctx: Context, data: seq<Sample>, ghost cut: nat, first: nat, from: nat, lastT: int,
                      ghost consumed: seq<Sample>, budget: WorkBudget)
    returns (next: nat, h: nat, out: seq<Sample>)
    requires ctx.kernel.Selector? && ctx.params.step > 0 && Ascending(data) && Ascending(consumed)
    requires first < Steps(ctx) && cut <= from <= |data| && (cut == from ==> from == 0)
    requires SameViews(ctx, consumed, data[cut..], first)
    requires AtMost(data, from, EndAt(ctx.params, first))
    modifies budget
    ensures first <= next <= Steps(ctx) && from <= h <= |data|
    ensures out == Concat(Parts(ctx, consumed), first, next)
    ensures first < next ==> EndAt(ctx.params, next - 1) <= lastT
    ensures next < Steps(ctx) ==> AtMost(data, h, EndAt(ctx.params, next))
    ensures next < Steps(ctx) && EndAt(ctx.params, next) <= lastT ==> budget.remaining == 0
    ensures (next - first) + (h - from) == old(budget.remaining) - budget.remaining
  {
    hide SameViews, Parts, StepAt, EndAt, ValueOf, Ascending, AtMost;
    var p := ctx.params;
    next, h, out := first, from, [];
    while next < Steps(ctx) && EndAt(p, next) <= lastT
      invariant first <= next <= Steps(ctx) && from <= h <= |data|
      invariant (next - first) + (h - from) == old(budget.remaining) - budget.remaining
      invariant next < Steps(ctx) ==> AtMost(data, h, EndAt(p, next))
      invariant first < next ==> EndAt(p, next - 1) <= lastT
      invariant out == Concat(Parts(ctx, consumed), first, next)
      decreases Steps(ctx) - next
    {
      var ok;
      h, ok := WalkEdge(data, h, EndAt(p, next), budget);
      if !ok { break; }
      ok := budget.Take();
      if !ok { break; }
      var value := None;
      if h > 0 {
        var s := data[h - 1];
        if s.t > EndAt(p, next) - p.window && !IsStale(s.v) {
          value := Some(PickOf(ctx.kernel.pick, s));
        }
      }
      SameViewsLater(ctx, consumed, data[cut..], first, next);
      SelectorStep(ctx, data, cut, h, value, consumed, next);
      out := out + Emission(ctx, value, next);
      StepsAscend(p, next, next + 1);
      EdgeBefore(data, h, EndAt(p, next), EndAt(p, next + 1));
      next := next + 1;
    }
  }

  lemma SelectorStep(ctx: Context, data: seq<Sample>, cut: nat, h: nat, value: Option<Value>, consumed: seq<Sample>,
                     k: nat)
    requires ctx.kernel.Selector? && cut <= h <= |data| && (cut == h ==> h == 0)
    requires Ascending(data) && Ascending(consumed) && k < Steps(ctx)
    requires SameViews(ctx, consumed, data[cut..], k)
    requires AtMost(data, h, EndAt(ctx.params, k)) && (h < |data| ==> EndAt(ctx.params, k) < data[h].t)
    requires value ==
             if h > 0 && data[h - 1].t > StartAt(ctx.params, k) && !IsStale(data[h - 1].v)
             then Some(PickOf(ctx.kernel.pick, data[h - 1])) else None
    ensures Parts(ctx, consumed)(k) == Emission(ctx, value, k)
  {
    AfterEdge(data, h, EndAt(ctx.params, k));
    SelectorReads(ctx, data, cut, h, k);
    assert SameView(ctx, consumed, data[cut..], k);
    ViewDecides(ctx, consumed, k);
  }

  /** The range walk that folds each window anew; neither edge goes back. */
  method WalkRange(ctx: Context, data: seq<Sample>, ghost cut: nat, first: nat, left: nat, right: nat, lastT: int,
                   ghost consumed: seq<Sample>, budget: WorkBudget)
    returns (next: nat, l: nat, h: nat, out: seq<Sample>)
    requires ctx.kernel.Range? && ctx.params.step > 0 && ctx.params.window > 0
    requires Ascending(data) && Ascending(consumed) && NoStale(data)
    requires first < Steps(ctx) && cut == left <= right <= |data|
    requires SameViews(ctx, consumed, data[cut..], first)
    requires AtMost(data, left, StartAt(ctx.params, first)) && AtMost(data, right, EndAt(ctx.params, first))
    modifies budget
    ensures first <= next <= Steps(ctx) && left <= l <= h <= |data| && right <= h
    ensures out == Concat(Parts(ctx, consumed), first, next)
    ensures first < next ==> EndAt(ctx.params, next - 1) <= lastT
    ensures next < Steps(ctx) ==> AtMost(data, l, StartAt(ctx.params, next)) && AtMost(data, h, EndAt(ctx.params, next))
    ensures next < Steps(ctx) && EndAt(ctx.params, next) <= lastT ==> budget.remaining == 0
    ensures budget.remaining <= old(budget.remaining)
    ensures budget.remaining < old(budget.remaining) ==> (next - first) + (l - left) + (h - right) > 0
  {
    hide SameViews, Parts, StepAt, EndAt, ValueOf, NoStale, Ascending, AtMost;
    var p := ctx.params;
    next, l, h, out := first, left, right, [];
    while next < Steps(ctx) && EndAt(p, next) <= lastT
      invariant first <= next <= Steps(ctx) && left <= l <= h <= |data| && right <= h
      invariant budget.remaining <= old(budget.remaining)
      invariant budget.remaining < old(budget.remaining) ==> (next - first) + (l - left) + (h - right) > 0
      invariant next < Steps(ctx) ==> AtMost(data, l, StartAt(p, next)) && AtMost(data, h, EndAt(p, next))
      invariant first < next ==> EndAt(p, next - 1) <= lastT
      invariant out == Concat(Parts(ctx, consumed), first, next)
      decreases Steps(ctx) - next
    {
      var ok;
      l, ok := WalkEdge(data, l, StartAt(p, next), budget);
      // Past a long gap the right edge catches up with the left.
      if h < l { EdgeBefore(data, l, StartAt(p, next), EndAt(p, next)); }
      h := if h < l then l else h;
      if !ok { break; }
      h, ok := WalkEdge(data, h, EndAt(p, next), budget);
      if !ok { break; }
      ok := budget.Take();
      if !ok { break; }
      var value := ctx.kernel.fold(data[l..h], StartAt(p, next), EndAt(p, next));
      SameViewsLater(ctx, consumed, data[cut..], first, next);
      RangeStep(ctx, data, cut, l, h, consumed, next);
      out := out + Emission(ctx, value, next);
      budget.AccountKernel(ctx.kernel.work(h - l));
      StepsAscend(p, next, next + 1);
      EdgeBefore(data, l, StartAt(p, next), StartAt(p, next + 1));
      EdgeBefore(data, h, EndAt(p, next), EndAt(p, next + 1));
      next := next + 1;
    }
  }

  lemma RangeStep(ctx: Context, data: seq<Sample>, cut: nat, l: nat, h: nat, consumed: seq<Sample>, k: nat)
    requires ctx.kernel.Range? && cut <= l <= h <= |data|
    requires NoStale(data) && Ascending(data) && Ascending(consumed) && k < Steps(ctx)
    requires SameViews(ctx, consumed, data[cut..], k)
    requires AtMost(data, l, StartAt(ctx.params, k)) && (l < |data| ==> StartAt(ctx.params, k) < data[l].t)
    requires AtMost(data, h, EndAt(ctx.params, k)) && (h < |data| ==> EndAt(ctx.params, k) < data[h].t)
    ensures Parts(ctx, consumed)(k) ==
            Emission(ctx, ctx.kernel.fold(data[l..h], StartAt(ctx.params, k), EndAt(ctx.params, k)), k)
  {
    AfterEdge(data, l, StartAt(ctx.params, k));
    AfterEdge(data, h, EndAt(ctx.params, k));
    RangeReads(ctx, data, cut, l, h, k);
    assert SameView(ctx, consumed, data[cut..], k);
    ViewDecides(ctx, consumed, k);
    NonStaleAll(data[l..h]);
  }

  /** One pinned value emitted step after step while the budget lasts. */
  method Repeat(ctx: Context, value: Option<Value>, first: nat, ghost consumed: seq<Sample>, budget: WorkBudget)
    returns (next: nat, out: seq<Sample>)
    requires ctx.params.at.Some? && Ascending(consumed) && first <= Steps(ctx)
    requires value == ValueOf(ctx, View(ctx, consumed, 0), 0)
    modifies budget
    ensures first <= next <= Steps(ctx)
    ensures out == Concat(Parts(ctx, consumed), first, next)
    ensures next < Steps(ctx) ==> budget.remaining == 0
    ensures next - first == old(budget.remaining) - budget.remaining
  {
    hide Parts, View, ValueOf, StepAt, Ascending;
    next, out := first, [];
    while next < Steps(ctx)
      invariant first <= next <= Steps(ctx)
      invariant out == Concat(Parts(ctx, consumed), first, next)
      invariant next - first == old(budget.remaining) - budget.remaining
    {
      var ok := budget.Take();
      if !ok { break; }
      PinnedAlike(ctx, consumed, next, 0);
      out := out + Emission(ctx, value, next);
      next := next + 1;
    }
  }

  /** The pinned window's value off the history, and its charged work. */
  method PinnedValue(ctx: Context, data: seq<Sample>, next: nat, ghost consumed: seq<Sample>)
    returns (value: Option<Value>, work: nat)
    requires ctx.params.at.Some? && Ascending(data) && Ascending(consumed) && next < Steps(ctx) && !Dead(ctx)
    requires SameViews(ctx, consumed, data, next)
    requires ctx.kernel.Range? ==> NoStale(data)
    requires ctx.kernel.Selector? ==>
               |data| <= 1 && AtMost(data, |data|, EndAt(ctx.params, 0)) && After(data, 0, StartAt(ctx.params, 0))
    ensures value == ValueOf(ctx, View(ctx, consumed, next), next)
  {
    assert SameView(ctx, consumed, data, next);
    match ctx.kernel
    case Selector(pick) =>
      ghost var x := StartAt(ctx.params, 0);
      work := 0;
      if data == [] || IsStale(data[|data| - 1].v) {
        value := None;
      } else {
        value := Some(PickOf(pick, data[|data| - 1]));
      }
      if data != [] {
        assert data == [data[0]];
        ViewOfOne(ctx, data[0], next);
      }
    case Range(fold, cost) =>
      var lo, hi := StartAt(ctx.params, next), EndAt(ctx.params, next);
      var l, h := Upto(data, lo), Upto(data, hi);
      UptoSplits(data, lo);
      UptoSplits(data, hi);
      EdgesOrdered(data, l, h, lo, hi);
      value := fold(data[l..h], lo, hi);
      work := cost(h - l);
      RangeReads(ctx, data, 0, l, h, next);
      NonStaleAll(data[l..h]);
  }

  /** Under `@` every step decides alike. */
  lemma PinnedAlike(ctx: Context, s: seq<Sample>, j: nat, k: nat)
    requires ctx.params.at.Some? && Ascending(s)
    ensures ValueOf(ctx, View(ctx, s, j), j) == ValueOf(ctx, View(ctx, s, k), k)
    ensures Parts(ctx, s)(j) == Emission(ctx, ValueOf(ctx, View(ctx, s, k), k), j)
  {
    ViewDecides(ctx, s, j);
  }

  lemma EdgeBefore(s: seq<Sample>, n: nat, lo: int, hi: int)
    requires AtMost(s, n, lo) && lo <= hi
    ensures AtMost(s, n, hi)
  {
  }

  lemma EdgesOrdered(s: seq<Sample>, l: nat, h: nat, lo: int, hi: int)
    requires l <= |s| && AtMost(s, l, lo) && After(s, h, hi) && lo < hi
    ensures l <= h
  {
    if h < |s| { assert hi < s[h].t; }
  }
}
