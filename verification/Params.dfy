/** The step grid and the window each step reads. */
module Params {
  import opened Arithmetic
  import opened Series

  datatype Params = Params(
    start: int,
    end: int,
    step: int,
    window: int,
    offset: int,
    at: Option<int>)

  /** How many steps `start..=end` every `step` has. */
  function StepCount(start: int, end: int, step: int): nat {
    if step <= 0 || end < start then 0 else (end - start) / step + 1
  }

  function Count(p: Params): nat {
    StepCount(p.start, p.end, p.step)
  }

  /** Step `k` of the grid, reached by addition as the kernels reach it. */
  function StepAt(p: Params, k: int): int {
    if k <= 0 then p.start else StepAt(p, k - 1) + p.step
  }

  lemma {:induction false} StepAtIsProduct(p: Params, k: nat)
    ensures StepAt(p, k) == p.start + k * p.step
  {
    if k > 0 {
      StepAtIsProduct(p, k - 1);
      assert k * p.step == (k - 1) * p.step + p.step;
    }
  }

  /** Where step `k`'s window ends, inclusive: `@` pins every step's. */
  function EndAt(p: Params, k: int): int {
    (if p.at.Some? then p.at.value else StepAt(p, k)) - p.offset
  }

  /** Where step `k`'s window starts, exclusive. */
  function StartAt(p: Params, k: int): int {
    EndAt(p, k) - p.window
  }

  /** Every lookup time fits in an i64, which the planner checks. */
  ghost predicate Fits(p: Params) {
    && InI64(p.start) && InI64(p.offset) && InI64(p.window)
    && (p.at.Some? ==> InI64(p.at.value))
    && forall k :: 0 <= k < Count(p) ==> InI64(StepAt(p, k)) && InI64(EndAt(p, k)) && InI64(StartAt(p, k))
  }

  lemma {:induction false} StepsAscend(p: Params, j: int, k: int)
    requires p.step > 0 && 0 <= j <= k
    ensures StepAt(p, j) <= StepAt(p, k) && EndAt(p, j) <= EndAt(p, k) && StartAt(p, j) <= StartAt(p, k)
    ensures j < k ==> StepAt(p, j) < StepAt(p, k)
    decreases k
  {
    if j < k { StepsAscend(p, j, k - 1); }
  }

  lemma StepsInside(p: Params, k: nat)
    requires p.step > 0
    ensures k < Count(p) <==> p.start <= StepAt(p, k) <= p.end
  {
    StepAtIsProduct(p, k);
    StepsAscend(p, 0, k);
    hide StepAt;
    if p.start <= p.end {
      FloorBounds(p.end - p.start, p.step, k);
    }
  }

  /** The widest start, end, `@`, offset or window the planner takes. */
  const MAX_TIME := I64_MAX / 4

  predicate Timely(ms: int) {
    -MAX_TIME <= ms <= MAX_TIME
  }

  /** What the planner checks of a query and of each of its selectors. */
  predicate Validated(p: Params) {
    && p.step > 0 && p.start <= p.end
    && Timely(p.start) && Timely(p.end) && Timely(p.window) && Timely(p.offset)
    && (p.at.Some? ==> Timely(p.at.value))
  }

  /** Then every lookup time fits, with room to spare. */
  lemma ValidatedFits(p: Params)
    requires Validated(p)
    ensures Fits(p)
    ensures forall k :: 0 <= k < Count(p) ==> EndAt(p, k) < I64_MAX
  {
    hide StepAt, Count;
    forall k | 0 <= k < Count(p) ensures p.start <= StepAt(p, k) <= p.end {
      StepsInside(p, k);
    }
  }
}
