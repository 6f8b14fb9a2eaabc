/** Blocks of window ends, and the part of the step grid each one answers. */
module Blocks {
  import opened Arithmetic
  import opened Series
  import opened Params

  /** Half-open: `[start, end)`. */
  datatype Block = Block(start: int, end: int)

  function WindowLo(p: Params): int {
    if p.at.Some? then p.at.value else p.start
  }

  function WindowHi(p: Params): int {
    if p.at.Some? then p.at.value else p.end
  }

  function SaturatingTwice(x: int, y: int, z: int): int {
    SaturatingSub(SaturatingSub(x, y), z)
  }

  /** What a store has to scan: one window back from the earliest window end,
      and on to the latest. */
  function SelectRange(p: Params): (int, int) {
    (SaturatingTwice(WindowLo(p), p.window, p.offset), SaturatingSub(WindowHi(p), p.offset))
  }

  function EmptyGrid(p: Params): Params {
    p.(start := 1, end := 0)
  }

  /** The first step whose window ends at or after `lo`, unpinned. */
  function FirstIn(p: Params, lo: int): int
    requires p.step > 0
  {
    var q := (lo + p.offset - p.start) / p.step;
    var first := if q < 0 then 0 else q;
    if p.start + first * p.step < lo + p.offset then first + 1 else first
  }

  /** The last step whose window ends before `hi`, unpinned. */
  function LastIn(p: Params, hi: int): int
    requires p.step > 0
  {
    var q := (hi + p.offset - 1 - p.start) / p.step;
    if q < Count(p) - 1 then q else Count(p) - 1
  }

  /** The grid cut to the steps `b` answers: those whose window end lies in it. */
  function ForBlock(p: Params, b: Block): Params
    requires p.step > 0
  {
    if p.at.Some? then
      (if b.start <= p.at.value - p.offset < b.end then p else EmptyGrid(p))
    else
      var first, last := FirstIn(p, b.start), LastIn(p, b.end);
      if first > last then EmptyGrid(p)
      else p.(start := p.start + first * p.step, end := p.start + last * p.step)
  }

  /** How many of the first `n` steps end their window before `bound`: a prefix. */
  function Before(p: Params, bound: int, n: nat): nat {
    if n == 0 then 0 else if EndAt(p, n - 1) < bound then n else Before(p, bound, n - 1)
  }

  function StepsBefore(p: Params, bound: int): nat {
    Before(p, bound, Count(p))
  }

  lemma {:induction false} BeforeIsPrefix(p: Params, bound: int, n: nat)
    requires p.step > 0
    ensures Before(p, bound, n) <= n
    ensures forall k :: 0 <= k < n ==> (k < Before(p, bound, n) <==> EndAt(p, k) < bound)
  {
    hide EndAt;
    if n > 0 {
      if EndAt(p, n - 1) < bound {
        forall k | 0 <= k < n ensures EndAt(p, k) < bound { StepsAscend(p, k, n - 1); }
      } else {
        BeforeIsPrefix(p, bound, n - 1);
      }
    }
  }

  /** A prefix is known by its members. */
  lemma BeforeIs(p: Params, bound: int, m: nat)
    requires p.step > 0 && m <= Count(p)
    requires forall k :: 0 <= k < Count(p) ==> (k < m <==> EndAt(p, k) < bound)
    ensures StepsBefore(p, bound) == m
  {
    hide EndAt, Count;
    BeforeIsPrefix(p, bound, Count(p));
    var n := StepsBefore(p, bound);
    assert n < Count(p) ==> (n < m <==> EndAt(p, n) < bound);
    assert m < Count(p) ==> (m < n <==> EndAt(p, m) < bound);
  }

  lemma EndIsProduct(p: Params, k: nat)
    requires p.at.None?
    ensures EndAt(p, k) == p.start + k * p.step - p.offset
  {
    StepAtIsProduct(p, k);
  }

  lemma FirstInIs(p: Params, lo: int, k: nat)
    requires p.step > 0 && p.at.None?
    ensures FirstIn(p, lo) >= 0
    ensures FirstIn(p, lo) <= k <==> lo <= EndAt(p, k)
  {
    EndIsProduct(p, k);
    hide EndAt;
    var x, y := lo + p.offset - p.start, p.step;
    var q := x / y;
    FloorBounds(x, y, k);
    FloorBounds(x, y, k + 1);
    FloorBounds(x, y, q);
    assert (k + 1) * y == k * y + y;
    // FirstIn is the ceiling of x / y, cut at zero.
    if q < 0 {
      assert k * y >= 0;
      FloorBounds(x, y, 0);
    } else if k < q {
      assert (k + 1) * y <= x;
    } else if k > q {
      assert k * y > x;
    }
  }

  lemma LastInIs(p: Params, hi: int, k: nat)
    requires p.step > 0 && p.at.None?
    ensures k <= LastIn(p, hi) <==> k < Count(p) && EndAt(p, k) < hi
  {
    EndIsProduct(p, k);
    hide EndAt, Count;
    FloorBounds(hi + p.offset - 1 - p.start, p.step, k);
  }

  lemma CutGrid(p: Params, first: nat, last: nat)
    requires p.step > 0 && p.at.None? && first <= last
    ensures var q := p.(start := p.start + first * p.step, end := p.start + last * p.step);
            Count(q) == last - first + 1 && forall j: nat :: StepAt(q, j) == StepAt(p, first + j)
  {
    hide StepAt;
    var q := p.(start := p.start + first * p.step, end := p.start + last * p.step);
    assert last * p.step - first * p.step == (last - first) * p.step;
    Multiple(last - first, p.step);
    forall j: nat ensures StepAt(q, j) == StepAt(p, first + j) {
      CutStep(p, q, first, j);
    }
  }

  lemma CutStep(p: Params, q: Params, first: nat, j: nat)
    requires q.step == p.step && q.start == p.start + first * p.step
    ensures StepAt(q, j) == StepAt(p, first + j)
  {
    StepAtIsProduct(q, j);
    StepAtIsProduct(p, first + j);
    hide StepAt;
    assert (first + j) * p.step == first * p.step + j * p.step;
  }

  /** A block's grid is exactly the steps whose window end lies in the block,
      in order: the ones before its end that are not before its start. */
  lemma BlockGrid(p: Params, b: Block)
    requires p.step > 0 && b.start <= b.end
    ensures StepsBefore(p, b.start) <= StepsBefore(p, b.end) <= Count(p)
    ensures Count(ForBlock(p, b)) == StepsBefore(p, b.end) - StepsBefore(p, b.start)
    ensures forall j: nat :: j < Count(ForBlock(p, b)) ==>
              StepAt(ForBlock(p, b), j) == StepAt(p, StepsBefore(p, b.start) + j)
    ensures forall k :: 0 <= k < Count(p) ==>
              (b.start <= EndAt(p, k) < b.end <==> StepsBefore(p, b.start) <= k < StepsBefore(p, b.end))
  {
    hide StepAt, Count, FirstIn, LastIn, Before;
    BeforeIsPrefix(p, b.start, Count(p));
    BeforeIsPrefix(p, b.end, Count(p));
    var m, n := StepsBefore(p, b.start), StepsBefore(p, b.end);
    assert n < Count(p) ==> (n < m <==> EndAt(p, n) < b.start);
    if p.at.Some? {
      PinnedBlock(p, b, m, n);
    } else {
      UnpinnedBlock(p, b, m, n);
    }
  }

  lemma PinnedBlock(p: Params, b: Block, m: nat, n: nat)
    requires p.step > 0 && b.start <= b.end && p.at.Some? && m <= n <= Count(p)
    requires forall k :: 0 <= k < Count(p) ==> (k < m <==> EndAt(p, k) < b.start)
    requires forall k :: 0 <= k < Count(p) ==> (k < n <==> EndAt(p, k) < b.end)
    ensures Count(ForBlock(p, b)) == n - m
    ensures n - m > 0 ==> m == 0 && ForBlock(p, b) == p
  {
    var end := p.at.value - p.offset;
    assert forall k :: EndAt(p, k) == end;
    hide EndAt;
    assert Count(EmptyGrid(p)) == 0;
    hide Count;
    if 0 < Count(p) {
      assert EndAt(p, 0) == end;
      assert 0 < m <==> end < b.start;
      assert 0 < n <==> end < b.end;
      if m < Count(p) { assert EndAt(p, m) == end; }
      if n < Count(p) { assert EndAt(p, n) == end; }
    }
  }

  lemma UnpinnedBlock(p: Params, b: Block, m: nat, n: nat)
    requires p.step > 0 && b.start <= b.end && p.at.None? && m <= n <= Count(p)
    requires forall k :: 0 <= k < Count(p) ==> (k < m <==> EndAt(p, k) < b.start)
    requires forall k :: 0 <= k < Count(p) ==> (k < n <==> EndAt(p, k) < b.end)
    ensures Count(ForBlock(p, b)) == n - m
    ensures forall j: nat :: j < n - m ==> StepAt(ForBlock(p, b), j) == StepAt(p, m + j)
  {
    var first, last := FirstIn(p, b.start), LastIn(p, b.end);
    assert Count(EmptyGrid(p)) == 0;
    hide StepAt, FirstIn, LastIn, EndAt, Count;
    FirstInIs(p, b.start, 0);
    if m < n {
      FirstInIs(p, b.start, m);
      if m > 0 { FirstInIs(p, b.start, m - 1); assert EndAt(p, m - 1) < b.start; }
      assert !(EndAt(p, m) < b.start);
      LastInIs(p, b.end, n - 1);
      assert EndAt(p, n - 1) < b.end;
      LastInIs(p, b.end, n);
      assert first == m && last == n - 1;
      CutGrid(p, m, n - 1);
    } else if first <= last {
      FirstInIs(p, b.start, last);
      LastInIs(p, b.end, last);
      assert false;
    }
  }
}
