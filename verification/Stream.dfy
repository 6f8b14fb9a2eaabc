/** The series iterator a block evaluates with, driven row by row. */
module Stream {
  import opened Series
  import opened Params
  import opened Fresh
  import opened Reading
  import opened Walks
  import opened Kernels
  import opened Buffer

  /** Exactly one selector step: only its latest eligible sample is kept. */
  class Candidate {
    var sample: Option<Sample>
    var lastT: Option<int>
    ghost var consumed: seq<Sample>

    ghost predicate Valid(ctx: Context)
      reads this
    {
      && Planned(ctx) && ctx.kernel.Selector? && Steps(ctx) == 1
      && Ascending(consumed) && Within(consumed, lastT)
      && View(ctx, consumed, 0) == (if sample.Some? then [sample.value] else [])
    }

    constructor (ctx: Context)
      requires Planned(ctx) && ctx.kernel.Selector? && Steps(ctx) == 1
      ensures Valid(ctx) && consumed == [] && lastT.None? && sample.None?
    {
      sample, lastT, consumed := None, None, [];
    }

    /** A later row's pick replaces an earlier one; an ineligible row keeps it. */
    method Push(ctx: Context, row: seq<Sample>, budget: WorkBudget) returns (done: bool)
      requires Valid(ctx) && Ascending(row)
      modifies this, budget
      ensures Valid(ctx)
      ensures done == (old(budget.remaining) > 0)
      ensures if done then consumed == old(consumed) + Later(row, old(lastT)) && lastT == Claim(old(lastT), row)
              else consumed == old(consumed) && lastT == old(lastT) && budget.remaining == 0
    {
      hide View, Ascending, Within, Later, StepAt, Upto, Claim, Steps, Planned;
      done := budget.Take();
      if !done { return; }
      if row == [] {
        NothingLater(consumed, lastT);
        return;
      }
      // A row claims to its end, whatever of it is eligible.
      var previous := lastT;
      lastT := Claim(previous, row);
      LaterJoins(consumed, previous, row);
      ViewConcat(ctx, consumed, Later(row, previous), 0);
      consumed := consumed + Later(row, previous);
      var pick := PickRow(ctx, row, previous);
      if pick.Some? { sample := pick; }
    }

    /** Emits the pick and forgets the series. */
    method Close(ctx: Context, budget: WorkBudget) returns (done: bool, out: seq<Sample>)
      requires Valid(ctx)
      modifies this, budget
      ensures Valid(ctx)
      ensures done == (old(budget.remaining) > 0)
      ensures if done then out == Answer(ctx, old(consumed)) && consumed == [] && lastT.None? && sample.None?
              else out == [] && consumed == old(consumed) && lastT == old(lastT) && budget.remaining == 0
    {
      out := [];
      done := budget.Take();
      if !done { return; }
      ghost var was := consumed;
      OneStep(ctx, consumed, sample);
      if sample.Some? && !IsStale(sample.value.v) {
        out := [Sample(ctx.params.start, PickOf(ctx.kernel.pick, sample.value))];
      }
      sample, lastT, consumed := None, None, [];
    }
  }

  /** The sample one row offers the single step, past what is claimed. */
  method PickRow(ctx: Context, row: seq<Sample>, previous: Option<int>) returns (pick: Option<Sample>)
    requires Planned(ctx) && ctx.kernel.Selector? && Steps(ctx) == 1 && Ascending(row) && row != []
    ensures View(ctx, Later(row, previous), 0) == if pick.Some? then [pick.value] else []
  {
    hide View, Ascending, Later, StepAt, Upto, SkipCount;
    var p := ctx.params;
    var last := row[|row| - 1].t;
    LaterThan(row, previous, last);
    StartIsExact(p, 0);
    FirstStep(p);
    var at := if p.at.Some? then p.at.value else p.start;
    var firstStart := SaturatingSub(SaturatingSub(at, p.offset), p.window);
    var end := at - p.offset;
    if last <= firstStart || (previous.Some? && previous.value >= end) {
      ViewOutside(ctx, Later(row, previous), 0);
      return None;
    }
    LaterIs(row, previous);
    var later := row[SkipCount(row, previous)..];
    UptoSplits(later, end);
    var hi := Upto(later, end);
    SelectorReads(ctx, later, 0, hi, 0);
    assert later[0..] == later;
    pick := if hi > 0 && later[hi - 1].t > end - p.window then Some(later[hi - 1]) else None;
  }

  lemma FirstStep(p: Params)
    ensures StepAt(p, 0) == p.start
  {
  }

  lemma LaterIs(row: seq<Sample>, claimed: Option<int>)
    requires Ascending(row)
    ensures SkipCount(row, claimed) <= |row| && Later(row, claimed) == row[SkipCount(row, claimed)..]
    ensures Ascending(row[SkipCount(row, claimed)..])
  {
    LaterFacts(row, claimed);
  }

  lemma LaterThan(row: seq<Sample>, claimed: Option<int>, last: int)
    requires Ascending(row) && row != [] && last == row[|row| - 1].t
    ensures forall i :: 0 <= i < |Later(row, claimed)| ==> Later(row, claimed)[i].t <= last
    ensures claimed.Some? ==> forall i :: 0 <= i < |Later(row, claimed)| ==> claimed.value < Later(row, claimed)[i].t
  {
    LaterFacts(row, claimed);
    var later := Later(row, claimed);
    forall i | 0 <= i < |later| ensures later[0].t <= later[i].t <= last {
      assert later[i] == row[SkipCount(row, claimed) + i];
    }
  }

  lemma LaterJoins(consumed: seq<Sample>, claimed: Option<int>, row: seq<Sample>)
    requires Ascending(consumed) && Within(consumed, claimed) && Ascending(row)
    ensures Ascending(consumed + Later(row, claimed)) && Within(consumed + Later(row, claimed), Claim(claimed, row))
  {
    LaterFacts(row, claimed);
    AscendingJoin(consumed, Later(row, claimed));
  }

  /** The one step's answer is its candidate. */
  lemma OneStep(ctx: Context, s: seq<Sample>, sample: Option<Sample>)
    requires ctx.kernel.Selector? && Steps(ctx) == 1 && Ascending(s)
    requires View(ctx, s, 0) == (if sample.Some? then [sample.value] else [])
    ensures Answer(ctx, s) ==
            if sample.Some? && !IsStale(sample.value.v)
               then [Sample(ctx.params.start, PickOf(ctx.kernel.pick, sample.value))]
            else []
  {
    hide View;
    ViewDecides(ctx, s, 0);
    assert Concat(Parts(ctx, s), 0, 0) == [];
  }

  /** A one-step selector needs no history; the two owners are exclusive. */
  class BufferedSeriesIterator {
    const window: WindowBuffer?
    const candidate: Candidate?

    ghost predicate Valid(ctx: Context)
      reads this, window, candidate
    {
      if window != null then candidate == null && window.Valid(ctx) else candidate != null && candidate.Valid(ctx)
    }

    /** The series so far, what it has claimed and what was emitted for it. */
    ghost function Consumed(): seq<Sample>
      reads this, window, candidate
    {
      if window != null then window.consumed else if candidate != null then candidate.consumed else []
    }

    ghost function Claimed(): Option<int>
      reads this, window, candidate
    {
      if window != null then window.lastT else if candidate != null then candidate.lastT else None
    }

    ghost function Emitted(): seq<Sample>
      reads this, window, candidate
    {
      if window != null then window.emitted else []
    }

    ghost predicate AtRow(row: seq<Sample>, cursor: PushCursor)
      reads this, window, candidate, cursor
    {
      if window != null then window.InRow(row, cursor) else Ascending(row)
    }

    ghost predicate Settled()
      reads this, window, candidate
    {
      Within(Consumed(), Claimed())
    }

    ghost function Before(cursor: PushCursor): seq<Sample>
      reads this, window, candidate, cursor
    {
      if window != null then window.Before(cursor) else Consumed()
    }

    ghost function ClaimedBefore(cursor: PushCursor): Option<int>
      reads this, window, candidate, cursor
    {
      if window != null then window.ClaimedBefore(cursor) else Claimed()
    }

    ghost function RowWork(ctx: Context, row: seq<Sample>, cursor: PushCursor): int
      reads this, window, candidate, cursor
    {
      if window != null then window.RowWork(ctx, row, cursor) else 0
    }

    ghost function CloseWork(ctx: Context): int
      reads this, window, candidate
    {
      if window != null then Work(ctx, window.Over(window.buf)) else 0
    }

    constructor (ctx: Context)
      requires Planned(ctx)
      ensures Valid(ctx) && Consumed() == [] && Emitted() == [] && Claimed() == None
      ensures (window != null ==> fresh(window)) && (candidate != null ==> fresh(candidate))
    {
      if ctx.kernel.Selector? && Steps(ctx) == 1 {
        window := null;
        candidate := new Candidate(ctx);
      } else {
        window := new WindowBuffer(ctx);
        candidate := null;
      }
    }

    method PushBudgeted(ctx: Context, row: seq<Sample>, cursor: PushCursor, budget: WorkBudget)
      returns (done: bool, out: seq<Sample>)
      requires Valid(ctx) && AtRow(row, cursor)
      modifies window, candidate, cursor, budget
      ensures Valid(ctx)
      ensures Emitted() == (if window != null then old(Emitted()) + out else []) && (window == null ==> out == [])
      ensures done ==>
                && Consumed() == old(Before(cursor)) + Later(row, old(ClaimedBefore(cursor)))
                && Claimed() == Claim(old(ClaimedBefore(cursor)), row) && Settled()
      ensures !done ==>
                && AtRow(row, cursor) && Before(cursor) == old(Before(cursor))
                    && ClaimedBefore(cursor) == old(ClaimedBefore(cursor))
                && budget.remaining == 0
                && (old(budget.remaining) > 0 ==> RowWork(ctx, row, cursor) < old(RowWork(ctx, row, cursor)))
    {
      hide View, Holds, Work, Later, Claim, Within, Ascending;
      out := [];
      if window != null {
        done, out := window.Push(ctx, row, cursor, budget);
      } else {
        done := candidate.Push(ctx, row, budget);
      }
    }

    method CloseBudgeted(ctx: Context, budget: WorkBudget) returns (done: bool, out: seq<Sample>)
      requires Valid(ctx)
      modifies window, candidate, budget
      ensures Valid(ctx)
      ensures done ==>
                && old(Emitted()) + out == Answer(ctx, old(Consumed()))
                && Consumed() == [] && Emitted() == [] && Claimed() == None
      ensures !done ==>
                && Consumed() == old(Consumed()) && Emitted() == old(Emitted()) + out
                && budget.remaining == 0
                && (old(budget.remaining) > 0 ==> CloseWork(ctx) < old(CloseWork(ctx)))
    {
      hide View, Holds, Work, Answer, Ascending;
      if window != null {
        done, out := window.Close(ctx, budget);
      } else {
        done, out := candidate.Close(ctx, budget);
      }
    }

    lemma CloseWorkIsLeft(ctx: Context)
      requires Valid(ctx)
      ensures CloseWork(ctx) >= 0
    {
      hide Holds, Work;
      if window != null { Walks.WorkIsLeft(ctx, window.Over(window.buf)); }
    }

    lemma WorkIsLeft(ctx: Context, row: seq<Sample>, cursor: PushCursor)
      requires Valid(ctx)
      ensures AtRow(row, cursor) ==> RowWork(ctx, row, cursor) >= 0
    {
      hide Holds, Work;
      if window != null {
        Walks.WorkIsLeft(ctx, window.Over(window.buf));
        if AtRow(row, cursor) && cursor.started {
          TakenInside(row, cursor.position, cursor.before, cursor.claimed, window.consumed, window.lastT);
        }
      }
    }

    /** Nothing of any series is held. */
    ghost predicate Empty(ctx: Context)
      reads this, window, candidate
    {
      Valid(ctx) && Consumed() == [] && Emitted() == [] && Claimed() == None
    }

    /** One row, resumed until it is consumed; `calls` numbers the budgets. */
    method PushWhole(ctx: Context, row: seq<Sample>, units: nat -> nat, calls: nat)
      returns (out: seq<Sample>, used: nat)
      requires Valid(ctx) && Settled() && Ascending(row) && forall i :: units(i) > 0
      modifies window, candidate
      ensures Valid(ctx) && Settled()
      ensures Consumed() == old(Consumed()) + Later(row, old(Claimed())) && Claimed() == Claim(old(Claimed()), row)
      ensures Emitted() == (if window != null then old(Emitted()) + out else []) && (window == null ==> out == [])
    {
      hide View, Holds, Work, Later, Claim, Within, Ascending, Walks.Taken;
      var cursor := new PushCursor();
      var done := false;
      out, used := [], calls;
      while !done
        invariant Valid(ctx)
        invariant !done ==>
                    AtRow(row, cursor) && Before(cursor) == old(Consumed()) && ClaimedBefore(cursor) == old(Claimed())
        invariant Emitted() == (if window != null then old(Emitted()) + out else []) && (window == null ==> out == [])
        invariant done ==>
                    && Consumed() == old(Consumed()) + Later(row, old(Claimed()))
                    && Claimed() == Claim(old(Claimed()), row) && Settled()
        decreases !done, if done then 0 else RowWork(ctx, row, cursor)
      {
        var budget := new WorkBudget(units(used));
        WorkIsLeft(ctx, row, cursor);
        var more;
        done, more := PushBudgeted(ctx, row, cursor, budget);
        if !done { WorkIsLeft(ctx, row, cursor); }
        out, used := out + more, used + 1;
      }
    }

    /** The close, resumed until nothing of the series is left. */
    method CloseWhole(ctx: Context, units: nat -> nat, calls: nat) returns (out: seq<Sample>, used: nat)
      requires Valid(ctx) && forall i :: units(i) > 0
      modifies window, candidate
      ensures Empty(ctx)
      ensures old(Emitted()) + out == Answer(ctx, old(Consumed()))
    {
      hide View, Holds, Work, Answer;
      var done := false;
      out, used := [], calls;
      while !done
        invariant Valid(ctx)
        invariant !done ==> Consumed() == old(Consumed()) && Emitted() == old(Emitted()) + out
        invariant done ==> Empty(ctx) && old(Emitted()) + out == Answer(ctx, old(Consumed()))
        decreases !done, if done then 0 else CloseWork(ctx)
      {
        var budget := new WorkBudget(units(used));
        CloseWorkIsLeft(ctx);
        var more;
        done, more := CloseBudgeted(ctx, budget);
        if !done { CloseWorkIsLeft(ctx); }
        out, used := out + more, used + 1;
      }
    }

    /** One series through the iterator, under any sequence of budgets. */
    method Evaluate(ctx: Context, rows: seq<seq<Sample>>, units: nat -> nat, calls: nat)
      returns (out: seq<Sample>, used: nat)
      requires Empty(ctx) && (forall i :: units(i) > 0) && forall i :: 0 <= i < |rows| ==> Ascending(rows[i])
      modifies window, candidate
      ensures Empty(ctx)
      ensures out == Answer(ctx, FirstClaim(rows))
    {
      hide View, Holds, Work, Answer, Later, Claim, Ascending;
      out, used := [], calls;
      for k := 0 to |rows|
        invariant Valid(ctx) && Settled()
        invariant Consumed() == FirstClaim(rows[..k]) && Claimed() == ClaimedBy(rows[..k])
        invariant Emitted() == (if window != null then out else []) && (window == null ==> out == [])
      {
        assert rows[..k + 1][..k] == rows[..k];
        var more;
        more, used := PushWhole(ctx, rows[k], units, used);
        out := out + more;
      }
      assert rows[..|rows|] == rows;
      var more;
      more, used := CloseWhole(ctx, units, used);
      out := out + more;
    }
  }

  /** Every series of a block through one iterator: whatever the rows, their
      overlaps and the budgets, each series answers as a fresh evaluation of
      its first-claim samples, and leaves nothing behind for the next. */
  method EvaluateBlock(ctx: Context, series: seq<seq<seq<Sample>>>, units: nat -> nat)
    returns (answers: seq<seq<Sample>>)
    requires Planned(ctx) && forall i :: units(i) > 0
    requires forall i, j :: 0 <= i < |series| && 0 <= j < |series[i]| ==> Ascending(series[i][j])
    ensures |answers| == |series|
    ensures forall i :: 0 <= i < |series| ==> answers[i] == Answer(ctx, FirstClaim(series[i]))
  {
    hide View, Holds, Work, Answer, FirstClaim, Ascending, Planned;
    var it := new BufferedSeriesIterator(ctx);
    var used: nat := 0;
    answers := [];
    for i := 0 to |series|
      invariant it.Empty(ctx)
      invariant it.window != null ==> fresh(it.window)
      invariant it.candidate != null ==> fresh(it.candidate)
      invariant |answers| == i
      invariant forall j :: 0 <= j < i ==> answers[j] == Answer(ctx, FirstClaim(series[j]))
    {
      var out;
      out, used := it.Evaluate(ctx, series[i], units, used);
      answers := answers + [out];
    }
  }
}
