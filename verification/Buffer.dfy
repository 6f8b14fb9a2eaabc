/** One series' samples as its rows arrive: the streaming window evaluator. */
module Buffer {
  import opened Series
  import opened Params
  import opened Fresh
  import opened Reading
  import opened Walks
  import opened Kernels

  /** Maximum new history between readiness checks. */
  const INGEST_SAMPLES: nat := 256

  /** Position in one row, kept until the row is consumed. The ghost fields
      remember the series as it was when the row began. */
  class PushCursor {
    var position: nat
    var started: bool
    ghost var before: seq<Sample>
    ghost var claimed: Option<int>

    constructor ()
      ensures position == 0 && !started
    {
      position, started := 0, false;
    }
  }

  datatype Progress = More | Done | Suspended

  class WindowBuffer {
    var buf: seq<Sample>
    /** Samples already dropped from the front: ordinals count from the
        series' start, and survive a drain. */
    var base: nat
    /** Ordinals of the two window edges. No step reads before `lo` again, and
        nothing from `hi` on has been read yet. */
    var lo: nat
    var hi: nat
    var nextStep: nat
    /** Every sample still to come is later than this. */
    var lastT: Option<int>
    var pinned: Option<Option<Value>>
    /** Everything the series has claimed, and everything emitted for it. */
    ghost var consumed: seq<Sample>
    ghost var emitted: seq<Sample>
    /** Samples moved by draining, and samples ever retired. */
    ghost var moved: nat
    ghost var retired: nat

    /** This walk over `data`: its own history, or a borrowed row. */
    ghost function Over(data: seq<Sample>): Walk
      reads this
    {
      Walk(data, base, lo, hi, nextStep, lastT, pinned, consumed, emitted)
    }

    ghost predicate Valid(ctx: Context)
      reads this
    {
      Holds(ctx, Over(buf)) && moved <= 2 * retired
    }

    constructor (ctx: Context)
      requires Planned(ctx)
      ensures Valid(ctx) && Over(buf) == Walk([], 0, 0, 0, 0, None, None, [], [])
    {
      buf, base, lo, hi, nextStep := [], 0, 0, 0, 0;
      lastT, pinned := None, None;
      consumed, emitted, moved, retired := [], [], 0, 0;
      new;
      Begins(ctx);
    }

    predicate IsReady(ctx: Context)
      reads this
    {
      Ready(ctx, nextStep, lastT)
    }

    /** Under `@` one value is computed once, then repeated over the grid. */
    method AdvancePinned(ctx: Context, data: seq<Sample>, budget: WorkBudget) returns (out: seq<Sample>)
      requires Holds(ctx, Over(data)) && IsReady(ctx) && ctx.params.at.Some?
      modifies this`nextStep, this`hi, this`lo, this`pinned, this`emitted, budget
      ensures Holds(ctx, Over(data))
      ensures emitted == old(emitted) + out
      ensures old(nextStep) <= nextStep
      ensures IsReady(ctx) ==> budget.remaining == 0
      ensures budget.remaining <= old(budget.remaining) && Work(ctx, Over(data)) <= old(Work(ctx, Over(data)))
      ensures budget.remaining < old(budget.remaining) ==> Work(ctx, Over(data)) < old(Work(ctx, Over(data)))
    {
      hide SameViews, View, Parts, StepAt, ValueOf, Planned, Ascending, NoStale, FirstSteps, Concat, AtMost, After;
      out := [];
      if budget.remaining == 0 { return; }
      ghost var was := Over(data);
      if pinned.None? {
        assert data[lo - base..] == data;
        var value, work := PinnedValue(ctx, data, nextStep, consumed);
        PinnedAlike(ctx, consumed, nextStep, 0);
        pinned := Some(value);
        budget.AccountKernel(work);
      }
      var next;
      next, out := Repeat(ctx, pinned.value, nextStep, consumed, budget);
      PinnedAdvances(ctx, was, pinned.value, next, out);
      nextStep, emitted := next, emitted + out;
    }

    method AdvanceSelector(ctx: Context, data: seq<Sample>, budget: WorkBudget) returns (out: seq<Sample>)
      requires Holds(ctx, Over(data)) && IsReady(ctx) && ctx.params.at.None? && ctx.kernel.Selector?
      modifies this`nextStep, this`hi, this`lo, this`pinned, this`emitted, budget
      ensures Holds(ctx, Over(data))
      ensures emitted == old(emitted) + out
      ensures old(nextStep) <= nextStep
      ensures IsReady(ctx) ==> budget.remaining == 0
      ensures budget.remaining <= old(budget.remaining) && Work(ctx, Over(data)) <= old(Work(ctx, Over(data)))
      ensures budget.remaining < old(budget.remaining) ==> Work(ctx, Over(data)) < old(Work(ctx, Over(data)))
    {
      hide SameViews, View, Parts, StepAt, ValueOf, Planned, Ascending, NoStale, FirstSteps, Concat, AtMost, After;
      ghost var was := Over(data);
      var next, h;
      next, h, out := WalkSelector(ctx, data, lo - base, nextStep, hi - base, lastT.value, consumed, budget);
      SelectorAdvances(ctx, was, next, h, out);
      nextStep, hi, emitted := next, base + h, emitted + out;
      lo := if h > 0 then base + h - 1 else base;
    }

    method AdvanceRange(ctx: Context, data: seq<Sample>, budget: WorkBudget) returns (out: seq<Sample>)
      requires Holds(ctx, Over(data)) && IsReady(ctx) && ctx.params.at.None? && ctx.kernel.Range?
      modifies this`nextStep, this`hi, this`lo, this`pinned, this`emitted, budget
      ensures Holds(ctx, Over(data))
      ensures emitted == old(emitted) + out
      ensures old(nextStep) <= nextStep
      ensures IsReady(ctx) ==> budget.remaining == 0
      ensures budget.remaining <= old(budget.remaining) && Work(ctx, Over(data)) <= old(Work(ctx, Over(data)))
      ensures budget.remaining < old(budget.remaining) ==> Work(ctx, Over(data)) < old(Work(ctx, Over(data)))
    {
      hide SameViews, View, Parts, StepAt, ValueOf, Planned, Ascending, NoStale, FirstSteps, Concat, AtMost, After;
      ghost var was := Over(data);
      var next, l, h;
      next, l, h, out := WalkRange(ctx, data, lo - base, nextStep, lo - base, hi - base, lastT.value, consumed, budget);
      RangeAdvances(ctx, was, next, l, h, out);
      nextStep, lo, hi, emitted := next, base + l, base + h, emitted + out;
    }

    /** Answers every ready step the budget allows. */
    method Advance(ctx: Context, data: seq<Sample>, budget: WorkBudget) returns (out: seq<Sample>)
      requires Holds(ctx, Over(data))
      modifies this`nextStep, this`hi, this`lo, this`pinned, this`emitted, budget
      ensures Holds(ctx, Over(data))
      ensures emitted == old(emitted) + out
      ensures old(nextStep) <= nextStep
      ensures IsReady(ctx) ==> budget.remaining == 0
      ensures budget.remaining <= old(budget.remaining) && Work(ctx, Over(data)) <= old(Work(ctx, Over(data)))
      ensures budget.remaining < old(budget.remaining) ==> Work(ctx, Over(data)) < old(Work(ctx, Over(data)))
    {
      hide *;
      out := [];
      if !IsReady(ctx) { return; }
      if ctx.params.at.Some? {
        out := AdvancePinned(ctx, data, budget);
      } else if ctx.kernel.Selector? {
        out := AdvanceSelector(ctx, data, budget);
      } else {
        out := AdvanceRange(ctx, data, budget);
      }
    }

    /** Drains the dead prefix, but only once it is half of what is held. */
    method ReduceDelta(ctx: Context)
      requires Valid(ctx)
      modifies this`buf, this`base, this`moved, this`retired
      ensures Valid(ctx) && Work(ctx, Over(buf)) == old(Work(ctx, Over(buf)))
      ensures lo == base || lo - base < |buf| / 2
      ensures old(base) <= base <= old(base) + |old(buf)| && buf == old(buf)[base - old(base)..]
    {
      hide Answered, Decides, Edges;
      var cut := lo - base;
      Reduces(ctx, Over(buf));
      if cut > 0 && cut >= |buf| / 2 {
        moved, retired := moved + (|buf| - cut), retired + cut;
        buf, base := buf[cut..], lo;
      }
    }

    /** Once every step is answered, nothing is kept. */
    method RetireHistory(ctx: Context, ghost data: seq<Sample>)
      requires Holds(ctx, Over(data)) && nextStep == Steps(ctx) && moved <= 2 * retired
      modifies this`buf, this`base, this`lo, this`hi, this`retired
      ensures Valid(ctx) && buf == []
      ensures Work(ctx, Over(buf)) <= old(Work(ctx, Over(data)))
    {
      hide Answered, Decides, Edges;
      Retires(ctx, Over(data));
      retired := retired + |buf|;
      buf, base := [], hi;
      lo, hi := base, base;
    }

    /** Answers what is ready, then lets go of what that made dead. */
    method Drain(ctx: Context, budget: WorkBudget) returns (out: seq<Sample>)
      requires Valid(ctx)
      modifies this`nextStep, this`hi, this`lo, this`pinned, this`emitted, this`buf, this`base, this`moved,
               this`retired, budget
      ensures Valid(ctx)
      ensures emitted == old(emitted) + out
      ensures old(nextStep) <= nextStep
      ensures IsReady(ctx) ==> budget.remaining == 0
      ensures budget.remaining <= old(budget.remaining) && Work(ctx, Over(buf)) <= old(Work(ctx, Over(buf)))
      ensures budget.remaining < old(budget.remaining) ==> Work(ctx, Over(buf)) < old(Work(ctx, Over(buf)))
    {
      hide Answered, Decides, Edges, Work;
      out := Advance(ctx, buf, budget);
      ReduceDelta(ctx);
      Bounds(ctx, Over(buf));
      if nextStep >= Steps(ctx) {
        RetireHistory(ctx, buf);
      }
    }

    /** Copies one allowance, filtering stale markers out of a range's. */
    method Append(ctx: Context, slice: seq<Sample>, ghost raw: seq<Sample>)
      requires Valid(ctx) && nextStep < Steps(ctx) && pinned.None? && Extends(ctx, Over(buf), raw) && raw != []
      requires Ascending(slice) && |slice| <= |raw| && slice == raw[..|slice|]
      requires SameViews(ctx, raw, slice, nextStep)
      requires ctx.params.at.Some? ==>
                 After(slice, 0, StartAt(ctx.params, 0)) && AtMost(slice, |slice|, EndAt(ctx.params, 0))
      modifies this`buf, this`consumed
      ensures Valid(ctx)
      ensures consumed == old(consumed) + raw
      ensures Work(ctx, Over(buf)) <= old(Work(ctx, Over(buf))) + 2 * |slice|
    {
      hide SameViews, Answered, Decides, Edges, Extends, Ascending, NonStale, After, AtMost, Steps;
      ghost var was := Over(buf);
      if ctx.kernel.Selector? && ctx.params.at.Some? {
        if slice != [] {
          AppendsLatest(ctx, was, slice, raw);
          buf := [slice[|slice| - 1]];
        } else {
          AppendsNothing(ctx, was, raw);
        }
      } else if ctx.kernel.Selector? {
        Appends(ctx, was, slice, raw);
        buf := buf + slice;
      } else {
        var kept := Unstaled(slice);
        SameViewsUnstale(ctx, slice, nextStep);
        SameViewsTrans(ctx, raw, slice, kept, nextStep);
        NonStaleKeeps(slice);
        NonStaleAscending(slice);
        NonStaleShrinks(slice);
        Appends(ctx, was, kept, raw);
        buf := buf + kept;
      }
      consumed := consumed + raw;
    }

    /** At most one allowance enters: borrowed while it is walked when there
        is no history, copied otherwise. `raw` is what the row claims,
        `slice` its part up to the last lookup. */
    method Ingest(ctx: Context, slice: seq<Sample>, ghost raw: seq<Sample>, budget: WorkBudget)
      returns (out: seq<Sample>)
      requires Valid(ctx) && nextStep < Steps(ctx) && pinned.None? && Extends(ctx, Over(buf), raw) && raw != []
      requires Ascending(slice) && |slice| <= |raw| && slice == raw[..|slice|]
      requires SameViews(ctx, raw, slice, nextStep)
      requires ctx.params.at.Some? ==>
                 After(slice, 0, StartAt(ctx.params, 0)) && AtMost(slice, |slice|, EndAt(ctx.params, 0))
      modifies this`nextStep, this`hi, this`lo, this`pinned, this`emitted, this`buf, this`base, this`consumed,
               this`retired, budget
      ensures Valid(ctx)
      ensures consumed == old(consumed) + raw
      ensures emitted == old(emitted) + out
      ensures old(nextStep) <= nextStep
      ensures budget.remaining <= old(budget.remaining) && Work(ctx, Over(buf)) <= old(Work(ctx, Over(buf))) +
              2 * |slice|
      ensures budget.remaining < old(budget.remaining) ==>
                Work(ctx, Over(buf)) < old(Work(ctx, Over(buf))) + 2 * |slice|
    {
      hide SameViews, Answered, Decides, Edges, Extends, Ascending, NonStale, After, AtMost, Steps;
      hide Holds, Work, NoStale;
      var unstale := NoStale(slice);
      out := [];
      if buf == [] && ctx.params.at.None? && (ctx.kernel.Selector? || unstale) {
        Appends(ctx, Over(buf), slice, raw);
        assert buf + slice == slice;
        consumed := consumed + raw;
        out := Advance(ctx, slice, budget);
        Bounds(ctx, Over(slice));
        if nextStep >= Steps(ctx) {
          RetireHistory(ctx, slice);
        } else {
          Reduces(ctx, Over(slice));
          buf, base := slice[lo - base..], lo;
        }
      } else {
        Append(ctx, slice, raw);
      }
    }

    /** Where this row stands: `before` and `claimed` are the series as the
        row began, and what the row added is its later part so far. */
    ghost predicate InRow(row: seq<Sample>, cursor: PushCursor)
      reads this, cursor
    {
      && Ascending(row)
      && if !cursor.started then cursor.position == 0 && Settled() else
           Taken(row, cursor.position, cursor.before, cursor.claimed, consumed, lastT)
    }

    /** Between rows the watermark is what the rows have claimed. */
    ghost predicate Settled()
      reads this
    {
      Within(consumed, lastT)
    }

    /** The series as it was when the row began. */
    ghost function Before(cursor: PushCursor): seq<Sample>
      reads this, cursor
    {
      if cursor.started then cursor.before else consumed
    }

    ghost function ClaimedBefore(cursor: PushCursor): Option<int>
      reads this, cursor
    {
      if cursor.started then cursor.claimed else lastT
    }

    /** The work a row still needs, an upper bound on the budget it can take. */
    ghost function RowWork(ctx: Context, row: seq<Sample>, cursor: PushCursor): int
      reads this, cursor
    {
      3 * (|row| - cursor.position) + Work(ctx, Over(buf))
    }

    /** `row[position..to]` is claimed unread. */
    method SkipTo(ctx: Context, row: seq<Sample>, cursor: PushCursor, to: nat)
      requires Valid(ctx) && InRow(row, cursor) && cursor.started && !IsReady(ctx)
      requires cursor.position <= to <= |row|
      requires SameViews(ctx, row[cursor.position..to], [], nextStep)
      modifies this`consumed, this`lastT, cursor`position
      ensures Valid(ctx) && InRow(row, cursor) && cursor.position == to
      ensures RowWork(ctx, row, cursor) <= old(RowWork(ctx, row, cursor)) - 3 * (to - old(cursor.position))
      ensures to < |row| ==> lastT == old(lastT)
    {
      hide SameViews, Holds, Claim, Ascending, EndAt, Ready, Taken, Within;
      if cursor.position == to { return; }
      ghost var raw := row[cursor.position..to];
      Bounds(ctx, Over(buf));
      TakenAt(row, cursor.position, to, cursor.before, cursor.claimed, consumed, lastT);
      RowExtends(row, cursor.position, to, cursor.before, cursor.claimed, consumed, lastT,
                 if to < |row| then lastT else Some(row[|row| - 1].t));
      Skips(ctx, Over(buf), raw);
      consumed := consumed + raw;
      if to == |row| {
        Raises(ctx, Over(buf), Claim(lastT, row));
        lastT := Claim(lastT, row);
      }
      cursor.position := to;
    }

    /** No later sample matters: the row is claimed to its end. */
    method SkipRest(ctx: Context, row: seq<Sample>, cursor: PushCursor)
      requires Valid(ctx) && InRow(row, cursor) && cursor.started
      requires nextStep >= Steps(ctx) || Dead(ctx)
      modifies this`consumed, this`lastT, this`nextStep, cursor`position
      ensures Valid(ctx) && InRow(row, cursor) && cursor.position == |row|
      ensures RowWork(ctx, row, cursor) <= old(RowWork(ctx, row, cursor))
    {
      hide Holds, Ascending, Taken, Within, Work;
      Bounds(ctx, Over(buf));
      Gives(ctx, Over(buf));
      nextStep := Steps(ctx);
      TakenInside(row, cursor.position, cursor.before, cursor.claimed, consumed, lastT);
      SkipTo(ctx, row, cursor, |row|);
    }

    /** Searches skip a dead prefix without scanning it, and a tail past the
        last lookup is claimed but never copied. */
    method SkipDead(ctx: Context, row: seq<Sample>, cursor: PushCursor)
      requires Valid(ctx) && InRow(row, cursor) && cursor.started && !IsReady(ctx) && nextStep < Steps(ctx)
      requires cursor.position < |row|
      modifies this`consumed, this`lastT, cursor`position
      ensures Valid(ctx) && InRow(row, cursor) && old(cursor.position) <= cursor.position <= |row|
      ensures RowWork(ctx, row, cursor) <= old(RowWork(ctx, row, cursor))
      ensures cursor.position < |row| ==> !IsReady(ctx) && StartAt(ctx.params, nextStep) < row[cursor.position].t
    {
      hide Holds, SameViews, Ascending, Taken, Within, Work, After, AtMost, Upto, EndAt, StartAt;
      var p := ctx.params;
      Bounds(ctx, Over(buf));
      TakenInside(row, cursor.position, cursor.before, cursor.claimed, consumed, lastT);
      var start := SaturatingSub(SaturatingSub(if p.at.Some? then p.at.value else StepAt(p, nextStep), p.offset),
                                 p.window);
      StartIsExact(p, nextStep);
      var dead := Upto(row[cursor.position..], start);
      DeadPart(ctx, row, cursor.position, dead, nextStep);
      SkipTo(ctx, row, cursor, cursor.position + dead);
      var finalEnd := EndAt(p, Steps(ctx) - 1);
      if cursor.position < |row| && row[cursor.position].t > finalEnd {
        FuturePart(ctx, row, cursor.position, nextStep);
        SkipTo(ctx, row, cursor, |row|);
      }
    }

    /** One allowance of the row enters, and its watermark with it. */
    method Allow(ctx: Context, row: seq<Sample>, cursor: PushCursor, budget: WorkBudget) returns (out: seq<Sample>)
      requires Valid(ctx) && InRow(row, cursor) && cursor.started && !IsReady(ctx) && !Dead(ctx)
               && nextStep < Steps(ctx)
      requires cursor.position < |row| && budget.remaining > 0
      requires StartAt(ctx.params, nextStep) < row[cursor.position].t
      modifies this, cursor`position, budget
      ensures Valid(ctx) && InRow(row, cursor)
      ensures emitted == old(emitted) + out
      ensures old(cursor.position) < cursor.position <= |row|
      ensures RowWork(ctx, row, cursor) < old(RowWork(ctx, row, cursor))
      ensures budget.remaining <= old(budget.remaining)
      ensures old(nextStep) <= nextStep
    {
      hide Holds, SameViews, Ascending, Taken, Within, Work, After, AtMost, Ready, Upto, Extends;
      var p := ctx.params;
      var from := cursor.position;
      Bounds(ctx, Over(buf));
      var count := budget.TakeUpTo(if INGEST_SAMPLES < |row| - from then INGEST_SAMPLES else |row| - from);
      var until := from + count;
      var raw := row[from..until];
      var length := Upto(raw, EndAt(p, Steps(ctx) - 1));
      // An allowance can end between two samples of one timestamp; a window
      // ending there is then still open.
      var t := row[until - 1].t;
      var mark :=
        if until < |row| && row[until].t == t then (if t == I64_MIN then None else Some(t - 1)) else Some(t);
      AllowanceFits(ctx, Over(buf), row, from, until, cursor.before, cursor.claimed, mark);
      Raises(ctx, Over(buf), mark);
      lastT := mark;
      SliceDecides(ctx, raw, length, nextStep);
      out := Ingest(ctx, raw[..length], raw, budget);
      cursor.position := until;
    }

    /** Draining leaves the row where it stands. */
    method DrainRow(ctx: Context, row: seq<Sample>, cursor: PushCursor, budget: WorkBudget) returns (out: seq<Sample>)
      requires Valid(ctx) && InRow(row, cursor)
      modifies this`nextStep, this`hi, this`lo, this`pinned, this`emitted, this`buf, this`base, this`moved,
               this`retired, budget
      ensures Valid(ctx) && InRow(row, cursor)
      ensures emitted == old(emitted) + out
      ensures IsReady(ctx) ==> budget.remaining == 0
      ensures budget.remaining <= old(budget.remaining) && RowWork(ctx, row, cursor) <= old(RowWork(ctx, row, cursor))
      ensures budget.remaining < old(budget.remaining) ==> RowWork(ctx, row, cursor) < old(RowWork(ctx, row, cursor))
    {
      hide Holds, SameViews, Ascending, Taken, Within, Work, EndAt, Ready, Steps, Valid;
      out := Drain(ctx, budget);
    }

    /** A row begins by skipping what earlier rows have claimed. */
    method Start(ctx: Context, row: seq<Sample>, cursor: PushCursor)
      requires Valid(ctx) && InRow(row, cursor) && row != []
      modifies cursor
      ensures InRow(row, cursor) && cursor.started
      ensures cursor.before == old(Before(cursor)) && cursor.claimed == old(ClaimedBefore(cursor))
      ensures RowWork(ctx, row, cursor) <= old(RowWork(ctx, row, cursor))
    {
      hide Holds, Ascending, Taken, Within, Work, Upto;
      if !cursor.started {
        Bounds(ctx, Over(buf));
        cursor.before, cursor.claimed := consumed, lastT;
        cursor.position := SkipCount(row, lastT);
        cursor.started := true;
        RowBegins(row, consumed, lastT);
      }
    }

    lemma Started(cursor: PushCursor)
      requires cursor.started
      ensures Before(cursor) == cursor.before && ClaimedBefore(cursor) == cursor.claimed
    {
    }

    /** A row taken whole has added exactly its later part. */
    lemma RowAdded(row: seq<Sample>, cursor: PushCursor)
      requires InRow(row, cursor) && (row == [] || (cursor.started && cursor.position == |row|))
      ensures consumed == Before(cursor) + Later(row, ClaimedBefore(cursor))
      ensures lastT == Claim(ClaimedBefore(cursor), row) && Settled()
    {
      hide Ascending, Taken, Within, Claim, Later;
      if cursor.started {
        TakenInside(row, cursor.position, cursor.before, cursor.claimed, consumed, lastT);
        RowDone(row, cursor.before, cursor.claimed, consumed, lastT);
      } else {
        NothingLater(consumed, lastT);
      }
    }

    lemma Inside(row: seq<Sample>, cursor: PushCursor)
      requires InRow(row, cursor)
      ensures cursor.started ==> cursor.position <= |row|
    {
    }

    /** One turn of a row: drain what is ready, then take one allowance. */
    method Turn(ctx: Context, row: seq<Sample>, cursor: PushCursor, budget: WorkBudget)
      returns (turn: Progress, out: seq<Sample>)
      requires Valid(ctx) && InRow(row, cursor) && cursor.started
      modifies this, cursor`position, budget
      ensures Valid(ctx) && InRow(row, cursor)
      ensures emitted == old(emitted) + out
      ensures budget.remaining <= old(budget.remaining) && RowWork(ctx, row, cursor) <= old(RowWork(ctx, row, cursor))
      ensures budget.remaining < old(budget.remaining) ==> RowWork(ctx, row, cursor) < old(RowWork(ctx, row, cursor))
      ensures old(cursor.position) <= cursor.position <= |row|
      ensures turn.More? ==> old(cursor.position) < |row| && old(cursor.position) < cursor.position
      ensures turn.Done? ==> cursor.position == |row|
      ensures turn.Suspended? ==> budget.remaining == 0
    {
      hide *;
      out := [];
      Inside(row, cursor);
      // A suspended step keeps its samples as they are: nothing enters.
      if IsReady(ctx) {
        out := DrainRow(ctx, row, cursor, budget);
        if IsReady(ctx) { return Suspended, out; }
      }
      if cursor.position == |row| { return Done, out; }
      if budget.remaining == 0 { return Suspended, out; }
      if nextStep >= Steps(ctx) || Dead(ctx) {
        SkipRest(ctx, row, cursor);
        return Done, out;
      }
      turn := More;
      SkipDead(ctx, row, cursor);
      if cursor.position < |row| {
        var more := Allow(ctx, row, cursor, budget);
        out := out + more;
      }
    }

    /** Takes turns until the row is claimed and nothing is ready, or until the
        budget is spent. */
    method Push(ctx: Context, row: seq<Sample>, cursor: PushCursor, budget: WorkBudget)
      returns (done: bool, out: seq<Sample>)
      requires Valid(ctx) && InRow(row, cursor)
      modifies this, cursor, budget
      ensures Valid(ctx)
      ensures emitted == old(emitted) + out
      ensures done ==>
                && consumed == old(Before(cursor)) + Later(row, old(ClaimedBefore(cursor)))
                && lastT == Claim(old(ClaimedBefore(cursor)), row)
                && Settled()
      ensures !done ==>
                && InRow(row, cursor) && cursor.started
                && cursor.before == old(Before(cursor)) && cursor.claimed == old(ClaimedBefore(cursor))
                && budget.remaining == 0
                && (old(budget.remaining) > 0 ==> RowWork(ctx, row, cursor) < old(RowWork(ctx, row, cursor)))
    {
      hide *;
      out := [];
      if row == [] {
        RowAdded(row, cursor);
        return true, [];
      }
      Start(ctx, row, cursor);
      var turn := More;
      while turn.More?
        invariant Valid(ctx) && InRow(row, cursor) && cursor.started
        invariant cursor.before == old(Before(cursor)) && cursor.claimed == old(ClaimedBefore(cursor))
        invariant emitted == old(emitted) + out
        invariant budget.remaining <= old(budget.remaining)
        invariant RowWork(ctx, row, cursor) <= old(RowWork(ctx, row, cursor))
        invariant budget.remaining < old(budget.remaining) ==>
                    RowWork(ctx, row, cursor) < old(RowWork(ctx, row, cursor))
        invariant turn.Done? ==> cursor.position == |row|
        invariant turn.Suspended? ==> budget.remaining == 0
        decreases turn.More?, |row| - cursor.position
      {
        var more;
        turn, more := Turn(ctx, row, cursor, budget);
        out := out + more;
      }
      done := turn.Done?;
      if done {
        RowAdded(row, cursor);
        assert Before(cursor) == cursor.before && ClaimedBefore(cursor) == cursor.claimed by { Started(cursor); }
      }
    }

    /** Answers the steps that were waiting for later samples. Unfinished, it
        can be called again; finished, the buffer is as good as new. */
    method Close(ctx: Context, budget: WorkBudget) returns (done: bool, out: seq<Sample>)
      requires Valid(ctx)
      modifies this, budget
      ensures Valid(ctx)
      ensures done ==>
                && old(emitted) + out == Answer(ctx, old(consumed))
                && consumed == [] && emitted == [] && lastT.None?
                && Over(buf) == Walk([], 0, 0, 0, 0, None, None, [], [])
      ensures !done ==>
                && emitted == old(emitted) + out && consumed == old(consumed)
                && budget.remaining == 0
                && (old(budget.remaining) > 0 ==> Work(ctx, Over(buf)) < old(Work(ctx, Over(buf))))
    {
      hide Holds, Answer, Work, Ready, Dead, Steps;
      out := [];
      Bounds(ctx, Over(buf));
      Ends(ctx, Over(buf));
      if buf != [] || pinned.Some? {
        lastT := Some(I64_MAX);
        out := Advance(ctx, buf, budget);
        ReduceDelta(ctx);
        if IsReady(ctx) { return false, out; }
        Ends(ctx, Over(buf));
      }
      Finishes(ctx, Over(buf));
      Begins(ctx);
      buf, base, lo, hi, nextStep := [], 0, 0, 0, 0;
      lastT, pinned := None, None;
      consumed, emitted := [], [];
      done := true;
    }
  }

  lemma NothingLater(before: seq<Sample>, claimed: Option<int>)
    ensures Later([], claimed) == [] && Claim(claimed, []) == claimed && before + [] == before
  {
  }

  /** Staleness filtering happens only after the row's claim is settled. */
  method Unstaled(slice: seq<Sample>) returns (kept: seq<Sample>)
    ensures kept == NonStale(slice)
  {
    kept := [];
    for i := 0 to |slice|
      invariant kept == NonStale(slice[..i])
    {
      assert slice[..i + 1][..i] == slice[..i];
      if !IsStale(slice[i].v) { kept := kept + [slice[i]]; }
    }
    assert slice[..|slice|] == slice;
  }
}
