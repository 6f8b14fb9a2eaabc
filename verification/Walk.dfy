/** The walk over one series' history as a value, and what each kind of
    progress keeps of it. */
module Walks {
  import opened Series
  import opened Params
  import opened Fresh
  import opened Reading

  /** `data` is the samples from ordinal `base` on, the history's or a row's. */
  datatype Walk = Walk(
    data: seq<Sample>,
    base: nat,
    lo: nat,
    hi: nat,
    next: nat,
    lastT: Option<int>,
    pinned: Option<Option<Value>>,
    consumed: seq<Sample>,
    emitted: seq<Sample>)

  predicate Ready(ctx: Context, next: nat, lastT: Option<int>) {
    && next < Steps(ctx)
    && !Dead(ctx)
    && lastT.Some?
    && EndAt(ctx.params, next) <= lastT.value
  }

  ghost predicate Shaped(ctx: Context, w: Walk) {
    && Planned(ctx) && Ascending(w.data) && Ascending(w.consumed)
    && w.base <= w.lo <= w.hi <= w.base + |w.data|
    && w.next <= Steps(ctx)
    && (ctx.kernel.Range? ==> NoStale(w.data))
    && (w.data != [] ==> w.consumed != [] && w.data[|w.data| - 1].t <= w.consumed[|w.consumed| - 1].t)
  }

  /** Every answered step is final, and answered as the whole series answers it. */
  ghost predicate Answered(ctx: Context, w: Walk) {
    && w.emitted == FirstSteps(ctx, w.consumed, w.next)
    && (w.next > 0 && !Dead(ctx) ==> w.lastT.Some? && EndAt(ctx.params, w.next - 1) <= w.lastT.value)
  }

  /** The live history decides every remaining step as the series does. */
  ghost predicate Decides(ctx: Context, w: Walk)
    requires w.base <= w.lo <= w.base + |w.data|
  {
    SameViews(ctx, w.consumed, w.data[w.lo - w.base..], w.next)
  }

  ghost predicate Edges(ctx: Context, w: Walk)
    requires w.base <= w.lo <= w.hi <= w.base + |w.data|
  {
    if ctx.params.at.Some? then
      && w.lo == w.hi == w.base
      && (ctx.kernel.Selector? ==>
            |w.data| <= 1 && AtMost(w.data, |w.data|, EndAt(ctx.params, 0)) && After(w.data, 0, StartAt(ctx.params, 0)))
      && (w.pinned.Some? ==>
            Ready(ctx, w.next, w.lastT) && w.pinned.value == ValueOf(ctx, View(ctx, w.consumed, 0), 0))
    else
      && w.pinned.None?
      && AtMost(w.data, w.hi - w.base, EndAt(ctx.params, w.next))
      && (ctx.kernel.Selector? ==> w.lo == if w.hi > w.base then w.hi - 1 else w.base)
      && (ctx.kernel.Range? ==> AtMost(w.data, w.lo - w.base, StartAt(ctx.params, w.next)))
  }

  ghost predicate Holds(ctx: Context, w: Walk) {
    && Shaped(ctx, w)
    && Answered(ctx, w)
    && (w.next < Steps(ctx) ==> Decides(ctx, w) && Edges(ctx, w))
  }

  /** The work left in the history and in the remaining steps. */
  ghost function Work(ctx: Context, w: Walk): int {
    (|w.data| - (w.lo - w.base)) + (|w.data| - (w.hi - w.base)) + (Steps(ctx) - w.next) +
        (if w.pinned.None? then 1 else 0)
  }

  lemma Begins(ctx: Context)
    requires Planned(ctx)
    ensures Holds(ctx, Walk([], 0, 0, 0, 0, None, None, [], []))
  {
    forall k | 0 <= k < Steps(ctx) ensures SameView(ctx, [], [], k) {}
  }

  /** Steps `first..next` are answered by what the walk emitted for them. */
  lemma Answers(ctx: Context, w: Walk, next: nat, out: seq<Sample>)
    requires Answered(ctx, w) && w.next <= next
    requires out == Concat(Parts(ctx, w.consumed), w.next, next)
    ensures w.emitted + out == FirstSteps(ctx, w.consumed, next)
  {
    ConcatJoin(Parts(ctx, w.consumed), 0, w.next, next);
  }

  lemma Bounds(ctx: Context, w: Walk)
    requires Holds(ctx, w)
    ensures w.base <= w.lo <= w.hi <= w.base + |w.data| && w.next <= Steps(ctx)
    ensures Planned(ctx) && Ascending(w.consumed)
    ensures w.next < Steps(ctx) && w.pinned.Some? ==> Ready(ctx, w.next, w.lastT)
    ensures w.next > 0 && !Dead(ctx) ==> w.lastT.Some? && EndAt(ctx.params, w.next - 1) <= w.lastT.value
    ensures w.emitted == FirstSteps(ctx, w.consumed, w.next)
  {
  }

  lemma SelectorForgets(ctx: Context, consumed: seq<Sample>, s: seq<Sample>, cut: nat, h: nat, first: nat, next: nat)
    requires ctx.kernel.Selector? && first < Steps(ctx) && first <= next && Ascending(s) && cut <= h <= |s|
    requires SameViews(ctx, consumed, s[cut..], first)
    requires h > 0 && next < Steps(ctx) ==> s[h - 1].t <= EndAt(ctx.params, next)
    ensures h > cut ==> SameViews(ctx, consumed, s[h - 1..], next)
    ensures SameViews(ctx, consumed, s[cut..], next)
  {
    hide SameViews, View, EndAt;
    SameViewsLater(ctx, consumed, s[cut..], first, next);
    if cut < h {
      SelectorDropsAll(ctx, s, cut, h, next);
      SameViewsTrans(ctx, consumed, s[cut..], s[h - 1..], next);
    }
  }

  lemma SelectorAdvances(ctx: Context, w: Walk, next: nat, h: nat, out: seq<Sample>)
    requires Holds(ctx, w) && ctx.kernel.Selector? && ctx.params.at.None? && w.lastT.Some?
    requires w.next < Steps(ctx) && w.next <= next <= Steps(ctx) && w.hi - w.base <= h <= |w.data|
    requires out == Concat(Parts(ctx, w.consumed), w.next, next)
    requires w.next < next ==> EndAt(ctx.params, next - 1) <= w.lastT.value
    requires next < Steps(ctx) ==> AtMost(w.data, h, EndAt(ctx.params, next))
    ensures Holds(ctx, w.(next := next, hi := w.base + h, lo := if h > 0 then w.base + h - 1 else w.base,
                          emitted := w.emitted + out))
  {
    hide Shaped, Answered, Decides, Edges, SameViews, Parts, EndAt, Steps, Concat, AtMost, Ascending;
    Shape(ctx, w);
    var w' := w.(next := next, hi := w.base + h, lo := if h > 0 then w.base + h - 1 else w.base,
                 emitted := w.emitted + out);
    Moves(ctx, w, next, w'.lo, w'.hi, w.pinned, out);
    SelectorDecides(ctx, w, w', h);
  }

  lemma SelectorDecides(ctx: Context, w: Walk, w': Walk, h: nat)
    requires ctx.kernel.Selector? && ctx.params.at.None? && w.next < Steps(ctx) && w.next <= w'.next
    requires w.base <= w.lo <= w.hi <= w.base + |w.data| && w.hi - w.base <= h <= |w.data|
    requires Ascending(w.data) && Decides(ctx, w) && Edges(ctx, w)
    requires w' == w.(next := w'.next, hi := w.base + h, lo := if h > 0 then w.base + h - 1 else w.base,
                      emitted := w'.emitted)
    requires w'.next < Steps(ctx) ==> AtMost(w.data, h, EndAt(ctx.params, w'.next))
    ensures w'.next < Steps(ctx) ==> Decides(ctx, w') && Edges(ctx, w')
  {
    hide SameViews, EndAt, StartAt, Steps, AtMost, After, Ascending, View, ValueOf, Ready;
    if w'.next < Steps(ctx) {
      if h > 0 { AtMostAt(w.data, h, h - 1, EndAt(ctx.params, w'.next)); }
      SelectorForgets(ctx, w.consumed, w.data, w.lo - w.base, h, w.next, w'.next);
    }
  }

  /** What moving the cursors and emitting `out` keeps, whatever the kernel. */
  lemma Moves(ctx: Context, w: Walk, next: nat, lo: nat, hi: nat, pinned: Option<Option<Value>>, out: seq<Sample>)
    requires Shaped(ctx, w) && Answered(ctx, w)
    requires w.next <= next <= Steps(ctx) && w.base <= lo <= hi <= w.base + |w.data|
    requires out == Concat(Parts(ctx, w.consumed), w.next, next)
    requires w.next < next && !Dead(ctx) ==> w.lastT.Some? && EndAt(ctx.params, next - 1) <= w.lastT.value
    ensures Shaped(ctx, w.(next := next, lo := lo, hi := hi, pinned := pinned, emitted := w.emitted + out))
    ensures Answered(ctx, w.(next := next, lo := lo, hi := hi, pinned := pinned, emitted := w.emitted + out))
  {
    hide FirstSteps, Planned, EndAt, Parts, Steps, Ascending, NoStale, Concat;
    Answers(ctx, w, next, out);
  }

  lemma RangeAdvances(ctx: Context, w: Walk, next: nat, l: nat, h: nat, out: seq<Sample>)
    requires Holds(ctx, w) && ctx.kernel.Range? && ctx.params.at.None? && w.lastT.Some?
    requires w.next < Steps(ctx) && w.next <= next <= Steps(ctx)
    requires w.lo - w.base <= l <= h <= |w.data|
    requires out == Concat(Parts(ctx, w.consumed), w.next, next)
    requires w.next < next ==> EndAt(ctx.params, next - 1) <= w.lastT.value
    requires next < Steps(ctx) ==>
               AtMost(w.data, l, StartAt(ctx.params, next)) && AtMost(w.data, h, EndAt(ctx.params, next))
    ensures Holds(ctx, w.(next := next, lo := w.base + l, hi := w.base + h, emitted := w.emitted + out))
  {
    hide Shaped, Answered, SameViews, Planned, Parts, EndAt, StartAt, Concat, AtMost;
    Shape(ctx, w);
    Moves(ctx, w, next, w.base + l, w.base + h, w.pinned, out);
    var cut := w.lo - w.base;
    SameViewsLater(ctx, w.consumed, w.data[cut..], w.next, next);
    if next < Steps(ctx) {
      RangeDrops(ctx, w.data, cut, l, next);
      SameViewsTrans(ctx, w.consumed, w.data[cut..], w.data[l..], next);
    }
  }

  lemma PinnedAdvances(ctx: Context, w: Walk, value: Option<Value>, next: nat, out: seq<Sample>)
    requires Holds(ctx, w) && ctx.params.at.Some? && Ready(ctx, w.next, w.lastT)
    requires w.next <= next <= Steps(ctx)
    requires value == ValueOf(ctx, View(ctx, w.consumed, 0), 0)
    requires out == Concat(Parts(ctx, w.consumed), w.next, next)
    ensures Holds(ctx, w.(next := next, pinned := Some(value), emitted := w.emitted + out))
  {
    hide Shaped, Answered, SameViews, View, ValueOf, Planned, Parts, StepAt, Concat, AtMost, After;
    Shape(ctx, w);
    Moves(ctx, w, next, w.lo, w.hi, Some(value), out);
    SameViewsLater(ctx, w.consumed, w.data[w.lo - w.base..], w.next, next);
  }

  /** Dropping what no later step reads. */
  lemma Reduces(ctx: Context, w: Walk)
    requires Holds(ctx, w)
    ensures w.base <= w.lo <= w.base + |w.data|
    ensures Holds(ctx, w.(data := w.data[w.lo - w.base..], base := w.lo))
    ensures Work(ctx, w.(data := w.data[w.lo - w.base..], base := w.lo)) == Work(ctx, w)
  {
    hide SameViews, View, EndAt, StartAt, Ready, ValueOf, Planned, FirstSteps;
    var data := w.data[w.lo - w.base..];
    assert data[0..] == data;
  }

  /** Once every step is answered, nothing need be kept. */
  lemma Retires(ctx: Context, w: Walk)
    requires Holds(ctx, w) && w.next == Steps(ctx)
    ensures Holds(ctx, w.(data := [], base := w.hi, lo := w.hi))
  {
  }

  /** The row's later timestamps raise the watermark. */
  lemma Raises(ctx: Context, w: Walk, lastT: Option<int>)
    requires Holds(ctx, w)
    requires w.next > 0 && !Dead(ctx) ==> lastT.Some? && EndAt(ctx.params, w.next - 1) <= lastT.value
    requires w.pinned.Some? && w.next < Steps(ctx) ==> Ready(ctx, w.next, lastT)
    ensures Holds(ctx, w.(lastT := lastT)) && Work(ctx, w.(lastT := lastT)) == Work(ctx, w)
  {
    hide Shaped, Answered, Edges, SameViews, EndAt, Steps, Ready, Dead;
    Shape(ctx, w);
    RaisesShape(ctx, w, lastT);
    RaisesAnswers(ctx, w, lastT);
    if w.next < Steps(ctx) { RaisesEdges(ctx, w, lastT); }
  }

  lemma RaisesShape(ctx: Context, w: Walk, lastT: Option<int>)
    requires Shaped(ctx, w)
    ensures Shaped(ctx, w.(lastT := lastT))
  {
    hide Planned, Ascending, NoStale, Steps;
  }

  lemma RaisesAnswers(ctx: Context, w: Walk, lastT: Option<int>)
    requires Answered(ctx, w)
    requires w.next > 0 && !Dead(ctx) ==> lastT.Some? && EndAt(ctx.params, w.next - 1) <= lastT.value
    ensures Answered(ctx, w.(lastT := lastT))
  {
    hide FirstSteps, EndAt, Dead;
  }

  lemma RaisesEdges(ctx: Context, w: Walk, lastT: Option<int>)
    requires w.base <= w.lo <= w.hi <= w.base + |w.data| && Edges(ctx, w) && w.next < Steps(ctx)
    requires w.pinned.Some? && w.next < Steps(ctx) ==> Ready(ctx, w.next, lastT)
    ensures Edges(ctx, w.(lastT := lastT))
  {
    hide AtMost, After, EndAt, StartAt, Ready, Steps, View, ValueOf;
  }

  /** What a row may add: later than every answered window. */
  ghost predicate Extends(ctx: Context, w: Walk, raw: seq<Sample>) {
    && Ascending(w.consumed + raw)
    && (w.next > 0 && !Dead(ctx) && raw != [] ==> EndAt(ctx.params, w.next - 1) < raw[0].t)
  }

  /** The series grows by samples no remaining step reads. */
  lemma Skips(ctx: Context, w: Walk, more: seq<Sample>)
    requires Holds(ctx, w) && !Ready(ctx, w.next, w.lastT) && Extends(ctx, w, more)
    requires SameViews(ctx, more, [], w.next)
    ensures Holds(ctx, w.(consumed := w.consumed + more))
  {
    hide SameViews, View, EndAt, StartAt, ValueOf, Planned, FirstSteps;
    Unchanged(ctx, w.consumed, more, w.next);
    if w.next < Steps(ctx) {
      SameViewsNone(ctx, w.consumed, w.data[w.lo - w.base..], more, w.next);
    }
    if more == [] {
      assert w.consumed + more == w.consumed;
    } else {
      KeptJoins(w.data, w.consumed, [], more);
    }
  }

  lemma Grows(ctx: Context, w: Walk, kept: seq<Sample>, raw: seq<Sample>)
    requires Holds(ctx, w) && w.next < Steps(ctx) && Extends(ctx, w, raw) && raw != []
    requires Ascending(kept) && (forall x :: x in kept ==> x in raw)
    requires SameViews(ctx, raw, kept, w.next)
    requires ctx.kernel.Range? ==> NoStale(kept)
    ensures Shaped(ctx, w.(data := w.data + kept, consumed := w.consumed + raw))
    ensures Answered(ctx, w.(consumed := w.consumed + raw))
    ensures Decides(ctx, w.(data := w.data + kept, consumed := w.consumed + raw))
  {
    hide SameViews, View, EndAt, FirstSteps, Edges, Ascending, NoStale, Steps, Planned, Shaped;
    Shape(ctx, w);
    Unchanged(ctx, w.consumed, raw, w.next);
    ShapeGrows(ctx, w, kept, raw);
    var cut := w.lo - w.base;
    SameViewsExtend(ctx, w.consumed, w.data[cut..], raw, kept, w.next);
    assert (w.data + kept)[cut..] == w.data[cut..] + kept;
  }

  lemma ShapeGrows(ctx: Context, w: Walk, kept: seq<Sample>, raw: seq<Sample>)
    requires Shaped(ctx, w) && raw != [] && Ascending(w.consumed + raw)
    requires Ascending(kept) && (forall x :: x in kept ==> x in raw)
    requires ctx.kernel.Range? ==> NoStale(kept)
    ensures Shaped(ctx, w.(data := w.data + kept, consumed := w.consumed + raw))
  {
    hide Ascending, NoStale, Steps, Planned;
    KeptJoins(w.data, w.consumed, kept, raw);
    if ctx.kernel.Range? { NoStaleJoin(w.data, kept); }
  }

  /** With history, or under a range's `@`, the kept samples are copied; with
      none they are lent. */
  lemma Appends(ctx: Context, w: Walk, kept: seq<Sample>, raw: seq<Sample>)
    requires Holds(ctx, w) && w.next < Steps(ctx) && w.pinned.None? && Extends(ctx, w, raw) && raw != []
    requires Ascending(kept) && (forall x :: x in kept ==> x in raw)
    requires SameViews(ctx, raw, kept, w.next)
    requires ctx.kernel.Range? ==> NoStale(kept)
    requires ctx.params.at.None? || ctx.kernel.Range?
    ensures Holds(ctx, w.(data := w.data + kept, consumed := w.consumed + raw))
    ensures Work(ctx, w.(data := w.data + kept, consumed := w.consumed + raw)) == Work(ctx, w) + 2 * |kept|
  {
    hide SameViews, View, EndAt, StartAt, ValueOf, Planned, FirstSteps, Shaped, Decides;
    Shape(ctx, w);
    Grows(ctx, w, kept, raw);
  }

  lemma Shape(ctx: Context, w: Walk)
    requires Shaped(ctx, w)
    ensures w.base <= w.lo <= w.hi <= w.base + |w.data| && w.next <= Steps(ctx) && Planned(ctx)
    ensures Ascending(w.data) && Ascending(w.consumed)
    ensures ctx.kernel.Range? ==> NoStale(w.data)
  {
  }

  lemma AppendsNothing(ctx: Context, w: Walk, raw: seq<Sample>)
    requires Holds(ctx, w) && w.next < Steps(ctx) && w.pinned.None? && Extends(ctx, w, raw) && raw != []
    requires SameViews(ctx, raw, [], w.next)
    ensures Holds(ctx, w.(consumed := w.consumed + raw))
  {
    hide Shaped, Answered, Decides, Extends, SameViews, View, EndAt, StartAt, ValueOf, Ascending, NoStale, Steps,
         AtMost, After, Ready, Dead;
    Shape(ctx, w);
    assert w.data + [] == w.data;
    Nothing();
    Grows(ctx, w, [], raw);
  }

  lemma Nothing()
    ensures NoStale([]) && Ascending([])
  {
  }

  lemma Latest(ctx: Context, w: Walk, slice: seq<Sample>, raw: seq<Sample>)
    requires w.lo == w.base && Decides(ctx, w.(data := w.data + slice, consumed := w.consumed + raw))
    requires ctx.params.at.Some? && ctx.kernel.Selector? && slice != []
    requires After(slice, 0, StartAt(ctx.params, 0)) && AtMost(slice, |slice|, EndAt(ctx.params, 0))
    ensures Decides(ctx, w.(data := [slice[|slice| - 1]], consumed := w.consumed + raw))
  {
    hide SameViews, View;
    assert (w.data + slice)[0..] == w.data + slice;
    assert [slice[|slice| - 1]][0..] == [slice[|slice| - 1]];
    SameViewsLatest(ctx, w.data, slice, w.next);
    SameViewsTrans(ctx, w.consumed + raw, w.data + slice, [slice[|slice| - 1]], w.next);
  }

  /** A pinned selector keeps the allowance's latest sample alone. */
  lemma AppendsLatest(ctx: Context, w: Walk, slice: seq<Sample>, raw: seq<Sample>)
    requires Holds(ctx, w) && w.next < Steps(ctx) && w.pinned.None? && Extends(ctx, w, raw) && raw != []
    requires Ascending(slice) && (forall x :: x in slice ==> x in raw)
    requires SameViews(ctx, raw, slice, w.next)
    requires ctx.params.at.Some? && ctx.kernel.Selector? && slice != []
    requires After(slice, 0, StartAt(ctx.params, 0)) && AtMost(slice, |slice|, EndAt(ctx.params, 0))
    ensures Holds(ctx, w.(data := [slice[|slice| - 1]], consumed := w.consumed + raw))
  {
    hide SameViews, View, EndAt, StartAt, ValueOf, Planned, FirstSteps, Ascending, NoStale, Steps, Decides;
    Grows(ctx, w, slice, raw);
    Latest(ctx, w, slice, raw);
    Singleton(slice[|slice| - 1]);
  }

  /** A range over an empty window has nothing to answer at any step. */
  lemma Gives(ctx: Context, w: Walk)
    requires Holds(ctx, w) && (Dead(ctx) || w.next == Steps(ctx))
    ensures Holds(ctx, w.(next := Steps(ctx)))
    ensures Work(ctx, w.(next := Steps(ctx))) <= Work(ctx, w)
  {
    hide Shaped, Answered, Decides, Edges, Steps, Dead;
    Bounds(ctx, w);
    GivesShape(ctx, w);
    if w.next < Steps(ctx) { GivesAnswers(ctx, w); } else { assert w.(next := Steps(ctx)) == w; }
  }

  lemma GivesShape(ctx: Context, w: Walk)
    requires Shaped(ctx, w)
    ensures Shaped(ctx, w.(next := Steps(ctx)))
  {
    hide Planned, Ascending, NoStale, Steps;
  }

  lemma GivesAnswers(ctx: Context, w: Walk)
    requires Planned(ctx) && Ascending(w.consumed) && Answered(ctx, w) && Dead(ctx) && w.next <= Steps(ctx)
    ensures Answered(ctx, w.(next := Steps(ctx)))
  {
    hide SameViews, View, EndAt, FirstSteps, Steps, Ascending;
    forall k | w.next <= k < Steps(ctx) ensures View(ctx, w.consumed, k) == [] {
      UnreadWhenDead(ctx, w.consumed, k);
      ViewOutside(ctx, w.consumed, k);
    }
    EmptyStepsAnswerNothing(ctx, w.consumed, w.next, Steps(ctx));
  }

  lemma UnreadWhenDead(ctx: Context, s: seq<Sample>, k: int)
    requires ctx.params.window <= 0
    ensures Unread(ctx, s, k)
  {
  }

  /** How far into `row` the series has come: it held `before`, with `claimed`
      claimed, when the row began. */
  ghost predicate Taken(row: seq<Sample>, position: nat, before: seq<Sample>, claimed: Option<int>,
                        consumed: seq<Sample>, lastT: Option<int>)
  {
    && Ascending(row)
    && SkipCount(row, claimed) <= position <= |row|
    && Ascending(before) && Within(before, claimed)
    && consumed == before + row[SkipCount(row, claimed)..position]
    && (position < |row| && lastT.Some? ==> lastT.value < row[position].t)
    && (position == |row| ==> lastT == Claim(claimed, row))
  }

  /** A whole row taken leaves the series settled, with the row's later part. */
  lemma RowDone(row: seq<Sample>, before: seq<Sample>, claimed: Option<int>, consumed: seq<Sample>, lastT: Option<int>)
    requires Taken(row, |row|, before, claimed, consumed, lastT)
    ensures consumed == before + Later(row, claimed) && lastT == Claim(claimed, row)
    ensures Within(consumed, lastT)
  {
    LaterFacts(row, claimed);
    assert row[SkipCount(row, claimed)..|row|] == row[SkipCount(row, claimed)..];
  }

  /** A row begins after what earlier rows claimed. */
  lemma RowBegins(row: seq<Sample>, before: seq<Sample>, claimed: Option<int>)
    requires Ascending(row) && row != [] && Ascending(before) && Within(before, claimed)
    ensures Taken(row, SkipCount(row, claimed), before, claimed, before, claimed)
  {
    var skip := SkipCount(row, claimed);
    if claimed.Some? { UptoSplits(row, claimed.value); }
    assert row[skip..skip] == [];
    assert before + [] == before;
  }

  lemma TakenAt(row: seq<Sample>, from: nat, to: nat, before: seq<Sample>, claimed: Option<int>,
                consumed: seq<Sample>, lastT: Option<int>)
    requires Taken(row, from, before, claimed, consumed, lastT) && from < to <= |row|
    ensures lastT.Some? ==> lastT.value < row[from].t <= row[to - 1].t <= row[|row| - 1].t
    ensures to < |row| ==> row[to - 1].t <= row[to].t
    ensures Claim(lastT, row) == Some(row[|row| - 1].t)
  {
  }

  /** The next part of a row extends the series. */
  lemma RowExtends(row: seq<Sample>, from: nat, to: nat, before: seq<Sample>, claimed: Option<int>,
                   consumed: seq<Sample>, lastT: Option<int>, lastT': Option<int>)
    requires Taken(row, from, before, claimed, consumed, lastT) && from < to <= |row|
    requires to < |row| && lastT'.Some? ==> lastT'.value < row[to].t
    requires to == |row| ==> lastT' == Some(row[|row| - 1].t)
    ensures Ascending(consumed + row[from..to])
    ensures Taken(row, to, before, claimed, consumed + row[from..to], lastT')
    ensures lastT.Some? ==> lastT.value < row[from..to][0].t
    ensures Ascending(row[from..to])
  {
    var skip := SkipCount(row, claimed);
    RowAfterClaim(row, claimed, to);
    AscendingPart(row, skip, to);
    AscendingPart(row, from, to);
    hide Ascending, SkipCount;
    AscendingJoin(before, row[skip..to]);
    assert row[skip..from] + row[from..to] == row[skip..to];
    assert consumed + row[from..to] == before + row[skip..to];
  }

  lemma RowAfterClaim(row: seq<Sample>, claimed: Option<int>, to: nat)
    requires Ascending(row) && SkipCount(row, claimed) < to <= |row|
    ensures claimed.Some? ==> claimed.value < row[SkipCount(row, claimed)].t <= row[|row| - 1].t
    ensures Claim(claimed, row) == Some(row[|row| - 1].t)
  {
    if claimed.Some? {
      UptoSplits(row, claimed.value);
      hide Upto;
    }
  }

  lemma TakenInside(row: seq<Sample>, position: nat, before: seq<Sample>, claimed: Option<int>,
                    consumed: seq<Sample>, lastT: Option<int>)
    requires Taken(row, position, before, claimed, consumed, lastT)
    ensures position <= |row| && Ascending(row)
  {
  }

  lemma StartIsExact(p: Params, k: nat)
    requires Fits(p) && k < Count(p)
    ensures SaturatingSub(SaturatingSub(if p.at.Some? then p.at.value else StepAt(p, k), p.offset), p.window) ==
            StartAt(p, k)
  {
    hide StepAt;
  }

  lemma DeadPart(ctx: Context, row: seq<Sample>, position: nat, dead: nat, next: nat)
    requires Ascending(row) && position <= |row| && ctx.params.step > 0
    requires dead == Upto(row[position..], StartAt(ctx.params, next))
    ensures position + dead <= |row|
    ensures SameViews(ctx, row[position..position + dead], [], next)
    ensures position + dead < |row| ==> StartAt(ctx.params, next) < row[position + dead].t
  {
    hide SameViews, StartAt;
    AscendingPart(row, position, |row|);
    assert row[position..] == row[position..|row|];
    UptoSplits(row[position..], StartAt(ctx.params, next));
    assert row[position..position + dead] == row[position..][..dead];
    DeadPrefix(ctx, row[position..position + dead], next);
  }

  lemma FuturePart(ctx: Context, row: seq<Sample>, position: nat, next: nat)
    requires Ascending(row) && position < |row| && ctx.params.step > 0
    requires row[position].t > EndAt(ctx.params, Steps(ctx) - 1)
    ensures SameViews(ctx, row[position..|row|], [], next)
  {
    hide SameViews, EndAt;
    var rest := row[position..|row|];
    forall i | 0 <= i < |rest| ensures EndAt(ctx.params, Steps(ctx) - 1) < rest[i].t {
      assert row[position].t <= row[position + i].t;
    }
    FutureTail(ctx, rest, next);
  }

  /** The readiness watermark after an allowance ends at `until`. */
  ghost predicate Marks(row: seq<Sample>, until: nat, mark: Option<int>)
    requires 0 < until <= |row|
  {
    var t := row[until - 1].t;
    mark ==
    if until < |row| && row[until].t == t then (if t == I64_MIN then None else Some(t - 1)) else Some(t)
  }

  lemma AllowanceFits(ctx: Context, w: Walk, row: seq<Sample>, from: nat, until: nat,
                      before: seq<Sample>, claimed: Option<int>, mark: Option<int>)
    requires Holds(ctx, w) && Taken(row, from, before, claimed, w.consumed, w.lastT) && from < until <= |row|
    requires Marks(row, until, mark)
    ensures w.next > 0 && !Dead(ctx) ==> mark.Some? && EndAt(ctx.params, w.next - 1) <= mark.value
    ensures Extends(ctx, w.(lastT := mark), row[from..until]) && Ascending(row[from..until])
    ensures Taken(row, until, before, claimed, w.consumed + row[from..until], mark)
  {
    hide Holds, SameViews, Ascending, Taken, Within, EndAt, StepAt;
    Bounds(ctx, w);
    TakenAt(row, from, until, before, claimed, w.consumed, w.lastT);
    RowExtends(row, from, until, before, claimed, w.consumed, w.lastT, mark);
    if w.next > 0 {
      EndsFit(ctx.params, w.next - 1);
    }
  }

  lemma EndsFit(p: Params, k: nat)
    requires Fits(p) && k < Count(p)
    ensures I64_MIN <= EndAt(p, k) <= I64_MAX
  {
    hide StepAt;
  }

  /** Cutting the tail past the last lookup off changes no step's view. */
  lemma SliceDecides(ctx: Context, raw: seq<Sample>, length: nat, next: nat)
    requires Ascending(raw) && raw != [] && next < Steps(ctx)
    requires length == Upto(raw, EndAt(ctx.params, Steps(ctx) - 1))
    requires StartAt(ctx.params, next) < raw[0].t
    ensures length <= |raw| && Ascending(raw[..length]) && SameViews(ctx, raw, raw[..length], next)
    ensures ctx.params.at.Some? ==>
              && After(raw[..length], 0, StartAt(ctx.params, 0))
              && AtMost(raw[..length], length, EndAt(ctx.params, 0))
  {
    hide SameViews, View, StepAt, Upto, Ascending, EndAt;
    var end := EndAt(ctx.params, Steps(ctx) - 1);
    UptoSplits(raw, end);
    AscendingPart(raw, 0, length);
    assert raw[0..length] == raw[..length];
    FutureTail(ctx, raw[length..], next);
    SameViewsSelf(ctx, raw[..length], next);
    assert raw == raw[..length] + raw[length..];
    SameViewsNone(ctx, raw[..length], raw[..length], raw[length..], next);
    if ctx.params.at.Some? { Pinned(ctx, raw, length, next); }
  }

  lemma Pinned(ctx: Context, raw: seq<Sample>, length: nat, next: nat)
    requires Ascending(raw) && length <= |raw| && raw != [] && ctx.params.at.Some?
    requires AtMost(raw, length, EndAt(ctx.params, Steps(ctx) - 1)) && StartAt(ctx.params, next) < raw[0].t
    ensures After(raw[..length], 0, StartAt(ctx.params, 0)) && AtMost(raw[..length], length, EndAt(ctx.params, 0))
  {
    hide StepAt;
  }

  lemma SameViewsSelf(ctx: Context, s: seq<Sample>, from: int)
    ensures SameViews(ctx, s, s, from)
  {
    hide View;
  }

  lemma WorkIsLeft(ctx: Context, w: Walk)
    requires Holds(ctx, w)
    ensures Work(ctx, w) >= 0
  {
  }

  /** At the end of the series every window is final. */
  lemma Ends(ctx: Context, w: Walk)
    requires Holds(ctx, w)
    ensures Holds(ctx, w.(lastT := Some(I64_MAX))) && Work(ctx, w.(lastT := Some(I64_MAX))) == Work(ctx, w)
    ensures !Ready(ctx, w.next, Some(I64_MAX)) ==> w.next == Steps(ctx) || Dead(ctx)
  {
    hide Holds, EndAt, Work;
    Bounds(ctx, w);
    if w.next > 0 { EndsFit(ctx.params, w.next - 1); }
    if w.next < Steps(ctx) { EndsFit(ctx.params, w.next); }
    Raises(ctx, w, Some(I64_MAX));
  }

  /** A series with no step left, or none that reads anything, is answered. */
  lemma Finishes(ctx: Context, w: Walk)
    requires Holds(ctx, w) && (w.next == Steps(ctx) || Dead(ctx) || w.data == [])
    ensures w.emitted == Answer(ctx, w.consumed)
  {
    hide SameViews, View, EndAt, FirstSteps, Shaped, Edges, Ascending, Steps, Dead;
    if w.next == Steps(ctx) || Dead(ctx) {
      Gives(ctx, w);
    } else {
      Shape(ctx, w);
      var tail := w.data[w.lo - w.base..];
      assert tail == [];
      NothingSeen(ctx, w.consumed, w.next);
      EmptyStepsAnswerNothing(ctx, w.consumed, w.next, Steps(ctx));
    }
  }

  lemma NothingSeen(ctx: Context, s: seq<Sample>, from: nat)
    requires SameViews(ctx, s, [], from)
    ensures forall k :: from <= k < Steps(ctx) ==> View(ctx, s, k) == []
  {
    hide View, EndAt;
    forall k | from <= k < Steps(ctx) ensures View(ctx, s, k) == [] {
      assert SameView(ctx, s, [], k);
      ViewOutside(ctx, [], k);
    }
  }
}
