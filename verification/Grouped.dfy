/** `promql_aggregate`'s accumulator: a state per group and grid position. */
module Aggregate {
  import opened Series
  import opened Grids
  import opened Spans

  datatype EmitTo = All | First(n: nat)

  /** An emitted sample, with a value or a partial state. */
  datatype Entry<R> = Entry(t: int, value: R)

  // ── The specification: per group, a map from grid index to state ──

  /** What one group emits: its reached positions in step order. */
  function RowPart<S, R>(g: Grid, m: map<nat, S>, read: S -> R): int -> seq<Entry<R>> {
    (i: int) => if i >= 0 && i in m then [Entry(Timestamp(g, i), read(m[i]))] else []
  }

  function RowOf<S, R>(g: Grid, m: map<nat, S>, read: S -> R): seq<Entry<R>> {
    Concat(RowPart(g, m, read), 0, g.len)
  }

  /** A series, or a partial row, as it arrives: timestamps and their part. */
  datatype Input<S, V> = Input(ts: seq<int>, part: Part<S, V>)

  function FoldInput<S, V>(g: Grid, ops: Ops<S, V>, m: map<nat, S>, input: Input<S, V>): map<nat, S>
    requires g.step > 0
  {
    if |Indices(g, input.ts)| == PartLen(input.part) then FoldPart(ops, m, Indices(g, input.ts), input.part) else m
  }

  /** The model grown to `groups` groups, new ones unreached. */
  function Grown<S>(model: seq<map<nat, S>>, groups: nat): seq<map<nat, S>> {
    if groups <= |model| then model else model + Fill(groups - |model|, map[])
  }

  /** The first `n` rows of a batch folded in order; a skipped row contributes nothing. */
  function FoldBatch<S, V>(g: Grid, ops: Ops<S, V>, model: seq<map<nat, S>>, rows: seq<Option<Input<S, V>>>,
                           groupOf: seq<nat>, n: nat)
    : (folded: seq<map<nat, S>>)
    requires g.step > 0 && n <= |groupOf| == |rows|
    ensures |folded| == |model|
  {
    if n == 0 then model
    else
      Folded(g, ops, FoldBatch(g, ops, model, rows, groupOf, n - 1), rows[n - 1], groupOf[n - 1])
  }

  function Folded<S, V>(g: Grid, ops: Ops<S, V>, model: seq<map<nat, S>>, row: Option<Input<S, V>>, group: nat)
    : (folded: seq<map<nat, S>>)
    requires g.step > 0
    ensures |folded| == |model|
  {
    if row.None? || group >= |model| then model
    else model[group := FoldInput(g, ops, model[group], row.value)]
  }

  // ── The two layouts ──

  /** One flat lane over all groups holds states by group, at the one step. */
  function FlatGroup<S>(held: map<nat, S>, group: nat): map<nat, S> {
    if group in held then map[0 := held[group]] else map[]
  }

  function FlatModel<S>(held: map<nat, S>, groups: nat): (model: seq<map<nat, S>>)
    ensures |model| == groups
  {
    seq(groups, group requires 0 <= group < groups => FlatGroup(held, group))
  }

  function SpansModel<S>(lanes: seq<Lane<S>>): (model: seq<map<nat, S>>)
    requires forall i :: 0 <= i < |lanes| ==> Sized(lanes[i])
    ensures |model| == |lanes|
  {
    seq(|lanes|, group requires 0 <= group < |lanes| => Contents(lanes[group]))
  }

  function LaneSize<S>(l: Lane<S>): nat {
    |l.seen| + |l.states|
  }

  function TotalSize<S>(lanes: seq<Lane<S>>): nat {
    if lanes == [] then 0 else TotalSize(lanes[..|lanes| - 1]) + LaneSize(lanes[|lanes| - 1])
  }

  lemma {:induction false} TotalUpdates<S>(lanes: seq<Lane<S>>, i: nat, l: Lane<S>)
    requires i < |lanes|
    ensures TotalSize(lanes[i := l]) + LaneSize(lanes[i]) == TotalSize(lanes) + LaneSize(l)
    decreases |lanes|
  {
    var n := |lanes| - 1;
    if i < n {
      TotalUpdates(lanes[..n], i, l);
      assert lanes[i := l][..n] == lanes[..n][i := l];
    } else {
      assert lanes[i := l][..n] == lanes[..n];
    }
  }

  lemma {:induction false} TotalDrops<S>(lanes: seq<Lane<S>>)
    requires lanes != []
    ensures TotalSize(lanes) == LaneSize(lanes[0]) + TotalSize(lanes[1..])
    decreases |lanes|
  {
    var n := |lanes| - 1;
    if n > 0 {
      TotalDrops(lanes[..n]);
      assert lanes[..n][1..] == lanes[1..][..n - 1] && lanes[1..][n - 1] == lanes[n];
    } else {
      assert lanes[..0] == [] == lanes[1..];
    }
  }

  lemma SpansModelSets<S>(lanes: seq<Lane<S>>, i: nat, l: Lane<S>)
    requires i < |lanes| && Sized(l) && forall j :: 0 <= j < |lanes| ==> Sized(lanes[j])
    ensures SpansModel(lanes[i := l]) == SpansModel(lanes)[i := Contents(l)]
  {
    hide Contents;
  }

  /** A span that starts at `first` and is `width` wide holds every timestamp. */
  ghost predicate Spanned(first: nat, width: int, g: Grid, ts: seq<int>)
    requires g.step > 0
  {
    forall k :: 0 <= k < |ts| ==>
      var i := Index(g, ts[k]); i.Some? && first <= i.value < first + width
  }

  function RunStart(runs: seq<Run>, i: nat, n: nat): nat {
    if i < |runs| then runs[i].from else n
  }

  lemma RunSpanned(first: nat, width: int, g: Grid, ts: seq<int>, runs: seq<Run>, i: nat)
    requires g.step > 0 && RunsTo(g, ts, runs, |ts|) && Spanned(first, width, g, ts) && i < |runs|
    ensures var r := runs[i];
            && r.from + r.len <= |ts| && RunStart(runs, i + 1, |ts|) == r.from + r.len
            && first <= r.index && r.index - first + r.len <= width
            && |Indices(g, ts)| == |ts|
            && forall k :: r.from <= k < r.from + r.len ==> Indices(g, ts)[k] == r.index + k - r.from
  {
    hide Index, Indices;
    var r := runs[i];
    IndicesAt(g, ts);
    assert Index(g, ts[r.from]) == Some(r.index);
    assert Index(g, ts[r.from + r.len - 1]) == Some(r.index + r.len - 1);
    if i + 1 < |runs| { assert RunGap(runs[i + 1 - 1], runs[i + 1]); }
  }

  lemma FirstRun(g: Grid, ts: seq<int>, runs: seq<Run>)
    requires g.step > 0 && RunsTo(g, ts, runs, |ts|)
    ensures RunStart(runs, 0, |ts|) == 0
  {
  }

  lemma NothingFolds<S, V>(ops: Ops<S, V>, m: map<nat, S>, ixs: seq<nat>, part: Part<S, V>)
    requires |ixs| == PartLen(part)
    ensures FoldPart(ops, m, ixs[..0], Slice(part, 0, 0)) == m
    ensures ixs[..|ixs|] == ixs && Slice(part, 0, |ixs|) == part
  {
    match part
    case Values(vs) => assert vs[0..|vs|] == vs;
    case Partials(ss) => assert ss[0..|ss|] == ss;
  }

  /** Runs of one series, or of one partial row, into one span. */
  method FoldRuns<S(==), V>(span: Span<S, V>, g: Grid, ts: seq<int>, part: Part<S, V>, runs: seq<Run>)
    returns (ok: bool)
    requires span.Valid() && g.step > 0 && PartLen(part) == |ts|
    requires forall i :: 0 <= i < |runs| ==> RunOf(g, ts, runs[i])
    modifies span`seen, span`states
    ensures span.Valid() && |span.seen| == |old(span.seen)|
    ensures RunsTo(g, ts, runs, |ts|) && Spanned(span.first, |old(span.seen)| - old(span.start), g, ts) ==>
              && ok
              && |Indices(g, ts)| == |ts|
              && Contents(span.Now()) == FoldPart(span.ops, old(Contents(span.Now())), Indices(g, ts), part)
  {
    hide Contents, Clean, FoldPart, FoldPartRun, Index, RunsTo, RunOf, Spanned, Indices, Slice;
    ghost var whole := RunsTo(g, ts, runs, |ts|) && Spanned(span.first, |span.seen| - span.start, g, ts);
    ghost var was, ixs := Contents(span.Now()), Indices(g, ts);
    ghost var to: nat := 0;
    IndicesAt(g, ts);
    NothingFolds(span.ops, was, ixs, part);
    if whole { FirstRun(g, ts, runs); }
    for i := 0 to |runs|
      invariant span.Valid() && |span.seen| == |old(span.seen)|
      invariant to <= |ts|
      invariant whole ==> to == RunStart(runs, i, |ts|)
      invariant whole ==> Contents(span.Now()) == FoldPart(span.ops, was, ixs[..to], Slice(part, 0, to))
    {
      var r := runs[i];
      RunInside(g, ts, r);
      var at := span.LocalIndex(r.index, r.len);
      if whole { RunSpanned(span.first, |span.seen| - span.start, g, ts, runs, i); }
      if at.None? { return false; }
      if whole { RunFoldsPart(span.ops, was, ixs, part, r.index, r.from, r.from + r.len); }
      span.FoldRunAt(at.value, Slice(part, r.from, r.from + r.len));
      to := r.from + r.len;
    }
    ok := true;
  }

  /** The reached positions of one span, in step order. */
  method WalkSpan<S(==), V, R>(span: Span<S, V>, g: Grid, read: S -> R) returns (row: seq<Entry<R>>)
    requires span.Valid() && Sized(span.Now())
    ensures row == Concat(RowPart(g, Contents(span.Now()), read), span.first, span.first + Width(span.Now()))
  {
    hide Contents, Clean, RowPart, Timestamp;
    ghost var part := RowPart(g, Contents(span.Now()), read);
    row := [];
    var len := |span.seen| - span.start;
    for step := 0 to len
      invariant row == Concat(part, span.first, span.first + step)
    {
      EntryAt(span.Now(), g, span.start + step, span.ops.blank, read);
      if span.seen[span.start + step] {
        row := row + [Entry(Timestamp(g, span.first + step), read(span.states[span.start + step]))];
      }
    }
  }

  lemma EntryAt<S, R>(l: Lane<S>, g: Grid, p: nat, blank: S, read: S -> R)
    requires Clean(l, blank) && l.start <= p < |l.seen|
    ensures Sized(l)
    ensures RowPart(g, Contents(l), read)(l.first + p - l.start) ==
            if l.seen[p] then [Entry(Timestamp(g, l.first + p - l.start), read(l.states[p]))] else []
  {
    ReadAt(l, p, blank);
    hide Contents, Clean, Timestamp;
  }

  class Grouped<S(==), V> {
    const ops: Ops<S, V>
    const grid: Grid
    /** One flat lane by group index, for a grid of one step. */
    var flat: Span<S, V>
    /** Otherwise a span per group, and their sizes, kept up to date. */
    var spans: seq<Span<S, V>>
    var heapSize: nat
    /** What the spans hold. */
    ghost var lanes: seq<Lane<S>>

    predicate SingleStep()
      reads this
    {
      grid.len == 1
    }

    ghost predicate Valid()
      reads this, flat, spans
    {
      && grid.step > 0
      && flat !in spans
      && flat.Valid() && flat.ops == ops && flat.first == 0 == flat.start && flat.moved == 0
      && |spans| == |lanes|
      && (forall i, j :: 0 <= i < j < |spans| ==> spans[i] != spans[j])
      && (forall i :: 0 <= i < |spans| ==> SpanHolds(spans[i], lanes[i], ops, grid))
      && (forall i :: 0 <= i < |lanes| ==> Sized(lanes[i]))
      && heapSize == TotalSize(lanes)
      && (if SingleStep() then spans == [] else flat.seen == [])
    }

    /** What the accumulator holds: per group, a state at each reached grid index. */
    ghost function Model(): seq<map<nat, S>>
      requires Valid()
      reads this, flat, spans
    {
      if SingleStep() then FlatModel(Contents(flat.Now()), |flat.seen|) else SpansModel(lanes)
    }

    constructor (ops: Ops<S, V>, grid: Grid)
      requires grid.step > 0
      ensures Valid() && Model() == [] && this.ops == ops && this.grid == grid
      ensures fresh(flat) && spans == []
    {
      this.ops, this.grid := ops, grid;
      flat := new Span(ops);
      spans, heapSize, lanes := [], 0, [];
    }

    /** A key discovered: one more span, holding nothing. */
    method AddSpan()
      requires Valid() && !SingleStep()
      modifies this`spans, this`heapSize, this`lanes
      ensures Valid() && Model() == old(Model()) + [map[]]
      ensures |spans| == |old(spans)| + 1 && spans[..|old(spans)|] == old(spans) && fresh(spans[|old(spans)|])
    {
      hide Contents, Clean, TotalSize, FlatModel, SpansModel;
      var span := new Span(ops);
      SpansGrow(lanes, span.Now());
      heapSize := heapSize + span.Size();
      spans, lanes := spans + [span], lanes + [span.Now()];
    }

    /** Keys may be discovered without any sample. */
    method Grow(groups: nat)
      requires Valid()
      modifies this`spans, this`heapSize, this`lanes, flat
      ensures Valid() && Model() == Grown(old(Model()), groups)
      ensures flat == old(flat) && old(spans) <= spans && forall i :: |old(spans)| <= i < |spans| ==> fresh(spans[i])
    {
      hide Contents, Clean, TotalSize, FlatModel, SpansModel;
      if SingleStep() {
        FlatGrows(flat.Now(), groups);
        flat.Widen(groups);
        TidyFlat(flat.Now(), ops.blank);
      } else {
        while |spans| < groups
          invariant Valid() && flat == old(flat) && flat.Now() == old(flat.Now())
          invariant |old(spans)| <= |spans| <= (if groups < |old(spans)| then |old(spans)| else groups)
          invariant old(spans) <= spans && forall i :: |old(spans)| <= i < |spans| ==> fresh(spans[i])
          invariant Model() == Grown(old(Model()), |spans|)
        {
          AddSpan();
        }
      }
    }

    /** One span now holds what it was just made to hold. */
    ghost predicate Stale(group: nat)
      reads this, flat, spans
    {
      && group < |spans| == |lanes|
      && grid.step > 0 && flat !in spans
      && flat.Valid() && flat.ops == ops && flat.first == 0 == flat.start && flat.moved == 0
      && (forall i, j :: 0 <= i < j < |spans| ==> spans[i] != spans[j])
      && (forall i :: 0 <= i < |spans| && i != group ==> SpanHolds(spans[i], lanes[i], ops, grid))
      && SpanHolds(spans[group], spans[group].Now(), ops, grid)
      && (forall i :: 0 <= i < |lanes| ==> Sized(lanes[i]))
      && heapSize == TotalSize(lanes)
      && !SingleStep() && flat.seen == []
    }

    /** The caches follow the one span that changed. */
    method Refresh(group: nat, before: nat)
      requires Stale(group) && before == LaneSize(lanes[group]) && Sized(spans[group].Now())
      modifies this`heapSize, this`lanes
      ensures Valid() && lanes == old(lanes)[group := spans[group].Now()]
      ensures Model() == SpansModel(old(lanes))[group := Contents(spans[group].Now())]
    {
      hide Contents, Clean, Tidy, TotalSize, FlatModel, SpansModel, LaneSize;
      TotalUpdates(lanes, group, spans[group].Now());
      SpansModelSets(lanes, group, spans[group].Now());
      SizeIsLane(spans[group]);
      heapSize := heapSize - before + spans[group].Size();
      lanes := lanes[group := spans[group].Now()];
    }

    /** Widens once per series, not per run; endpoints off the grid or out of
        order are rejected before they can widen a span. */
    method Prepare(group: nat, ts: seq<int>) returns (ok: bool)
      requires Valid() && !SingleStep() && group < |spans|
      modifies this`heapSize, this`lanes, spans[group]
      ensures Valid() && Model() == old(Model())
      ensures OnGrid(grid, ts) ==> ok && Spanned(spans[group].first, |spans[group].seen| - spans[group].start, grid, ts)
    {
      hide Contents, Clean, TotalSize, FlatModel, SpansModel, LaneSize, Index, OnGrid, Spanned;
      var span := spans[group];
      SpansModelAt(lanes, group);
      if ts == [] {
        NothingSpanned(span.first, |span.seen| - span.start, grid, ts);
        return true;
      }
      var first, last := Index(grid, ts[0]), Index(grid, ts[|ts| - 1]);
      Endpoints(grid, ts);
      if first.None? || last.None? || last.value < first.value { return false; }
      var before := span.Size();
      SizeIsLane(span);
      IndexInside(grid, ts[|ts| - 1], last.value);
      span.Include(first.value, last.value);
      Refresh(group, before);
      if OnGrid(grid, ts) { EndpointsSpan(span.first, |span.seen| - span.start, grid, ts, first.value, last.value); }
      ok := true;
    }

    /** One input into its group's span. */
    method FoldSpan(group: nat, input: Input<S, V>) returns (ok: bool)
      requires Valid() && !SingleStep() && group < |spans| && |input.ts| == PartLen(input.part)
      modifies this`heapSize, this`lanes, spans[group]
      ensures Valid() && |Model()| == |old(Model())|
      ensures ok <==> OnGrid(grid, input.ts)
      ensures Model() == old(Model())[group := Model()[group]]
      ensures ok ==> Model()[group] == FoldInput(grid, ops, old(Model())[group], input)
    {
      hide FlatModel, SpansModel, OnGrid, Spanned, FoldInput;
      ok := Prepare(group, input.ts);
      if !ok { return; }
      ok := FoldPrepared(group, input);
    }

    /** The runs of one input into its group's span, which holds them all if
        they are on the grid. */
    method FoldPrepared(group: nat, input: Input<S, V>) returns (ok: bool)
      requires Valid() && !SingleStep() && group < |spans| && |input.ts| == PartLen(input.part)
      requires OnGrid(grid, input.ts) ==>
                 Spanned(spans[group].first, |spans[group].seen| - spans[group].start, grid, input.ts)
      modifies this`heapSize, this`lanes, spans[group]
      ensures Valid() && |Model()| == |old(Model())|
      ensures ok <==> OnGrid(grid, input.ts)
      ensures Model() == old(Model())[group := Model()[group]]
      ensures ok ==> Model()[group] == FoldInput(grid, ops, old(Model())[group], input)
    {
      hide Contents, Clean, TotalSize, FlatModel, SpansModel, LaneSize, Index, OnGrid, Spanned, Indices, FoldPart,
           RunsTo, RunOf;
      var span := spans[group];
      SpansModelAt(lanes, group);
      var runs, error := TryRuns(grid, input.ts);
      var before := span.Size();
      SizeIsLane(span);
      var whole := FoldRuns(span, grid, input.ts, input.part, runs);
      Refresh(group, before);
      ok := whole && error.None?;
    }

    /** One input into the flat lane: at most one sample, at the one step. */
    method FoldFlat(group: nat, input: Input<S, V>) returns (ok: bool)
      requires Valid() && SingleStep() && group < |flat.seen| && |input.ts| == PartLen(input.part)
      modifies flat
      ensures Valid() && |Model()| == |old(Model())|
      ensures ok <==> OnGrid(grid, input.ts)
      ensures Model() == old(Model())[group := Model()[group]]
      ensures ok ==> Model()[group] == FoldInput(grid, ops, old(Model())[group], input)
    {
      hide Contents, Clean, FlatModel, Index, OnGrid, Indices, FoldPart, FoldPartRun, RunsTo, RunOf;
      ghost var held := Contents(flat.Now());
      var runs, error := TryRuns(grid, input.ts);
      FlatSame(held, held, |flat.seen|, group);
      for i := 0 to |runs|
        invariant Valid() && |flat.seen| == |old(flat.seen)|
        invariant forall h: nat :: h != group ==> Held(Contents(flat.Now()), h) == Held(held, h)
        invariant i == 0 ==> Contents(flat.Now()) == held
        invariant i == 1 && |runs| == 1 ==>
                    runs[0].from + 1 <= |input.ts| && Contents(flat.Now()) == FoldPartRun(ops, held, group,
                        Slice(input.part, runs[0].from, runs[0].from + 1))
      {
        OneStepRun(grid, input.ts, runs[i]);
        ghost var m := Contents(flat.Now());
        flat.FoldRunAt(group, Slice(input.part, runs[i].from, runs[i].from + 1));
        OnlyOne(ops, m, group, Slice(input.part, runs[i].from, runs[i].from + 1));
      }
      ok := error.None?;
      if ok { FlatFolds(grid, ops, held, |flat.seen|, group, input, runs); }
      FlatSame(held, Contents(flat.Now()), |flat.seen|, group);
    }

    /** One input into its group, whatever the layout: it is accepted just when
        its timestamps are strictly ascending and on the grid. */
    method Fold(group: nat, input: Input<S, V>) returns (ok: bool)
      requires Valid() && group < |Model()| && |input.ts| == PartLen(input.part)
      modifies this`heapSize, this`lanes, flat, spans
      ensures Valid() && |Model()| == |old(Model())|
      ensures ok <==> OnGrid(grid, input.ts)
      ensures Model() == old(Model())[group := Model()[group]]
      ensures ok ==> Model()[group] == FoldInput(grid, ops, old(Model())[group], input)
    {
      hide FlatModel, SpansModel, FoldInput, OnGrid;
      if SingleStep() {
        ok := FoldFlat(group, input);
      } else {
        ok := FoldSpan(group, input);
      }
    }

    /** One row of a batch, or none. */
    method FoldRow(row: Option<Input<S, V>>, group: nat) returns (ok: bool)
      requires Valid() && group < |Model()| && Whole(row)
      modifies this`heapSize, this`lanes, flat, spans
      ensures Valid() && |Model()| == |old(Model())|
      ensures ok <==> Accepted(grid, row)
      ensures ok ==> Model() == Folded(grid, ops, old(Model()), row, group)
    {
      assert grid.step > 0;
      hide Valid, Model, FoldInput, OnGrid;
      ok := true;
      if row.Some? { ok := Fold(group, row.value); }
    }

    /** Rows in order, skipped rows aside, until one is refused. */
    method FoldKnown(rows: seq<Option<Input<S, V>>>, groupOf: seq<nat>, groups: nat) returns (ok: bool)
      requires Valid() && groups <= |Model()| && Grouping(rows, groupOf, groups)
      modifies this`heapSize, this`lanes, flat, spans
      ensures Valid()
      ensures ok <==> AllAccepted(grid, rows)
      ensures ok ==> Model() == FoldBatch(grid, ops, old(Model()), rows, groupOf, |rows|)
    {
      assert grid.step > 0;
      hide *;
      ghost var was := Model();
      FoldBegins(grid, ops, was, rows, groupOf, groups);
      for i := 0 to |rows|
        invariant Valid() && FoldedTo(grid, ops, was, rows, groupOf, i, Model())
      {
        NextInBatch(grid, ops, was, rows, groupOf, groups, i, Model());
        ok := FoldRow(rows[i], groupOf[i]);
        if !ok { return; }
      }
      FoldEnds(grid, ops, was, rows, groupOf, Model());
      ok := true;
    }

    /** `update_batch` and `merge_batch`: the groups are discovered first. */
    method FoldRows(rows: seq<Option<Input<S, V>>>, groupOf: seq<nat>, groups: nat) returns (ok: bool)
      requires Valid() && Grouping(rows, groupOf, groups)
      modifies this`spans, this`heapSize, this`lanes, flat, spans
      ensures Valid() && flat == old(flat)
      ensures old(spans) <= spans && forall i :: |old(spans)| <= i < |spans| ==> fresh(spans[i])
      ensures ok <==> AllAccepted(grid, rows)
      ensures ok ==> Model() == FoldBatch(grid, ops, Grown(old(Model()), groups), rows, groupOf, |rows|)
    {
      assert grid.step > 0;
      hide Valid, Model, FoldBatch, Grown, AllAccepted, Grouping;
      GrownSize(Model(), groups);
      Grow(groups);
      ok := FoldKnown(rows, groupOf, groups);
    }

    /** The reached positions of one group, in step order. */
    method WalkGroup<R>(group: nat, read: S -> R) returns (row: seq<Entry<R>>)
      requires Valid() && group < |Model()|
      ensures row == RowOf(grid, Model()[group], read)
    {
      hide Contents, FlatModel, SpansModel, Clean, RowOf;
      if SingleStep() {
        FlatModelAt(Contents(flat.Now()), |flat.seen|, group);
        ReadAt(flat.Now(), group, ops.blank);
        row := if flat.seen[group] then [Entry(Timestamp(grid, 0), read(flat.states[group]))] else [];
        OneEntry(grid, Contents(flat.Now()), group, read);
      } else {
        SpansModelAt(lanes, group);
        Outside(grid, lanes[group], read);
        row := WalkSpan(spans[group], grid, read);
      }
    }

    /** The first groups' rows, emitted in group order. */
    method Emit<R>(groups: nat, read: S -> R) returns (rows: seq<seq<Entry<R>>>)
      requires Valid() && groups <= |Model()|
      ensures |rows| == groups && forall i :: 0 <= i < groups ==> rows[i] == RowOf(grid, Model()[i], read)
    {
      hide Valid, Model, RowOf;
      rows := [];
      for group := 0 to groups
        invariant |rows| == group && forall i :: 0 <= i < group ==> rows[i] == RowOf(grid, Model()[i], read)
      {
        var row := WalkGroup(group, read);
        rows := rows + [row];
      }
    }

    function Emitted(emitTo: EmitTo): nat
      reads this, flat
    {
      var groups := if SingleStep() then |flat.seen| else |spans|;
      match emitTo
      case All => groups
      case First(n) => if n < groups then n else groups
    }

    /** The emitted groups leave, the rest are renumbered from zero. */
    method Release(emitTo: EmitTo)
      requires Valid()
      modifies this`flat, this`spans, this`heapSize, this`lanes, flat
      ensures Valid() && Model() == old(Model())[old(Emitted(emitTo))..]
      ensures flat == old(flat) || fresh(flat)
      ensures forall s :: s in spans ==> s in old(spans)
    {
      hide Contents, FlatModel, SpansModel, Clean, TotalSize;
      var groups := Emitted(emitTo);
      if SingleStep() {
        if emitTo.All? {
          FlatDrops(flat.Now(), flat.Now(), groups);
          flat := new Span(ops);
          NoFlat(flat.Now());
        } else {
          ghost var was := flat.Now();
          flat.DropFront(groups);
          FlatDrops(was, flat.Now(), groups);
        }
      } else {
        var i := 0;
        SpansDrop(lanes, 0);
        assert lanes[0..] == lanes;
        while i < groups
          modifies this`heapSize
          invariant i <= groups && heapSize == TotalSize(lanes[i..])
        {
          SizeIsLane(spans[i]);
          TotalDrops(lanes[i..]);
          assert lanes[i..][1..] == lanes[i + 1..];
          heapSize := heapSize - spans[i].Size();
          i := i + 1;
        }
        SpansDrop(lanes, groups);
        spans, lanes := spans[groups..], lanes[groups..];
      }
    }

    /** `evaluate` and `state`: the emitted groups' rows, and the rest kept. */
    method EmitAndRelease<R>(emitTo: EmitTo, read: S -> R) returns (rows: seq<seq<Entry<R>>>)
      requires Valid()
      modifies this`flat, this`spans, this`heapSize, this`lanes, flat
      ensures Valid() && |rows| == old(Emitted(emitTo)) <= |old(Model())|
      ensures forall i :: 0 <= i < |rows| ==> rows[i] == RowOf(grid, old(Model())[i], read)
      ensures Model() == old(Model())[|rows|..]
      ensures emitTo.All? ==> |rows| == |old(Model())|
      ensures emitTo.First? ==> |rows| == if emitTo.n < |old(Model())| then emitTo.n else |old(Model())|
    {
      hide Contents, FlatModel, SpansModel, Clean, TotalSize, RowOf;
      rows := Emit(Emitted(emitTo), read);
      Release(emitTo);
    }
  }

  lemma FlatModelAt<S>(held: map<nat, S>, groups: nat, group: nat)
    requires group < groups
    ensures FlatModel(held, groups)[group] == FlatGroup(held, group)
  {
  }

  lemma OneEntry<S, R>(g: Grid, held: map<nat, S>, group: nat, read: S -> R)
    requires g.len == 1
    ensures RowOf(g, FlatGroup(held, group), read) ==
            match Held(held, group) case Some(s) => [Entry(Timestamp(g, 0), read(s))] case None => []
  {
    var m := FlatGroup(held, group);
    assert Concat(RowPart(g, m, read), 0, 1) == Concat(RowPart(g, m, read), 0, 0) + RowPart(g, m, read)(0);
  }

  /** A span's own positions are all its group emits. */
  lemma Outside<S, R>(g: Grid, l: Lane<S>, read: S -> R)
    requires Sized(l) && (Width(l) > 0 ==> l.first + Width(l) <= g.len)
    ensures RowOf(g, Contents(l), read) == Concat(RowPart(g, Contents(l), read), l.first, l.first + Width(l))
  {
    forall i: int | i < l.first || i >= l.first + Width(l) ensures RowPart(g, Contents(l), read)(i) == [] {
      if i >= 0 { ContentsAt(l, i); }
    }
    hide Contents;
    var part := RowPart(g, Contents(l), read);
    hide RowPart;
    if Width(l) > 0 {
      ConcatNone(part, 0, l.first);
      ConcatNone(part, l.first + Width(l), g.len);
      ConcatJoin(part, 0, l.first, g.len);
      ConcatJoin(part, l.first, l.first + Width(l), g.len);
    } else {
      ConcatNone(part, 0, g.len);
    }
  }

  lemma FlatDrops<S>(l: Lane<S>, l': Lane<S>, cut: nat)
    requires Sized(l) && l.first == 0 == l.start && cut <= |l.seen|
    ensures cut == |l.seen| ==> FlatModel(Contents(l), |l.seen|)[cut..] == []
    ensures l' == Lane(0, 0, l.seen[cut..], l.states[cut..]) ==>
              Sized(l') && FlatModel(Contents(l'), |l'.seen|) == FlatModel(Contents(l), |l.seen|)[cut..]
  {
    if l' == Lane(0, 0, l.seen[cut..], l.states[cut..]) {
      forall group: nat | group < |l'.seen|
        ensures FlatGroup(Contents(l'), group) == FlatGroup(Contents(l), cut + group)
      {
        ContentsAt(l', group);
        ContentsAt(l, cut + group);
      }
      hide Contents;
    }
  }

  lemma NoFlat<S>(l: Lane<S>)
    requires Sized(l)
    ensures FlatModel(Contents(l), 0) == []
  {
  }

  lemma SpansDrop<S>(lanes: seq<Lane<S>>, cut: nat)
    requires cut <= |lanes| && forall j :: 0 <= j < |lanes| ==> Sized(lanes[j])
    ensures SpansModel(lanes[cut..]) == SpansModel(lanes)[cut..]
  {
    hide Contents;
  }

  lemma GrownSize<S>(model: seq<map<nat, S>>, groups: nat)
    ensures |Grown(model, groups)| >= groups
  {
  }

  /** Each row has a group, and is whole. */
  ghost predicate Grouping<S, V>(rows: seq<Option<Input<S, V>>>, groupOf: seq<nat>, groups: nat) {
    |groupOf| == |rows| && forall i :: 0 <= i < |rows| ==> groupOf[i] < groups && Whole(rows[i])
  }

  ghost predicate AllAccepted<S, V>(g: Grid, rows: seq<Option<Input<S, V>>>)
    requires g.step > 0
  {
    forall i :: 0 <= i < |rows| ==> Accepted(g, rows[i])
  }

  ghost predicate AcceptedTo<S, V>(g: Grid, rows: seq<Option<Input<S, V>>>, n: nat)
    requires g.step > 0 && n <= |rows|
  {
    forall i :: 0 <= i < n ==> Accepted(g, rows[i])
  }

  /** The first `n` rows were accepted, and `now` holds what they fold to. */
  ghost predicate FoldedTo<S, V>(g: Grid, ops: Ops<S, V>, was: seq<map<nat, S>>, rows: seq<Option<Input<S, V>>>,
                                 groupOf: seq<nat>, n: nat, now: seq<map<nat, S>>)
    requires g.step > 0 && n <= |rows|
  {
    && |groupOf| == |rows| && |now| == |was|
    && AcceptedTo(g, rows, n)
    && now == FoldBatch(g, ops, was, rows, groupOf, n)
  }

  lemma FoldBegins<S, V>(g: Grid, ops: Ops<S, V>, was: seq<map<nat, S>>, rows: seq<Option<Input<S, V>>>,
                         groupOf: seq<nat>, groups: nat)
    requires g.step > 0 && Grouping(rows, groupOf, groups)
    ensures |groupOf| == |rows| && FoldedTo(g, ops, was, rows, groupOf, 0, was)
  {
  }

  lemma FoldEnds<S, V>(g: Grid, ops: Ops<S, V>, was: seq<map<nat, S>>, rows: seq<Option<Input<S, V>>>,
                       groupOf: seq<nat>, now: seq<map<nat, S>>)
    requires g.step > 0 && FoldedTo(g, ops, was, rows, groupOf, |rows|, now)
    ensures |groupOf| == |rows| && AllAccepted(g, rows) && now == FoldBatch(g, ops, was, rows, groupOf, |rows|)
  {
    hide FoldBatch, Accepted;
  }

  lemma NextInBatch<S, V>(g: Grid, ops: Ops<S, V>, was: seq<map<nat, S>>, rows: seq<Option<Input<S, V>>>,
                          groupOf: seq<nat>, groups: nat, i: nat, now: seq<map<nat, S>>)
    requires g.step > 0 && Grouping(rows, groupOf, groups) && groups <= |was| && i < |rows|
    requires FoldedTo(g, ops, was, rows, groupOf, i, now)
    ensures |groupOf| == |rows| && groupOf[i] < |now| && Whole(rows[i])
    ensures Accepted(g, rows[i]) ==>
              FoldedTo(g, ops, was, rows, groupOf, i + 1, Folded(g, ops, now, rows[i], groupOf[i]))
    ensures !Accepted(g, rows[i]) ==> !AllAccepted(g, rows)
  {
    hide Folded, Whole;
  }

  /** A row's timestamps and values are one column cut alike. */
  predicate Whole<S, V>(row: Option<Input<S, V>>) {
    row.Some? ==> |row.value.ts| == PartLen(row.value.part)
  }

  ghost predicate Accepted<S, V>(g: Grid, row: Option<Input<S, V>>)
    requires g.step > 0
  {
    row.Some? ==> OnGrid(g, row.value.ts)
  }

  /** On a one-step grid a run is one timestamp, at the one step. */
  lemma OneStepRun(g: Grid, ts: seq<int>, r: Run)
    requires g.step > 0 && g.len == 1 && RunOf(g, ts, r)
    ensures r.len == 1 && r.index == 0 && r.from + 1 <= |ts|
  {
    IndexInside(g, ts[r.from], r.index);
    IndexInside(g, ts[r.from + r.len - 1], r.index + r.len - 1);
    hide Index;
  }

  lemma OnlyOne<S, V>(ops: Ops<S, V>, m: map<nat, S>, group: nat, part: Part<S, V>)
    requires PartLen(part) == 1
    ensures forall h: nat :: h != group ==> Held(FoldPartRun(ops, m, group, part), h) == Held(m, h)
  {
    match part
    case Values(vs) => OneRun(AddStep(ops), m, group, vs);
    case Partials(ss) => OneRun(MergeStep(ops), m, group, ss);
  }

  lemma OneRun<S, X>(step: (Option<S>, X) -> S, m: map<nat, S>, index: nat, xs: seq<X>)
    requires |xs| == 1
    ensures FoldRun(step, m, index, xs) == m[index := step(Held(m, index), xs[0])]
  {
    assert FoldRun(step, m, index, xs[..0]) == m;
  }

  lemma FlatSame<S>(held: map<nat, S>, held': map<nat, S>, groups: nat, group: nat)
    requires group < groups && forall h: nat :: h != group ==> Held(held', h) == Held(held, h)
    ensures FlatModel(held', groups) == FlatModel(held, groups)[group := FlatModel(held', groups)[group]]
  {
    forall h: nat | h < groups && h != group ensures FlatGroup(held', h) == FlatGroup(held, h) {
      assert Held(held', h) == Held(held, h);
    }
  }

  /** The one sample folds into the flat lane as it folds at grid index zero. */
  lemma FlatFolds<S, V>(g: Grid, ops: Ops<S, V>, held: map<nat, S>, groups: nat, group: nat, input: Input<S, V>,
                        runs: seq<Run>)
    requires g.step > 0 && g.len == 1 && group < groups && |input.ts| == PartLen(input.part)
    requires OnGrid(g, input.ts) && RunsTo(g, input.ts, runs, |input.ts|)
    ensures |runs| == |input.ts| <= 1
    ensures input.ts == [] ==>
              FlatModel(held, groups)[group] == FoldInput(g, ops, FlatModel(held, groups)[group], input)
    ensures |input.ts| == 1 ==>
              && runs[0].from == 0
              && FlatModel(FoldPartRun(ops, held, group, Slice(input.part, 0, 1)), groups)[group] ==
                 FoldInput(g, ops, FlatModel(held, groups)[group], input)
  {
    hide Index, FoldRun, FoldRow, Indices, OnGrid;
    var ts := input.ts;
    IndicesAt(g, ts);
    if ts == [] {
      NothingFolds(ops, FlatGroup(held, group), Indices(g, ts), input.part);
      assert Indices(g, ts)[..0] == Indices(g, ts);
    } else {
      OneStepRun(g, ts, runs[0]);
      if |runs| > 1 {
        assert RunGap(runs[1 - 1], runs[1]);
        OneStepRun(g, ts, runs[1]);
      }
      assert |runs| == 1;
      OneFlat(g, ops, held, group, input);
    }
  }

  lemma OneFlat<S, V>(g: Grid, ops: Ops<S, V>, held: map<nat, S>, group: nat, input: Input<S, V>)
    requires g.step > 0 && |input.ts| == 1 == PartLen(input.part) && Index(g, input.ts[0]) == Some(0)
    ensures FlatGroup(FoldPartRun(ops, held, group, Slice(input.part, 0, 1)), group) ==
            FoldInput(g, ops, FlatGroup(held, group), input)
  {
    hide Index;
    IndicesAt(g, input.ts);
    assert Indices(g, input.ts) == [0];
    hide Indices;
    match input.part
    case Values(vs) =>
      assert vs[0..1] == vs;
      OneRun(AddStep(ops), held, group, vs);
      OneRow(AddStep(ops), FlatGroup(held, group), 0, vs);
    case Partials(ss) =>
      assert ss[0..1] == ss;
      OneRun(MergeStep(ops), held, group, ss);
      OneRow(MergeStep(ops), FlatGroup(held, group), 0, ss);
  }

  lemma OneRow<S, X>(step: (Option<S>, X) -> S, m: map<nat, S>, index: nat, xs: seq<X>)
    requires |xs| == 1
    ensures FoldRow(step, m, [index], xs) == m[index := step(Held(m, index), xs[0])]
  {
    assert FoldRow(step, m, [index][..0], xs[..0]) == m;
  }


  lemma SpansModelAt<S>(lanes: seq<Lane<S>>, i: nat)
    requires i < |lanes| && forall j :: 0 <= j < |lanes| ==> Sized(lanes[j])
    ensures SpansModel(lanes)[i] == Contents(lanes[i])
  {
  }

  lemma SizeIsLane<S, V>(span: Span<S, V>)
    ensures span.Size() == LaneSize(span.Now())
  {
  }

  lemma IndexInside(g: Grid, t: int, i: nat)
    requires g.step > 0 && Index(g, t) == Some(i)
    ensures i < g.len
  {
  }

  lemma NothingSpanned(first: nat, width: int, g: Grid, ts: seq<int>)
    requires g.step > 0 && ts == []
    ensures Spanned(first, width, g, ts)
  {
  }

  lemma {:induction false} OnGridAscends(g: Grid, ts: seq<int>, j: nat, k: nat)
    requires g.step > 0 && OnGrid(g, ts) && j <= k < |ts|
    ensures ts[j] <= ts[k]
  {
    hide Index;
    if j < k { OnGridAscends(g, ts, j, k - 1); }
  }

  lemma IndexAscends(g: Grid, t: int, u: int)
    requires g.step > 0 && Index(g, t).Some? && Index(g, u).Some? && t <= u
    ensures Index(g, t).value <= Index(g, u).value
  {
    var i, j := Index(g, t).value, Index(g, u).value;
    hide Index, Timestamp;
    IndexIs(g, t, i);
    IndexIs(g, u, j);
    TimestampsAscend(g, j, i);
  }

  lemma Endpoints(g: Grid, ts: seq<int>)
    requires g.step > 0 && ts != []
    ensures OnGrid(g, ts) ==>
              var a, b := Index(g, ts[0]), Index(g, ts[|ts| - 1]);
              a.Some? && b.Some? && a.value <= b.value
  {
    hide Index;
    if OnGrid(g, ts) {
      OnGridAscends(g, ts, 0, |ts| - 1);
      IndexAscends(g, ts[0], ts[|ts| - 1]);
    }
  }

  lemma EndpointsSpan(first: nat, width: int, g: Grid, ts: seq<int>, a: nat, b: nat)
    requires g.step > 0 && ts != [] && OnGrid(g, ts) && Index(g, ts[0]) == Some(a) && Index(g, ts[|ts| - 1]) == Some(b)
    requires first <= a && b < first + width
    ensures Spanned(first, width, g, ts)
  {
    hide Index;
    forall k | 0 <= k < |ts| ensures var i := Index(g, ts[k]); i.Some? && first <= i.value < first + width {
      OnGridAscends(g, ts, 0, k);
      OnGridAscends(g, ts, k, |ts| - 1);
      IndexAscends(g, ts[0], ts[k]);
      IndexAscends(g, ts[k], ts[|ts| - 1]);
    }
  }

  lemma SpansGrow<S>(lanes: seq<Lane<S>>, l: Lane<S>)
    requires Sized(l) && |l.seen| == l.start && forall j :: 0 <= j < |lanes| ==> Sized(lanes[j])
    ensures SpansModel(lanes + [l]) == SpansModel(lanes) + [map[]]
    ensures TotalSize(lanes + [l]) == TotalSize(lanes) + LaneSize(l)
  {
    assert (lanes + [l])[..|lanes|] == lanes;
    assert forall i: nat :: i !in Contents(l);
    assert Contents(l) == map[];
    hide Contents;
  }

  lemma FlatGrows<S>(l: Lane<S>, groups: nat)
    requires Sized(l) && l.first == 0 == l.start
    ensures FlatModel(Contents(l), if groups < |l.seen| then |l.seen| else groups) ==
            Grown(FlatModel(Contents(l), |l.seen|), groups)
  {
    forall g: nat | |l.seen| <= g ensures g !in Contents(l) { ContentsAt(l, g); }
    hide Contents;
  }

  lemma TidyFlat<S>(l: Lane<S>, blank: S)
    requires Clean(l, blank) && l.start == 0
    ensures Tidy(l, blank)
  {
  }

  ghost predicate SpanHolds<S, V>(span: Span<S, V>, l: Lane<S>, ops: Ops<S, V>, g: Grid)
    reads span
  {
    && span.Valid() && span.ops == ops && span.Now() == l
    && (Sized(l) && Width(l) > 0 ==> l.first + Width(l) <= g.len)
  }
}
