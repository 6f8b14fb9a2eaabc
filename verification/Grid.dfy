/** The step grid as an index: what makes a timestamp a position. */
module Grids {
  import opened Arithmetic
  import opened Series

  datatype Grid = Grid(start: int, step: int, len: nat)

  datatype Error = OffGrid(t: int) | NotAscending(t: int, after: int)

  /** Consecutive grid positions: `len` timestamps from offset `from` on. */
  datatype Run = Run(index: nat, from: nat, len: nat)

  function Timestamp(g: Grid, i: int): int {
    g.start + i * g.step
  }

  function Index(g: Grid, t: int): Option<nat>
    requires g.step > 0
  {
    var offset := t - g.start;
    if offset < 0 || offset % g.step != 0 || offset / g.step >= g.len then None else Some(offset / g.step)
  }

  /** A timestamp's index is the one position it is the timestamp of. */
  lemma IndexIs(g: Grid, t: int, i: nat)
    requires g.step > 0
    ensures Index(g, t) == Some(i) <==> i < g.len && t == Timestamp(g, i)
  {
    var x, y := t - g.start, g.step;
    Multiple(i, y);
    assert x == x / y * y + x % y;
  }

  lemma NextTimestamp(g: Grid, i: int)
    ensures Timestamp(g, i + 1) == Timestamp(g, i) + g.step
  {
    assert (i + 1) * g.step == i * g.step + g.step;
  }

  lemma TimestampsAscend(g: Grid, i: int, j: int)
    requires g.step > 0
    ensures i < j <==> Timestamp(g, i) < Timestamp(g, j)
  {
    assert j * g.step - i * g.step == (j - i) * g.step;
    if i < j { assert (j - i) * g.step > 0; }
    if i > j { assert (j - i) * g.step < 0; }
  }

  /** What a series must be to be read by position. */
  ghost predicate OnGrid(g: Grid, ts: seq<int>)
    requires g.step > 0
  {
    && (forall k :: 0 <= k < |ts| ==> Index(g, ts[k]).Some?)
    && (forall k :: 0 < k < |ts| ==> ts[k - 1] < ts[k])
  }

  /** The grid positions of the timestamps. */
  function Indices(g: Grid, ts: seq<int>): seq<nat>
    requires g.step > 0
  {
    if ts == [] then []
    else
      var i := Index(g, ts[|ts| - 1]);
      Indices(g, ts[..|ts| - 1]) + [if i.Some? then i.value else 0]
  }

  lemma {:induction false} IndicesAt(g: Grid, ts: seq<int>)
    requires g.step > 0
    ensures |Indices(g, ts)| == |ts|
    ensures forall k :: 0 <= k < |ts| && Index(g, ts[k]).Some? ==> Indices(g, ts)[k] == Index(g, ts[k]).value
  {
    hide Index;
    if ts != [] { IndicesAt(g, ts[..|ts| - 1]); }
  }

  /** A run stands for its timestamps: consecutive positions, all inside. */
  ghost predicate RunOf(g: Grid, ts: seq<int>, r: Run)
    requires g.step > 0
  {
    && r.len > 0 && r.from + r.len <= |ts|
    && forall j :: r.from <= j < r.from + r.len ==> Index(g, ts[j]) == Some(r.index + j - r.from)
  }

  /** The runs cover `ts[..to]` in order, with a gap on the grid between any
      two, so none could have been longer. */
  ghost predicate RunsTo(g: Grid, ts: seq<int>, runs: seq<Run>, to: nat)
    requires g.step > 0
  {
    && (forall i :: 0 <= i < |runs| ==> RunOf(g, ts, runs[i]))
    && (runs == [] <==> to == 0)
    && (runs != [] ==> runs[0].from == 0 && runs[|runs| - 1].from + runs[|runs| - 1].len == to)
    && (forall i :: 0 < i < |runs| ==> RunGap(runs[i - 1], runs[i]))
  }

  ghost predicate RunGap(a: Run, b: Run) {
    b.from == a.from + a.len && b.index > a.index + a.len
  }

  /** The open run from `start`, whose first position is `index`: every
      timestamp one step after the one before. */
  ghost predicate OpenRun(g: Grid, ts: seq<int>, start: nat, k: nat, index: nat)
    requires start < k <= |ts|
  {
    forall j :: start <= j < k ==> ts[j] == Timestamp(g, index + j - start)
  }

  lemma OpenRunGrows(g: Grid, ts: seq<int>, start: nat, k: nat, index: nat)
    requires start < k < |ts| && OpenRun(g, ts, start, k, index) && ts[k] == ts[k - 1] + g.step
    ensures OpenRun(g, ts, start, k + 1, index)
  {
    hide Timestamp;
    NextTimestamp(g, index + k - 1 - start);
    assert ts[k - 1] == Timestamp(g, index + k - 1 - start);
    assert index + k - 1 - start + 1 == index + k - start;
  }

  /** With its last timestamp inside the grid, the whole open run is. */
  lemma ClosedRun(g: Grid, ts: seq<int>, start: nat, k: nat, index: nat)
    requires g.step > 0 && start < k <= |ts| && OpenRun(g, ts, start, k, index)
    ensures Index(g, ts[k - 1]).Some? <==> index + k - 1 - start < g.len
    ensures Index(g, ts[k - 1]).Some? ==> RunOf(g, ts, Run(index, start, k - start))
    ensures forall j :: start < j < k ==> ts[j - 1] < ts[j]
  {
    hide Timestamp, Index;
    var last := index + k - 1 - start;
    assert ts[k - 1] == Timestamp(g, last);
    IndexIs(g, ts[k - 1], last);
    if Index(g, ts[k - 1]).Some? {
      var i := Index(g, ts[k - 1]).value;
      IndexIs(g, ts[k - 1], i);
      TimestampsAscend(g, i, last);
      TimestampsAscend(g, last, i);
      forall j | start <= j < k ensures Index(g, ts[j]) == Some(index + j - start) {
        IndexIs(g, ts[j], index + j - start);
      }
    }
    forall j | start < j < k ensures ts[j - 1] < ts[j] {
      NextTimestamp(g, index + j - 1 - start);
      assert ts[j] == Timestamp(g, index + j - start) && ts[j - 1] == Timestamp(g, index + j - 1 - start);
    }
  }

  lemma RunsGrow(g: Grid, ts: seq<int>, runs: seq<Run>, r: Run)
    requires g.step > 0 && RunsTo(g, ts, runs, r.from) && RunOf(g, ts, r)
    requires runs != [] ==> RunGap(runs[|runs| - 1], r)
    ensures RunsTo(g, ts, runs + [r], r.from + r.len)
  {
    hide RunGap;
    var more := runs + [r];
    assert runs == [] ==> r.from == 0;
    forall i | 0 < i < |more| ensures RunGap(more[i - 1], more[i]) {
      if i < |runs| { assert RunGap(runs[i - 1], runs[i]); }
    }
  }

  /** Cuts a row's timestamps where a grid step is skipped. On an error the
      runs already cut are still good. */
  method TryRuns(g: Grid, ts: seq<int>) returns (runs: seq<Run>, error: Option<Error>)
    requires g.step > 0
    ensures error.None? <==> OnGrid(g, ts)
    ensures error.None? ==> RunsTo(g, ts, runs, |ts|)
    ensures forall i :: 0 <= i < |runs| ==> RunOf(g, ts, runs[i])
  {
    hide Index, Timestamp, OpenRun, RunOf;
    runs, error := [], None;
    if ts == [] { return; }
    var start: nat := 0;
    var at := Index(g, ts[0]);
    if at.None? { return runs, Some(OffGrid(ts[0])); }
    var index: nat := at.value;
    OpenRunOne(g, ts, 0, index);
    for k := 1 to |ts|
      invariant start < k <= |ts| && OpenRun(g, ts, start, k, index) && index < g.len
      invariant RunsTo(g, ts, runs, start)
      invariant runs != [] ==> runs[|runs| - 1].index + runs[|runs| - 1].len < index
      invariant forall j :: 0 <= j < start ==> Index(g, ts[j]).Some?
      invariant forall j :: 0 < j <= start ==> ts[j - 1] < ts[j]
    {
      ClosedRun(g, ts, start, k, index);
      if ts[k] == ts[k - 1] + g.step {
        OpenRunGrows(g, ts, start, k, index);
        continue;
      }
      if ts[k] <= ts[k - 1] { return runs, Some(NotAscending(ts[k], ts[k - 1])); }
      if Index(g, ts[k - 1]).None? { return runs, Some(OffGrid(ts[k - 1])); }
      var run := Run(index, start, k - start);
      assert forall j :: start <= j < k ==> Index(g, ts[j]).Some? by { RunInside(g, ts, run); }
      RunsGrow(g, ts, runs, run);
      runs := runs + [run];
      start := k;
      at := Index(g, ts[k]);
      if at.None? { return runs, Some(OffGrid(ts[k])); }
      GapAfter(g, ts, run, at.value);
      index := at.value;
      OpenRunOne(g, ts, k, index);
    }
    ClosedRun(g, ts, start, |ts|, index);
    if Index(g, ts[|ts| - 1]).None? { return runs, Some(OffGrid(ts[|ts| - 1])); }
    var run := Run(index, start, |ts| - start);
    RunInside(g, ts, run);
    RunsGrow(g, ts, runs, run);
    runs := runs + [run];
  }

  lemma OpenRunOne(g: Grid, ts: seq<int>, k: nat, index: nat)
    requires g.step > 0 && k < |ts| && Index(g, ts[k]) == Some(index)
    ensures OpenRun(g, ts, k, k + 1, index) && index < g.len
  {
    IndexIs(g, ts[k], index);
    hide Index, Timestamp;
  }

  lemma RunInside(g: Grid, ts: seq<int>, r: Run)
    requires g.step > 0 && RunOf(g, ts, r)
    ensures r.from + r.len <= |ts|
    ensures forall j :: r.from <= j < r.from + r.len ==> Index(g, ts[j]).Some?
  {
    hide Index;
  }

  /** A later timestamp that is not the next step leaves a gap. */
  lemma GapAfter(g: Grid, ts: seq<int>, r: Run, index: nat)
    requires g.step > 0 && RunOf(g, ts, r) && r.from + r.len < |ts| && Index(g, ts[r.from + r.len]) == Some(index)
    requires ts[r.from + r.len - 1] < ts[r.from + r.len] != ts[r.from + r.len - 1] + g.step
    ensures r.index + r.len < index
  {
    hide Index, Timestamp;
    var last := r.index + r.len - 1;
    IndexIs(g, ts[r.from + r.len - 1], last);
    IndexIs(g, ts[r.from + r.len], index);
    TimestampsAscend(g, last, index);
    NextTimestamp(g, last);
    assert ts[r.from + r.len] != Timestamp(g, last + 1);
  }
}
