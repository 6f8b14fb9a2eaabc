/** A match group's lanes over the step grid, and how rows add to them. */
module MatchLanes {
  import opened Series
  import opened Grids
  import opened Spans
  import opened Aggregate
  import opened Convert
  import opened Ordering
  import opened Matching

  /** One series held whole. */
  datatype Line = Line(side: Side, labels: Labels, counts: seq<nat>, values: seq<Value>)

  datatype Lanes = Lanes(oneCounts: seq<nat>, oneValues: seq<Value>, oneRows: seq<int>, onePool: seq<Labels>,
                         many: seq<Line>)

  function KeyOf(line: Line): Key {
    Key(line.side, line.labels)
  }

  ghost predicate Sound(l: Lanes, len: nat) {
    && |l.oneCounts| == |l.oneValues| == |l.oneRows| == len
    && (forall i :: 0 <= i < len && l.oneCounts[i] > 0 ==> 0 <= l.oneRows[i] < |l.onePool|)
    && Distinct(l.onePool)
    && (forall m :: 0 <= m < |l.many| ==> |l.many[m].counts| == |l.many[m].values| == len)
    && (forall m, n :: 0 <= m < n < |l.many| ==> KeyOf(l.many[m]) != KeyOf(l.many[n]))
  }

  function OneCellAt(l: Lanes, i: nat): OneCell {
    if i >= |l.oneCounts| || i >= |l.oneValues| || i >= |l.oneRows| || l.oneCounts[i] == 0 then Nobody
    else if l.oneCounts[i] == 1 && 0 <= l.oneRows[i] < |l.onePool| then Single(l.oneValues[i], l.onePool[l.oneRows[i]])
    else Several
  }

  function CellAt(line: Line, i: nat): Option<Value> {
    if i < |line.counts| && i < |line.values| && line.counts[i] > 0 then Some(line.values[i]) else None
  }

  function LineCells(line: Line): seq<Option<Value>> {
    seq(|line.counts|, i requires 0 <= i < |line.counts| => CellAt(line, i))
  }

  function ManyView(many: seq<Line>): map<Key, seq<Option<Value>>> {
    if many == [] then map[]
    else ManyView(many[..|many| - 1])[KeyOf(many[|many| - 1]) := LineCells(many[|many| - 1])]
  }

  /** What the lanes hold, whatever order it came in. */
  function ViewOf(l: Lanes): View {
    View(seq(|l.oneCounts|, i requires 0 <= i < |l.oneCounts| => OneCellAt(l, i)), ManyView(l.many))
  }

  lemma {:induction false} ManyViewAt(many: seq<Line>)
    requires forall m, n :: 0 <= m < n < |many| ==> KeyOf(many[m]) != KeyOf(many[n])
    ensures forall m :: 0 <= m < |many| ==>
              KeyOf(many[m]) in ManyView(many) && ManyView(many)[KeyOf(many[m])] == LineCells(many[m])
    ensures forall k :: k in ManyView(many) ==> exists m :: 0 <= m < |many| && KeyOf(many[m]) == k
  {
    hide LineCells;
    if many != [] {
      var n := |many| - 1;
      ManyViewAt(many[..n]);
      forall k | k in ManyView(many) ensures exists m :: 0 <= m < |many| && KeyOf(many[m]) == k {
        if k != KeyOf(many[n]) {
          var m :| 0 <= m < n && KeyOf(many[..n][m]) == k;
        }
      }
    }
  }

  // ── What a row reads as ──

  function Over(): (Option<Value>, Value) -> Value {
    (held: Option<Value>, v: Value) => v
  }

  /** A row's samples by grid index. */
  function CellsOf(g: Grid, ts: seq<int>, values: seq<Value>): map<nat, Value>
    requires g.step > 0
  {
    if |Indices(g, ts)| == |values| then FoldRow(Over(), map[], Indices(g, ts), values) else map[]
  }

  function Raised(counts: seq<nat>, cells: map<nat, Value>): seq<nat> {
    seq(|counts|, i requires 0 <= i < |counts| => if i in cells then counts[i] + 1 else counts[i])
  }

  function Overlaid<T>(lane: seq<T>, cells: map<nat, T>): seq<T> {
    seq(|lane|, i requires 0 <= i < |lane| => if i in cells then cells[i] else lane[i])
  }

  function Marked(rows: seq<int>, cells: map<nat, Value>, row: int): seq<int> {
    seq(|rows|, i requires 0 <= i < |rows| => if i in cells then row else rows[i])
  }

  lemma {:induction false} RunCells(cells: map<nat, Value>, index: nat, xs: seq<Value>)
    ensures forall i :: i in FoldRun(Over(), cells, index, xs) <==> i in cells || index <= i < index + |xs|
    ensures forall i :: i in FoldRun(Over(), cells, index, xs) ==>
              FoldRun(Over(), cells, index, xs)[i] == if index <= i < index + |xs| then xs[i - index] else cells[i]
  {
    if xs != [] {
      RunCells(cells, index, xs[..|xs| - 1]);
    }
  }

  /** One run into a lane pair: every count one up, every value taken. */
  method LayRun(counts: seq<nat>, lane: seq<Value>, index: nat, xs: seq<Value>)
    returns (counts': seq<nat>, lane': seq<Value>)
    requires index + |xs| <= |counts| == |lane|
    ensures counts' == seq(|counts|, i requires 0 <= i < |counts| => if index <= i < index + |xs| then counts[i] + 1
                           else counts[i])
    ensures lane' == lane[..index] + xs + lane[index + |xs|..]
  {
    counts', lane' := counts, lane;
    for k := 0 to |xs|
      invariant |counts'| == |counts|
      invariant forall i :: 0 <= i < |counts| ==>
                  counts'[i] == if index <= i < index + k then counts[i] + 1 else counts[i]
    {
      counts' := counts'[index + k := counts'[index + k] + 1];
    }
    lane' := lane[..index] + xs + lane[index + |xs|..];
  }

  method FillRun(rows: seq<int>, index: nat, len: nat, row: int) returns (rows': seq<int>)
    requires index + len <= |rows|
    ensures rows' == seq(|rows|, i requires 0 <= i < |rows| => if index <= i < index + len then row else rows[i])
  {
    rows' := rows[..index] + Fill(len, row) + rows[index + len..];
  }

  /** Every run reaches only positions no earlier run did. */
  lemma RunIsNew(g: Grid, ts: seq<int>, values: seq<Value>, r: Run)
    requires g.step > 0 && |ts| == |values| && RunOf(g, ts, r)
    requires forall k :: 0 < k < r.from + r.len ==> ts[k - 1] < ts[k]
    requires forall k :: 0 <= k < r.from + r.len ==> Index(g, ts[k]).Some?
    ensures |Indices(g, ts)| == |ts|
    ensures forall k :: r.from <= k < r.from + r.len ==> Indices(g, ts)[k] == r.index + k - r.from
    ensures r.index + r.len <= g.len
    ensures forall i :: i in FoldRow(Over(), map[], Indices(g, ts)[..r.from], values[..r.from]) ==> i < r.index
  {
    hide Index, Indices, Timestamp;
    IndicesAt(g, ts);
    IndexInside(g, ts[r.from + r.len - 1], r.index + r.len - 1);
    var ixs := Indices(g, ts)[..r.from];
    RowHolds(Over(), ixs, values[..r.from]);
    var head := ts[..r.from + r.len];
    assert OnGrid(g, head);
    forall k | 0 <= k < r.from ensures ixs[k] < r.index {
      OnGridAscends(g, head, k, r.from - 1);
      assert ts[r.from - 1] < ts[r.from];
      IndexIs(g, ts[k], ixs[k]);
      IndexIs(g, ts[r.from], r.index);
      TimestampsAscend(g, ixs[k], r.index);
    }
  }

  /** One more run of a row, on lanes laid with the ones before it. */
  lemma RunLays(counts: seq<nat>, lane: seq<Value>, cells: map<nat, Value>, index: nat, xs: seq<Value>, now: seq<nat>,
                laneNow: seq<Value>)
    requires index + |xs| <= |counts| == |lane| && (forall i :: i in cells ==> i < index)
    requires now == Raised(counts, cells) && laneNow == Overlaid(lane, cells)
    ensures var after := FoldRun(Over(), cells, index, xs);
            && Raised(counts, after) == seq(|counts|, i requires 0 <= i < |counts| => if index <= i < index + |xs|
                                            then now[i] + 1 else now[i])
            && Overlaid(lane, after) == laneNow[..index] + xs + laneNow[index + |xs|..]
  {
    RunCells(cells, index, xs);
    hide FoldRun;
  }

  lemma RunMarks(rows: seq<int>, cells: map<nat, Value>, index: nat, xs: seq<Value>, row: int, now: seq<int>)
    requires index + |xs| <= |rows| && now == Marked(rows, cells, row)
    ensures Marked(rows, FoldRun(Over(), cells, index, xs), row) ==
            seq(|rows|, i requires 0 <= i < |rows| => if index <= i < index + |xs| then row else now[i])
  {
    RunCells(cells, index, xs);
    hide FoldRun;
  }

  /** The cells of the first `n` samples. */
  ghost function CellsTo(g: Grid, ts: seq<int>, values: seq<Value>, n: nat): map<nat, Value>
    requires g.step > 0
  {
    if n <= |Indices(g, ts)| == |values| then FoldRow(Over(), map[], Indices(g, ts)[..n], values[..n]) else map[]
  }

  lemma CellsSplit(g: Grid, ts: seq<int>, values: seq<Value>, r: Run)
    requires g.step > 0 && |ts| == |values| && RunOf(g, ts, r)
    ensures |Indices(g, ts)| == |ts|
    ensures (forall k :: r.from <= k < r.from + r.len ==> Indices(g, ts)[k] == r.index + k - r.from) ==>
              CellsTo(g, ts, values, r.from + r.len) ==
              FoldRun(Over(), CellsTo(g, ts, values, r.from), r.index, values[r.from..r.from + r.len])
  {
    hide Index, FoldRow, FoldRun, Indices;
    IndicesAt(g, ts);
    if forall k :: r.from <= k < r.from + r.len ==> Indices(g, ts)[k] == r.index + k - r.from {
      RunFoldsRow(Over(), map[], Indices(g, ts), values, r.index, r.from, r.from + r.len);
    }
  }

  lemma CellsEnds(g: Grid, ts: seq<int>, values: seq<Value>)
    requires g.step > 0 && |ts| == |values|
    ensures CellsTo(g, ts, values, 0) == map[] && CellsTo(g, ts, values, |ts|) == CellsOf(g, ts, values)
  {
    hide Index, Indices;
    IndicesAt(g, ts);
    assert Indices(g, ts)[..|ts|] == Indices(g, ts) && values[..|ts|] == values;
  }

  /** Where runs that cover a row so far have come to. */
  lemma RunsReach(g: Grid, ts: seq<int>, runs: seq<Run>, i: nat)
    requires g.step > 0 && OnGrid(g, ts) && RunsTo(g, ts, runs, |ts|) && i < |runs|
    ensures RunOf(g, ts, runs[i])
    ensures RunStart(runs, i, |ts|) == runs[i].from && RunStart(runs, i + 1, |ts|) == runs[i].from + runs[i].len
    ensures forall k :: 0 < k < runs[i].from + runs[i].len ==> ts[k - 1] < ts[k]
    ensures forall k :: 0 <= k < runs[i].from + runs[i].len ==> Index(g, ts[k]).Some?
  {
    hide Index;
    if i + 1 < |runs| { assert RunGap(runs[i + 1 - 1], runs[i + 1]); }
  }

  /** A row's runs into a lane pair; `rows`, when it has them, are marked. */
  method Lay(g: Grid, ts: seq<int>, values: seq<Value>, counts: seq<nat>, lane: seq<Value>, rows: seq<int>, row: int)
    returns (ok: bool, counts': seq<nat>, lane': seq<Value>, rows': seq<int>)
    requires g.step > 0 && |ts| == |values| && |counts| == |lane| == |rows| == g.len
    ensures ok <==> OnGrid(g, ts)
    ensures ok ==>
              var cells := CellsOf(g, ts, values);
              counts' == Raised(counts, cells) && lane' == Overlaid(lane, cells) && rows' == Marked(rows, cells, row)
  {
    hide *;
    counts', lane', rows' := counts, lane, rows;
    var runs, error := TryRuns(g, ts);
    ok := error.None?;
    if !ok { return; }
    CellsEnds(g, ts, values);
    NothingLaid(counts, lane, rows, row);
    FirstRun(g, ts, runs);
    for i := 0 to |runs|
      invariant RunStart(runs, i, |ts|) <= |ts|
      invariant Laid(counts, lane, rows, row, CellsTo(g, ts, values, RunStart(runs, i, |ts|)), counts', lane', rows')
    {
      var r := runs[i];
      RunsReach(g, ts, runs, i);
      LayFits(g, ts, values, r, counts, lane, rows, row, counts', lane', rows');
      var xs := values[r.from..r.from + r.len];
      counts', lane' := LayRun(counts', lane', r.index, xs);
      rows' := FillRun(rows', r.index, r.len, row);
    }
    RunsEnd(runs, |ts|);
    LaidIs(counts, lane, rows, row, CellsOf(g, ts, values), counts', lane', rows');
  }

  lemma RunsEnd(runs: seq<Run>, n: nat)
    ensures RunStart(runs, |runs|, n) == n
  {
  }

  ghost predicate Laid(counts: seq<nat>, lane: seq<Value>, rows: seq<int>, row: int, cells: map<nat, Value>,
                       counts': seq<nat>, lane': seq<Value>, rows': seq<int>)
  {
    counts' == Raised(counts, cells) && lane' == Overlaid(lane, cells) && rows' == Marked(rows, cells, row)
  }

  lemma NothingLaid(counts: seq<nat>, lane: seq<Value>, rows: seq<int>, row: int)
    ensures Laid(counts, lane, rows, row, map[], counts, lane, rows)
  {
  }

  lemma LaidIs(counts: seq<nat>, lane: seq<Value>, rows: seq<int>, row: int, cells: map<nat, Value>, counts': seq<nat>,
               lane': seq<Value>, rows': seq<int>)
    requires Laid(counts, lane, rows, row, cells, counts', lane', rows')
    ensures counts' == Raised(counts, cells) && lane' == Overlaid(lane, cells) && rows' == Marked(rows, cells, row)
  {
  }

  /** A run fits the lanes, and laying it lays the row that much further. */
  lemma LayFits(g: Grid, ts: seq<int>, values: seq<Value>, r: Run, counts: seq<nat>, lane: seq<Value>, rows: seq<int>,
                row: int,
                counts': seq<nat>, lane': seq<Value>, rows': seq<int>)
    requires g.step > 0 && |ts| == |values| && |counts| == |lane| == |rows| == g.len && RunOf(g, ts, r)
    requires forall k :: 0 < k < r.from + r.len ==> ts[k - 1] < ts[k]
    requires forall k :: 0 <= k < r.from + r.len ==> Index(g, ts[k]).Some?
    requires Laid(counts, lane, rows, row, CellsTo(g, ts, values, r.from), counts', lane', rows')
    ensures r.from + r.len <= |ts| && r.index + r.len <= |counts'| == |lane'| == |rows'|
    ensures var xs := values[r.from..r.from + r.len];
            Laid(counts, lane, rows, row, CellsTo(g, ts, values, r.from + r.len),
                 seq(|counts'|, i requires 0 <= i < |counts'| => if r.index <= i < r.index + |xs| then counts'[i] + 1
                     else counts'[i]),
                 lane'[..r.index] + xs + lane'[r.index + |xs|..],
                 seq(|rows'|, i requires 0 <= i < |rows'| => if r.index <= i < r.index + r.len then row else rows'[i]))
  {
    RunIsNew(g, ts, values, r);
    RunInside(g, ts, r);
    CellsSplit(g, ts, values, r);
    var cells, xs := CellsTo(g, ts, values, r.from), values[r.from..r.from + r.len];
    hide FoldRow, FoldRun, Indices, Index;
    assert forall i :: i in cells ==> i < r.index;
    RunLays(counts, lane, cells, r.index, xs, counts', lane');
    RunMarks(rows, cells, r.index, xs, row, rows');
    hide CellsTo, Raised, Overlaid, Marked;
  }
}
