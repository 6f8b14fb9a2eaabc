/** A match group's partial state as flat lanes: rectangles of rows by steps,
    and of rows by label columns. */
module MatchState {
  import opened Arithmetic
  import opened Series
  import opened Ordering
  import opened Matching
  import opened MatchLanes
  import opened Joining

  datatype Partial = Partial(oneCounts: seq<int>, oneValues: seq<Value>, oneRows: seq<int>, onePool: seq<string>,
                             manyLabels: seq<string>, manyCounts: seq<int>, manyValues: seq<Value>, manySides: seq<int>)

  function Flat<T>(rows: seq<seq<T>>): seq<T> {
    if rows == [] then [] else Flat(rows[..|rows| - 1]) + rows[|rows| - 1]
  }

  ghost predicate Uniform<T>(rows: seq<seq<T>>, width: nat) {
    forall i :: 0 <= i < |rows| ==> |rows[i]| == width
  }

  lemma {:induction false} FlatLength<T>(rows: seq<seq<T>>, width: nat)
    requires Uniform(rows, width)
    ensures |Flat(rows)| == |rows| * width
  {
    if rows != [] {
      var n := |rows| - 1;
      FlatLength(rows[..n], width);
      assert (n + 1) * width == n * width + width;
    }
  }

  /** Where a row is in its rectangle. */
  lemma {:induction false} FlatRow<T>(rows: seq<seq<T>>, width: nat, i: nat)
    requires Uniform(rows, width) && i < |rows|
    ensures 0 <= i * width <= i * width + width <= |Flat(rows)|
    ensures Flat(rows)[i * width..i * width + width] == rows[i]
    decreases |rows|
  {
    var n := |rows| - 1;
    FlatLength(rows[..n], width);
    if i < n { FlatRow(rows[..n], width, i); }
  }

  function SideFlag(side: Side): int {
    match side case Lhs => 0 case Rhs => 1
  }

  function FlagSide(flag: int): Side {
    if flag == 0 then Lhs else Rhs
  }

  function LinesLabels(many: seq<Line>): seq<seq<string>> {
    seq(|many|, m requires 0 <= m < |many| => many[m].labels)
  }

  function LinesCounts(many: seq<Line>): seq<seq<int>> {
    seq(|many|, m requires 0 <= m < |many| => many[m].counts)
  }

  function LinesValues(many: seq<Line>): seq<seq<Value>> {
    seq(|many|, m requires 0 <= m < |many| => many[m].values)
  }

  function LinesSides(many: seq<Line>): seq<int> {
    seq(|many|, m requires 0 <= m < |many| => SideFlag(many[m].side))
  }

  function Encode(l: Lanes): Partial {
    Partial(l.oneCounts, l.oneValues, l.oneRows, Flat(l.onePool),
            Flat(LinesLabels(l.many)), Flat(LinesCounts(l.many)), Flat(LinesValues(l.many)), LinesSides(l.many))
  }

  /** Every label set has a value for each column of the schema. */
  ghost predicate Labelled(l: Lanes, width: nat) {
    && Uniform(l.onePool, width)
    && forall m :: 0 <= m < |l.many| ==> |l.many[m].labels| == width
  }

  /** `rectangle`: label values cut every `width` of them. Without columns
      there is nothing to cut, and the count comes from outside. */
  function Rectangle(flat: seq<string>, width: nat, rows: Option<nat>): Option<seq<Labels>> {
    if width == 0 then Some(seq(if rows.Some? then rows.value else 1, _ => []))
    else if |flat| % width != 0 then None
    else Some(RowsIn(flat, width, |flat| / width))
  }

  function RowsIn(flat: seq<string>, width: nat, n: nat): seq<Labels> {
    seq(n, i requires 0 <= i < n => RowIn(flat, width, i))
  }

  function RowIn(flat: seq<string>, width: nat, i: nat): Labels {
    if i * width + width <= |flat| then flat[i * width..i * width + width] else []
  }

  /** Read back, a rectangle is the label sets it was written from. */
  lemma RectangleReads(rows: seq<Labels>, width: nat, count: Option<nat>)
    requires Uniform(rows, width)
    ensures width > 0 ==> Rectangle(Flat(rows), width, count) == Some(rows)
    ensures width == 0 && count == Some(|rows|) ==> Rectangle(Flat(rows), width, count) == Some(rows)
    ensures width == 0 && count == None ==> Rectangle(Flat(rows), width, count) == Some([[]])
  {
    hide Flat, RowIn;
    if width > 0 {
      FlatLength(rows, width);
      Multiple(|rows|, width);
      RowsRead(rows, width);
      hide RowsIn;
    } else {
      var nothing: Labels := [];
      assert count == Some(|rows|) ==> seq(|rows|, _ => nothing) == rows;
      assert seq(1, _ => nothing) == [nothing];
    }
  }

  lemma RowsRead(rows: seq<Labels>, width: nat)
    requires Uniform(rows, width)
    ensures RowsIn(Flat(rows), width, |rows|) == rows
  {
    forall i | 0 <= i < |rows| ensures RowIn(Flat(rows), width, i) == rows[i] { FlatRow(rows, width, i); }
    hide RowIn, Flat;
  }

  /** A series' lane pair with a partial's added, position by position. */
  function LineAdded(line: Line, counts: seq<int>, values: seq<Value>): Line {
    line.(counts := seq(|line.counts|, i requires 0 <= i < |line.counts| =>
            if i < |counts| && counts[i] > 0 then line.counts[i] + counts[i] else line.counts[i]),
          values := seq(|line.values|, i requires 0 <= i < |line.values| =>
            if i < |counts| && i < |values| && counts[i] > 0 then values[i] else line.values[i]))
  }

  lemma LineAdds(line: Line, other: Line, len: nat)
    requires |line.counts| == |line.values| == |other.counts| == |other.values| == len
    ensures var r := LineAdded(line, other.counts, other.values);
            && KeyOf(r) == KeyOf(line) && |r.counts| == |r.values| == len
            && LineCells(r) == JoinLine(LineCells(line), LineCells(other))
  {
  }

  /** A series, known or just pushed, takes more cells. */
  lemma ManyJoins(l: Lanes, len: nat, m: nat, line: Line, row: seq<Option<Value>>, was: View)
    requires Sound(l, len) && m < |l.many| && KeyOf(line) == KeyOf(l.many[m])
             && |line.counts| == |line.values| == len == |row|
    requires LineCells(line) == JoinLine(LineCells(l.many[m]), row)
    requires was == ViewOf(l) ||
             (KeyOf(line) !in was.many && ViewOf(l) == was.(many := was.many[KeyOf(line) := seq(len, _ => None)]))
    ensures var l', key := l.(many := l.many[m := line]), KeyOf(line);
            && Sound(l', len)
            && ViewOf(l') == was.(many := was.many[key := if key in was.many then JoinLine(was.many[key], row)
                                                   else row])
  {
    ManySets(l.many, m, line);
    LineOf(l, len, m);
    NoneJoins(len, row);
    hide ManyView, LineCells, JoinLine;
  }

  /** A series no earlier one shares its key with joins apart from them. */
  lemma JoinNext(a: map<Key, seq<Option<Value>>>, b: map<Key, seq<Option<Value>>>, key: Key, line: seq<Option<Value>>)
    requires key !in b
    ensures JoinMany(a, b[key := line]) == JoinMany(a, b)[key := if key in a then JoinLine(a[key], line) else line]
    ensures key in JoinMany(a, b) <==> key in a
    ensures key in a ==> JoinMany(a, b)[key] == a[key]
  {
    hide JoinLine;
  }

  lemma ManyPrefix(many: seq<Line>, m: nat)
    requires m < |many| && forall i, j :: 0 <= i < j < |many| ==> KeyOf(many[i]) != KeyOf(many[j])
    ensures ManyView(many[..m + 1]) == ManyView(many[..m])[KeyOf(many[m]) := LineCells(many[m])]
    ensures KeyOf(many[m]) !in ManyView(many[..m])
  {
    ManyViewAt(many[..m]);
    hide LineCells;
    assert many[..m + 1][..m] == many[..m];
  }

  // ── The "one" side ──

  /** The "one" lanes with a partial's added; `seen` is where its pool's label
      sets are in this one. */
  function OneAdded(l: Lanes, p: Partial, seen: seq<nat>): Lanes {
    l.(oneCounts := seq(|l.oneCounts|, i requires 0 <= i < |l.oneCounts| =>
         if i < |p.oneCounts| && p.oneCounts[i] > 0 then l.oneCounts[i] + p.oneCounts[i] else l.oneCounts[i]),
       oneValues := seq(|l.oneValues|, i requires 0 <= i < |l.oneValues| =>
         if i < |p.oneCounts| && i < |p.oneValues| && p.oneCounts[i] > 0 then p.oneValues[i] else l.oneValues[i]),
       oneRows := seq(|l.oneRows|, i requires 0 <= i < |l.oneRows| =>
         if i < |p.oneCounts| && i < |p.oneRows| && p.oneCounts[i] > 0 && 0 <= p.oneRows[i] < |seen|
            then seen[p.oneRows[i]] else l.oneRows[i]))
  }

  lemma OneAdds(l: Lanes, other: Lanes, len: nat, p: Partial, seen: seq<nat>)
    requires Sound(l, len) && Sound(other, len) && p == Encode(other)
    requires |other.onePool| <= |seen|
    requires forall j :: 0 <= j < |other.onePool| ==> seen[j] < |l.onePool| && l.onePool[seen[j]] == other.onePool[j]
    ensures Sound(OneAdded(l, p, seen), len)
    ensures ViewOf(OneAdded(l, p, seen)) == View(Join(ViewOf(l), ViewOf(other)).one, ViewOf(l).many)
  {
    var r := OneAdded(l, p, seen);
    hide ManyView, JoinMany, Flat, LinesLabels, LinesCounts, LinesValues, LinesSides;
    forall i | 0 <= i < len ensures OneCellAt(r, i) == JoinOne(OneCellAt(l, i), OneCellAt(other, i)) {
    }
    hide OneCellAt, JoinOne;
    assert ViewOf(r).one == Join(ViewOf(l), ViewOf(other)).one;
  }
}
