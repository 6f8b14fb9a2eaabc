/** Bypassed partial aggregation: each input row as its own partial state. */
module Convert {
  import opened Series
  import opened Grids
  import opened Spans
  import opened Aggregate

  /** A state emitted verbatim. */
  function AsIs<S>(): S -> S {
    (s: S) => s
  }

  /** Row `i` is group `i`. */
  function Own(n: nat): seq<nat> {
    seq(n, i => i)
  }

  /** A series' samples, each as the state of that one value. */
  function Singles<S, V>(ops: Ops<S, V>, ts: seq<int>, values: seq<V>): seq<Entry<S>>
    requires |ts| == |values|
  {
    seq(|ts|, k requires 0 <= k < |ts| => Entry(ts[k], ops.add(ops.blank, values[k])))
  }

  ghost predicate Rising(ixs: seq<nat>, len: nat) {
    && (forall k :: 0 <= k < |ixs| ==> ixs[k] < len)
    && (forall j, k :: 0 <= j < k < |ixs| ==> ixs[j] < ixs[k])
  }

  lemma {:induction false} RowHolds<S, X>(step: (Option<S>, X) -> S, ixs: seq<nat>, xs: seq<X>)
    requires |ixs| == |xs|
    ensures forall i :: i in FoldRow(step, map[], ixs, xs) <==> i in ixs
  {
    if ixs != [] {
      var n := |ixs| - 1;
      RowHolds(step, ixs[..n], xs[..n]);
      assert ixs == ixs[..n] + [ixs[n]];
    }
  }

  /** Rising positions folded from nothing emit one entry each, in order. */
  lemma {:induction false} RowEmits<S, V>(g: Grid, ops: Ops<S, V>, ixs: seq<nat>, values: seq<V>)
    requires |ixs| == |values| && Rising(ixs, g.len)
    ensures RowOf(g, FoldRow(AddStep(ops), map[], ixs, values), AsIs()) ==
            seq(|ixs|, k requires 0 <= k < |ixs| => Entry(Timestamp(g, ixs[k]), ops.add(ops.blank, values[k])))
  {
    hide Timestamp;
    if ixs == [] {
      var part := RowPart(g, map[], AsIs<S>());
      assert forall i :: 0 <= i < g.len ==> part(i) == [];
      ConcatNone(part, 0, g.len);
    } else {
      var n := |ixs| - 1;
      var before, after := FoldRow(AddStep(ops), map[], ixs[..n], values[..n]),
          FoldRow(AddStep(ops), map[], ixs, values);
      RowEmits(g, ops, ixs[..n], values[..n]);
      RowHolds(AddStep(ops), ixs[..n], values[..n]);
      LastEntry(g, before, ixs[n], ops.add(ops.blank, values[n]));
      assert after == before[ixs[n] := ops.add(ops.blank, values[n])];
    }
  }

  /** A state past every held position is the last entry. */
  lemma LastEntry<S>(g: Grid, m: map<nat, S>, i: nat, s: S)
    requires i < g.len && forall j :: j in m ==> j < i
    ensures RowOf(g, m[i := s], AsIs()) == RowOf(g, m, AsIs()) + [Entry(Timestamp(g, i), s)]
  {
    hide RowPart, AsIs, Timestamp;
    var p, q := RowPart(g, m, AsIs<S>()), RowPart(g, m[i := s], AsIs<S>());
    LastParts(g, m, i, s);
    ConcatSame(p, q, 0, i);
    ConcatNone(p, i, g.len);
    ConcatNone(q, i + 1, g.len);
    ConcatJoin(p, 0, i, g.len);
    ConcatJoin(q, 0, i, g.len);
    ConcatJoin(q, i, i + 1, g.len);
    OneConcat(q, i);
  }

  lemma OneConcat<T>(q: int -> seq<T>, i: int)
    ensures Concat(q, i, i + 1) == q(i)
  {
    assert Concat(q, i, i) == [];
  }

  lemma LastParts<S>(g: Grid, m: map<nat, S>, i: nat, s: S)
    requires i < g.len && forall j :: j in m ==> j < i
    ensures var p, q := RowPart(g, m, AsIs<S>()), RowPart(g, m[i := s], AsIs<S>());
            && (forall j :: 0 <= j < i ==> p(j) == q(j))
            && (forall j :: i <= j < g.len ==> p(j) == [])
            && (forall j :: i + 1 <= j < g.len ==> q(j) == [])
            && q(i) == [Entry(Timestamp(g, i), s)]
  {
    hide Timestamp;
  }

  lemma IndicesRise(g: Grid, ts: seq<int>)
    requires g.step > 0 && OnGrid(g, ts)
    ensures |Indices(g, ts)| == |ts| && Rising(Indices(g, ts), g.len)
    ensures forall k :: 0 <= k < |ts| ==> Timestamp(g, Indices(g, ts)[k]) == ts[k]
  {
    hide Index, Indices, Timestamp;
    IndicesAt(g, ts);
    forall k | 0 <= k < |ts| ensures Timestamp(g, Indices(g, ts)[k]) == ts[k] && Indices(g, ts)[k] < g.len {
      IndexIs(g, ts[k], Indices(g, ts)[k]);
    }
    forall j, k | 0 <= j < k < |ts| ensures Indices(g, ts)[j] < Indices(g, ts)[k] {
      OnGridAscends(g, ts, j, k - 1);
      assert ts[k - 1] < ts[k];
      TimestampsAscend(g, Indices(g, ts)[j], Indices(g, ts)[k]);
    }
  }

  /** A row alone in its group emits its samples' states. */
  lemma RowAlone<S, V>(g: Grid, ops: Ops<S, V>, ts: seq<int>, values: seq<V>)
    requires g.step > 0 && OnGrid(g, ts) && |ts| == |values|
    ensures RowOf(g, FoldInput(g, ops, map[], Input(ts, Values(values))), AsIs()) == Singles(ops, ts, values)
  {
    IndicesRise(g, ts);
    hide OnGrid, Indices, Timestamp, RowOf, FoldRow;
    RowEmits(g, ops, Indices(g, ts), values);
  }

  /** What a fresh accumulator holds when every row has its own group. */
  lemma {:induction false} OwnGroups<S, V>(g: Grid, ops: Ops<S, V>, rows: seq<Option<Input<S, V>>>, n: nat)
    requires g.step > 0 && n <= |rows|
    ensures var model := FoldBatch(g, ops, Grown([], |rows|), rows, Own(|rows|), n);
            |model| == |rows| &&
            forall i :: 0 <= i < |rows| ==>
              model[i] == if i < n && rows[i].Some? then FoldInput(g, ops, map[], rows[i].value) else map[]
  {
    hide FoldInput;
    if n > 0 { OwnGroups(g, ops, rows, n - 1); }
  }

  /** Where each row's samples start in the flat output: skipped rows are empty. */
  function Offset<S, V>(rows: seq<Option<Input<S, V>>>, n: nat): nat
    requires n <= |rows|
  {
    if n == 0 then 0
    else Offset(rows, n - 1) + (if rows[n - 1].Some? then |rows[n - 1].value.ts| else 0)
  }

  lemma {:induction false} OffsetsAscend<S, V>(rows: seq<Option<Input<S, V>>>, m: nat, n: nat)
    requires m <= n <= |rows|
    ensures Offset(rows, m) <= Offset(rows, n)
    decreases n
  {
    if m < n { OffsetsAscend(rows, m, n - 1); }
  }

  ghost predicate Columns<S, V>(rows: seq<Option<Input<S, V>>>) {
    forall i :: 0 <= i < |rows| && rows[i].Some? ==>
      rows[i].value.part.Values? && |rows[i].value.part.values| == |rows[i].value.ts|
  }

  function StatesOf<S, V>(ops: Ops<S, V>, values: seq<V>): seq<S> {
    seq(|values|, k requires 0 <= k < |values| => ops.add(ops.blank, values[k]))
  }

  function ValuesOf<S, V>(row: Option<Input<S, V>>): seq<V> {
    match row
    case Some(Input(_, Values(vs))) => vs
    case _ => []
  }

  function TimesOf<S, V>(row: Option<Input<S, V>>): seq<int> {
    if row.Some? then row.value.ts else []
  }

  /** The flat columns over the first `n` rows. */
  function FlatStates<S, V>(ops: Ops<S, V>, rows: seq<Option<Input<S, V>>>, n: nat): seq<S>
    requires n <= |rows|
  {
    Concat(StatesPart(ops, rows), 0, n)
  }

  function StatesPart<S, V>(ops: Ops<S, V>, rows: seq<Option<Input<S, V>>>): int -> seq<S> {
    (i: int) => if 0 <= i < |rows| then StatesOf(ops, ValuesOf(rows[i])) else []
  }

  function FlatTimes<S, V>(rows: seq<Option<Input<S, V>>>, n: nat): seq<int>
    requires n <= |rows|
  {
    Concat(TimesPart(rows), 0, n)
  }

  function TimesPart<S, V>(rows: seq<Option<Input<S, V>>>): int -> seq<int> {
    (i: int) => if 0 <= i < |rows| then TimesOf(rows[i]) else []
  }

  lemma ConcatCut<T>(part: int -> seq<T>, i: int, n: int)
    requires 0 <= i < n
    ensures |Concat(part, 0, i)| <= |Concat(part, 0, i + 1)| <= |Concat(part, 0, n)|
    ensures Concat(part, 0, n)[|Concat(part, 0, i)|..|Concat(part, 0, i + 1)|] == part(i)
  {
    ConcatJoin(part, 0, i, i + 1);
    OneConcat(part, i);
    ConcatJoin(part, 0, i + 1, n);
    hide Concat;
  }

  /** The offsets cut the flat columns back into their rows. */
  lemma FlatCuts<S, V>(ops: Ops<S, V>, rows: seq<Option<Input<S, V>>>, i: nat)
    requires i < |rows| && Columns(rows)
    ensures |FlatStates(ops, rows, |rows|)| == |FlatTimes(rows, |rows|)| == Offset(rows, |rows|)
    ensures Offset(rows, i) <= Offset(rows, i + 1) <= Offset(rows, |rows|)
    ensures FlatStates(ops, rows, |rows|)[Offset(rows, i)..Offset(rows, i + 1)] == StatesOf(ops, ValuesOf(rows[i]))
    ensures FlatTimes(rows, |rows|)[Offset(rows, i)..Offset(rows, i + 1)] == TimesOf(rows[i])
  {
    hide StatesOf, ValuesOf, TimesOf, Concat, Offset, Columns;
    FlatLengths(ops, rows, i);
    FlatLengths(ops, rows, i + 1);
    FlatLengths(ops, rows, |rows|);
    ConcatCut(StatesPart(ops, rows), i, |rows|);
    ConcatCut(TimesPart(rows), i, |rows|);
  }

  lemma {:induction false} FlatLengths<S, V>(ops: Ops<S, V>, rows: seq<Option<Input<S, V>>>, n: nat)
    requires n <= |rows| && Columns(rows)
    ensures |FlatStates(ops, rows, n)| == |FlatTimes(rows, n)| == Offset(rows, n)
  {
    if n > 0 { FlatLengths(ops, rows, n - 1); }
  }

  /** The update kernel over fresh flat positions from `at` on. */
  method AddLane<S, V>(ops: Ops<S, V>, states: seq<S>, at: nat, values: seq<V>) returns (out: seq<S>)
    requires at + |values| <= |states|
    requires forall k :: at <= k < |states| ==> states[k] == ops.blank
    ensures out == states[..at] + StatesOf(ops, values) + states[at + |values|..]
  {
    out := states;
    for k := 0 to |values|
      invariant |out| == |states|
      invariant forall j :: 0 <= j < at || at + k <= j < |states| ==> out[j] == states[j]
      invariant forall j :: 0 <= j < k ==> out[at + j] == ops.add(ops.blank, values[j])
    {
      out := out[at + k := ops.add(out[at + k], values[k])];
    }
    var wanted := states[..at] + StatesOf(ops, values) + states[at + |values|..];
    forall j | 0 <= j < |states| ensures out[j] == wanted[j] {
      if at <= j < at + |values| { assert out[at + (j - at)] == ops.add(ops.blank, values[j - at]); }
    }
  }

  /** Each input row as its own partial state, through flat positions that are
      samples, not grid steps. It is what a fresh accumulator emits when every
      row has its own group, and refuses what that accumulator refuses. */
  method ConvertToState<S, V>(ops: Ops<S, V>, g: Grid, rows: seq<Option<Input<S, V>>>)
    returns (ok: bool, out: seq<seq<Entry<S>>>)
    requires g.step > 0 && Columns(rows)
    ensures ok <==> AllAccepted(g, rows)
    ensures ok ==>
              && |out| == |rows|
              && forall i :: 0 <= i < |rows| ==> out[i] == RowOf(g, Alone(g, ops, rows)[i], AsIs())
  {
    hide *;
    var offsets, states, ts;
    offsets := Offsets(rows);
    ok, states, ts := Flatten(ops, g, rows, offsets);
    out := [];
    if !ok { return; }
    for i := 0 to |rows|
      invariant |out| == i && forall j :: 0 <= j < i ==> out[j] == RowOf(g, Alone(g, ops, rows)[j], AsIs())
    {
      RowConverts(g, ops, rows, i);
      out := out + [Zip(ts[offsets[i]..offsets[i + 1]], states[offsets[i]..offsets[i + 1]])];
    }
  }

  /** What a fresh accumulator holds once every row has folded into its own group. */
  function Alone<S, V>(g: Grid, ops: Ops<S, V>, rows: seq<Option<Input<S, V>>>): (model: seq<map<nat, S>>)
    requires g.step > 0
    ensures |model| == |rows|
  {
    FoldBatch(g, ops, Grown([], |rows|), rows, Own(|rows|), |rows|)
  }

  function Zip<S>(ts: seq<int>, states: seq<S>): seq<Entry<S>> {
    if |ts| != |states| then [] else seq(|ts|, k requires 0 <= k < |ts| => Entry(ts[k], states[k]))
  }

  /** What the offsets cut out for a row is what its own group emits. */
  lemma RowConverts<S, V>(g: Grid, ops: Ops<S, V>, rows: seq<Option<Input<S, V>>>, i: nat)
    requires g.step > 0 && Columns(rows) && AllAccepted(g, rows) && i < |rows|
    ensures |FlatStates(ops, rows, |rows|)| == |FlatTimes(rows, |rows|)| == Offset(rows, |rows|)
    ensures Offset(rows, i) <= Offset(rows, i + 1) <= Offset(rows, |rows|)
    ensures Zip(FlatTimes(rows, |rows|)[Offset(rows, i)..Offset(rows, i + 1)],
                FlatStates(ops, rows, |rows|)[Offset(rows, i)..Offset(rows, i + 1)]) ==
            RowOf(g, Alone(g, ops, rows)[i], AsIs())
  {
    hide OnGrid, RowOf, FoldInput, FoldBatch, Offset, FlatStates, FlatTimes, StatesOf, ValuesOf, TimesOf;
    OwnGroups(g, ops, rows, |rows|);
    FlatCuts(ops, rows, i);
    OwnRow(g, ops, rows, i);
  }

  lemma OwnRow<S, V>(g: Grid, ops: Ops<S, V>, rows: seq<Option<Input<S, V>>>, i: nat)
    requires g.step > 0 && Columns(rows) && AllAccepted(g, rows) && i < |rows|
    ensures Zip(TimesOf(rows[i]), StatesOf(ops, ValuesOf(rows[i]))) ==
            RowOf(g, if rows[i].Some? then FoldInput(g, ops, map[], rows[i].value) else map[], AsIs())
  {
    if rows[i].Some? {
      assert Accepted(g, rows[i]);
      var Input(ts, Values(vs)) := rows[i].value;
      RowAlone(g, ops, ts, vs);
      hide OnGrid, RowOf, FoldInput;
    } else {
      var part := RowPart(g, map[], AsIs<S>());
      assert forall k :: 0 <= k < g.len ==> part(k) == [];
      ConcatNone(part, 0, g.len);
    }
  }

  method Offsets<S, V>(rows: seq<Option<Input<S, V>>>) returns (offsets: seq<nat>)
    ensures |offsets| == |rows| + 1 && forall i :: 0 <= i <= |rows| ==> offsets[i] == Offset(rows, i)
  {
    offsets := [0];
    var kept: nat := 0;
    for i := 0 to |rows|
      invariant |offsets| == i + 1 && kept == Offset(rows, i)
      invariant forall j :: 0 <= j <= i ==> offsets[j] == Offset(rows, j)
    {
      if rows[i].Some? { kept := kept + |rows[i].value.ts|; }
      offsets := offsets + [kept];
    }
  }

  method Flatten<S, V>(ops: Ops<S, V>, g: Grid, rows: seq<Option<Input<S, V>>>, offsets: seq<nat>)
    returns (ok: bool, states: seq<S>, ts: seq<int>)
    requires g.step > 0 && Columns(rows)
    requires |offsets| == |rows| + 1 && forall i :: 0 <= i <= |rows| ==> offsets[i] == Offset(rows, i)
    ensures ok <==> AllAccepted(g, rows)
    ensures ok ==> states == FlatStates(ops, rows, |rows|) && ts == FlatTimes(rows, |rows|)
  {
    hide OnGrid, AllAccepted, AcceptedTo, FlatTo, Offset, Columns;
    var kept := offsets[|rows|];
    states, ts := Fill(kept, ops.blank), [];
    FlatBegins(ops, rows);
    AcceptedNone(g, rows);
    for i := 0 to |rows|
      invariant AcceptedTo(g, rows, i) && FlatTo(ops, rows, i, states, ts)
    {
      NextAccepted(g, rows, i);
      FlatRoom(ops, rows, i, states, ts);
      if rows[i].Some? {
        var runs, error := TryRuns(g, rows[i].value.ts);
        if error.Some? { return false, states, ts; }
        ts := ts + rows[i].value.ts;
        states := AddLane(ops, states, offsets[i], ValuesOf(rows[i]));
      }
    }
    AcceptedNone(g, rows);
    FlatEnds(ops, rows, states, ts);
    ok := true;
  }

  /** The first `i` rows are in place, and the rest of the lane is fresh. */
  ghost predicate FlatTo<S, V>(ops: Ops<S, V>, rows: seq<Option<Input<S, V>>>, i: nat, states: seq<S>, ts: seq<int>)
    requires i <= |rows|
  {
    && Offset(rows, i) <= Offset(rows, |rows|)
    && ts == FlatTimes(rows, i)
    && |FlatStates(ops, rows, i)| == Offset(rows, i)
    && states == FlatStates(ops, rows, i) + Fill(Offset(rows, |rows|) - Offset(rows, i), ops.blank)
  }

  lemma FlatBegins<S, V>(ops: Ops<S, V>, rows: seq<Option<Input<S, V>>>)
    ensures FlatTo(ops, rows, 0, Fill(Offset(rows, |rows|), ops.blank), [])
  {
    assert Offset(rows, 0) == 0;
    hide Offset;
  }

  lemma FlatEnds<S, V>(ops: Ops<S, V>, rows: seq<Option<Input<S, V>>>, states: seq<S>, ts: seq<int>)
    requires FlatTo(ops, rows, |rows|, states, ts)
    ensures states == FlatStates(ops, rows, |rows|) && ts == FlatTimes(rows, |rows|)
  {
    hide Offset, FlatStates;
  }

  /** Room for the next row, and the lane once it is added. */
  lemma FlatRoom<S, V>(ops: Ops<S, V>, rows: seq<Option<Input<S, V>>>, i: nat, states: seq<S>, ts: seq<int>)
    requires i < |rows| && FlatTo(ops, rows, i, states, ts) && Columns(rows)
    ensures var at, values := Offset(rows, i), ValuesOf(rows[i]);
            && at + |values| <= |states|
            && (forall k :: at <= k < |states| ==> states[k] == ops.blank)
            && FlatTo(ops, rows, i + 1, states[..at] + StatesOf(ops, values) + states[at + |values|..],
                      ts + TimesOf(rows[i]))
    ensures rows[i].None? ==> FlatTo(ops, rows, i + 1, states, ts)
  {
    hide Offset, FlatStates, FlatTimes, ValuesOf, TimesOf, StatesOf, Columns;
    OffsetsAscend(rows, i + 1, |rows|);
    FlatLengths(ops, rows, i + 1);
    FlatNext(ops, rows, i);
    var at, values, all := Offset(rows, i), ValuesOf(rows[i]), Offset(rows, |rows|);
    FillSplits(all - at, |values|, ops.blank);
    hide Fill;
    assert states[..at] == FlatStates(ops, rows, i);
    assert states[at + |values|..] == Fill(all - at, ops.blank)[|values|..];
  }

  lemma FlatNext<S, V>(ops: Ops<S, V>, rows: seq<Option<Input<S, V>>>, i: nat)
    requires i < |rows| && Columns(rows)
    ensures Offset(rows, i + 1) == Offset(rows, i) + |ValuesOf(rows[i])|
    ensures |StatesOf(ops, ValuesOf(rows[i]))| == |ValuesOf(rows[i])|
    ensures FlatStates(ops, rows, i + 1) == FlatStates(ops, rows, i) + StatesOf(ops, ValuesOf(rows[i]))
    ensures FlatTimes(rows, i + 1) == FlatTimes(rows, i) + TimesOf(rows[i])
    ensures rows[i].None? ==>
              StatesOf(ops, ValuesOf(rows[i])) == [] && ValuesOf(rows[i]) == [] && TimesOf(rows[i]) == []
  {
  }

  lemma FillSplits<T>(n: nat, cut: nat, x: T)
    ensures forall k :: 0 <= k < n ==> Fill(n, x)[k] == x
    ensures |Fill(n, x)| == n
    ensures cut <= n ==> Fill(n, x)[cut..] == Fill(n - cut, x)
  {
  }

  lemma AcceptedNone<S, V>(g: Grid, rows: seq<Option<Input<S, V>>>)
    requires g.step > 0
    ensures AcceptedTo(g, rows, 0) && (AcceptedTo(g, rows, |rows|) <==> AllAccepted(g, rows))
  {
    hide Accepted;
  }

  lemma NextAccepted<S, V>(g: Grid, rows: seq<Option<Input<S, V>>>, i: nat)
    requires g.step > 0 && i < |rows|
    ensures AcceptedTo(g, rows, i) && (rows[i].None? || OnGrid(g, rows[i].value.ts)) ==> AcceptedTo(g, rows, i + 1)
    ensures rows[i].Some? && !OnGrid(g, rows[i].value.ts) ==> !AllAccepted(g, rows)
    ensures AcceptedTo(g, rows, |rows|) <==> AllAccepted(g, rows)
  {
    hide OnGrid;
    assert Accepted(g, rows[i]) <==> rows[i].None? || OnGrid(g, rows[i].value.ts);
  }
}
