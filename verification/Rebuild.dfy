/** A match group rebuilt from partial states, against one that took every row. */
module Rebuild {
  import opened Series
  import opened Grids
  import opened Permutations
  import opened Ordering
  import opened Matching
  import opened MatchLanes
  import opened Joining
  import opened MatchState
  import opened Pairings

  datatype Row = Row(side: Side, labels: Labels, ts: seq<int>, values: seq<Value>)

  ghost predicate Whole(c: Config, row: Row) {
    |row.ts| == |row.values| && |row.labels| == |c.schema|
  }

  function ViewOfRow(c: Config, g: Grid, row: Row): View
    requires g.step > 0
  {
    RowView(c, g.len, row.side, row.labels, CellsOf(g, row.ts, row.values))
  }

  /** What a group holds once it has taken the rows in order. */
  function RowsView(c: Config, g: Grid, rows: seq<Row>): View
    requires g.step > 0
  {
    if rows == [] then NoView(g.len) else Join(RowsView(c, g, rows[..|rows| - 1]), ViewOfRow(c, g, rows[|rows| - 1]))
  }

  lemma {:induction false} RowsSized(c: Config, g: Grid, rows: seq<Row>)
    requires g.step > 0
    ensures Sized(RowsView(c, g, rows), g.len)
  {
    hide RowView, CellsOf, Join;
    if rows != [] {
      RowsSized(c, g, rows[..|rows| - 1]);
      var row := rows[|rows| - 1];
      RowSized(c, g.len, row.side, row.labels, CellsOf(g, row.ts, row.values));
      JoinSized(RowsView(c, g, rows[..|rows| - 1]), ViewOfRow(c, g, row), g.len);
    }
  }

  lemma RowsAppend(c: Config, g: Grid, rows: seq<Row>, row: Row)
    requires g.step > 0
    ensures RowsView(c, g, rows + [row]) == Join(RowsView(c, g, rows), ViewOfRow(c, g, row))
  {
    assert (rows + [row])[..|rows|] == rows;
  }

  lemma RowsOne(c: Config, g: Grid, row: Row)
    requires g.step > 0
    ensures RowsView(c, g, [row]) == ViewOfRow(c, g, row)
  {
    RowsAppend(c, g, [], row);
    assert [] + [row] == [row];
    hide RowView, CellsOf, Join;
    RowSized(c, g.len, row.side, row.labels, CellsOf(g, row.ts, row.values));
    JoinNone(ViewOfRow(c, g, row), g.len);
  }

  lemma {:induction false} RowsConcat(c: Config, g: Grid, a: seq<Row>, b: seq<Row>)
    requires g.step > 0
    ensures RowsView(c, g, a + b) == Join(RowsView(c, g, a), RowsView(c, g, b))
    decreases |b|
  {
    hide RowView, CellsOf, Join, ViewOfRow;
    RowsSized(c, g, a);
    if b == [] {
      assert a + b == a;
      JoinNone(RowsView(c, g, a), g.len);
    } else {
      var n := |b| - 1;
      assert a + b == (a + b[..n]) + [b[n]] && b == b[..n] + [b[n]];
      RowsConcat(c, g, a, b[..n]);
      RowsAppend(c, g, a + b[..n], b[n]);
      RowsAppend(c, g, b[..n], b[n]);
      RowsSized(c, g, b[..n]);
      RowsOne(c, g, b[n]);
      RowsSized(c, g, [b[n]]);
      JoinAssociates(RowsView(c, g, a), RowsView(c, g, b[..n]), ViewOfRow(c, g, b[n]), g.len);
    }
  }

  // ── Order ──

  /** Two rows of one "many" series with a sample at one step. */
  ghost predicate Clash(c: Config, g: Grid, r: Row, s: Row)
    requires g.step > 0
  {
    exists k, i: nat :: ManyAt(ViewOfRow(c, g, r), i, k).Some? && ManyAt(ViewOfRow(c, g, s), i, k).Some?
  }

  ghost predicate Calm(c: Config, g: Grid, rows: seq<Row>)
    requires g.step > 0
  {
    forall i, j :: 0 <= i < j < |rows| ==> !Clash(c, g, rows[i], rows[j])
  }

  /** A row that clashes with none of some others stays apart from them all. */
  lemma {:induction false} RowApart(c: Config, g: Grid, row: Row, rows: seq<Row>)
    requires g.step > 0 && forall i :: 0 <= i < |rows| ==> !Clash(c, g, rows[i], row)
    ensures Apart(ViewOfRow(c, g, row), RowsView(c, g, rows))
  {
    hide Join, Clash, ViewOfRow;
    var v := ViewOfRow(c, g, row);
    if rows == [] {
    } else {
      var n := |rows| - 1;
      RowApart(c, g, row, rows[..n]);
      forall k, i: nat ensures ManyAt(v, i, k).None? || ManyAt(RowsView(c, g, rows), i, k).None? {
        FromEither(RowsView(c, g, rows[..n]), ViewOfRow(c, g, rows[n]), i, k);
        NoClash(c, g, rows[n], row, i, k);
      }
    }
  }

  lemma NoClash(c: Config, g: Grid, r: Row, s: Row, i: nat, k: Key)
    requires g.step > 0 && !Clash(c, g, r, s)
    ensures ManyAt(ViewOfRow(c, g, r), i, k).None? || ManyAt(ViewOfRow(c, g, s), i, k).None?
  {
    hide ViewOfRow, ManyAt;
  }

  lemma FromEither(v: View, w: View, i: nat, k: Key)
    ensures ManyAt(Join(v, w), i, k).Some? ==> ManyAt(v, i, k).Some? || ManyAt(w, i, k).Some?
  {
  }

  /** What the group holds does not depend on the order the rows came in, as
      long as no two rows of one "many" series share a step. */
  lemma {:induction false} RowsPermuted(c: Config, g: Grid, a: seq<Row>, b: seq<Row>)
    requires g.step > 0 && Calm(c, g, a) && multiset(a) == multiset(b)
    ensures RowsView(c, g, a) == RowsView(c, g, b)
    decreases |a|
  {
    hide *;
    SameLength(a, b);
    if a == [] {
      assert b == [];
    } else {
      var j := TakeLast(a, b);
      var rest, before, after, x := a[..|a| - 1], b[..j], b[j + 1..], b[j];
      CalmRest(c, g, a);
      RowsPermuted(c, g, rest, before + after);
      assert a == rest + [x];
      RowsAppend(c, g, rest, x);
      forall i | 0 <= i < |after| ensures !Clash(c, g, after[i], x) {
        assert after[i] in multiset(before + after);
        assert after[i] in multiset(rest);
        CalmLast(c, g, a, after[i]);
      }
      Swaps(c, g, before, x, after);
    }
  }

  lemma CalmRest(c: Config, g: Grid, a: seq<Row>)
    requires g.step > 0 && Calm(c, g, a) && a != []
    ensures Calm(c, g, a[..|a| - 1])
  {
    hide Clash;
  }

  lemma CalmLast(c: Config, g: Grid, a: seq<Row>, r: Row)
    requires g.step > 0 && Calm(c, g, a) && a != [] && r in a[..|a| - 1]
    ensures !Clash(c, g, r, a[|a| - 1])
  {
    hide Clash;
    var i :| 0 <= i < |a| - 1 && a[i] == r;
  }

  lemma Swaps(c: Config, g: Grid, before: seq<Row>, x: Row, after: seq<Row>)
    requires g.step > 0 && forall i :: 0 <= i < |after| ==> !Clash(c, g, after[i], x)
    ensures RowsView(c, g, before + [x] + after) == Join(RowsView(c, g, before + after), ViewOfRow(c, g, x))
  {
    hide *;
    var u, v, w := RowsView(c, g, before), ViewOfRow(c, g, x), RowsView(c, g, after);
    RowsConcat(c, g, before + [x], after);
    RowsAppend(c, g, before, x);
    RowsConcat(c, g, before, after);
    RowsSized(c, g, before);
    RowsSized(c, g, after);
    RowsOne(c, g, x);
    RowsSized(c, g, [x]);
    RowApart(c, g, x, after);
    JoinAssociates(u, v, w, g.len);
    JoinAssociates(u, w, v, g.len);
    JoinCommutes(v, w, g.len);
  }

  // ── Runs ──

  ghost predicate AllOnGrid(g: Grid, rows: seq<Row>)
    requires g.step > 0
  {
    forall i :: 0 <= i < |rows| ==> OnGrid(g, rows[i].ts)
  }

  /** A group takes rows in order, until one is refused. */
  method AbsorbAll(p: Pairing, rows: seq<Row>) returns (ok: bool)
    requires p.Valid() && forall i :: 0 <= i < |rows| ==> Whole(p.c, rows[i])
    requires p.Holds() == NoView(p.grid.len)
    modifies p
    ensures p.Valid()
    ensures ok <==> AllOnGrid(p.grid, rows)
    ensures ok ==> p.Holds() == RowsView(p.c, p.grid, rows)
  {
    assert p.grid.step > 0;
    hide ViewOf, OnGrid, Join, RowView, CellsOf, RowsView;
    RowsNone(p.c, p.grid);
    for i := 0 to |rows|
      invariant p.Valid() && p.Holds() == RowsView(p.c, p.grid, rows[..i])
      invariant forall j :: 0 <= j < i ==> OnGrid(p.grid, rows[j].ts)
    {
      assert rows[..i + 1] == rows[..i] + [rows[i]];
      RowsAppend(p.c, p.grid, rows[..i], rows[i]);
      assert Whole(p.c, rows[i]);
      ok := p.Absorb(rows[i].side, rows[i].labels, rows[i].ts, rows[i].values);
      if !ok { return; }
    }
    assert rows[..|rows|] == rows;
    ok := true;
  }

  lemma RowsNone(c: Config, g: Grid)
    requires g.step > 0
    ensures RowsView(c, g, []) == NoView(g.len)
  {
  }

  /** One group fed every row. */
  method Direct(c: Config, g: Grid, rows: seq<Row>) returns (r: Result)
    requires g.step > 0 && forall i :: 0 <= i < |rows| ==> Whole(c, rows[i])
    ensures |RowsView(c, g, rows).one| == g.len
    ensures if AllOnGrid(g, rows) then Answers(c, g, RowsView(c, g, rows), r) else r == Err(OffGridSample)
  {
    hide ViewOf, RowsView, Answers, AllOnGrid;
    RowsSized(c, g, rows);
    var p := new Pairing(c, g);
    var ok := AbsorbAll(p, rows);
    if !ok { return Err(OffGridSample); }
    r := p.Answer();
  }


  /** Whether a row lands on the "many" side. */
  predicate OnMany(c: Config, row: Row) {
    IsSet(c.op) || row.side != OneSide(c)
  }

  ghost predicate NoneOnMany(c: Config, rows: seq<Row>) {
    forall i :: 0 <= i < |rows| ==> !OnMany(c, rows[i])
  }

  /** Without "many" rows no series is kept, and with any there is one. */
  lemma {:induction false} ManyKept(c: Config, g: Grid, rows: seq<Row>)
    requires g.step > 0
    ensures RowsView(c, g, rows).many == map[] <==> NoneOnMany(c, rows)
  {
    hide CellsOf;
    if rows != [] {
      var n := |rows| - 1;
      ManyKept(c, g, rows[..n]);
      var v, w := RowsView(c, g, rows[..n]), ViewOfRow(c, g, rows[n]);
      assert OnMany(c, rows[n]) ==> Key(rows[n].side, rows[n].labels) in w.many;
      assert !OnMany(c, rows[n]) ==> w.many == map[];
      hide ViewOfRow, OnMany;
      EmptyJoin(v, w);
      assert NoneOnMany(c, rows) <==> NoneOnMany(c, rows[..n]) && !OnMany(c, rows[n]);
    }
  }

  lemma EmptyJoin(v: View, w: View)
    ensures Join(v, w).many == map[] <==> v.many == map[] && w.many == map[]
  {
    hide JoinLine;
    assert forall k :: k in Join(v, w).many <==> k in v.many || k in w.many;
    assert v.many == map[] <==> forall k :: k !in v.many;
    assert w.many == map[] <==> forall k :: k !in w.many;
    assert Join(v, w).many == map[] <==> forall k :: k !in Join(v, w).many;
  }

  lemma LanesKept(l: Lanes, len: nat)
    requires MatchLanes.Sound(l, len)
    ensures ViewOf(l).many == map[] <==> l.many == []
  {
    ManyViewAt(l.many);
    hide LineCells;
    if l.many != [] { assert KeyOf(l.many[0]) in ViewOf(l).many; }
  }

  /** Each share's group: what it holds, and the partial it writes. */
  method PartialOf(c: Config, g: Grid, rows: seq<Row>) returns (ok: bool, p: Partial, ghost l: Lanes)
    requires g.step > 0 && forall i :: 0 <= i < |rows| ==> Whole(c, rows[i])
    ensures ok <==> AllOnGrid(g, rows)
    ensures ok ==> Wrote(p, l, |c.schema|, g.len) && ViewOf(l) == RowsView(c, g, rows)
    ensures ok ==> (l.many == [] <==> NoneOnMany(c, rows))
  {
    hide ViewOf, RowsView, AllOnGrid, Encode, NoneOnMany;
    var group := new Pairing(c, g);
    ok := AbsorbAll(group, rows);
    p := group.State();
    l := group.Now();
    if ok {
      ManyKept(c, g, rows);
      LanesKept(l, g.len);
    }
  }

  ghost predicate SharesOk(c: Config, g: Grid, shares: seq<seq<Row>>)
    requires g.step > 0
  {
    forall s :: 0 <= s < |shares| ==> AllOnGrid(g, shares[s])
  }

  /** Each share's rows in a group of their own, the partials merged into one
      more: it answers as one group fed every row does. A grid without a step
      refuses any share with a "many" row. */
  method FromPartials(c: Config, g: Grid, shares: seq<seq<Row>>) returns (r: Result)
    requires g.step > 0 && forall s, i :: 0 <= s < |shares| && 0 <= i < |shares[s]| ==> Whole(c, shares[s][i])
    ensures |RowsView(c, g, Flat(shares)).one| == g.len
    ensures if !SharesOk(c, g, shares) then r == Err(OffGridSample)
            else if g.len == 0 && exists s :: 0 <= s < |shares| && !NoneOnMany(c, shares[s]) then r == Err(Corrupt)
            else Answers(c, g, RowsView(c, g, Flat(shares)), r)
  {
    hide ViewOf, RowsView, Answers, AllOnGrid, NoneOnMany, Wrote, JoinAll, Flat;
    RowsSized(c, g, Flat(shares));
    var states: seq<Partial>;
    states := [];
    ghost var others: seq<Lanes> := [];
    for s := 0 to |shares|
      invariant |states| == |others| == s
      invariant forall t :: 0 <= t < s ==> AllOnGrid(g, shares[t]) && WroteShare(c, g, shares[t], states[t], others[t])
    {
      var ok, p;
      ghost var l;
      ok, p, l := PartialOf(c, g, shares[s]);
      if !ok { return Err(OffGridSample); }
      states, others := states + [p], others + [l];
    }
    var group := new Pairing(c, g);
    ghost var none := group.Holds();
    EveryWrote(c, g, shares, states, others);
    var ok := group.MergeBatch(states, others);
    if !ok { return Err(Corrupt); }
    SharesJoin(c, g, shares, others, |shares|);
    assert others[..|shares|] == others && shares[..|shares|] == shares;
    r := group.Answer();
  }

  ghost predicate WroteShare(c: Config, g: Grid, rows: seq<Row>, p: Partial, l: Lanes)
    requires g.step > 0
  {
    Wrote(p, l, |c.schema|, g.len) && ViewOf(l) == RowsView(c, g, rows) && (l.many == [] <==> NoneOnMany(c, rows))
  }

  lemma EveryWrote(c: Config, g: Grid, shares: seq<seq<Row>>, states: seq<Partial>, others: seq<Lanes>)
    requires g.step > 0 && |shares| == |states| == |others|
    requires forall t :: 0 <= t < |shares| ==> WroteShare(c, g, shares[t], states[t], others[t])
    ensures AllWrote(states, others, |c.schema|, g.len)
    ensures (forall i :: 0 <= i < |others| ==> others[i].many == []) <==>
              !(exists s :: 0 <= s < |shares| && !NoneOnMany(c, shares[s]))
    ensures forall t :: 0 <= t < |shares| ==> ViewOf(others[t]) == RowsView(c, g, shares[t])
  {
    hide Wrote, ViewOf, RowsView, NoneOnMany;
    forall t | 0 <= t < |shares| ensures others[t].many == [] <==> NoneOnMany(c, shares[t]) {
      assert WroteShare(c, g, shares[t], states[t], others[t]);
    }
  }

  lemma {:induction false} SharesJoin(c: Config, g: Grid, shares: seq<seq<Row>>, others: seq<Lanes>, n: nat)
    requires g.step > 0 && |shares| == |others| && n <= |shares|
    requires forall t :: 0 <= t < |shares| ==> ViewOf(others[t]) == RowsView(c, g, shares[t])
    ensures JoinAll(NoView(g.len), others[..n]) == RowsView(c, g, Flat(shares[..n]))
    decreases n
  {
    hide *;
    if n == 0 {
      RowsNone(c, g);
      NothingJoined(shares, others, NoView(g.len));
    } else {
      SharesJoin(c, g, shares, others, n - 1);
      OneMoreJoined(shares, others, NoView(g.len), n);
      RowsConcat(c, g, Flat(shares[..n - 1]), shares[n - 1]);
    }
  }

  lemma NothingJoined(shares: seq<seq<Row>>, others: seq<Lanes>, v: View)
    ensures JoinAll(v, others[..0]) == v && Flat(shares[..0]) == []
  {
  }

  lemma OneMoreJoined(shares: seq<seq<Row>>, others: seq<Lanes>, v: View, n: nat)
    requires 0 < n <= |shares| == |others|
    ensures JoinAll(v, others[..n]) == Join(JoinAll(v, others[..n - 1]), ViewOf(others[n - 1]))
    ensures Flat(shares[..n]) == Flat(shares[..n - 1]) + shares[n - 1]
  {
    hide Join, ViewOf;
    assert others[..n][..n - 1] == others[..n - 1] && shares[..n][..n - 1] == shares[..n - 1];
  }

  /** Shares of any order and any cut: the answer is the one a single group
      gives to all the rows, in any order. */
  lemma RebuiltIsDirect(c: Config, g: Grid, shares: seq<seq<Row>>, rows: seq<Row>, r: Result, r': Result)
    requires g.step > 0 && Calm(c, g, rows) && multiset(rows) == multiset(Flat(shares))
    requires |RowsView(c, g, Flat(shares)).one| == g.len == |RowsView(c, g, rows).one|
    requires Answers(c, g, RowsView(c, g, Flat(shares)), r) && Answers(c, g, RowsView(c, g, rows), r')
    ensures r == r'
  {
    hide *;
    RowsPermuted(c, g, rows, Flat(shares));
    AnswersOnce(c, g, RowsView(c, g, rows), r, r');
  }
}
