/** `absent`: the steps no input series reached, and the labels the output gets
    from the query alone. */
module Absence {
  import opened Series
  import opened Grids
  import opened Aggregate
  import opened Ordering

  /** Some timestamp is the timestamp of grid index `i`. */
  ghost predicate Reaches(g: Grid, ts: seq<int>, i: nat)
    requires g.step > 0
  {
    exists k :: 0 <= k < |ts| && Index(g, ts[k]) == Some(i)
  }

  /** Some row of the list does. */
  ghost predicate Reached(g: Grid, rows: seq<Option<seq<int>>>, i: nat)
    requires g.step > 0
  {
    exists r :: 0 <= r < |rows| && rows[r].Some? && Reaches(g, rows[r].value, i)
  }

  ghost predicate AllOnGrid(g: Grid, rows: seq<Option<seq<int>>>)
    requires g.step > 0
  {
    forall r :: 0 <= r < |rows| && rows[r].Some? ==> OnGrid(g, rows[r].value)
  }

  /** The timestamps of the first `n` steps whose presence is `flag`. */
  function Chosen(g: Grid, present: seq<bool>, flag: bool, n: nat): seq<int>
    requires n <= |present|
  {
    if n == 0 then []
    else Chosen(g, present, flag, n - 1) + (if present[n - 1] == flag then [Timestamp(g, n - 1)] else [])
  }

  lemma {:induction false} ChosenIs(g: Grid, present: seq<bool>, flag: bool, n: nat)
    requires g.step > 0 && n <= |present| == g.len
    ensures OnGrid(g, Chosen(g, present, flag, n))
    ensures forall k :: 0 <= k < |Chosen(g, present, flag, n)| ==> Chosen(g, present, flag, n)[k] < Timestamp(g, n)
    ensures forall i: nat :: Reaches(g, Chosen(g, present, flag, n), i) <==> i < n && present[i] == flag
  {
    hide Index, Timestamp;
    if n > 0 {
      ChosenIs(g, present, flag, n - 1);
      var before, all := Chosen(g, present, flag, n - 1), Chosen(g, present, flag, n);
      TimestampsAscend(g, n - 1, n);
      IndexIs(g, Timestamp(g, n - 1), n - 1);
      forall i: nat
        ensures Reaches(g, all, i) <==> i < n && present[i] == flag
      {
        ChosenNext(g, before, all, n - 1, present[n - 1] == flag, i);
      }
    }
  }

  lemma ChosenNext(g: Grid, before: seq<int>, all: seq<int>, n: nat, taken: bool, i: nat)
    requires g.step > 0 && Index(g, Timestamp(g, n)) == Some(n)
    requires all == before + (if taken then [Timestamp(g, n)] else [])
    ensures Reaches(g, all, i) <==> Reaches(g, before, i) || (taken && i == n)
  {
    hide Index, Timestamp;
    if Reaches(g, before, i) {
      var k :| 0 <= k < |before| && Index(g, before[k]) == Some(i);
      assert all[k] == before[k];
    }
    if taken && i == n { assert all[|before|] == Timestamp(g, n); }
  }

  class Steps {
    const grid: Grid
    var present: seq<bool>

    ghost predicate Valid()
      reads this
    {
      grid.step > 0 && |present| == grid.len
    }

    constructor (grid: Grid)
      requires grid.step > 0
      ensures Valid() && this.grid == grid && forall i :: 0 <= i < |present| ==> !present[i]
    {
      this.grid := grid;
      present := seq(grid.len, _ => false);
    }

    /** A run of consecutive steps is present. */
    method Fill(index: nat, len: nat)
      requires Valid() && index + len <= |present|
      modifies this`present
      ensures Valid()
      ensures forall i :: 0 <= i < |present| ==> present[i] == (old(present)[i] || index <= i < index + len)
    {
      present := present[..index] + seq(len, _ => true) + present[index + len..];
    }

    /** Flags the steps one row reaches. */
    method MarkRow(ts: seq<int>) returns (ok: bool)
      requires Valid()
      modifies this`present
      ensures Valid() && (ok <==> OnGrid(grid, ts))
      ensures ok ==> forall i :: 0 <= i < |present| ==> (present[i] <==> old(present)[i] || Reaches(grid, ts, i))
    {
      hide Index, OnGrid, RunsTo, RunOf, Reaches;
      var runs, error := TryRuns(grid, ts);
      ok := error.None?;
      if !ok { return; }
      FirstRun(grid, ts, runs);
      NothingReached(grid, ts);
      for r := 0 to |runs|
        invariant Valid() && RunStart(runs, r, |ts|) <= |ts|
        invariant forall i :: 0 <= i < |present| ==>
                    (present[i] <==> old(present)[i] || Reaches(grid, ts[..RunStart(runs, r, |ts|)], i))
      {
        NextRun(grid, ts, runs, r);
        RunReaches(grid, ts, runs[r]);
        Fill(runs[r].index, runs[r].len);
      }
      RunsOver(runs, ts);
    }

    /** Flags what a batch reaches, whether its rows are series or the states
        other accumulators emitted. */
    method Mark(rows: seq<Option<seq<int>>>) returns (ok: bool)
      requires Valid()
      modifies this`present
      ensures Valid() && (ok <==> AllOnGrid(grid, rows))
      ensures ok ==> forall i :: 0 <= i < |present| ==> (present[i] <==> old(present)[i] || Reached(grid, rows, i))
    {
      hide OnGrid, Reaches, Reached;
      NoneReached(grid, rows);
      for r := 0 to |rows|
        invariant Valid() && forall q :: 0 <= q < r && rows[q].Some? ==> OnGrid(grid, rows[q].value)
        invariant forall i :: 0 <= i < |present| ==> (present[i] <==> old(present)[i] || Reached(grid, rows[..r], i))
      {
        NextReached(grid, rows, r);
        if rows[r].Some? {
          ok := MarkRow(rows[r].value);
          if !ok { return; }
        }
      }
      assert rows[..|rows|] == rows;
      ok := true;
    }

    /** The steps so flagged: unflagged ones answer, flagged ones are the state
        another accumulator marks. */
    method List(flag: bool) returns (ts: seq<int>)
      requires Valid()
      ensures ts == Chosen(grid, present, flag, grid.len)
    {
      ts := [];
      for i := 0 to grid.len
        invariant ts == Chosen(grid, present, flag, i)
      {
        if present[i] == flag { ts := ts + [Timestamp(grid, i)]; }
      }
    }
  }

  lemma NothingReached(g: Grid, ts: seq<int>)
    requires g.step > 0
    ensures forall i: nat :: !Reaches(g, ts[..0], i)
    ensures ts[..|ts|] == ts
  {
  }

  lemma RunsOver(runs: seq<Run>, ts: seq<int>)
    ensures ts[..RunStart(runs, |runs|, |ts|)] == ts
  {
  }

  lemma NextRun(g: Grid, ts: seq<int>, runs: seq<Run>, r: nat)
    requires g.step > 0 && RunsTo(g, ts, runs, |ts|) && r < |runs|
    ensures RunOf(g, ts, runs[r]) && RunStart(runs, r, |ts|) == runs[r].from
    ensures RunStart(runs, r + 1, |ts|) == runs[r].from + runs[r].len <= |ts|
  {
    hide Index;
    if r + 1 < |runs| { assert RunGap(runs[r + 1 - 1], runs[r + 1]); }
  }

  /** A run reaches exactly its own positions. */
  lemma RunReaches(g: Grid, ts: seq<int>, run: Run)
    requires g.step > 0 && RunOf(g, ts, run)
    ensures run.from + run.len <= |ts| && run.index + run.len <= g.len
    ensures forall i: nat ::
              Reaches(g, ts[..run.from + run.len], i) <==>
                    Reaches(g, ts[..run.from], i) || run.index <= i < run.index + run.len
  {
    IndexInside(g, ts[run.from + run.len - 1], run.index + run.len - 1);
    hide Index;
    var until := run.from + run.len;
    forall i: nat
      ensures Reaches(g, ts[..until], i) <==> Reaches(g, ts[..run.from], i) || run.index <= i < run.index + run.len
    {
      if Reaches(g, ts[..run.from], i) {
        var k :| 0 <= k < run.from && Index(g, ts[..run.from][k]) == Some(i);
        assert ts[..until][k] == ts[k];
      }
      if run.index <= i < run.index + run.len {
        var k := run.from + i - run.index;
        assert ts[..until][k] == ts[k] && Index(g, ts[k]) == Some(run.index + k - run.from);
      }
      if Reaches(g, ts[..until], i) {
        var k :| 0 <= k < until && Index(g, ts[..until][k]) == Some(i);
        assert k < run.from ==> ts[..run.from][k] == ts[k];
      }
    }
  }

  lemma NoneReached(g: Grid, rows: seq<Option<seq<int>>>)
    requires g.step > 0
    ensures forall i: nat :: !Reached(g, rows[..0], i)
  {
  }

  lemma NextReached(g: Grid, rows: seq<Option<seq<int>>>, r: nat)
    requires g.step > 0 && r < |rows|
    ensures forall i: nat :: Reached(g, rows[..r + 1], i) <==>
              Reached(g, rows[..r], i) || (rows[r].Some? && Reaches(g, rows[r].value, i))
  {
    hide Reaches;
    forall i: nat
      ensures Reached(g, rows[..r + 1], i) <==>
                Reached(g, rows[..r], i) || (rows[r].Some? && Reaches(g, rows[r].value, i))
    {
      if Reached(g, rows[..r], i) {
        var q :| 0 <= q < r && rows[..r][q].Some? && Reaches(g, rows[..r][q].value, i);
        assert rows[..r + 1][q] == rows[q];
      }
      if rows[r].Some? && Reaches(g, rows[r].value, i) { assert rows[..r + 1][r] == rows[r]; }
      if Reached(g, rows[..r + 1], i) {
        var q :| 0 <= q < r + 1 && rows[..r + 1][q].Some? && Reaches(g, rows[..r + 1][q].value, i);
        assert q < r ==> rows[..r][q] == rows[q];
      }
    }
  }

  /** Some row of some share reaches the step. */
  ghost predicate ReachedAnywhere(g: Grid, shares: seq<seq<Option<seq<int>>>>, n: nat, i: nat)
    requires g.step > 0 && n <= |shares|
  {
    exists s :: 0 <= s < n && Reached(g, shares[s], i)
  }

  /** The grid, less every step some row of some share reached. */
  ghost predicate GridMinus(g: Grid, shares: seq<seq<Option<seq<int>>>>, ts: seq<int>)
    requires g.step > 0
  {
    && OnGrid(g, ts)
    && forall i: nat :: Reaches(g, ts, i) <==> i < g.len && !ReachedAnywhere(g, shares, |shares|, i)
  }

  /** Rows split among any accumulators, partial states merged: the answer is
      the grid less everything marked anywhere. */
  method AbsentSteps(g: Grid, shares: seq<seq<Option<seq<int>>>>) returns (ok: bool, ts: seq<int>)
    requires g.step > 0
    ensures ok <==> forall s :: 0 <= s < |shares| ==> AllOnGrid(g, shares[s])
    ensures ok ==> GridMinus(g, shares, ts)
  {
    hide OnGrid, Reaches, Reached, ReachedAnywhere, AllOnGrid, Chosen;
    var final := new Steps(g);
    ts := [];
    NoShares(g, shares);
    for s := 0 to |shares|
      invariant final.Valid() && final.grid == g && fresh(final)
      invariant forall q :: 0 <= q < s ==> AllOnGrid(g, shares[q])
      invariant forall i :: 0 <= i < g.len ==> (final.present[i] <==> ReachedAnywhere(g, shares, s, i))
    {
      var partial := new Steps(g);
      ok := partial.Mark(shares[s]);
      if !ok { return; }
      var state := partial.List(true);
      ChosenIs(g, partial.present, true, g.len);
      OneRow(g, state);
      NextShare(g, shares, s);
      var merged := final.Mark([Some(state)]);
    }
    ok := true;
    ts := final.List(false);
    ChosenIs(g, final.present, false, g.len);
  }

  lemma NoShares(g: Grid, shares: seq<seq<Option<seq<int>>>>)
    requires g.step > 0
    ensures forall i: nat :: !ReachedAnywhere(g, shares, 0, i)
  {
  }

  lemma NextShare(g: Grid, shares: seq<seq<Option<seq<int>>>>, s: nat)
    requires g.step > 0 && s < |shares|
    ensures forall i: nat :: ReachedAnywhere(g, shares, s + 1, i) <==>
              ReachedAnywhere(g, shares, s, i) || Reached(g, shares[s], i)
  {
    hide Reached;
  }

  lemma OneRow(g: Grid, ts: seq<int>)
    requires g.step > 0
    ensures OnGrid(g, ts) ==> AllOnGrid(g, [Some(ts)])
    ensures forall i: nat :: Reached(g, [Some(ts)], i) <==> Reaches(g, ts, i)
  {
    hide OnGrid, Reaches;
    forall i: nat ensures Reached(g, [Some(ts)], i) <==> Reaches(g, ts, i) {
      assert [Some(ts)][0] == Some(ts);
    }
  }

  // ── The output's labels ──

  datatype MatchOp = Equal | NotEqual | Regex | NotRegex

  datatype Matcher = Matcher(op: MatchOp, name: string, value: string)

  /** The first equality matcher on a name. */
  ghost predicate FirstEqual(ms: seq<Matcher>, n: nat, name: string, i: nat)
    requires n <= |ms|
  {
    i < n && ms[i].op.Equal? && ms[i].name == name && forall j :: 0 <= j < i && ms[j].name == name ==> !ms[j].op.Equal?
  }

  ghost predicate LastTouch(ms: seq<Matcher>, n: nat, name: string, i: nat)
    requires n <= |ms|
  {
    forall j :: i < j < n ==> ms[j].name != name
  }

  /** The name is named by its first equality matcher, and nothing later
      touches it. */
  ghost predicate Names(ms: seq<Matcher>, n: nat, name: string, value: string)
    requires n <= |ms|
  {
    name != METRIC_NAME && exists i :: 0 <= i < n && FirstEqual(ms, n, name, i) && LastTouch(ms, n, name, i)
                                       && ms[i].value == value
  }

  ghost predicate Equalled(ms: seq<Matcher>, n: nat, name: string)
    requires n <= |ms|
  {
    name != METRIC_NAME && exists i :: 0 <= i < n && ms[i].op.Equal? && ms[i].name == name
  }

  /** Matchers in order: a label comes out just if its name's first equality
      matcher is the last matcher on that name, with that matcher's value. */
  method NamedLabels(ms: seq<Matcher>) returns (out: map<string, string>)
    ensures forall name, value :: name in out && out[name] == value <==> Names(ms, |ms|, name, value)
  {
    hide Named, Equalled;
    out := map[];
    var has: set<string> := {};
    NoNames(ms);
    for n := 0 to |ms|
      invariant forall name :: name in has <==> Equalled(ms, n, name)
      invariant Named(ms, n, out)
    {
      var m := ms[n];
      NextEqualled(ms, n, n + 1);
      NextNames(ms, n, n + 1, out);
      if m.name == METRIC_NAME { continue; }
      if m.op.Equal? && m.name !in has {
        has := has + {m.name};
        out := out[m.name := m.value];
      } else {
        out := out - {m.name};
      }
    }
    NamedIs(ms, |ms|, out);
  }

  ghost predicate Named(ms: seq<Matcher>, n: nat, out: map<string, string>)
    requires n <= |ms|
  {
    forall name, value :: Has(out, name, value) <==> Names(ms, n, name, value)
  }

  ghost predicate Has(out: map<string, string>, name: string, value: string) {
    name in out && out[name] == value
  }

  lemma NamedIs(ms: seq<Matcher>, n: nat, out: map<string, string>)
    requires n <= |ms| && Named(ms, n, out)
    ensures forall name, value :: name in out && out[name] == value <==> Names(ms, n, name, value)
  {
    hide Names;
    forall name, value ensures name in out && out[name] == value <==> Names(ms, n, name, value) {
      assert Has(out, name, value) <==> Names(ms, n, name, value);
    }
  }

  lemma NoNames(ms: seq<Matcher>)
    ensures forall name :: !Equalled(ms, 0, name)
    ensures Named(ms, 0, map[])
  {
  }

  lemma NextEqualled(ms: seq<Matcher>, n: nat, next: nat)
    requires n < |ms| && next == n + 1
    ensures forall name ::
              Equalled(ms, next, name) <==>
                    Equalled(ms, n, name) || (name == ms[n].name != METRIC_NAME && ms[n].op.Equal?)
  {
    forall name
      ensures Equalled(ms, next, name) <==>
                Equalled(ms, n, name) || (name == ms[n].name != METRIC_NAME && ms[n].op.Equal?)
    {
      if Equalled(ms, n, name) {
        var i :| 0 <= i < n && ms[i].op.Equal? && ms[i].name == name;
        assert 0 <= i < next;
      }
    }
  }

  lemma NextNames(ms: seq<Matcher>, n: nat, next: nat, out: map<string, string>)
    requires n < |ms| && next == n + 1 && Named(ms, n, out)
    ensures var m := ms[n];
            Named(ms, next, if m.name == METRIC_NAME then out
                            else if m.op.Equal? && !Equalled(ms, n, m.name) then out[m.name := m.value]
                            else out - {m.name})
  {
    hide Names, Equalled;
    var m := ms[n];
    var out' :=
      if m.name == METRIC_NAME then out
      else if m.op.Equal? && !Equalled(ms, n, m.name) then out[m.name := m.value]
      else out - {m.name};
    NeverMetric(ms, n);
    forall name, value ensures Has(out', name, value) <==> Names(ms, next, name, value) {
      assert Has(out, name, value) <==> Names(ms, n, name, value);
      if name == m.name { LastNames(ms, n, value); } else { OtherNames(ms, n, name, value); }
    }
  }

  lemma NeverMetric(ms: seq<Matcher>, n: nat)
    requires n <= |ms|
    ensures forall value :: !Names(ms, n, METRIC_NAME, value)
  {
  }

  lemma LastNames(ms: seq<Matcher>, n: nat, value: string)
    requires n < |ms|
    ensures Names(ms, n + 1, ms[n].name, value) <==>
            ms[n].name != METRIC_NAME && ms[n].op.Equal? && !Equalled(ms, n, ms[n].name) && ms[n].value == value
  {
    var name := ms[n].name;
    if Names(ms, n + 1, name, value) {
      var i :| 0 <= i < n + 1 && FirstEqual(ms, n + 1, name, i) && LastTouch(ms, n + 1, name, i)
          && ms[i].value == value;
      assert i == n;
    }
    if name != METRIC_NAME && ms[n].op.Equal? && !Equalled(ms, n, name) && ms[n].value == value {
      assert FirstEqual(ms, n + 1, name, n) && LastTouch(ms, n + 1, name, n);
    }
  }

  lemma OtherNames(ms: seq<Matcher>, n: nat, name: string, value: string)
    requires n < |ms| && name != ms[n].name
    ensures Names(ms, n + 1, name, value) <==> Names(ms, n, name, value)
  {
    if Names(ms, n, name, value) {
      var i :| 0 <= i < n && FirstEqual(ms, n, name, i) && LastTouch(ms, n, name, i) && ms[i].value == value;
      assert FirstEqual(ms, n + 1, name, i) && LastTouch(ms, n + 1, name, i);
    }
    if Names(ms, n + 1, name, value) {
      var i :| 0 <= i < n + 1 && FirstEqual(ms, n + 1, name, i) && LastTouch(ms, n + 1, name, i)
          && ms[i].value == value;
      assert FirstEqual(ms, n, name, i) && LastTouch(ms, n, name, i);
    }
  }

  // ── The argument of `absent`, and the labels in order ──

  datatype Expr = Paren(inner: Expr) | VectorSelector(matchers: seq<Matcher>) | MatrixSelector(vector: Expr) | Other

  /** The selector inside any parentheses. */
  function Bare(arg: Expr): Expr {
    match arg case Paren(inner) => Bare(inner) case _ => arg
  }

  /** The matchers of a vector selector, or of a matrix selector's own. */
  function MatchersIn(arg: Expr): seq<Matcher> {
    match Bare(arg)
    case VectorSelector(ms) => ms
    case MatrixSelector(VectorSelector(ms)) => ms
    case _ => []
  }

  function NamesIn(pairs: seq<(string, string)>): seq<string> {
    seq(|pairs|, i requires 0 <= i < |pairs| => pairs[i].0)
  }

  /** The labels of the output, by name in ascending order. */
  method LabelsFor(arg: Expr) returns (out: seq<(string, string)>)
    ensures Climbs(StringCmp(), NamesIn(out))
    ensures forall name, value :: (name, value) in out <==> Names(MatchersIn(arg), |MatchersIn(arg)|, name, value)
  {
    hide Names, Climbs, StringCmp;
    var inner := arg;
    while inner.Paren?
      invariant Bare(inner) == Bare(arg)
      decreases inner
    {
      inner := inner.inner;
    }
    var ms := match inner
      case VectorSelector(own) => own
      case MatrixSelector(VectorSelector(own)) => own
      case _ => [];
    var named := NamedLabels(ms);
    out := Sorted(named);
  }

  /** A map's entries as a `BTreeMap` lists them. */
  method Sorted(m: map<string, string>) returns (out: seq<(string, string)>)
    ensures Climbs(StringCmp(), NamesIn(out))
    ensures forall name, value :: (name, value) in out <==> name in m && m[name] == value
  {
    hide Climbs, StringCmp;
    var names: seq<string>, left := [], m.Keys;
    NothingClimbs();
    while left != {}
      invariant Climbs(StringCmp(), names) && left <= m.Keys
      invariant forall name :: name in names <==> name in m && name !in left
      decreases |left|
    {
      var name :| name in left;
      names := PlaceName(names, name);
      left := left - {name};
    }
    out := seq(|names|, i requires 0 <= i < |names| => (names[i], if names[i] in m then m[names[i]] else ""));
    assert NamesIn(out) == names;
    forall name, value ensures (name, value) in out <==> name in m && m[name] == value {
      if name in m && m[name] == value {
        var i :| 0 <= i < |names| && names[i] == name;
        assert out[i] == (name, value);
      }
    }
  }

  lemma NothingClimbs()
    ensures Climbs(StringCmp(), [])
  {
  }

  method PlaceName(names: seq<string>, name: string) returns (r: seq<string>)
    requires Climbs(StringCmp(), names) && name !in names
    ensures Climbs(StringCmp(), r) && forall x :: x in r <==> x in names || x == name
  {
    hide *;
    StringsOrder();
    var i := 0;
    while i < |names| && StringCmp()(names[i], name) < 0
      invariant i <= |names| && forall j :: 0 <= j < i ==> StringCmp()(names[j], name) < 0
    {
      i := i + 1;
    }
    Inserts(StringCmp(), names, i, name);
    r := names[..i] + [name] + names[i..];
    assert names == names[..i] + names[i..];
  }
}
