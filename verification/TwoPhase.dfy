/** Two-phase aggregation: rows split among any accumulators, their partial
    states merged in any order and to any depth, against one accumulator. */
module TwoPhase {
  import opened Series
  import opened Grids
  import opened Spans
  import opened Aggregate
  import opened Convert
  import opened Permutations

  /** `stands(s, xs)`: state `s` is what the values `xs` amount to. */
  ghost predicate Lawful<S(!new), V(!new)>(ops: Ops<S, V>, stands: (S, seq<V>) -> bool) {
    && (forall v :: stands(ops.add(ops.blank, v), [v]))
    && (forall s, xs, v :: stands(s, xs) && xs != [] ==> stands(ops.add(s, v), xs + [v]))
    && (forall s, xs, t, ys :: stands(s, xs) && xs != [] && stands(t, ys) && ys != [] ==>
          stands(ops.merge(s, t), xs + ys))
  }

  /** Finished values depend on what a state stands for, and not on its order. */
  ghost predicate Settles<S(!new), V(!new), R>(stands: (S, seq<V>) -> bool, finish: S -> R) {
    forall s, xs, t, ys ::
      stands(s, xs) && stands(t, ys) && xs != [] && multiset(xs) == multiset(ys) ==> finish(s) == finish(t)
  }

  /** The values logged at grid index `i`. */
  function At<V>(log: seq<(nat, V)>, i: nat): seq<V> {
    if log == [] then []
    else
      var last := log[|log| - 1];
      At(log[..|log| - 1], i) + (if last.0 == i then [last.1] else [])
  }

  lemma AtAppend<V>(log: seq<(nat, V)>, p: (nat, V), i: nat)
    ensures At(log + [p], i) == if p.0 == i then At(log, i) + [p.1] else At(log, i)
  {
    assert (log + [p])[..|log|] == log;
    assert At(log, i) + [] == At(log, i);
  }

  lemma {:induction false} AtConcat<V>(a: seq<(nat, V)>, b: seq<(nat, V)>, i: nat)
    ensures At(a + b, i) == At(a, i) + At(b, i)
    decreases |b|
  {
    if b == [] {
      assert a + b == a;
    } else {
      var n := |b| - 1;
      AtConcat(a, b[..n], i);
      AtAppend(a + b[..n], b[n], i);
      assert a + b == (a + b[..n]) + [b[n]];
    }
  }

  /** What is logged at one index is settled by what is logged at all. */
  lemma {:induction false} AtPermuted<V>(a: seq<(nat, V)>, b: seq<(nat, V)>, i: nat)
    requires multiset(a) == multiset(b)
    ensures multiset(At(a, i)) == multiset(At(b, i))
    decreases |a|
  {
    SameLength(a, b);
    if a != [] {
      var j := TakeLast(a, b);
      var rest, before, after, p := a[..|a| - 1], b[..j], b[j + 1..], b[j];
      assert a == rest + [p];
      hide At;
      AtPermuted(rest, before + after, i);
      AtConcat(before, after, i);
      AtConcat(before + [p], after, i);
      AtAppend(before, p, i);
      AtAppend(rest, p, i);
      Middle(At(before, i), p.1, At(after, i));
      Middle(At(rest, i), p.1, []);
      assert At(rest, i) + [p.1] + [] == At(rest, i) + [p.1] && At(rest, i) + [] == At(rest, i);
    }
  }

  /** A position holds a state just if something reached it, and that state
      stands for all of it. */
  ghost predicate Amounts<S, V>(stands: (S, seq<V>) -> bool, held: Option<S>, xs: seq<V>) {
    match held
    case None => xs == []
    case Some(s) => xs != [] && stands(s, xs)
  }

  lemma AddAmounts<S(!new), V(!new)>(ops: Ops<S, V>, stands: (S, seq<V>) -> bool, held: Option<S>, xs: seq<V>, v: V)
    requires Lawful(ops, stands) && Amounts(stands, held, xs)
    ensures Amounts(stands, Some(AddStep(ops)(held, v)), xs + [v])
  {
    assert xs == [] ==> xs + [v] == [v];
  }

  lemma MergeAmounts<S(!new), V(!new)>(ops: Ops<S, V>, stands: (S, seq<V>) -> bool, held: Option<S>, xs: seq<V>,
                                       more: Option<S>, ys: seq<V>)
    requires Lawful(ops, stands) && Amounts(stands, held, xs) && Amounts(stands, more, ys)
    ensures Amounts(stands, if more.Some? then Some(MergeStep(ops)(held, more.value)) else held, xs + ys)
  {
    assert xs == [] ==> xs + ys == ys;
    assert ys == [] ==> xs + ys == xs;
  }

  ghost predicate CarriesLog<S, V>(g: Grid, stands: (S, seq<V>) -> bool, m: map<nat, S>, log: seq<(nat, V)>) {
    && (forall i: nat :: Amounts(stands, Held(m, i), At(log, i)))
    && (forall i: nat :: i in m ==> i < g.len)
  }

  /** The same, whatever the order it was logged in. */
  ghost predicate Carries<S, V(!new)>(g: Grid, stands: (S, seq<V>) -> bool, m: map<nat, S>, bag: multiset<(nat, V)>) {
    exists log :: multiset(log) == bag && CarriesLog(g, stands, m, log)
  }

  lemma CarriesNothing<S, V(!new)>(g: Grid, stands: (S, seq<V>) -> bool)
    ensures Carries(g, stands, map[], multiset{})
  {
    var log: seq<(nat, V)> := [];
    assert multiset(log) == multiset{} && CarriesLog(g, stands, map[], log);
  }

  /** One more value at one index. */
  lemma LogValue<S(!new), V(!new)>(g: Grid, ops: Ops<S, V>, stands: (S, seq<V>) -> bool, m: map<nat, S>,
                                   log: seq<(nat, V)>, i: nat, v: V)
    requires Lawful(ops, stands) && CarriesLog(g, stands, m, log) && i < g.len
    ensures CarriesLog(g, stands, m[i := AddStep(ops)(Held(m, i), v)], log + [(i, v)])
  {
    hide Lawful, AddStep, Amounts, At;
    var m' := m[i := AddStep(ops)(Held(m, i), v)];
    AddAmounts(ops, stands, Held(m, i), At(log, i), v);
    forall j: nat ensures Amounts(stands, Held(m', j), At(log + [(i, v)], j)) {
      AtAppend(log, (i, v), j);
      assert j != i ==> Held(m', j) == Held(m, j);
    }
  }

  function Pairs<V>(ixs: seq<nat>, values: seq<V>): seq<(nat, V)>
    requires |ixs| == |values|
  {
    if ixs == [] then [] else Pairs(ixs[..|ixs| - 1], values[..|ixs| - 1]) + [(ixs[|ixs| - 1], values[|ixs| - 1])]
  }

  /** A series of values. */
  lemma {:induction false} LogRow<S(!new), V(!new)>(g: Grid, ops: Ops<S, V>, stands: (S, seq<V>) -> bool,
                                                    m: map<nat, S>, log: seq<(nat, V)>, ixs: seq<nat>, values: seq<V>)
    requires Lawful(ops, stands) && CarriesLog(g, stands, m, log) && |ixs| == |values|
    requires forall k :: 0 <= k < |ixs| ==> ixs[k] < g.len
    ensures CarriesLog(g, stands, FoldRow(AddStep(ops), m, ixs, values), log + Pairs(ixs, values))
    decreases |ixs|
  {
    hide Lawful, CarriesLog, AddStep, Held;
    if ixs == [] {
      assert log + Pairs(ixs, values) == log;
    } else {
      var n := |ixs| - 1;
      LogRow(g, ops, stands, m, log, ixs[..n], values[..n]);
      var before := log + Pairs(ixs[..n], values[..n]);
      LogValue(g, ops, stands, FoldRow(AddStep(ops), m, ixs[..n], values[..n]), before, ixs[n], values[n]);
      assert before + [(ixs[n], values[n])] == log + Pairs(ixs, values);
    }
  }

  /** Rising positions fold independently of each other. */
  lemma {:induction false} FoldRising<S, X>(step: (Option<S>, X) -> S, m: map<nat, S>, ixs: seq<nat>, xs: seq<X>,
                                            len: nat)
    requires |ixs| == |xs| && Rising(ixs, len)
    ensures forall i: nat :: i !in ixs ==> Held(FoldRow(step, m, ixs, xs), i) == Held(m, i)
    ensures forall k :: 0 <= k < |ixs| ==> Held(FoldRow(step, m, ixs, xs), ixs[k]) == Some(step(Held(m, ixs[k]), xs[k]))
  {
    if ixs != [] {
      var n := |ixs| - 1;
      FoldRising(step, m, ixs[..n], xs[..n], len);
      assert ixs == ixs[..n] + [ixs[n]];
      assert ixs[n] !in ixs[..n];
    }
  }

  /** The indices a group holds, in order. */
  function Keys<S>(m: map<nat, S>, n: nat): seq<nat> {
    if n == 0 then [] else Keys(m, n - 1) + (if n - 1 in m then [n - 1] else [])
  }

  lemma {:induction false} KeysRise<S>(m: map<nat, S>, n: nat)
    ensures Rising(Keys(m, n), n)
    ensures forall i: nat :: i in Keys(m, n) <==> i < n && i in m
  {
    if n > 0 { KeysRise(m, n - 1); }
  }

  function Times<S>(row: seq<Entry<S>>): seq<int> {
    seq(|row|, k requires 0 <= k < |row| => row[k].t)
  }

  function States<S>(row: seq<Entry<S>>): seq<S> {
    seq(|row|, k requires 0 <= k < |row| => row[k].value)
  }

  /** A partial row as the next accumulator reads it. */
  function AsInput<S, V>(row: seq<Entry<S>>): Input<S, V> {
    Input(Times(row), Partials(States(row)))
  }

  lemma {:induction false} RowKeys<S>(g: Grid, m: map<nat, S>, n: nat)
    ensures forall i :: i in Keys(m, n) ==> i in m
    ensures Concat(RowPart(g, m, AsIs()), 0, n) ==
            seq(|Keys(m, n)|, k requires 0 <= k < |Keys(m, n)| => Entry(Timestamp(g, Keys(m, n)[k]), m[Keys(m, n)[k]]))
  {
    hide Timestamp;
    if n > 0 { RowKeys(g, m, n - 1); }
  }

  /** What a group emits as its state reads back, position by position. */
  lemma EmittedReads<S>(g: Grid, m: map<nat, S>)
    requires g.step > 0
    ensures var row, keys := RowOf(g, m, AsIs()), Keys(m, g.len);
            && OnGrid(g, Times(row)) && Indices(g, Times(row)) == keys && |States(row)| == |keys|
            && Rising(keys, g.len) && (forall i: nat :: i in keys <==> i < g.len && i in m)
            && forall k :: 0 <= k < |keys| ==> keys[k] in m && States(row)[k] == m[keys[k]]
  {
    hide Index, Indices, Timestamp, RowPart;
    var row, keys := RowOf(g, m, AsIs()), Keys(m, g.len);
    KeysRise(m, g.len);
    RowKeys(g, m, g.len);
    hide Keys;
    IndicesAt(g, Times(row));
    forall k | 0 <= k < |keys| ensures Index(g, Times(row)[k]) == Some(keys[k]) {
      IndexIs(g, Times(row)[k], keys[k]);
    }
    forall k | 0 < k < |keys| ensures Times(row)[k - 1] < Times(row)[k] {
      TimestampsAscend(g, keys[k - 1], keys[k]);
    }
  }

  /** Another accumulator's partial row: fresh positions copy, reached ones merge. */
  lemma LogPartial<S(!new), V(!new)>(g: Grid, ops: Ops<S, V>, stands: (S, seq<V>) -> bool, m: map<nat, S>,
                                     log: seq<(nat, V)>, from: map<nat, S>, more: seq<(nat, V)>)
    requires g.step > 0 && Lawful(ops, stands) && CarriesLog(g, stands, m, log) && CarriesLog(g, stands, from, more)
    ensures CarriesLog(g, stands, FoldInput(g, ops, m, AsInput(RowOf(g, from, AsIs()))), log + more)
  {
    hide *;
    var m' := FoldInput(g, ops, m, AsInput(RowOf(g, from, AsIs())));
    KeysWithin(g, stands, from, more);
    forall i: nat ensures Amounts(stands, Held(m', i), At(log + more, i)) && (i in m' ==> i < g.len) {
      AtConcat(log, more, i);
      CarriedAt(g, stands, m, log, i);
      CarriedAt(g, stands, from, more, i);
      MergeAmounts(ops, stands, Held(m, i), At(log, i), Held(from, i), At(more, i));
      PartialHeld(g, ops, m, from, i);
      HeldIs(m', i);
      HeldIs(from, i);
    }
    CarriesEvery(g, stands, m', log + more);
  }

  lemma KeysWithin<S, V>(g: Grid, stands: (S, seq<V>) -> bool, m: map<nat, S>, log: seq<(nat, V)>)
    requires CarriesLog(g, stands, m, log)
    ensures forall i: nat :: i in m ==> i < g.len
  {
  }

  /** Merging a partial row touches exactly the indices it holds. */
  lemma PartialHeld<S, V>(g: Grid, ops: Ops<S, V>, m: map<nat, S>, from: map<nat, S>, i: nat)
    requires g.step > 0 && forall j: nat :: j in from ==> j < g.len
    ensures Held(FoldInput(g, ops, m, AsInput(RowOf(g, from, AsIs()))), i) ==
            if i in from then Some(MergeStep(ops)(Held(m, i), from[i])) else Held(m, i)
  {
    hide RowOf, States, Times, Keys, Indices, OnGrid, Rising, FoldRow, MergeStep, Held;
    var keys, states := Keys(from, g.len), States(RowOf(g, from, AsIs()));
    EmittedReads(g, from);
    FoldRising(MergeStep(ops), m, keys, states, g.len);
  }

  lemma HeldIs<S>(m: map<nat, S>, i: nat)
    ensures Held(m, i) == if i in m then Some(m[i]) else None
  {
  }

  lemma CarriedAt<S, V>(g: Grid, stands: (S, seq<V>) -> bool, m: map<nat, S>, log: seq<(nat, V)>, i: nat)
    requires CarriesLog(g, stands, m, log)
    ensures Amounts(stands, Held(m, i), At(log, i)) && (Held(m, i).Some? ==> i < g.len)
  {
  }

  lemma CarriesEvery<S, V>(g: Grid, stands: (S, seq<V>) -> bool, m: map<nat, S>, log: seq<(nat, V)>)
    requires forall i: nat :: Amounts(stands, Held(m, i), At(log, i)) && (i in m ==> i < g.len)
    ensures CarriesLog(g, stands, m, log)
  {
  }

  /** A row brings a bag of logged values: as a series of values, as another
      accumulator's partial row, or not at all. */
  ghost predicate Brings<S(!new), V(!new)>(g: Grid, stands: (S, seq<V>) -> bool, row: Option<Input<S, V>>,
                                           bag: multiset<(nat, V)>)
    requires g.step > 0
  {
    match row
    case None => bag == multiset{}
    case Some(Input(ts, Values(values))) =>
      OnGrid(g, ts) && |values| == |ts| == |Indices(g, ts)| && bag == multiset(Pairs(Indices(g, ts), values))
    case Some(input) => exists m :: Carries(g, stands, m, bag) && input == AsInput(RowOf(g, m, AsIs()))
  }

  /** What one accumulator emits as state brings all it carries to the next. */
  lemma EmittedBrings<S(!new), V(!new)>(g: Grid, stands: (S, seq<V>) -> bool, m: map<nat, S>, bag: multiset<(nat, V)>)
    requires g.step > 0 && Carries(g, stands, m, bag)
    ensures Brings(g, stands, Some(AsInput(RowOf(g, m, AsIs()))), bag)
    ensures OnGrid(g, Times(RowOf(g, m, AsIs())))
  {
    EmittedReads(g, m);
    hide Carries, RowOf, Indices, OnGrid, Keys;
  }

  lemma FoldCarries<S(!new), V(!new)>(g: Grid, ops: Ops<S, V>, stands: (S, seq<V>) -> bool, m: map<nat, S>,
                                      bag: multiset<(nat, V)>, input: Input<S, V>, more: multiset<(nat, V)>)
    requires g.step > 0 && Lawful(ops, stands) && Carries(g, stands, m, bag) && Brings(g, stands, Some(input), more)
    ensures Carries(g, stands, FoldInput(g, ops, m, input), bag + more)
  {
    hide Lawful, CarriesLog, OnGrid, RowOf;
    var log :| multiset(log) == bag && CarriesLog(g, stands, m, log);
    match input
    case Input(ts, Values(values)) =>
      IndicesRise(g, ts);
      LogRow(g, ops, stands, m, log, Indices(g, ts), values);
      assert multiset(log + Pairs(Indices(g, ts), values)) == bag + more;
    case _ =>
      var from :| Carries(g, stands, from, more) && input == AsInput(RowOf(g, from, AsIs()));
      var log' :| multiset(log') == more && CarriesLog(g, stands, from, log');
      LogPartial(g, ops, stands, m, log, from, log');
      assert multiset(log + log') == bag + more;
  }

  /** What the first `n` rows bring to group `h`. */
  ghost function BagOf<V>(bags: seq<multiset<(nat, V)>>, groupOf: seq<nat>, h: nat, n: nat): multiset<(nat, V)>
    requires n <= |bags| == |groupOf|
  {
    if n == 0 then multiset{}
    else BagOf(bags, groupOf, h, n - 1) + (if groupOf[n - 1] == h then bags[n - 1] else multiset{})
  }

  ghost predicate AllBring<S(!new), V(!new)>(g: Grid, stands: (S, seq<V>) -> bool, rows: seq<Option<Input<S, V>>>,
                                             bags: seq<multiset<(nat, V)>>)
    requires g.step > 0
  {
    |bags| == |rows| && forall i :: 0 <= i < |rows| ==> Brings(g, stands, rows[i], bags[i])
  }

  /** Whatever a group carried, a batch adds what its rows bring to it: series
      and partial rows alike. */
  lemma {:induction false} BatchCarries<S(!new), V(!new)>(g: Grid, ops: Ops<S, V>, stands: (S, seq<V>) -> bool,
                                                          model: seq<map<nat, S>>, rows: seq<Option<Input<S, V>>>,
                                                          groupOf: seq<nat>, bags: seq<multiset<(nat, V)>>, n: nat,
                                                          h: nat, bag: multiset<(nat, V)>)
    requires g.step > 0 && Lawful(ops, stands) && AllBring(g, stands, rows, bags)
    requires n <= |rows| == |groupOf| && h < |model| && Carries(g, stands, model[h], bag)
    ensures Carries(g, stands, FoldBatch(g, ops, model, rows, groupOf, n)[h], bag + BagOf(bags, groupOf, h, n))
    decreases n
  {
    hide Lawful, Carries, Brings, FoldInput;
    if n == 0 {
      assert bag + multiset{} == bag;
    } else {
      BatchCarries(g, ops, stands, model, rows, groupOf, bags, n - 1, h, bag);
      var m, so := FoldBatch(g, ops, model, rows, groupOf, n - 1)[h], BagOf(bags, groupOf, h, n - 1);
      assert Brings(g, stands, rows[n - 1], bags[n - 1]);
      assert so + multiset{} == so && bag + (so + bags[n - 1]) == bag + so + bags[n - 1];
      if groupOf[n - 1] == h && rows[n - 1].Some? {
        FoldCarries(g, ops, stands, m, bag + so, rows[n - 1].value, bags[n - 1]);
      } else if groupOf[n - 1] == h {
        NoneBrings(g, stands, bags[n - 1]);
      }
    }
  }

  lemma NoneBrings<S(!new), V(!new)>(g: Grid, stands: (S, seq<V>) -> bool, bag: multiset<(nat, V)>)
    requires g.step > 0 && Brings<S, V>(g, stands, None, bag)
    ensures bag == multiset{}
  {
  }

  /** Two accumulators that carry the same finish the same. */
  lemma SameFinish<S(!new), V(!new), R>(g: Grid, stands: (S, seq<V>) -> bool, finish: S -> R, m: map<nat, S>,
                                        m': map<nat, S>, bag: multiset<(nat, V)>)
    requires Settles(stands, finish) && Carries(g, stands, m, bag) && Carries(g, stands, m', bag)
    ensures m.Keys == m'.Keys && RowOf(g, m, finish) == RowOf(g, m', finish)
  {
    hide CarriesLog, RowPart, Amounts, At;
    var log :| multiset(log) == bag && CarriesLog(g, stands, m, log);
    var log' :| multiset(log') == bag && CarriesLog(g, stands, m', log');
    forall i: nat
      ensures i in m <==> i in m'
      ensures RowPart(g, m, finish)(i) == RowPart(g, m', finish)(i)
    {
      AtPermuted(log, log', i);
      CarriedAt(g, stands, m, log, i);
      CarriedAt(g, stands, m', log', i);
      SamePart(g, stands, finish, m, At(log, i), m', At(log', i), i);
    }
    ConcatSame(RowPart(g, m, finish), RowPart(g, m', finish), 0, g.len);
  }

  lemma SamePart<S(!new), V(!new), R>(g: Grid, stands: (S, seq<V>) -> bool, finish: S -> R, m: map<nat, S>, xs: seq<V>,
                                      m': map<nat, S>, ys: seq<V>, i: nat)
    requires Settles(stands, finish) && multiset(xs) == multiset(ys)
    requires Amounts(stands, Held(m, i), xs) && Amounts(stands, Held(m', i), ys)
    ensures i in m <==> i in m'
    ensures RowPart(g, m, finish)(i) == RowPart(g, m', finish)(i)
  {
    hide Timestamp;
    SameLength(xs, ys);
  }

  // ── Shares of the rows, each with an accumulator of its own ──

  /** One partition's rows with the groups its accumulator numbers them by, and
      where each of its groups belongs in the final accumulator. */
  datatype Share<S, V> = Share(rows: seq<Option<Input<S, V>>>, groupOf: seq<nat>, home: seq<nat>)

  ghost predicate Fair<S, V>(share: Share<S, V>, groups: nat) {
    && Columns(share.rows)
    && |share.groupOf| == |share.rows|
    && (forall i :: 0 <= i < |share.groupOf| ==> share.groupOf[i] < |share.home|)
    && (forall k :: 0 <= k < |share.home| ==> share.home[k] < groups)
  }

  /** Where each row belongs. */
  function Homes<S, V>(share: Share<S, V>): seq<nat> {
    seq(|share.groupOf|, i requires 0 <= i < |share.groupOf| =>
      if share.groupOf[i] < |share.home| then share.home[share.groupOf[i]] else 0)
  }

  ghost function RowBags<S, V>(g: Grid, rows: seq<Option<Input<S, V>>>): seq<multiset<(nat, V)>>
    requires g.step > 0
  {
    seq(|rows|, i requires 0 <= i < |rows| => RowBag(g, rows[i]))
  }

  ghost function RowBag<S, V>(g: Grid, row: Option<Input<S, V>>): multiset<(nat, V)>
    requires g.step > 0
  {
    match row
    case Some(Input(ts, Values(values))) =>
      if |Indices(g, ts)| == |values| then multiset(Pairs(Indices(g, ts), values)) else multiset{}
    case _ => multiset{}
  }

  lemma RowsBring<S(!new), V(!new)>(g: Grid, stands: (S, seq<V>) -> bool, rows: seq<Option<Input<S, V>>>)
    requires g.step > 0 && Columns(rows) && AllAccepted(g, rows)
    ensures AllBring(g, stands, rows, RowBags(g, rows))
  {
    hide Brings, RowBag, OnGrid;
    forall i | 0 <= i < |rows| ensures Brings(g, stands, rows[i], RowBag(g, rows[i])) {
      assert Accepted(g, rows[i]);
      RowBrings(g, stands, rows[i]);
    }
  }

  lemma RowBrings<S(!new), V(!new)>(g: Grid, stands: (S, seq<V>) -> bool, row: Option<Input<S, V>>)
    requires g.step > 0 && Accepted(g, row)
    requires row.Some? ==> row.value.part.Values? && |row.value.part.values| == |row.value.ts|
    ensures Brings(g, stands, row, RowBag(g, row))
  {
    hide OnGrid, Indices;
    if row.Some? { IndicesAt(g, row.value.ts); }
  }

  /** What each of a share's groups brings. */
  ghost function GroupBags<V>(bags: seq<multiset<(nat, V)>>, groupOf: seq<nat>, groups: nat): seq<multiset<(nat, V)>>
    requires |bags| == |groupOf|
  {
    seq(groups, k requires 0 <= k < groups => BagOf(bags, groupOf, k, |bags|))
  }

  /** Grouped twice, by the share's groups and by their homes, is grouped once. */
  lemma {:induction false} HomesBag<V>(bags: seq<multiset<(nat, V)>>, groupOf: seq<nat>, home: seq<nat>,
                                       homes: seq<nat>, h: nat, n: nat)
    requires n <= |bags| == |groupOf| == |homes|
    requires forall i :: 0 <= i < |groupOf| ==> groupOf[i] < |home| && homes[i] == home[groupOf[i]]
    ensures BagOf(seq(|home|, k requires 0 <= k < |home| => BagOf(bags, groupOf, k, n)), home, h, |home|) ==
            BagOf(bags, homes, h, n)
    decreases n
  {
    var now := seq(|home|, k requires 0 <= k < |home| => BagOf(bags, groupOf, k, n));
    if n == 0 {
      NoBag(now, home, h, |home|);
    } else {
      var was := seq(|home|, k requires 0 <= k < |home| => BagOf(bags, groupOf, k, n - 1));
      HomesBag(bags, groupOf, home, homes, h, n - 1);
      var k, more := groupOf[n - 1], bags[n - 1];
      forall j | 0 <= j < |home| ensures now[j] == if j == k then was[j] + more else was[j] {
        assert was[j] + multiset{} == was[j];
      }
      OneGrows(was, now, home, h, |home|, k, more);
      assert BagOf(bags, homes, h, n - 1) + multiset{} == BagOf(bags, homes, h, n - 1);
    }
  }

  lemma {:induction false} NoBag<V>(bags: seq<multiset<(nat, V)>>, home: seq<nat>, h: nat, n: nat)
    requires n <= |bags| == |home| && forall j :: 0 <= j < |bags| ==> bags[j] == multiset{}
    ensures BagOf(bags, home, h, n) == multiset{}
  {
    if n > 0 { NoBag(bags, home, h, n - 1); }
  }

  lemma {:induction false} OneGrows<V>(was: seq<multiset<(nat, V)>>, now: seq<multiset<(nat, V)>>, home: seq<nat>,
                                       h: nat, n: nat, k: nat, more: multiset<(nat, V)>)
    requires n <= |was| == |now| == |home| && k < |home|
    requires forall j :: 0 <= j < |home| ==> now[j] == if j == k then was[j] + more else was[j]
    ensures BagOf(now, home, h, n) == if k < n && home[k] == h then BagOf(was, home, h, n) + more
            else BagOf(was, home, h, n)
  {
    if n > 0 {
      OneGrows(was, now, home, h, n - 1, k, more);
      var before, last := BagOf(was, home, h, n - 1), was[n - 1];
      hide BagOf;
      BagNext(was, home, h, n - 1);
      BagNext(now, home, h, n - 1);
      Regroup(before, last, more);
    }
  }

  lemma BagNext<V>(bags: seq<multiset<(nat, V)>>, home: seq<nat>, h: nat, n: nat)
    requires n < |bags| == |home|
    ensures BagOf(bags, home, h, n + 1) ==
            if home[n] == h then BagOf(bags, home, h, n) + bags[n] else BagOf(bags, home, h, n)
  {
    assert BagOf(bags, home, h, n) + multiset{} == BagOf(bags, home, h, n);
  }

  lemma Regroup<T>(a: multiset<T>, b: multiset<T>, c: multiset<T>)
    ensures a + multiset{} == a && a + c + b == a + b + c == a + (b + c)
  {
  }

  /** What the first `n` shares bring to final group `h`. */
  ghost function Gathered<S, V>(g: Grid, shares: seq<Share<S, V>>, h: nat, n: nat): multiset<(nat, V)>
    requires g.step > 0 && n <= |shares|
  {
    if n == 0 then multiset{} else Gathered(g, shares, h, n - 1) + ShareBag(g, shares[n - 1], h)
  }

  ghost function ShareBag<S, V>(g: Grid, share: Share<S, V>, h: nat): multiset<(nat, V)>
    requires g.step > 0
  {
    if |share.rows| == |share.groupOf| then BagOf(RowBags(g, share.rows), Homes(share), h, |share.rows|) else multiset{}
  }

  lemma SharesSizes<S, V>(g: Grid, share: Share<S, V>)
    requires g.step > 0
    ensures |Homes(share)| == |share.groupOf| && |RowBags(g, share.rows)| == |share.rows|
  {
  }

  // ── The same rows, in whatever order and however they are shared out ──

  /** Rows, each with the final group it belongs to. */
  function Placed<S, V>(rows: seq<Option<Input<S, V>>>, homes: seq<nat>): seq<(Option<Input<S, V>>, nat)>
    requires |homes| == |rows|
  {
    seq(|rows|, i requires 0 <= i < |rows| => (rows[i], homes[i]))
  }

  function PlacedIn<S, V>(share: Share<S, V>): seq<(Option<Input<S, V>>, nat)> {
    if |share.rows| == |share.groupOf| then Placed(share.rows, Homes(share)) else []
  }

  /** Every row of the first `n` shares. */
  function Dealt<S, V>(shares: seq<Share<S, V>>, n: nat): seq<(Option<Input<S, V>>, nat)>
    requires n <= |shares|
  {
    if n == 0 then [] else Dealt(shares, n - 1) + PlacedIn(shares[n - 1])
  }

  /** What placed rows bring to group `h`. */
  ghost function Collected<S, V>(g: Grid, placed: seq<(Option<Input<S, V>>, nat)>, h: nat): multiset<(nat, V)>
    requires g.step > 0
  {
    if placed == [] then multiset{}
    else
      var n := |placed| - 1;
      Collected(g, placed[..n], h) + (if placed[n].1 == h then RowBag(g, placed[n].0) else multiset{})
  }

  lemma {:induction false} CollectedConcat<S, V>(g: Grid, a: seq<(Option<Input<S, V>>, nat)>,
                                                 b: seq<(Option<Input<S, V>>, nat)>, h: nat)
    requires g.step > 0
    ensures Collected(g, a + b, h) == Collected(g, a, h) + Collected(g, b, h)
    decreases |b|
  {
    hide RowBag;
    if b == [] {
      assert a + b == a && Collected(g, a, h) + multiset{} == Collected(g, a, h);
    } else {
      var n := |b| - 1;
      assert (a + b)[..|a| + n] == a + b[..n] && (a + b)[|a| + n] == b[n];
      CollectedConcat(g, a, b[..n], h);
    }
  }

  lemma {:induction false} CollectedPermuted<S, V>(g: Grid, a: seq<(Option<Input<S, V>>, nat)>,
                                                   b: seq<(Option<Input<S, V>>, nat)>, h: nat)
    requires g.step > 0 && multiset(a) == multiset(b)
    ensures Collected(g, a, h) == Collected(g, b, h)
    decreases |a|
  {
    SameLength(a, b);
    if a != [] {
      var j := TakeLast(a, b);
      var rest, before, after, p := a[..|a| - 1], b[..j], b[j + 1..], b[j];
      assert a == rest + [p];
      CollectedPermuted(g, rest, before + after, h);
      hide Collected;
      CollectedConcat(g, rest, [p], h);
      CollectedConcat(g, before, after, h);
      CollectedConcat(g, before, [p], h);
      CollectedConcat(g, before + [p], after, h);
    }
  }

  /** What the first rows of a batch bring, read off their bags. */
  lemma {:induction false} CollectedBags<S, V>(g: Grid, rows: seq<Option<Input<S, V>>>, homes: seq<nat>, h: nat, n: nat)
    requires g.step > 0 && n <= |rows| == |homes| == |RowBags(g, rows)|
    ensures Collected(g, Placed(rows, homes)[..n], h) == BagOf(RowBags(g, rows), homes, h, n)
  {
    hide RowBag;
    if n > 0 {
      CollectedBags(g, rows, homes, h, n - 1);
      assert Placed(rows, homes)[..n][..n - 1] == Placed(rows, homes)[..n - 1];
    }
  }

  lemma ShareCollected<S, V>(g: Grid, share: Share<S, V>, h: nat)
    requires g.step > 0
    ensures ShareBag(g, share, h) == Collected(g, PlacedIn(share), h)
  {
    SharesSizes(g, share);
    hide RowBags, BagOf, Homes, RowBag;
    if |share.rows| == |share.groupOf| {
      CollectedBags(g, share.rows, Homes(share), h, |share.rows|);
      assert PlacedIn(share)[..|share.rows|] == PlacedIn(share);
    }
  }

  lemma {:induction false} GatheredIsCollected<S, V>(g: Grid, shares: seq<Share<S, V>>, h: nat, n: nat)
    requires g.step > 0 && n <= |shares|
    ensures Gathered(g, shares, h, n) == Collected(g, Dealt(shares, n), h)
  {
    hide Collected, ShareBag, PlacedIn;
    if n == 0 {
      CollectedNone<S, V>(g, h);
    } else {
      GatheredIsCollected(g, shares, h, n - 1);
      CollectedConcat(g, Dealt(shares, n - 1), PlacedIn(shares[n - 1]), h);
      ShareCollected(g, shares[n - 1], h);
    }
  }

  lemma CollectedNone<S, V>(g: Grid, h: nat)
    requires g.step > 0
    ensures Collected<S, V>(g, [], h) == multiset{}
  {
  }

  /** One accumulator fed rows itself carries what they bring. */
  lemma OnePhaseCarries<S(!new), V(!new)>(g: Grid, ops: Ops<S, V>, stands: (S, seq<V>) -> bool,
                                          rows: seq<Option<Input<S, V>>>, homes: seq<nat>, groups: nat, h: nat)
    requires g.step > 0 && Lawful(ops, stands) && Columns(rows) && AllAccepted(g, rows)
    requires |homes| == |rows| && h < groups
    ensures |Grown<S>([], groups)| == groups
    ensures Carries(g, stands, FoldBatch(g, ops, Grown([], groups), rows, homes, |rows|)[h],
                    Collected(g, Placed(rows, homes), h))
  {
    hide Lawful, Carries, FoldBatch, AllAccepted, Columns, RowBags, BagOf, AllBring, Collected;
    RowsBring(g, stands, rows);
    RowBagsSize(g, rows);
    CarriesNothing(g, stands);
    BatchCarries(g, ops, stands, Grown([], groups), rows, homes, RowBags(g, rows), |rows|, h, multiset{});
    assert multiset{} + BagOf(RowBags(g, rows), homes, h, |rows|) == BagOf(RowBags(g, rows), homes, h, |rows|);
    CollectedBags(g, rows, homes, h, |rows|);
    assert Placed(rows, homes)[..|rows|] == Placed(rows, homes);
  }

  lemma RowBagsSize<S, V>(g: Grid, rows: seq<Option<Input<S, V>>>)
    requires g.step > 0
    ensures |RowBags(g, rows)| == |rows|
  {
  }

  /** However its rows are ordered, one accumulator finishes the same. */
  lemma RowsCommute<S(!new), V(!new), R>(g: Grid, ops: Ops<S, V>, stands: (S, seq<V>) -> bool, finish: S -> R,
                                         rows: seq<Option<Input<S, V>>>, homes: seq<nat>,
                                         rows': seq<Option<Input<S, V>>>, homes': seq<nat>, groups: nat, h: nat)
    requires g.step > 0 && Lawful(ops, stands) && Settles(stands, finish) && h < groups
    requires Columns(rows) && AllAccepted(g, rows) && |homes| == |rows| && |homes'| == |rows'|
    requires multiset(Placed(rows, homes)) == multiset(Placed(rows', homes'))
    ensures |Grown<S>([], groups)| == groups
    ensures var m, m' := FoldBatch(g, ops, Grown([], groups), rows, homes, |rows|)[h],
                         FoldBatch(g, ops, Grown([], groups), rows', homes', |rows'|)[h];
            m.Keys == m'.Keys && RowOf(g, m, finish) == RowOf(g, m', finish)
  {
    hide Lawful, Settles, Carries, RowOf, FoldBatch, Collected, Columns, AllAccepted, Grown;
    SameRows(g, rows, homes, Placed(rows', homes'));
    SameRows(g, rows', homes', Placed(rows', homes'));
    OnePhaseCarries(g, ops, stands, rows, homes, groups, h);
    OnePhaseCarries(g, ops, stands, rows', homes', groups, h);
    CollectedPermuted(g, Placed(rows, homes), Placed(rows', homes'), h);
    SameFinish(g, stands, finish, FoldBatch(g, ops, Grown([], groups), rows, homes, |rows|)[h],
               FoldBatch(g, ops, Grown([], groups), rows', homes', |rows'|)[h], Collected(g, Placed(rows, homes), h));
  }

  /** What a row read alone has to be. */
  ghost predicate Column<S, V>(row: Option<Input<S, V>>) {
    row.Some? ==> row.value.part.Values? && |row.value.part.values| == |row.value.ts|
  }

  /** The same rows are columns, and on the grid, alike. */
  lemma SameRows<S, V>(g: Grid, rows: seq<Option<Input<S, V>>>, homes: seq<nat>,
                       placed: seq<(Option<Input<S, V>>, nat)>)
    requires g.step > 0 && |homes| == |rows| && multiset(Placed(rows, homes)) == multiset(placed)
    ensures AllColumns(placed) <==> Columns(rows)
    ensures PlacedAccepted(g, placed) <==> AllAccepted(g, rows)
  {
    hide Accepted, Column;
    var p := Placed(rows, homes);
    forall k | 0 <= k < |placed| ensures exists i :: 0 <= i < |rows| && rows[i] == placed[k].0 {
      assert placed[k] in multiset(p);
      var i :| 0 <= i < |p| && p[i] == placed[k];
      assert rows[i] == placed[k].0;
    }
    forall i | 0 <= i < |rows| ensures exists k :: 0 <= k < |placed| && placed[k].0 == rows[i] {
      assert p[i] in multiset(placed);
      var k :| 0 <= k < |placed| && placed[k] == p[i];
    }
    ColumnsAre(rows);
  }

  lemma ColumnsAre<S, V>(rows: seq<Option<Input<S, V>>>)
    ensures Columns(rows) <==> forall i :: 0 <= i < |rows| ==> Column(rows[i])
  {
    forall i | 0 <= i < |rows| ensures Column(rows[i]) <==>
      (rows[i].Some? ==> rows[i].value.part.Values? && |rows[i].value.part.values| == |rows[i].value.ts|) {}
  }

  ghost predicate AllColumns<S, V>(placed: seq<(Option<Input<S, V>>, nat)>) {
    forall k :: 0 <= k < |placed| ==> Column(placed[k].0)
  }

  ghost predicate PlacedAccepted<S, V>(g: Grid, placed: seq<(Option<Input<S, V>>, nat)>)
    requires g.step > 0
  {
    forall k :: 0 <= k < |placed| ==> Accepted(g, placed[k].0)
  }

  lemma ShareRows<S, V>(g: Grid, share: Share<S, V>, groups: nat)
    requires g.step > 0 && Fair(share, groups)
    ensures AllColumns(PlacedIn(share)) && (PlacedAccepted(g, PlacedIn(share)) <==> AllAccepted(g, share.rows))
  {
    ColumnsAre(share.rows);
    hide Accepted, Column, Columns, Homes;
    SharesSizes(g, share);
    forall i | 0 <= i < |share.rows| ensures PlacedIn(share)[i].0 == share.rows[i] {}
  }

  lemma PlacedConcat<S, V>(g: Grid, a: seq<(Option<Input<S, V>>, nat)>, b: seq<(Option<Input<S, V>>, nat)>)
    requires g.step > 0
    ensures AllColumns(a) && AllColumns(b) ==> AllColumns(a + b)
    ensures PlacedAccepted(g, a + b) <==> PlacedAccepted(g, a) && PlacedAccepted(g, b)
  {
    hide Accepted, Column;
    forall k | 0 <= k < |b| ensures b[k] == (a + b)[|a| + k] {}
    forall k | 0 <= k < |a| ensures a[k] == (a + b)[k] {}
  }

  /** The rows dealt out are the shares' rows. */
  lemma {:induction false} DealtRows<S, V>(g: Grid, shares: seq<Share<S, V>>, groups: nat, n: nat)
    requires g.step > 0 && n <= |shares| && forall p :: 0 <= p < |shares| ==> Fair(shares[p], groups)
    ensures AllColumns(Dealt(shares, n))
    ensures PlacedAccepted(g, Dealt(shares, n)) <==> forall p :: 0 <= p < n ==> AllAccepted(g, shares[p].rows)
  {
    hide Fair, AllAccepted, PlacedIn;
    if n > 0 {
      DealtRows(g, shares, groups, n - 1);
      ShareRows(g, shares[n - 1], groups);
      hide AllColumns, PlacedAccepted;
      PlacedConcat(g, Dealt(shares, n - 1), PlacedIn(shares[n - 1]));
    }
  }
}
