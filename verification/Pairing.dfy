/** The accumulator of one match group, and the cached walk that pairs its
    two sides. */
module Pairings {
  import opened Arithmetic
  import opened Series
  import opened Grids
  import opened Spans
  import opened Ordering
  import opened Matching
  import opened MatchLanes
  import opened Joining
  import opened Buckets
  import opened MatchState

  /** What pairs at one step: a "many" series, or none where a fill stands in. */
  datatype Todo = Todo(many: Option<nat>, manyValue: Value, oneValue: Value)

  function SourceOf(l: Lanes, many: Option<nat>): Source {
    match many
    case Some(m) => if m < |l.many| then Held(KeyOf(l.many[m])) else Filled
    case None => Filled
  }

  /** The labels the code builds for a pair, from the series' index and the
      "one" side's row: both are stable while the grid is walked. */
  function CodeLabels(c: Config, l: Lanes, many: Option<nat>, oneRow: int): Labels {
    var nothing := Fill(|c.schema|, "");
    var oneLabels := if 0 <= oneRow < |l.onePool| then l.onePool[oneRow] else nothing;
    match many
    case Some(m) =>
      if m >= |l.many| then [] else
        var base := l.many[m].labels;
        ResultLabels(c, base, if oneRow == -1 then SignatureOf(c, base) else oneLabels)
    case None => ResultLabels(c, SignatureOf(c, oneLabels), oneLabels)
  }

  function OneRowAt(l: Lanes, step: nat): int
    requires step < |l.oneCounts| && step < |l.oneRows|
  {
    if l.oneCounts[step] > 0 then l.oneRows[step] else -1
  }

  lemma CellIs(l: Lanes, len: nat, step: nat)
    requires Sound(l, len) && step < len
    ensures |ViewOf(l).one| == len && ViewOf(l).one[step] == OneCellAt(l, step)
  {
    hide ManyView;
  }

  lemma ManyIs(l: Lanes, len: nat, step: nat)
    requires Sound(l, len) && step < len
    ensures forall m :: 0 <= m < |l.many| ==> ManyAt(ViewOf(l), step, KeyOf(l.many[m])) == CellAt(l.many[m], step)
    ensures forall k :: ManyAt(ViewOf(l), step, k).Some? ==> exists m :: 0 <= m < |l.many| && KeyOf(l.many[m]) == k
  {
    ManyViewAt(l.many);
    forall m | 0 <= m < |l.many| ensures ManyAt(ViewOf(l), step, KeyOf(l.many[m])) == CellAt(l.many[m], step) {
      assert ManyView(l.many)[KeyOf(l.many[m])] == LineCells(l.many[m]);
    }
    hide ManyView;
  }

  lemma LabelsAre(c: Config, l: Lanes, len: nat, step: nat, todo: Option<nat>)
    requires Sound(l, len) && step < len && l.oneCounts[step] <= 1
    requires todo.Some? ==> todo.value < |l.many|
    requires todo.None? ==> l.oneCounts[step] > 0
    ensures PairLabels(c, OneCellAt(l, step), SourceOf(l, todo)) == CodeLabels(c, l, todo, OneRowAt(l, step))
  {
    hide ResultLabels, SignatureOf;
  }

  /** `todo` is everything that pairs at the step, each once. */
  ghost predicate Lists(c: Config, l: Lanes, step: nat, todo: seq<Todo>)
    requires step < |ViewOf(l).one|
  {
    && (forall i :: 0 <= i < |todo| ==> ListedPair(c, l, step, todo[i]))
    && (forall i, j :: 0 <= i < j < |todo| ==> SourceOf(l, todo[i].many) != SourceOf(l, todo[j].many))
    && (forall s :: Pairs(c, ViewOf(l), step, s) ==> exists i :: 0 <= i < |todo| && SourceOf(l, todo[i].many) == s)
  }

  ghost predicate ListedPair(c: Config, l: Lanes, step: nat, t: Todo)
    requires step < |ViewOf(l).one|
  {
    && (t.many.Some? ==> t.many.value < |l.many|)
    && (t.many.None? ==> step < |l.oneCounts| && l.oneCounts[step] > 0)
    && Pairs(c, ViewOf(l), step, SourceOf(l, t.many))
    && PairOperands(c, ViewOf(l), step, SourceOf(l, t.many)) == Operated(c, t.manyValue, t.oneValue)
  }

  ghost function TodoLabels(c: Config, l: Lanes, step: nat, t: Todo): Labels
    requires step < |ViewOf(l).one|
  {
    PairLabels(c, ViewOf(l).one[step], SourceOf(l, t.many))
  }

  /** What the first `n` of them put under each label set. */
  ghost function GotTo(c: Config, l: Lanes, step: nat, todo: seq<Todo>, n: nat): map<Labels, Operands>
    requires step < |ViewOf(l).one| && n <= |todo|
  {
    if n == 0 then map[]
    else GotTo(c, l, step, todo, n - 1)[TodoLabels(c, l, step, todo[n - 1]) := Operated(c, todo[n - 1].manyValue,
        todo[n - 1].oneValue)]
  }

  /** No two of the first `n` share a label set. */
  ghost predicate Unique(c: Config, l: Lanes, step: nat, todo: seq<Todo>, n: nat)
    requires step < |ViewOf(l).one| && n <= |todo|
  {
    forall i, j :: 0 <= i < j < n ==> TodoLabels(c, l, step, todo[i]) != TodoLabels(c, l, step, todo[j])
  }

  lemma {:induction false} GotIs(c: Config, l: Lanes, step: nat, todo: seq<Todo>, n: nat)
    requires step < |ViewOf(l).one| && n <= |todo| && Unique(c, l, step, todo, n)
    ensures forall x :: x in GotTo(c, l, step, todo, n) ==>
              exists i :: 0 <= i < n && TodoLabels(c, l, step, todo[i]) == x
    ensures forall i :: 0 <= i < n ==>
              TodoLabels(c, l, step, todo[i]) in GotTo(c, l, step, todo, n) &&
              GotTo(c, l, step, todo, n)[TodoLabels(c, l, step, todo[i])] ==
                  Operated(c, todo[i].manyValue, todo[i].oneValue)
  {
    hide TodoLabels, Operated, ViewOf;
    if n > 0 {
      GotIs(c, l, step, todo, n - 1);
      forall x | x in GotTo(c, l, step, todo, n)
        ensures exists i :: 0 <= i < n && TodoLabels(c, l, step, todo[i]) == x
      {
        if x != TodoLabels(c, l, step, todo[n - 1]) {
          var i :| 0 <= i < n - 1 && TodoLabels(c, l, step, todo[i]) == x;
        }
      }
    }
  }

  /** Every pair placed under a label set of its own is the step's answer. */
  lemma StepComplete(c: Config, l: Lanes, step: nat, todo: seq<Todo>)
    requires step < |ViewOf(l).one| && Lists(c, l, step, todo) && Unique(c, l, step, todo, |todo|)
    ensures Complete(PairAt(c, ViewOf(l)), step, GotTo(c, l, step, todo, |todo|))
    ensures !TwoCollide(c, ViewOf(l), step)
  {
    hide *;
    var v, got := ViewOf(l), GotTo(c, l, step, todo, |todo|);
    forall x
      ensures PairAt(c, v)(step, x) == if x in got then Some(got[x]) else None
    {
      AnswerUnder(c, l, step, todo, x);
    }
    CompleteWhen(PairAt(c, v), step, got);
    forall s, s' | Pairs(c, v, step, s) && Pairs(c, v, step, s')
        && PairLabels(c, v.one[step], s) == PairLabels(c, v.one[step], s')
      ensures s == s'
    {
      SameSource(c, l, step, todo, s, s');
    }
    NoCollision(c, v, step);
  }

  lemma NoCollision(c: Config, v: View, step: nat)
    requires step < |v.one|
    requires forall s, s' ::
               Pairs(c, v, step, s) && Pairs(c, v, step, s') ==>
               PairLabels(c, v.one[step], s) == PairLabels(c, v.one[step], s') ==>
                 s == s'
    ensures !TwoCollide(c, v, step)
  {
    hide PairLabels, Pairs;
  }

  lemma CompleteWhen(at: (nat, Labels) -> Option<Operands>, step: nat, got: map<Labels, Operands>)
    requires forall x :: at(step, x) == if x in got then Some(got[x]) else None
    ensures Complete(at, step, got)
  {
  }

  lemma AnswerUnder(c: Config, l: Lanes, step: nat, todo: seq<Todo>, x: Labels)
    requires step < |ViewOf(l).one| && Lists(c, l, step, todo) && Unique(c, l, step, todo, |todo|)
    ensures var got := GotTo(c, l, step, todo, |todo|);
            PairAt(c, ViewOf(l))(step, x) == if x in got then Some(got[x]) else None
  {
    hide *;
    var v, got := ViewOf(l), GotTo(c, l, step, todo, |todo|);
    forall s | Pairs(c, v, step, s) && PairLabels(c, v.one[step], s) == x
      ensures x in got && got[x] == PairOperands(c, v, step, s)
    {
      OneSource(c, l, step, todo, s, x);
    }
    if x in got { FromSource(c, l, step, todo, x); }
    PairAtIs(c, v, step, x);
  }

  lemma PairAtIs(c: Config, v: View, step: nat, x: Labels)
    requires step < |v.one|
    ensures (forall s :: !(Pairs(c, v, step, s) && PairLabels(c, v.one[step], s) == x)) ==>
              PairAt(c, v)(step, x) == None
    ensures forall y ::
              (exists s :: Pairs(c, v, step, s) && PairLabels(c, v.one[step], s) == x) &&
              (forall s :: Pairs(c, v, step, s) && PairLabels(c, v.one[step], s) == x ==>
                 PairOperands(c, v, step, s) == y) ==>
                PairAt(c, v)(step, x) == Some(y)
  {
    hide Pairs, PairLabels, PairOperands;
  }

  lemma FromSource(c: Config, l: Lanes, step: nat, todo: seq<Todo>, x: Labels)
    requires step < |ViewOf(l).one| && Lists(c, l, step, todo) && Unique(c, l, step, todo, |todo|)
    requires x in GotTo(c, l, step, todo, |todo|)
    ensures exists s :: Pairs(c, ViewOf(l), step, s) && PairLabels(c, ViewOf(l).one[step], s) == x
  {
    hide ViewOf, GotTo, PairLabels, Pairs, SourceOf;
    GotIs(c, l, step, todo, |todo|);
    var i :| 0 <= i < |todo| && TodoLabels(c, l, step, todo[i]) == x;
    assert ListedPair(c, l, step, todo[i]);
    assert Pairs(c, ViewOf(l), step, SourceOf(l, todo[i].many));
  }

  lemma SameSource(c: Config, l: Lanes, step: nat, todo: seq<Todo>, s: Source, s': Source)
    requires step < |ViewOf(l).one| && Lists(c, l, step, todo) && Unique(c, l, step, todo, |todo|)
    requires Pairs(c, ViewOf(l), step, s) && Pairs(c, ViewOf(l), step, s')
    requires PairLabels(c, ViewOf(l).one[step], s) == PairLabels(c, ViewOf(l).one[step], s')
    ensures s == s'
  {
    hide ViewOf, PairLabels, Pairs, ListedPair, SourceOf;
    var i :| 0 <= i < |todo| && SourceOf(l, todo[i].many) == s;
    var j :| 0 <= j < |todo| && SourceOf(l, todo[j].many) == s';
    assert TodoLabels(c, l, step, todo[i]) == TodoLabels(c, l, step, todo[j]);
  }

  lemma OneSource(c: Config, l: Lanes, step: nat, todo: seq<Todo>, s: Source, x: Labels)
    requires step < |ViewOf(l).one| && Lists(c, l, step, todo) && Unique(c, l, step, todo, |todo|)
    requires Pairs(c, ViewOf(l), step, s) && PairLabels(c, ViewOf(l).one[step], s) == x
    ensures var got := GotTo(c, l, step, todo, |todo|); x in got && got[x] == PairOperands(c, ViewOf(l), step, s)
  {
    hide ViewOf, GotTo, PairLabels, Pairs, PairOperands, Operated, SourceOf;
    GotIs(c, l, step, todo, |todo|);
    var i :| 0 <= i < |todo| && SourceOf(l, todo[i].many) == s;
    assert ListedPair(c, l, step, todo[i]);
    assert TodoLabels(c, l, step, todo[i]) == x;
  }

  /** Two pairs under one label set are a grouping that is not unique. */
  lemma StepCollides(c: Config, l: Lanes, step: nat, todo: seq<Todo>, i: nat, j: nat)
    requires step < |ViewOf(l).one| && Lists(c, l, step, todo) && i < j < |todo|
    requires TodoLabels(c, l, step, todo[i]) == TodoLabels(c, l, step, todo[j])
    ensures TwoCollide(c, ViewOf(l), step)
  {
    hide ViewOf, PairLabels, Pairs, SourceOf;
    assert ListedPair(c, l, step, todo[i]) && ListedPair(c, l, step, todo[j]);
    var s, s' := SourceOf(l, todo[i].many), SourceOf(l, todo[j].many);
    assert Pairs(c, ViewOf(l), step, s) && Pairs(c, ViewOf(l), step, s') && s != s';
  }

  lemma StepCounts(c: Config, l: Lanes, step: nat, todo: seq<Todo>)
    requires step < |ViewOf(l).one| && Lists(c, l, step, todo)
    ensures TwoPair(c, ViewOf(l), step) <==> |todo| > 1
  {
    hide ViewOf, Pairs, SourceOf;
    if |todo| > 1 {
      assert ListedPair(c, l, step, todo[0]) && ListedPair(c, l, step, todo[1]);
      assert SourceOf(l, todo[0].many) != SourceOf(l, todo[1].many);
    }
  }

  /** The bucket cache remembers only what it would find again. */
  ghost predicate Caches(c: Config, l: Lanes, byPair: map<(Option<nat>, int), nat>, t: Table) {
    forall p :: p in byPair ==> byPair[p] < |t.buckets| && t.buckets[byPair[p]].labels == CodeLabels(c, l, p.0, p.1)
  }

  lemma CachesPush(c: Config, l: Lanes, byPair: map<(Option<nat>, int), nat>, t: Table, labels: Labels)
    requires Caches(c, l, byPair, t)
    ensures Caches(c, l, byPair, Pushed(t, labels))
  {
    hide CodeLabels;
  }

  lemma CachesAdd(c: Config, l: Lanes, byPair: map<(Option<nat>, int), nat>, t: Table, many: Option<nat>, oneRow: int,
                  b: nat)
    requires Caches(c, l, byPair, t) && b < |t.buckets| && t.buckets[b].labels == CodeLabels(c, l, many, oneRow)
    ensures Caches(c, l, byPair[(many, oneRow) := b], t)
  {
    hide CodeLabels;
  }

  lemma CachesPlace(c: Config, l: Lanes, byPair: map<(Option<nat>, int), nat>, t: Table, b: nat, p: Paired,
                    claimed: Option<nat>)
    requires Caches(c, l, byPair, t) && b < |t.buckets|
    ensures Caches(c, l, byPair, Placed(t, b, p, claimed))
  {
    hide CodeLabels;
    assert forall j :: 0 <= j < |t.buckets| ==> Placed(t, b, p, claimed).buckets[j].labels == t.buckets[j].labels;
  }

  // ── Gathering a step's pairs ──

  /** The "many" series before `m` that put a sample at the step, in order. */
  ghost predicate ListsTo(l: Lanes, step: nat, one: Value, todo: seq<Todo>, m: nat)
    requires m <= |l.many|
  {
    && (forall i :: 0 <= i < |todo| ==> HeldTodo(l, step, one, todo[i], m))
    && (forall i, j :: 0 <= i < j < |todo| ==> todo[i].many != todo[j].many)
    && (forall n :: 0 <= n < m && CellAt(l.many[n], step).Some? ==> HasTodo(todo, n))
  }

  ghost predicate HasTodo(todo: seq<Todo>, n: nat) {
    exists i :: 0 <= i < |todo| && todo[i].many == Some(n)
  }

  ghost predicate HeldTodo(l: Lanes, step: nat, one: Value, t: Todo, m: nat)
    requires m <= |l.many|
  {
    t.many.Some? && t.many.value < m && CellAt(l.many[t.many.value], step) == Some(t.manyValue) && t.oneValue == one
  }

  lemma ListsNext(l: Lanes, step: nat, one: Value, todo: seq<Todo>, m: nat)
    requires m < |l.many| && ListsTo(l, step, one, todo, m)
    ensures match CellAt(l.many[m], step)
            case None => ListsTo(l, step, one, todo, m + 1)
            case Some(x) => ListsTo(l, step, one, todo + [Todo(Some(m), x, one)], m + 1)
  {
    hide CellAt;
    match CellAt(l.many[m], step)
    case None =>
    case Some(x) =>
      var more := todo + [Todo(Some(m), x, one)];
      assert more[|todo|].many == Some(m);
      forall n | 0 <= n < m && CellAt(l.many[n], step).Some? ensures HasTodo(more, n) {
        assert HasTodo(todo, n);
        var i :| 0 <= i < |todo| && todo[i].many == Some(n);
        assert more[i].many == Some(n);
      }
  }

  /** All of them are what pairs, if there are any. */
  lemma HeldLists(c: Config, l: Lanes, len: nat, step: nat, one: Value, todo: seq<Todo>)
    requires Sound(l, len) && step < len && |ViewOf(l).one| == len
    requires ListsTo(l, step, one, todo, |l.many|) && OneAt(c, ViewOf(l), step) == Some(one)
    ensures todo != [] ==> Lists(c, l, step, todo)
    ensures todo == [] ==> !AnyMany(ViewOf(l), step)
  {
    hide *;
    var v := ViewOf(l);
    forall k | ManyAt(v, step, k).Some?
      ensures todo != [] && exists i :: 0 <= i < |todo| && SourceOf(l, todo[i].many) == Held(k)
    {
      HeldFound(l, len, step, one, todo, k);
    }
    forall i | 0 <= i < |todo| ensures ListedPair(c, l, step, todo[i]) { HeldListed(c, l, len, step, one, todo, i); }
    forall i, j | 0 <= i < j < |todo| ensures SourceOf(l, todo[i].many) != SourceOf(l, todo[j].many) {
      HeldApart(l, len, step, one, todo, i, j);
    }
    ListsWhen(c, l, step, todo);
  }

  lemma ListsWhen(c: Config, l: Lanes, step: nat, todo: seq<Todo>)
    requires step < |ViewOf(l).one|
    requires forall k :: ManyAt(ViewOf(l), step, k).Some? ==>
               todo != [] && exists i :: 0 <= i < |todo| && SourceOf(l, todo[i].many) == Held(k)
    requires forall i :: 0 <= i < |todo| ==> ListedPair(c, l, step, todo[i])
    requires forall i, j :: 0 <= i < j < |todo| ==> SourceOf(l, todo[i].many) != SourceOf(l, todo[j].many)
    ensures todo != [] ==> Lists(c, l, step, todo)
    ensures todo == [] ==> !AnyMany(ViewOf(l), step)
  {
    hide ViewOf, ManyAt, SourceOf, PairOperands, OneAt;
    if todo != [] {
      forall s | Pairs(c, ViewOf(l), step, s) ensures exists i :: 0 <= i < |todo| && SourceOf(l, todo[i].many) == s {
        if s.Filled? {
          assert ListedPair(c, l, step, todo[0]);
          assert SourceOf(l, todo[0].many) == s || AnyMany(ViewOf(l), step);
        }
      }
    }
  }

  lemma HeldFound(l: Lanes, len: nat, step: nat, one: Value, todo: seq<Todo>, k: Key)
    requires MatchLanes.Sound(l, len) && step < len && ListsTo(l, step, one, todo, |l.many|)
             && ManyAt(ViewOf(l), step, k).Some?
    ensures todo != [] && exists i :: 0 <= i < |todo| && SourceOf(l, todo[i].many) == Held(k)
  {
    ManyIs(l, len, step);
    hide ViewOf, CellAt, ManyAt;
    var n :| 0 <= n < |l.many| && KeyOf(l.many[n]) == k;
    assert HasTodo(todo, n);
    var i :| 0 <= i < |todo| && todo[i].many == Some(n);
    assert SourceOf(l, todo[i].many) == Held(k);
  }

  lemma HeldListed(c: Config, l: Lanes, len: nat, step: nat, one: Value, todo: seq<Todo>, i: nat)
    requires MatchLanes.Sound(l, len) && step < len && |ViewOf(l).one| == len && i < |todo|
    requires ListsTo(l, step, one, todo, |l.many|) && OneAt(c, ViewOf(l), step) == Some(one)
    ensures ListedPair(c, l, step, todo[i])
  {
    ManyIs(l, len, step);
    hide ViewOf, CellAt, ManyAt, OneAt, Operated;
    assert HeldTodo(l, step, one, todo[i], |l.many|);
  }

  lemma HeldApart(l: Lanes, len: nat, step: nat, one: Value, todo: seq<Todo>, i: nat, j: nat)
    requires MatchLanes.Sound(l, len) && ListsTo(l, step, one, todo, |l.many|) && i < j < |todo|
    ensures SourceOf(l, todo[i].many) != SourceOf(l, todo[j].many)
  {
    hide CellAt;
    assert HeldTodo(l, step, one, todo[i], |l.many|) && HeldTodo(l, step, one, todo[j], |l.many|);
    var m, n := todo[i].many.value, todo[j].many.value;
    assert m != n;
  }

  /** With nothing on the "many" side, a fill makes the one pair there is. */
  lemma FillLists(c: Config, l: Lanes, len: nat, step: nat)
    requires Sound(l, len) && step < len && |ViewOf(l).one| == len && !AnyMany(ViewOf(l), step)
    ensures l.oneCounts[step] == 1 && FillMany(c).Some? ==>
              Lists(c, l, step, [Todo(None, FillMany(c).value, l.oneValues[step])])
    ensures l.oneCounts[step] == 0 || FillMany(c).None? ==> Lists(c, l, step, [])
  {
    CellIs(l, len, step);
    hide ViewOf, ManyAt, AnyMany;
    assert forall k :: ManyAt(ViewOf(l), step, k).None? by { NoMany(ViewOf(l), step); }
    if l.oneCounts[step] == 1 && FillMany(c).Some? {
      var todo := [Todo(None, FillMany(c).value, l.oneValues[step])];
      assert SourceOf(l, todo[0].many) == Filled;
    }
  }

  lemma NoMany(v: View, step: nat)
    requires !AnyMany(v, step)
    ensures forall k :: ManyAt(v, step, k).None?
  {
    hide ManyAt;
  }

  /** Without a "one" side and without its fill nothing pairs. */
  lemma NobodyLists(c: Config, l: Lanes, len: nat, step: nat)
    requires Sound(l, len) && step < len && |ViewOf(l).one| == len && l.oneCounts[step] == 0 && FillOne(c).None?
    ensures Lists(c, l, step, [])
  {
    CellIs(l, len, step);
    hide ViewOf, ManyAt, AnyMany;
  }

  lemma OneIs(c: Config, l: Lanes, len: nat, step: nat)
    requires Sound(l, len) && step < len && l.oneCounts[step] <= 1
    ensures |ViewOf(l).one| == len
    ensures OneAt(c, ViewOf(l), step) == if l.oneCounts[step] > 0 then Some(l.oneValues[step]) else FillOne(c)
  {
    CellIs(l, len, step);
    hide ViewOf;
  }

  class Pairing {
    const c: Config
    const grid: Grid
    var oneCounts: seq<nat>
    var oneValues: seq<Value>
    /** By step, the pool row whose labels the "one" sample has; -1 for none. */
    var oneRows: seq<int>
    var onePool: seq<Labels>
    var many: seq<Line>

    function Now(): Lanes
      reads this
    {
      Lanes(oneCounts, oneValues, oneRows, onePool, many)
    }

    ghost predicate Valid()
      reads this
    {
      grid.step > 0 && MatchLanes.Sound(Now(), grid.len) && Labelled(Now(), |c.schema|)
    }

    /** What the group holds, whatever order it came in. */
    ghost function Holds(): View
      reads this
    {
      ViewOf(Now())
    }

    constructor (c: Config, grid: Grid)
      requires grid.step > 0
      ensures Valid() && Holds() == NoView(grid.len) && this.c == c && this.grid == grid
    {
      this.c, this.grid := c, grid;
      oneCounts, oneValues, oneRows := Fill(grid.len, 0), Fill(grid.len, 0), Fill(grid.len, -1);
      onePool, many := [], [];
    }

    method InternOne(labels: Labels) returns (row: nat)
      requires Valid() && |labels| == |c.schema|
      modifies this`onePool
      ensures Valid() && row < |onePool| && onePool[row] == labels && old(onePool) <= onePool
      ensures Holds() == old(Holds())
    {
      hide ViewOf;
      row := 0;
      while row < |onePool|
        invariant row <= |onePool| && forall j :: 0 <= j < row ==> onePool[j] != labels
      {
        if onePool[row] == labels { return; }
        row := row + 1;
      }
      PoolGrows(Now(), grid.len, labels);
      onePool := onePool + [labels];
    }

    method InternMany(side: Side, labels: Labels) returns (m: nat)
      requires Valid() && |labels| == |c.schema|
      modifies this`many
      ensures Valid() && m < |many| && KeyOf(many[m]) == Key(side, labels)
      ensures Holds() == old(Holds()) ||
              (Key(side, labels) !in old(Holds()).many &&
               Holds() == old(Holds()).(many := old(Holds()).many[Key(side, labels) := seq(grid.len, _ => None)]))
    {
      hide ViewOf;
      m := 0;
      while m < |many|
        invariant m <= |many| && forall n :: 0 <= n < m ==> KeyOf(many[n]) != Key(side, labels)
      {
        if many[m].side == side && many[m].labels == labels { return; }
        m := m + 1;
      }
      ManyPushes(Now(), grid.len, side, labels);
      many := many + [Blank(side, labels, grid.len)];
    }

    /** A row joins what the group holds, or is refused, just when a timestamp
        is off the grid or out of order. */
    method Absorb(side: Side, labels: Labels, ts: seq<int>, values: seq<Value>) returns (ok: bool)
      requires Valid() && |ts| == |values| && |labels| == |c.schema|
      modifies this`oneCounts, this`oneValues, this`oneRows, this`onePool, this`many
      ensures Valid()
      ensures ok <==> OnGrid(grid, ts)
      ensures ok ==> Holds() == Join(old(Holds()), RowView(c, grid.len, side, labels, CellsOf(grid, ts, values)))
    {
      hide ViewOf, CellsOf, OnGrid, Join, RowView, Raised, Overlaid, Marked;
      ViewSized(Now(), grid.len);
      if !IsSet(c.op) && side == OneSide(c) {
        var row := InternOne(labels);
        var counts, lane, rows;
        ok, counts, lane, rows := Lay(grid, ts, values, oneCounts, oneValues, oneRows, row);
        if ok {
          OneTakes(c, Now(), grid.len, side, labels, CellsOf(grid, ts, values), row);
          oneCounts, oneValues, oneRows := counts, lane, rows;
        }
      } else {
        var m := InternMany(side, labels);
        var counts, lane, rows;
        ok, counts, lane, rows := Lay(grid, ts, values, many[m].counts, many[m].values, Fill(grid.len, 0), 0);
        if ok {
          ManyTakes(c, Now(), grid.len, side, labels, CellsOf(grid, ts, values), m, old(Holds()));
          many := many[m := many[m].(counts := counts, values := lane)];
        }
      }
    }

    /** Flat lists throughout, so that a partial travels as a handful of lanes. */
    method State() returns (p: Partial)
      requires Valid()
      ensures p == Encode(Now())
    {
      hide Flat;
      FlatNone<string>();
      FlatNone<int>();
      var labels: seq<string>, counts: seq<int>, values: seq<Value>, sides: seq<int>, pool: seq<string> := [], [], [],
          [], [];
      for m := 0 to |many|
        invariant labels == Flat(LinesLabels(many)[..m]) && counts == Flat(LinesCounts(many)[..m])
        invariant values == Flat(LinesValues(many)[..m]) && sides == LinesSides(many)[..m]
      {
        FlatNext(LinesLabels(many), m);
        FlatNext(LinesCounts(many), m);
        FlatNext(LinesValues(many), m);
        labels, counts, values := labels + many[m].labels, counts + many[m].counts, values + many[m].values;
        sides := sides + [SideFlag(many[m].side)];
      }
      for r := 0 to |onePool|
        invariant pool == Flat(onePool[..r])
      {
        FlatNext(onePool, r);
        pool := pool + onePool[r];
      }
      assert LinesLabels(many)[..|many|] == LinesLabels(many) && LinesCounts(many)[..|many|] == LinesCounts(many);
      assert LinesValues(many)[..|many|] == LinesValues(many) && LinesSides(many)[..|many|] == LinesSides(many);
      assert onePool[..|onePool|] == onePool;
      p := Partial(oneCounts, oneValues, oneRows, pool, labels, counts, values, sides);
    }

    /** Another pool's label sets, found or added here. */
    method InternPool(pool: seq<Labels>) returns (seen: seq<nat>)
      requires Valid() && Uniform(pool, |c.schema|)
      modifies this`onePool
      ensures Valid() && Holds() == old(Holds()) && old(onePool) <= onePool && |seen| == |pool|
      ensures forall j :: 0 <= j < |pool| ==> seen[j] < |onePool| && onePool[seen[j]] == pool[j]
    {
      hide ViewOf;
      seen := [];
      for j := 0 to |pool|
        invariant Valid() && Holds() == old(Holds()) && old(onePool) <= onePool && |seen| == j
        invariant forall i :: 0 <= i < j ==> seen[i] < |onePool| && onePool[seen[i]] == pool[i]
      {
        var row := InternOne(pool[j]);
        seen := seen + [row];
      }
    }

    /** A partial's "one" side: counts add, and whoever reached a step brings
        its value and its row, renumbered. */
    method MergeOne(p: Partial, ghost other: Lanes)
      requires Valid() && Wrote(p, other, |c.schema|, grid.len)
      modifies this`oneCounts, this`oneValues, this`oneRows, this`onePool
      ensures Valid() && Holds() == View(Join(old(Holds()), ViewOf(other)).one, old(Holds()).many)
    {
      hide ViewOf, Join, OneAdded, OneAddedTo, Wrote, Rectangle;
      var pool := Rectangle(p.onePool, |c.schema|, None);
      PoolReads(p, other, |c.schema|, grid.len);
      var seen := InternPool(pool.value);
      ghost var l := Now();
      OneAdds(l, other, grid.len, p, seen);
      OneAddedNone(l, p, seen);
      for step := 0 to grid.len
        invariant |oneCounts| == |oneValues| == |oneRows| == grid.len && onePool == l.onePool && many == l.many
        invariant Now() == OneAddedTo(l, p, seen, step)
      {
        OneAddedNext(l, p, seen, step, grid.len);
        if p.oneCounts[step] > 0 {
          oneCounts, oneValues := oneCounts[step := oneCounts[step] + p.oneCounts[step]],
              oneValues[step := p.oneValues[step]];
          if p.oneRows[step] >= 0 { oneRows := oneRows[step := seen[p.oneRows[step]]]; }
        }
      }
      OneAddedAll(l, p, seen, grid.len);
    }

    /** One of a partial's series, added to the series with its key. */
    method MergeLine(side: Side, labels: Labels, counts: seq<int>, values: seq<Value>, ghost other: Line)
      requires Valid() && KeyOf(other) == Key(side, labels) && |labels| == |c.schema|
      requires counts == other.counts && values == other.values
      requires |other.counts| == |other.values| == grid.len
      modifies this`many
      ensures Valid() && Holds() == LineJoined(old(Holds()), other)
    {
      hide ViewOf, LineAdded, LineCells;
      var m := InternMany(side, labels);
      ghost var line := many[m];
      LineAdds(line, other, grid.len);
      CellsSize(other);
      ManyJoins(Now(), grid.len, m, LineAdded(line, counts, values), LineCells(other), old(Holds()));
      AddLine(m, counts, values);
    }

    method AddLine(m: nat, counts: seq<int>, values: seq<Value>)
      requires m < |many| && |many[m].counts| == |many[m].values| == |counts| == |values|
      modifies this`many
      ensures many == old(many)[m := LineAdded(old(many)[m], counts, values)]
    {
      ghost var line := many[m];
      for step := 0 to |counts|
        invariant |many| == |old(many)| && forall n :: 0 <= n < |many| && n != m ==> many[n] == old(many)[n]
        invariant many[m].side == line.side && many[m].labels == line.labels
        invariant |many[m].counts| == |many[m].values| == |counts|
        invariant forall i :: 0 <= i < |counts| ==>
                    many[m].counts[i] == (if i < step && counts[i] > 0 then line.counts[i] + counts[i]
                                          else line.counts[i]) &&
                    many[m].values[i] == (if i < step && counts[i] > 0 then values[i] else line.values[i])
      {
        if counts[step] > 0 {
          many := many[m := many[m].(counts := many[m].counts[step := many[m].counts[step] + counts[step]],
                                     values := many[m].values[step := values[step]])];
        }
      }
      LineIs(many[m], line, counts, values);
    }

    /** A partial's "many" side, series by series. Without a step in the grid a
        rectangle cannot say how many rows it has, and a series is refused. */
    method MergeMany(p: Partial, ghost other: Lanes) returns (ok: bool)
      requires Valid() && Wrote(p, other, |c.schema|, grid.len)
      modifies this`many
      ensures Valid()
      ensures ok <==> grid.len > 0 || other.many == []
      ensures ok ==> Holds() == View(old(Holds()).one, JoinMany(old(Holds()).many, ViewOf(other).many))
    {
      hide ViewOf, Join, JoinMany, ManyView, Wrote, Rectangle, LineJoined;
      var steps := if grid.len > 1 then grid.len else 1;
      var rows := |p.manyCounts| / steps;
      ManyReads(p, other, |c.schema|, grid.len);
      if |p.manySides| != rows { return false; }
      var labels := Rectangle(p.manyLabels, |c.schema|, Some(rows));
      NoMore(Holds(), other);
      for m := 0 to |labels.value|
        invariant Valid() && Holds() == View(old(Holds()).one, JoinMany(old(Holds()).many, ManyView(other.many[..m])))
      {
        LineReads(p, other, |c.schema|, grid.len, m);
        NextJoined(View(old(Holds()).one, JoinMany(old(Holds()).many, ManyView(other.many[..m]))), old(Holds()), other,
                   grid.len, m);
        MergeLine(FlagSide(p.manySides[m]), labels.value[m], p.manyCounts[m * grid.len..m * grid.len + grid.len],
                  p.manyValues[m * grid.len..m * grid.len + grid.len], other.many[m]);
      }
      AllJoined(other);
      ok := true;
    }

    /** `merge_batch`: the "one" sides first, then the "many" sides. */
    method MergeBatch(states: seq<Partial>, ghost others: seq<Lanes>) returns (ok: bool)
      requires Valid() && AllWrote(states, others, |c.schema|, grid.len)
      modifies this`oneCounts, this`oneValues, this`oneRows, this`onePool, this`many
      ensures Valid()
      ensures ok <==> grid.len > 0 || forall i :: 0 <= i < |others| ==> others[i].many == []
      ensures ok ==> Holds() == JoinAll(old(Holds()), others)
    {
      hide ViewOf, Join, JoinMany, Wrote;
      ghost var v := Holds();
      JoinedNone(v, others);
      for i := 0 to |states|
        invariant Valid() && Holds() == View(JoinAll(v, others[..i]).one, v.many)
      {
        JoinedNext(v, others, i);
        MergeOne(states[i], others[i]);
      }
      for i := 0 to |states|
        invariant Valid() && Holds() == View(JoinAll(v, others).one, JoinAll(v, others[..i]).many)
        invariant grid.len > 0 || forall j :: 0 <= j < i ==> others[j].many == []
      {
        JoinedNext(v, others, i);
        ok := MergeMany(states[i], others[i]);
        if !ok { return; }
      }
      ok := true;
    }

    /** How many samples the "many" side put at a step. */
    method Total(step: nat) returns (total: nat)
      requires Valid() && step < grid.len
      ensures total == 0 <==> !AnyMany(Holds(), step)
    {
      total := 0;
      for m := 0 to |many|
        invariant total == 0 <==> forall n :: 0 <= n < m ==> many[n].counts[step] == 0
      {
        total := total + many[m].counts[step];
      }
      ManyIs(Now(), grid.len, step);
      hide ManyAt, ViewOf;
      if total > 0 {
        var n :| 0 <= n < |many| && many[n].counts[step] > 0;
        assert ManyAt(Holds(), step, KeyOf(many[n])).Some?;
      }
    }

    /** What pairs at this step. */
    method Gather(step: nat) returns (todo: seq<Todo>)
      requires Valid() && step < grid.len && oneCounts[step] <= 1
      ensures |Holds().one| == grid.len && Lists(c, Now(), step, todo)
    {
      hide Lists, ListsTo, ViewOf, OneAt;
      todo := [];
      var oneHere := oneCounts[step] > 0;
      var one := if oneHere then Some(oneValues[step]) else FillOne(c);
      OneIs(c, Now(), grid.len, step);
      if one.Some? {
        ListsNone(Now(), step, one.value);
        for m := 0 to |many|
          invariant ListsTo(Now(), step, one.value, todo, m)
        {
          ListsNext(Now(), step, one.value, todo, m);
          if many[m].counts[step] > 0 { todo := todo + [Todo(Some(m), many[m].values[step], one.value)]; }
        }
        HeldLists(c, Now(), grid.len, step, one.value, todo);
        if todo == [] { FillLists(c, Now(), grid.len, step); }
      } else {
        NobodyLists(c, Now(), grid.len, step);
      }
      if todo == [] && oneHere && FillMany(c).Some? {
        todo := [Todo(None, FillMany(c).value, oneValues[step])];
      }
    }

    /** The bucket of a pair: remembered, found by its label set, or new. */
    method FindBucket(pair: (Option<nat>, int), labels: Labels, t: Table, byPair: map<(Option<nat>, int), nat>,
                      ghost step: nat, ghost got: map<Labels, Operands>)
      returns (b: nat, t': Table, byPair': map<(Option<nat>, int), nat>)
      requires Valid() && labels == CodeLabels(c, Now(), pair.0, pair.1)
      requires Built(grid, PairAt(c, Holds()), t, step, got, true) && Caches(c, Now(), byPair, t)
      ensures Built(grid, PairAt(c, Holds()), t', step, got, true) && Caches(c, Now(), byPair', t')
      ensures b < |t'.buckets| && t'.buckets[b].labels == labels
    {
      hide Built, Caches, CodeLabels, PairAt, ViewOf;
      t', byPair' := t, byPair;
      CachesAt(c, Now(), byPair, t, pair);
      if pair in byPair { return byPair[pair], t', byPair'; }
      BuiltIsIndexed(grid, PairAt(c, Holds()), t, step, got);
      if labels in t.byLabels {
        b := t.byLabels[labels];
      } else {
        BuiltPushes(grid, PairAt(c, Holds()), t, step, got, true, labels);
        CachesPush(c, Now(), byPair, t, labels);
        b := |t.buckets|;
        t' := Pushed(t, labels);
      }
      CachesAdd(c, Now(), byPair, t', pair.0, pair.1, b);
      byPair' := byPair[pair := b];
    }

    /** A step's pairs into their buckets, claiming each: the claim comes
        before the operator decides whether the sample survives. */
    method PlaceStep(step: nat, todo: seq<Todo>, t: Table, byPair: map<(Option<nat>, int), nat>)
      returns (ok: bool, t': Table, byPair': map<(Option<nat>, int), nat>)
      requires Valid() && step < grid.len && oneCounts[step] <= 1
      requires |Holds().one| == grid.len && Lists(c, Now(), step, todo)
      requires Built(grid, PairAt(c, Holds()), t, step, map[], true) && Caches(c, Now(), byPair, t)
      ensures ok <==> !TwoCollide(c, Holds(), step)
      ensures ok ==> Built(grid, PairAt(c, Holds()), t', step + 1, map[], true) && Caches(c, Now(), byPair', t')
    {
      hide Built, Caches, PairAt, ViewOf, GotTo, Unique, Lists, TwoCollide, CodeLabels, MatchLanes.Sound, TodoLabels,
           Operated, Timestamp;
      t', byPair' := t, byPair;
      var oneRow := OneRow(step);
      NothingGot(c, Now(), step, todo);
      for j := 0 to |todo|
        invariant Built(grid, PairAt(c, Holds()), t', step, GotTo(c, Now(), step, todo, j), true)
        invariant Unique(c, Now(), step, todo, j)
        invariant Caches(c, Now(), byPair', t')
      {
        var b;
        PairLabelsAre(c, Now(), grid.len, step, todo, j);
        b, t', byPair' := FindBucket((todo[j].many, oneRow), CodeLabels(c, Now(), todo[j].many, oneRow), t', byPair',
                                     step, GotTo(c, Now(), step, todo, j));
        Claims(c, grid, Now(), step, todo, j, t', b);
        if t'.buckets[b].claimed == Some(step) { return false, t', byPair'; }
        CachesPlace(c, Now(), byPair', t', b, Paired(Timestamp(grid, step),
                                                     Operated(c, todo[j].manyValue, todo[j].oneValue)), Some(step));
        t' := Placed(t', b, Paired(Timestamp(grid, step), Operated(c, todo[j].manyValue, todo[j].oneValue)),
                     Some(step));
      }
      StepComplete(c, Now(), step, todo);
      BuiltSteps(grid, PairAt(c, Holds()), t', step, GotTo(c, Now(), step, todo, |todo|), true);
      ok := true;
    }

    method OneRow(step: nat) returns (row: int)
      requires Valid() && step < grid.len
      ensures step < |oneCounts| && step < |oneRows| && row == OneRowAt(Now(), step)
    {
      row := if oneCounts[step] > 0 then oneRows[step] else -1;
    }

    /** The step grid walked once: the first step that fails decides, else
        the buckets, sorted. */
    method Pairs() returns (r: Result)
      requires Valid() && !IsSet(c.op)
      ensures |Holds().one| == grid.len && Answers(c, grid, Holds(), r)
    {
      hide ViewOf, Built, Caches, PairAt, Failure, TwoCollide, TwoPair, AnyMany, Lists, Emits;
      var t, byPair := NO_TABLE, map[];
      ViewSized(Now(), grid.len);
      BuiltNone(grid, PairAt(c, Holds()), true);
      CachesNone(c, Now());
      for step := 0 to grid.len
        invariant Built(grid, PairAt(c, Holds()), t, step, map[], true) && Caches(c, Now(), byPair, t)
        invariant NoFailure(c, Holds(), step)
      {
        CellIs(Now(), grid.len, step);
        FailureIs(c, Holds(), step);
        var total := Total(step);
        if total == 0 && FillOne(c).None? && FillMany(c).None? {
          SkippedStep(c, grid, Now(), step, t);
          continue;
        }
        if oneCounts[step] > 1 { return Err(Duplicate); }
        var todo := Gather(step);
        StepCounts(c, Now(), step, todo);
        if c.matching.card.OneToOne? && |todo| > 1 { return Err(MultipleMatches); }
        var ok;
        ok, t, byPair := PlaceStep(step, todo, t, byPair);
        if !ok { return Err(GroupingNotUnique); }
      }
      BuiltIsIndexed(grid, PairAt(c, Holds()), t, grid.len, map[]);
      var out := Finish(t);
      FinishEmits(grid, PairAt(c, Holds()), t, true, out);
      r := Ok(out);
    }

    /** Whether a side put any sample at a step. */
    method Present(step: nat, side: Side) returns (present: bool)
      requires Valid() && step < grid.len
      ensures present <==> SideAt(Holds(), step, side)
    {
      present := false;
      for m := 0 to |many|
        invariant present <==> exists n :: 0 <= n < m && many[n].side == side && many[n].counts[step] > 0
      {
        present := present || (many[m].side == side && many[m].counts[step] > 0);
      }
      ManyIs(Now(), grid.len, step);
      hide ManyAt, ViewOf;
      if present {
        var n :| 0 <= n < |many| && many[n].side == side && many[n].counts[step] > 0;
        assert ManyAt(Holds(), step, Key(side, many[n].labels)).Some?;
      }
    }

    /** A step's surviving samples into the buckets of their label sets. */
    method KeepStep(step: nat, t: Table) returns (t': Table)
      requires Valid() && step < grid.len && IsSet(c.op)
      requires Built(grid, SetAt(c.op, Holds()), t, step, map[], false)
      ensures Built(grid, SetAt(c.op, Holds()), t', step + 1, map[], false)
    {
      hide Built, SetAt, ViewOf, SetGot, SideAt, Timestamp;
      t' := t;
      var left := Present(step, Lhs);
      var right := Present(step, Rhs);
      NothingKept(c, Now(), step);
      for m := 0 to |many|
        invariant Built(grid, SetAt(c.op, Holds()), t', step, SetGot(c, Now(), step, m), false)
      {
        SetNext(c, Now(), grid.len, step, m);
        if many[m].counts[step] == 0 { continue; }
        var here := many[m].side.Lhs?;
        var keep := if c.op.And? then here && right else if c.op.Unless? then here && !right else here || !left;
        if !keep { continue; }
        var labels, b := many[m].labels, 0;
        SetIsIndexed(grid, SetAt(c.op, Holds()), t', step, SetGot(c, Now(), step, m));
        if labels in t'.byLabels {
          b := t'.byLabels[labels];
        } else {
          BuiltPushes(grid, SetAt(c.op, Holds()), t', step, SetGot(c, Now(), step, m), false, labels);
          b := |t'.buckets|;
          t' := Pushed(t', labels);
        }
        BuiltPlaces(grid, SetAt(c.op, Holds()), t', step, SetGot(c, Now(), step, m), false, b,
                    Kept(many[m].values[step]), None);
        t' := Placed(t', b, Paired(Timestamp(grid, step), Kept(many[m].values[step])), None);
      }
      SetComplete(c, Now(), grid.len, step);
      BuiltSteps(grid, SetAt(c.op, Holds()), t', step, SetGot(c, Now(), step, |many|), false);
    }

    /** The set operators. A sample stays or goes by whether the other side has
        any at its step, and no bucket is reached twice in one. */
    method Sets() returns (out: seq<Output>)
      requires Valid() && IsSet(c.op)
      ensures Emits(grid, SetAt(c.op, Holds()), out)
    {
      hide ViewOf, Built, SetAt, Emits;
      var t := NO_TABLE;
      BuiltNone(grid, SetAt(c.op, Holds()), false);
      for step := 0 to grid.len
        invariant Built(grid, SetAt(c.op, Holds()), t, step, map[], false)
      {
        t := KeepStep(step, t);
      }
      SetIsIndexed(grid, SetAt(c.op, Holds()), t, grid.len, map[]);
      out := Finish(t);
      FinishEmits(grid, SetAt(c.op, Holds()), t, false, out);
    }

    /** What the group answers, whichever operator. */
    method Answer() returns (r: Result)
      requires Valid()
      ensures |Holds().one| == grid.len && Answers(c, grid, Holds(), r)
    {
      hide ViewOf, Emits, NoFailure, Failure, PairAt, SetAt;
      ViewSized(Now(), grid.len);
      if IsSet(c.op) {
        var out := Sets();
        r := Ok(out);
      } else {
        r := Pairs();
      }
    }
  }

  // ── Partial states ──

  /** A partial that lanes over this grid and schema wrote. */
  ghost predicate Wrote(p: Partial, l: Lanes, width: nat, len: nat) {
    p == Encode(l) && MatchLanes.Sound(l, len) && Labelled(l, width)
  }

  lemma FlatNone<T>()
    ensures Flat<T>([]) == []
  {
  }

  lemma FlatNext<T>(rows: seq<seq<T>>, m: nat)
    requires m < |rows|
    ensures Flat(rows[..m + 1]) == Flat(rows[..m]) + rows[m] && Flat(rows[..0]) == []
  {
    assert rows[..m + 1][..m] == rows[..m];
  }

  /** The pool reads back; with no columns it reads back as one label set. */
  lemma PoolReads(p: Partial, other: Lanes, width: nat, len: nat)
    requires Wrote(p, other, width, len)
    ensures |p.oneCounts| == |p.oneValues| == |p.oneRows| == len
    ensures Rectangle(p.onePool, width, None).Some?
    ensures var pool := Rectangle(p.onePool, width, None).value;
            && Uniform(pool, width) && |other.onePool| <= |pool|
            && forall j :: 0 <= j < |other.onePool| ==> pool[j] == other.onePool[j]
    ensures forall i :: 0 <= i < len && p.oneCounts[i] > 0 ==> 0 <= p.oneRows[i] < |other.onePool|
    ensures p == Encode(other) && MatchLanes.Sound(other, len)
  {
    hide Rectangle, Flat, LinesLabels, LinesCounts, LinesValues;
    RectangleReads(other.onePool, width, None);
    if width == 0 { OneBlank(other.onePool); }
  }

  lemma OneBlank(pool: seq<Labels>)
    ensures Uniform(pool, 0) && Distinct(pool) ==> |pool| <= 1
  {
    if Uniform(pool, 0) && |pool| > 1 { assert pool[0] == pool[1]; }
  }

  /** The "one" lanes with a partial's first `n` steps added. */
  ghost function OneAddedTo(l: Lanes, p: Partial, seen: seq<nat>, n: nat): Lanes {
    var all := OneAdded(l, p, seen);
    l.(oneCounts := seq(|l.oneCounts|, i requires 0 <= i < |l.oneCounts| => if i < n then all.oneCounts[i]
                        else l.oneCounts[i]),
       oneValues := seq(|l.oneValues|, i requires 0 <= i < |l.oneValues| => if i < n then all.oneValues[i]
                        else l.oneValues[i]),
       oneRows := seq(|l.oneRows|, i requires 0 <= i < |l.oneRows| => if i < n then all.oneRows[i] else l.oneRows[i]))
  }

  lemma OneAddedNone(l: Lanes, p: Partial, seen: seq<nat>)
    ensures OneAddedTo(l, p, seen, 0) == l
  {
  }

  lemma OneAddedAll(l: Lanes, p: Partial, seen: seq<nat>, len: nat)
    requires |l.oneCounts| == |l.oneValues| == |l.oneRows| == len
    ensures OneAddedTo(l, p, seen, len) == OneAdded(l, p, seen)
  {
  }

  lemma OneAddedNext(l: Lanes, p: Partial, seen: seq<nat>, step: nat, len: nat)
    requires |l.oneCounts| == |l.oneValues| == |l.oneRows| == |p.oneCounts| == |p.oneValues| == |p.oneRows| == len
             && step < len
    requires p.oneCounts[step] > 0 ==> p.oneRows[step] < |seen|
    ensures var now, next := OneAddedTo(l, p, seen, step), OneAddedTo(l, p, seen, step + 1);
            && |now.oneCounts| == |now.oneValues| == |now.oneRows| == len
            && (p.oneCounts[step] <= 0 ==> next == now)
            && (p.oneCounts[step] > 0 ==>
                  && next.oneCounts == now.oneCounts[step := now.oneCounts[step] + p.oneCounts[step]]
                  && next.oneValues == now.oneValues[step := p.oneValues[step]]
                  && next.oneRows == (if p.oneRows[step] >= 0 then now.oneRows[step := seen[p.oneRows[step]]]
                                      else now.oneRows))
            && next.onePool == l.onePool && next.many == l.many
  {
  }

  function LineJoined(v: View, line: Line): View {
    var key, row := KeyOf(line), LineCells(line);
    v.(many := v.many[key := if key in v.many then JoinLine(v.many[key], row) else row])
  }

  lemma CellsSize(line: Line)
    ensures |LineCells(line)| == |line.counts|
  {
  }

  lemma LineIs(r: Line, line: Line, counts: seq<int>, values: seq<Value>)
    requires |line.counts| == |line.values| == |counts| == |values| == |r.counts| == |r.values|
    requires r.side == line.side && r.labels == line.labels
    requires forall i :: 0 <= i < |counts| ==>
               r.counts[i] == (if counts[i] > 0 then line.counts[i] + counts[i] else line.counts[i]) &&
               r.values[i] == (if counts[i] > 0 then values[i] else line.values[i])
    ensures r == LineAdded(line, counts, values)
  {
  }

  /** How many series a partial says it has. */
  lemma ManyReads(p: Partial, other: Lanes, width: nat, len: nat)
    requires Wrote(p, other, width, len)
    ensures |p.manySides| == |other.many|
    ensures len > 0 ==> |p.manyCounts| / len == |other.many|
    ensures len == 0 ==> |p.manyCounts| == 0
    ensures Rectangle(p.manyLabels, width, Some(|other.many|)) == Some(LinesLabels(other.many))
    ensures |LinesLabels(other.many)| == |other.many|
  {
    hide Rectangle, Flat;
    FlatLength(LinesCounts(other.many), len);
    RectangleReads(LinesLabels(other.many), width, Some(|other.many|));
    if len > 0 { Multiple(|other.many|, len); }
  }

  lemma LineReads(p: Partial, other: Lanes, width: nat, len: nat, m: nat)
    requires Wrote(p, other, width, len) && m < |other.many|
    ensures m < |p.manySides| && Key(FlagSide(p.manySides[m]), other.many[m].labels) == KeyOf(other.many[m])
    ensures LinesLabels(other.many)[m] == other.many[m].labels && |other.many[m].labels| == width
    ensures 0 <= m * len <= m * len + len <= |p.manyCounts| && m * len + len <= |p.manyValues|
    ensures p.manyCounts[m * len..m * len + len] == other.many[m].counts
    ensures p.manyValues[m * len..m * len + len] == other.many[m].values
    ensures MatchLanes.Sound(other, len) && |other.many[m].counts| == |other.many[m].values| == len
  {
    hide Flat;
    FlatRow(LinesCounts(other.many), len, m);
    FlatRow(LinesValues(other.many), len, m);
  }

  lemma NoMore(v: View, other: Lanes)
    ensures View(v.one, JoinMany(v.many, ManyView(other.many[..0]))) == v
  {
    assert ManyView(other.many[..0]) == map[];
    assert JoinMany(v.many, map[]) == v.many;
  }

  /** One more of the other's series. */
  lemma NextJoined(now: View, was: View, other: Lanes, len: nat, m: nat)
    requires MatchLanes.Sound(other, len) && m < |other.many|
    requires now == View(was.one, JoinMany(was.many, ManyView(other.many[..m])))
    ensures LineJoined(now, other.many[m]) == View(was.one, JoinMany(was.many, ManyView(other.many[..m + 1])))
  {
    hide ManyView, JoinMany, LineCells, JoinLine;
    ManyPrefix(other.many, m);
    JoinNext(was.many, ManyView(other.many[..m]), KeyOf(other.many[m]), LineCells(other.many[m]));
  }

  lemma AllJoined(other: Lanes)
    ensures other.many[..|other.many|] == other.many && ViewOf(other).many == ManyView(other.many)
  {
    hide ManyView;
  }

  ghost predicate AllWrote(states: seq<Partial>, others: seq<Lanes>, width: nat, len: nat) {
    |states| == |others| && forall i :: 0 <= i < |states| ==> Wrote(states[i], others[i], width, len)
  }

  ghost function JoinAll(v: View, others: seq<Lanes>): View {
    if others == [] then v else Join(JoinAll(v, others[..|others| - 1]), ViewOf(others[|others| - 1]))
  }

  lemma JoinedNone(v: View, others: seq<Lanes>)
    ensures JoinAll(v, others[..0]) == v && others[..|others|] == others
  {
  }

  /** Joining goes by its two parts apart. */
  lemma JoinedNext(v: View, others: seq<Lanes>, i: nat)
    requires i < |others|
    ensures var a, b, w := JoinAll(v, others[..i]), JoinAll(v, others[..i + 1]), ViewOf(others[i]);
            && b.many == JoinMany(a.many, w.many)
            && forall many :: Join(View(a.one, many), w).one == b.one
  {
    hide ViewOf, JoinMany;
    assert others[..i + 1][..i] == others[..i];
  }

  // ── What a set operator keeps ──

  ghost predicate KeptAt(c: Config, l: Lanes, step: nat, m: nat) {
    m < |l.many| && CellAt(l.many[m], step).Some? && Keeps(c.op, ViewOf(l), step, l.many[m].side)
  }

  /** What the first `n` series put under each label set. */
  ghost function SetGot(c: Config, l: Lanes, step: nat, n: nat): map<Labels, Operands>
    requires n <= |l.many|
  {
    if n == 0 then map[]
    else if KeptAt(c, l, step, n - 1) then SetGot(c, l, step,
                                                  n - 1)[l.many[n - 1].labels := Kept(CellAt(l.many[n - 1],
                                                  step).value)]
    else SetGot(c, l, step, n - 1)
  }

  lemma NothingKept(c: Config, l: Lanes, step: nat)
    ensures SetGot(c, l, step, 0) == map[]
  {
  }

  /** Equal labels on both sides never survive together. */
  lemma NeverMeet(c: Config, l: Lanes, len: nat, step: nat, m: nat, n: nat)
    requires MatchLanes.Sound(l, len) && step < len && IsSet(c.op) && m < n
    requires KeptAt(c, l, step, m) && KeptAt(c, l, step, n)
    ensures l.many[m].labels != l.many[n].labels
  {
    ManyIs(l, len, step);
    hide ViewOf, CellAt, ManyAt;
    var a, b := l.many[m], l.many[n];
    assert KeyOf(a) != KeyOf(b);
    assert KeyOf(a) == Key(a.side, a.labels) && KeyOf(b) == Key(b.side, b.labels);
    assert a.labels == b.labels ==> a.side != b.side;
    OnSide(ViewOf(l), step, a.side, a.labels);
    OnSide(ViewOf(l), step, b.side, b.labels);
    hide SideAt;
  }

  lemma OnSide(v: View, step: nat, side: Side, labels: Labels)
    requires ManyAt(v, step, Key(side, labels)).Some?
    ensures SideAt(v, step, side)
  {
    hide ManyAt;
  }

  lemma {:induction false} SetGotIs(c: Config, l: Lanes, len: nat, step: nat, n: nat)
    requires MatchLanes.Sound(l, len) && step < len && IsSet(c.op) && n <= |l.many|
    ensures forall x :: x in SetGot(c, l, step, n) ==>
              exists m :: 0 <= m < n && KeptAt(c, l, step, m) && l.many[m].labels == x
    ensures forall m :: 0 <= m < n && KeptAt(c, l, step, m) ==>
              l.many[m].labels in SetGot(c, l, step, n) && SetGot(c, l, step, n)[l.many[m].labels] ==
                  Kept(CellAt(l.many[m], step).value)
  {
    if n > 0 {
      SetGotIs(c, l, len, step, n - 1);
      hide KeptAt, CellAt;
      forall m | 0 <= m < n - 1 && KeptAt(c, l, step, m) && KeptAt(c, l, step, n - 1)
        ensures l.many[m].labels != l.many[n - 1].labels
      {
        NeverMeet(c, l, len, step, m, n - 1);
      }
      forall x | x in SetGot(c, l, step, n)
        ensures exists m :: 0 <= m < n && KeptAt(c, l, step, m) && l.many[m].labels == x
      {
        if x in SetGot(c, l, step, n - 1) {
          var m :| 0 <= m < n - 1 && KeptAt(c, l, step, m) && l.many[m].labels == x;
        }
      }
    }
  }

  lemma SetNext(c: Config, l: Lanes, len: nat, step: nat, m: nat)
    requires MatchLanes.Sound(l, len) && step < len && IsSet(c.op) && m < |l.many|
    ensures SetGot(c, l, step, m + 1) ==
            if KeptAt(c, l, step, m) then SetGot(c, l, step, m)[l.many[m].labels := Kept(CellAt(l.many[m], step).value)]
            else SetGot(c, l, step, m)
    ensures KeptAt(c, l, step, m) ==> l.many[m].labels !in SetGot(c, l, step, m)
  {
    SetGotIs(c, l, len, step, m);
    hide KeptAt, CellAt;
    if KeptAt(c, l, step, m) {
      forall n | 0 <= n < m && KeptAt(c, l, step, n)
        ensures l.many[n].labels != l.many[m].labels
      {
        NeverMeet(c, l, len, step, n, m);
      }
    }
  }

  lemma SetComplete(c: Config, l: Lanes, len: nat, step: nat)
    requires MatchLanes.Sound(l, len) && step < len && IsSet(c.op)
    ensures Complete(SetAt(c.op, ViewOf(l)), step, SetGot(c, l, step, |l.many|))
  {
    var at, got := SetAt(c.op, ViewOf(l)), SetGot(c, l, step, |l.many|);
    forall x ensures at(step, x) == if x in got then Some(got[x]) else None { SetUnder(c, l, len, step, x); }
    hide SetAt, SetGot, ViewOf;
  }

  lemma SetUnder(c: Config, l: Lanes, len: nat, step: nat, x: Labels)
    requires MatchLanes.Sound(l, len) && step < len && IsSet(c.op)
    ensures var got := SetGot(c, l, step, |l.many|);
            SetAt(c.op, ViewOf(l))(step, x) == if x in got then Some(got[x]) else None
  {
    hide *;
    SetAtIs(c.op, ViewOf(l), step, x);
    SideUnder(c, l, len, step, Lhs, x);
    SideUnder(c, l, len, step, Rhs, x);
    UnderSide(c, l, len, step, x);
  }

  lemma SideUnder(c: Config, l: Lanes, len: nat, step: nat, side: Side, x: Labels)
    requires MatchLanes.Sound(l, len) && step < len && IsSet(c.op)
    ensures var got := SetGot(c, l, step, |l.many|);
            SurvivesAt(c.op, ViewOf(l), step, side, x) ==>
              x in got && ManyAt(ViewOf(l), step, Key(side, x)).Some?
                  && got[x] == Kept(ManyAt(ViewOf(l), step, Key(side, x)).value)
  {
    SetGotIs(c, l, len, step, |l.many|);
    ManyIs(l, len, step);
    hide ViewOf, CellAt, ManyAt, SetGot, Keeps;
    if SurvivesAt(c.op, ViewOf(l), step, side, x) {
      var m :| 0 <= m < |l.many| && KeyOf(l.many[m]) == Key(side, x);
      assert KeptAt(c, l, step, m);
    }
  }

  lemma UnderSide(c: Config, l: Lanes, len: nat, step: nat, x: Labels)
    requires MatchLanes.Sound(l, len) && step < len && IsSet(c.op)
    ensures x in SetGot(c, l, step, |l.many|) ==>
              SurvivesAt(c.op, ViewOf(l), step, Lhs, x) || SurvivesAt(c.op, ViewOf(l), step, Rhs, x)
  {
    SetGotIs(c, l, len, step, |l.many|);
    ManyIs(l, len, step);
    hide ViewOf, CellAt, ManyAt, SetGot, Keeps;
    if x in SetGot(c, l, step, |l.many|) {
      var m :| 0 <= m < |l.many| && KeptAt(c, l, step, m) && l.many[m].labels == x;
      KeptSurvives(c, l, step, m);
    }
  }

  lemma KeptSurvives(c: Config, l: Lanes, step: nat, m: nat)
    requires KeptAt(c, l, step, m) && ManyAt(ViewOf(l), step, KeyOf(l.many[m])) == CellAt(l.many[m], step)
    ensures SurvivesAt(c.op, ViewOf(l), step, Lhs, l.many[m].labels)
            || SurvivesAt(c.op, ViewOf(l), step, Rhs, l.many[m].labels)
  {
    hide ViewOf, CellAt, ManyAt, Keeps;
    var side := l.many[m].side;
    assert SurvivesAt(c.op, ViewOf(l), step, side, l.many[m].labels);
    match side case Lhs => case Rhs =>
  }

  lemma SetAtIs(op: Op, v: View, step: nat, x: Labels)
    ensures var got, l, r := SetAt(op, v)(step, x), SurvivesAt(op, v, step, Lhs, x), SurvivesAt(op, v, step, Rhs, x);
            && (got.None? ==> !l && !r)
            && (got.Some? ==>
                  || (l && got.value == Kept(ManyAt(v, step, Key(Lhs, x)).value))
                  || (r && got.value == Kept(ManyAt(v, step, Key(Rhs, x)).value)))
  {
    hide ManyAt, Keeps;
  }

  ghost predicate SurvivesAt(op: Op, v: View, step: nat, side: Side, x: Labels) {
    ManyAt(v, step, Key(side, x)).Some? && Keeps(op, v, step, side)
  }

  lemma SetIsIndexed(g: Grid, at: (nat, Labels) -> Option<Operands>, t: Table, step: nat, got: map<Labels, Operands>)
    requires Built(g, at, t, step, got, false)
    ensures Indexed(t)
    ensures forall x :: x in t.byLabels ==> t.byLabels[x] < |t.buckets| && t.buckets[t.byLabels[x]].labels == x
  {
    hide BucketHolds;
  }

  lemma NothingGot(c: Config, l: Lanes, step: nat, todo: seq<Todo>)
    requires step < |ViewOf(l).one|
    ensures GotTo(c, l, step, todo, 0) == map[] && Unique(c, l, step, todo, 0)
  {
  }

  lemma CachesNone(c: Config, l: Lanes)
    ensures Caches(c, l, map[], NO_TABLE)
  {
  }

  lemma CachesAt(c: Config, l: Lanes, byPair: map<(Option<nat>, int), nat>, t: Table, pair: (Option<nat>, int))
    requires Caches(c, l, byPair, t)
    ensures pair in byPair ==>
              byPair[pair] < |t.buckets| && t.buckets[byPair[pair]].labels == CodeLabels(c, l, pair.0, pair.1)
  {
    hide CodeLabels;
  }

  lemma BuiltIsIndexed(g: Grid, at: (nat, Labels) -> Option<Operands>, t: Table, step: nat, got: map<Labels, Operands>)
    requires Built(g, at, t, step, got, true)
    ensures Indexed(t)
    ensures forall x :: x in t.byLabels ==> t.byLabels[x] < |t.buckets| && t.buckets[t.byLabels[x]].labels == x
  {
    hide BucketHolds;
  }

  lemma PairLabelsAre(c: Config, l: Lanes, len: nat, step: nat, todo: seq<Todo>, j: nat)
    requires MatchLanes.Sound(l, len) && step < len && l.oneCounts[step] <= 1 && |ViewOf(l).one| == len
    requires j < |todo| && Lists(c, l, step, todo)
    ensures step < |l.oneCounts| && step < |l.oneRows|
    ensures TodoLabels(c, l, step, todo[j]) == CodeLabels(c, l, todo[j].many, OneRowAt(l, step))
  {
    CellIs(l, len, step);
    hide ViewOf, CodeLabels, PairLabels, Pairs, PairOperands;
    assert ListedPair(c, l, step, todo[j]);
    LabelsAre(c, l, len, step, todo[j].many);
  }

  /** A bucket already claimed at this step is one an earlier pair took. */
  lemma Claims(c: Config, g: Grid, l: Lanes, step: nat, todo: seq<Todo>, j: nat, t: Table, b: nat)
    requires step < |ViewOf(l).one| && j < |todo| && Lists(c, l, step, todo) && Unique(c, l, step, todo, j)
    requires Built(g, PairAt(c, ViewOf(l)), t, step, GotTo(c, l, step, todo, j), true)
    requires b < |t.buckets| && t.buckets[b].labels == TodoLabels(c, l, step, todo[j])
    ensures t.buckets[b].claimed == Some(step) ==> TwoCollide(c, ViewOf(l), step)
    ensures t.buckets[b].claimed != Some(step) ==>
              && Unique(c, l, step, todo, j + 1)
              && var p := Paired(Timestamp(g, step), Operated(c, todo[j].manyValue, todo[j].oneValue));
                 Built(g, PairAt(c, ViewOf(l)), Placed(t, b, p, Some(step)), step, GotTo(c, l, step, todo, j + 1), true)
  {
    hide *;
    var got, x := GotTo(c, l, step, todo, j), TodoLabels(c, l, step, todo[j]);
    ClaimIs(g, PairAt(c, ViewOf(l)), t, step, got, b);
    GotIs(c, l, step, todo, j);
    if x in got {
      var i :| 0 <= i < j && TodoLabels(c, l, step, todo[i]) == x;
      StepCollides(c, l, step, todo, i, j);
    } else {
      UniqueNext(c, l, step, todo, j);
      BuiltPlaces(g, PairAt(c, ViewOf(l)), t, step, got, true, b, Operated(c, todo[j].manyValue, todo[j].oneValue),
                  Some(step));
      GotNext(c, l, step, todo, j);
    }
  }

  lemma ClaimIs(g: Grid, at: (nat, Labels) -> Option<Operands>, t: Table, step: nat, got: map<Labels, Operands>, b: nat)
    requires Built(g, at, t, step, got, true) && b < |t.buckets|
    ensures t.buckets[b].claimed == Some(step) <==> t.buckets[b].labels in got
  {
    hide SamplesTo;
    assert BucketHolds(g, at, t.buckets[b], step, got, true);
  }

  lemma GotNext(c: Config, l: Lanes, step: nat, todo: seq<Todo>, j: nat)
    requires step < |ViewOf(l).one| && j < |todo|
    ensures GotTo(c, l, step, todo, j + 1) ==
            GotTo(c, l, step, todo, j)[TodoLabels(c, l, step, todo[j]) := Operated(c, todo[j].manyValue,
                todo[j].oneValue)]
  {
  }

  lemma UniqueNext(c: Config, l: Lanes, step: nat, todo: seq<Todo>, j: nat)
    requires step < |ViewOf(l).one| && j < |todo| && Unique(c, l, step, todo, j)
    requires forall i :: 0 <= i < j ==> TodoLabels(c, l, step, todo[i]) in GotTo(c, l, step, todo, j)
    requires TodoLabels(c, l, step, todo[j]) !in GotTo(c, l, step, todo, j)
    ensures Unique(c, l, step, todo, j + 1)
  {
    hide TodoLabels, GotTo;
  }

  /** A step's failure by its parts. */
  lemma FailureIs(c: Config, v: View, step: nat)
    requires step < |v.one|
    ensures Failure(c, v, step) ==
            if !AnyMany(v, step) && FillOne(c).None? && FillMany(c).None? then None
            else if v.one[step].Several? then Some(Duplicate)
            else if c.matching.card.OneToOne? && TwoPair(c, v, step) then Some(MultipleMatches)
            else if TwoCollide(c, v, step) then Some(GroupingNotUnique)
            else None
  {
    hide AnyMany, TwoPair, TwoCollide;
  }

  /** A skipped step answers nothing. */
  lemma SkippedStep(c: Config, g: Grid, l: Lanes, step: nat, t: Table)
    requires step < |ViewOf(l).one| && Built(g, PairAt(c, ViewOf(l)), t, step, map[], true)
    requires !AnyMany(ViewOf(l), step) && FillOne(c).None? && FillMany(c).None?
    ensures Built(g, PairAt(c, ViewOf(l)), t, step + 1, map[], true)
  {
    hide ViewOf, Built, PairLabels, PairOperands, ManyAt;
    NoMany(ViewOf(l), step);
    assert Complete(PairAt(c, ViewOf(l)), step, map[]);
    BuiltSteps(g, PairAt(c, ViewOf(l)), t, step, map[], true);
  }

  lemma ListsNone(l: Lanes, step: nat, one: Value)
    ensures ListsTo(l, step, one, [], 0)
  {
  }
}
