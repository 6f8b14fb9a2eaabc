/** The collector's last pass: rows ordered by label set and block start, two
    rows of one label set refused if they share a timestamp. */
module Finalize {
  import opened Permutations
  import opened Ordering
  import opened LabelOrder
  import opened Overlaps
  import opened MatchState

  datatype Row = Row(labels: Labels, start: int, ts: seq<int>)

  /** A row by its batch and its place there. */
  datatype Ref = Ref(batch: int, row: int)

  // ── Rows of one label set ──

  lemma ShareFlips(a: seq<int>, b: seq<int>)
    ensures Share(a, b) <==> Share(b, a)
  {
  }

  lemma NoneSharedRest(a: seq<seq<int>>, x: seq<int>)
    ensures NoneShared(a + [x]) <==> NoneShared(a) && forall i :: 0 <= i < |a| ==> !Share(a[i], x)
  {
    hide Share;
    var b := a + [x];
    assert forall i :: 0 <= i < |a| ==> b[i] == a[i];
    if NoneShared(b) {
      forall i | 0 <= i < |a| ensures !Share(a[i], x) { assert !Share(b[i], b[|a|]); }
      forall i, j | 0 <= i < j < |a| ensures !Share(a[i], a[j]) { assert !Share(b[i], b[j]); }
    }
  }

  lemma NoneSharedMiddle(before: seq<seq<int>>, x: seq<int>, after: seq<seq<int>>)
    requires NoneShared(before + after) && forall y :: y in before + after ==> !Share(y, x)
    ensures NoneShared(before + [x] + after)
  {
    hide Share;
    var all, rest := before + [x] + after, before + after;
    forall i, j | 0 <= i < j < |all| ensures !Share(all[i], all[j]) {
      var i', j' := if i > |before| then i - 1 else i, if j > |before| then j - 1 else j;
      ShareFlips(all[i], all[j]);
      assert i != |before| ==> all[i] == rest[i'];
      assert j != |before| ==> all[j] == rest[j'];
    }
  }

  /** Sharing does not depend on the order the rows are taken in. */
  lemma {:induction false} NoneSharedPermuted(a: seq<seq<int>>, b: seq<seq<int>>)
    requires multiset(a) == multiset(b) && NoneShared(a)
    ensures NoneShared(b)
    decreases |a|
  {
    hide NoneShared, Share;
    SameLength(a, b);
    if a == [] {
      assert b == a;
    } else {
      var j := TakeLast(a, b);
      var rest, before, after, x := a[..|a| - 1], b[..j], b[j + 1..], b[j];
      assert a == rest + [x];
      NoneSharedRest(rest, x);
      NoneSharedPermuted(rest, before + after);
      forall y | y in before + after ensures !Share(y, x) {
        assert y in multiset(before + after);
        assert y in multiset(rest);
        var i :| 0 <= i < |rest| && rest[i] == y;
      }
      NoneSharedMiddle(before, x, after);
    }
  }

  ghost predicate AllClimb(spans: seq<seq<int>>) {
    forall i :: 0 <= i < |spans| ==> Climbing(spans[i])
  }

  /** Everything in the rows comes no later than `last`. */
  ghost predicate Within(spans: seq<seq<int>>, last: Time) {
    forall i, t :: 0 <= i < |spans| && t in spans[i] ==> last.At? && t <= last.t
  }

  lemma SeparateNext(spans: seq<seq<int>>, i: nat, last: Time)
    requires i < |spans| && AllClimb(spans) && NoneShared(spans[..i]) && Within(spans[..i], last)
    requires spans[i] != [] ==> last.Never? || last.t < spans[i][0]
    ensures NoneShared(spans[..i + 1])
    ensures Within(spans[..i + 1], if spans[i] == [] then last else At(spans[i][|spans[i]| - 1]))
  {
    assert spans[..i + 1] == spans[..i] + [spans[i]];
    assert Climbing(spans[i]);
    forall t | t in spans[i]
      ensures spans[i] != [] && spans[i][0] <= t <= spans[i][|spans[i]| - 1]
    {
      LastIsMost(spans[i], t);
    }
    forall k | 0 <= k < i ensures !Share(spans[..i][k], spans[i]) {
      assert forall t :: t in spans[..i][k] ==> last.At? && t <= last.t;
    }
    NoneSharedRest(spans[..i], spans[i]);
    hide NoneShared, Climbing;
  }

  /** The first and last timestamps alone: rows one after another share nothing. */
  method Separated(spans: seq<seq<int>>) returns (disjoint: bool)
    requires AllClimb(spans)
    ensures disjoint ==> NoneShared(spans)
  {
    hide NoneShared, AllClimb, Within;
    var last := Never;
    Nothing(spans);
    for i := 0 to |spans|
      invariant NoneShared(spans[..i]) && Within(spans[..i], last)
    {
      if spans[i] != [] && last.At? && last.t >= spans[i][0] { return false; }
      SeparateNext(spans, i, last);
      if spans[i] != [] { last := At(spans[i][|spans[i]| - 1]); }
    }
    assert spans[..|spans|] == spans;
    disjoint := true;
  }

  lemma Nothing(spans: seq<seq<int>>)
    ensures NoneShared(spans[..0]) && Within(spans[..0], Never)
  {
  }

  lemma EmptyShares(spans: seq<seq<int>>)
    ensures NoneShared(spans + [[]]) <==> NoneShared(spans)
  {
    NoneSharedRest(spans, []);
  }

  lemma Members(spans: seq<seq<int>>, i: nat)
    requires i < |spans|
    ensures spans[..i + 1] == spans[..i] + [spans[i]]
    ensures forall x :: x in spans[..i + 1] <==> x in spans[..i] || x == spans[i]
  {
    assert spans[..i + 1] == spans[..i] + [spans[i]];
  }

  /** Empty rows share nothing. */
  method NonEmpty(spans: seq<seq<int>>) returns (kept: seq<seq<int>>)
    requires AllClimb(spans)
    ensures Spans(kept) && (NoneShared(kept) <==> NoneShared(spans))
  {
    hide NoneShared, Climbing;
    kept := [];
    Nothing(spans);
    assert spans[..0] == [];
    for i := 0 to |spans|
      invariant Spans(kept) && (NoneShared(kept) <==> NoneShared(spans[..i]))
      invariant forall x :: x in kept <==> x in spans[..i] && x != []
    {
      Members(spans, i);
      if spans[i] == [] {
        EmptyShares(spans[..i]);
      } else {
        SameNext(kept, spans[..i], spans[i]);
        kept := kept + [spans[i]];
      }
    }
    assert spans[..|spans|] == spans;
  }

  lemma SameNext(a: seq<seq<int>>, b: seq<seq<int>>, x: seq<int>)
    requires NoneShared(a) <==> NoneShared(b)
    requires forall y :: y in a <==> y in b && y != []
    ensures NoneShared(a + [x]) <==> NoneShared(b + [x])
  {
    hide NoneShared;
    NoneSharedRest(a, x);
    NoneSharedRest(b, x);
    forall i | 0 <= i < |a| ensures a[i] in b { assert a[i] in a; }
    forall j | 0 <= j < |b| ensures b[j] == [] || b[j] in a { assert b[j] in b; }
    assert forall j :: 0 <= j < |b| && b[j] == [] ==> !Share(b[j], x);
  }

  ghost predicate ByFirst(spans: seq<seq<int>>) {
    Spans(spans) && forall i, j :: 0 <= i < j < |spans| ==> spans[i][0] <= spans[j][0]
  }

  /** Sorted by first timestamp. */
  method SortByFirst(spans: seq<seq<int>>) returns (sorted: seq<seq<int>>)
    requires Spans(spans)
    ensures ByFirst(sorted) && multiset(sorted) == multiset(spans)
  {
    hide ByFirst, Spans;
    sorted := [];
    ByFirstNone();
    for n := 0 to |spans|
      invariant ByFirst(sorted) && multiset(sorted) == multiset(spans[..n])
    {
      var i := 0;
      FirstOf(spans, n);
      BoundsOf(sorted);
      while i < |sorted| && sorted[i][0] <= spans[n][0]
        invariant i <= |sorted| && forall j :: 0 <= j < i ==> sorted[j][0] <= spans[n][0]
      {
        i := i + 1;
      }
      ByFirstInserts(sorted, i, spans[n]);
      Moved(sorted, spans, n, i);
      sorted := sorted[..i] + [spans[n]] + sorted[i..];
    }
    assert spans[..|spans|] == spans;
  }

  lemma ByFirstNone()
    ensures ByFirst([])
  {
  }

  lemma FirstOf(spans: seq<seq<int>>, n: nat)
    requires Spans(spans) && n < |spans|
    ensures spans[n] != [] && Climbing(spans[n])
  {
  }

  lemma ByFirstInserts(sorted: seq<seq<int>>, i: nat, x: seq<int>)
    requires ByFirst(sorted) && i <= |sorted| && x != [] && Climbing(x)
    requires forall j :: 0 <= j < i ==> sorted[j] != [] && sorted[j][0] <= x[0]
    requires i < |sorted| ==> sorted[i] != [] && x[0] <= sorted[i][0]
    ensures ByFirst(sorted[..i] + [x] + sorted[i..])
  {
    hide Climbing;
    var r := sorted[..i] + [x] + sorted[i..];
    forall j | 0 <= j < |r| ensures r[j] == if j < i then sorted[j] else if j == i then x else sorted[j - 1] {}
  }

  lemma Moved(sorted: seq<seq<int>>, spans: seq<seq<int>>, n: nat, i: nat)
    requires n < |spans| && i <= |sorted| && multiset(sorted) == multiset(spans[..n])
    ensures multiset(sorted[..i] + [spans[n]] + sorted[i..]) == multiset(spans[..n + 1])
  {
    assert spans[..n + 1] == spans[..n] + [spans[n]];
    assert sorted == sorted[..i] + sorted[i..];
    Middle(sorted[..i], spans[n], sorted[i..]);
  }

  /** Rows before `n` share nothing, and end before row `n` and all after it begin. */
  ghost predicate ClearTo(spans: seq<seq<int>>, n: nat)
    requires n <= |spans| && Spans(spans)
  {
    && NoneShared(spans[..n])
    && forall i, j, t :: 0 <= i < n <= j < |spans| && t in spans[i] ==> t < spans[j][0]
  }

  /** A connected group: no later than `last`, which some row of it reaches. */
  ghost predicate Connected(spans: seq<seq<int>>, start: nat, end: nat, last: int)
    requires start < end <= |spans|
  {
    forall i, t :: start <= i < end && t in spans[i] ==> t <= last
  }

  lemma GroupStarts(spans: seq<seq<int>>, start: nat)
    requires ByFirst(spans) && start < |spans|
    ensures Connected(spans, start, start + 1, spans[start][|spans[start]| - 1])
  {
    forall t | t in spans[start] ensures t <= spans[start][|spans[start]| - 1] { LastIsMost(spans[start], t); }
  }

  lemma GroupGrows(spans: seq<seq<int>>, start: nat, end: nat, last: int)
    requires ByFirst(spans) && start < end < |spans| && Connected(spans, start, end, last)
    ensures var l := spans[end][|spans[end]| - 1]; Connected(spans, start, end + 1, if l > last then l else last)
  {
    forall t | t in spans[end] ensures t <= spans[end][|spans[end]| - 1] { LastIsMost(spans[end], t); }
  }

  /** A group that shares nothing, with nothing later beginning inside it. */
  lemma GroupClears(spans: seq<seq<int>>, start: nat, end: nat, last: int)
    requires ByFirst(spans) && start < end <= |spans| && ClearTo(spans, start) && Connected(spans, start, end, last)
    requires NoneShared(spans[start..end]) && (end < |spans| ==> last < spans[end][0])
    ensures ClearTo(spans, end)
  {
    hide NoneShared;
    forall i, j | 0 <= i < j < end ensures !Share(spans[i], spans[j]) {
      if j < start {
        SharedWithin(spans, 0, start, i, j);
        assert spans[0..start] == spans[..start];
      } else if start <= i {
        SharedWithin(spans, start, end, i, j);
      } else {
        assert forall t :: t in spans[j] ==>
                 spans[j][0] <= t by { forall t | t in spans[j] ensures spans[j][0] <= t { LastIsMost(spans[j], t); } }
      }
    }
    WithinShared(spans, end);
    forall i, j, t | 0 <= i < end <= j < |spans| && t in spans[i] ensures t < spans[j][0] {
      assert spans[end][0] <= spans[j][0];
    }
  }

  lemma SharedWithin(spans: seq<seq<int>>, lo: nat, hi: nat, i: nat, j: nat)
    requires lo <= i < j < hi <= |spans| && NoneShared(spans[lo..hi])
    ensures !Share(spans[i], spans[j])
  {
    hide Share;
    assert spans[lo..hi][i - lo] == spans[i] && spans[lo..hi][j - lo] == spans[j];
  }

  lemma WithinShared(spans: seq<seq<int>>, n: nat)
    requires n <= |spans| && forall i, j :: 0 <= i < j < n ==> !Share(spans[i], spans[j])
    ensures NoneShared(spans[..n])
  {
    hide Share;
  }

  lemma SharedPart(spans: seq<seq<int>>, lo: nat, hi: nat)
    requires lo <= hi <= |spans| && NoneShared(spans)
    ensures NoneShared(spans[lo..hi])
  {
    hide Share;
  }

  lemma OneShares(spans: seq<seq<int>>, i: nat)
    requires i < |spans|
    ensures NoneShared(spans[i..i + 1])
  {
  }

  lemma SpansPart(spans: seq<seq<int>>, lo: nat, hi: nat)
    requires lo <= hi <= |spans| && ByFirst(spans)
    ensures Spans(spans[lo..hi])
  {
    hide Climbing;
  }

  lemma BoundsOf(spans: seq<seq<int>>)
    requires ByFirst(spans)
    ensures Spans(spans) && forall i :: 0 <= i < |spans| ==> spans[i] != []
  {
    hide Climbing;
  }

  lemma NothingClear(spans: seq<seq<int>>)
    requires ByFirst(spans)
    ensures ClearTo(spans, 0)
  {
  }

  lemma AllClear(spans: seq<seq<int>>)
    requires Spans(spans) && ClearTo(spans, |spans|)
    ensures NoneShared(spans)
  {
    assert spans[..|spans|] == spans;
    hide NoneShared, Spans;
  }

  /** Connected overlaps are walked, each on its own. */
  method RejectGroups(spans: seq<seq<int>>) returns (ok: bool)
    requires ByFirst(spans)
    ensures ok <==> NoneShared(spans)
  {
    hide ByFirst, NoneShared, Spans, ClearTo, Connected;
    BoundsOf(spans);
    NothingClear(spans);
    var start := 0;
    while start < |spans|
      invariant start <= |spans| && ClearTo(spans, start)
    {
      var end, last := start + 1, spans[start][|spans[start]| - 1];
      GroupStarts(spans, start);
      while end < |spans| && spans[end][0] <= last
        invariant start < end <= |spans| && Connected(spans, start, end, last)
      {
        GroupGrows(spans, start, end, last);
        if spans[end][|spans[end]| - 1] > last { last := spans[end][|spans[end]| - 1]; }
        end := end + 1;
      }
      OneShares(spans, start);
      if end - start > 1 {
        SpansPart(spans, start, end);
        ok := RejectOverlapping(spans[start..end]);
        if NoneShared(spans) { SharedPart(spans, start, end); }
        if !ok { return; }
      }
      GroupClears(spans, start, end, last);
      start := end;
    }
    AllClear(spans);
    ok := true;
  }

  /** The rows of one label set: refused just when two share a timestamp. */
  method RejectRun(spans: seq<seq<int>>) returns (ok: bool)
    requires AllClimb(spans)
    ensures ok <==> NoneShared(spans)
  {
    hide NoneShared, AllClimb, Spans, ByFirst;
    ok := Separated(spans);
    if ok { return; }
    var kept := NonEmpty(spans);
    var sorted := SortByFirst(kept);
    ok := RejectGroups(sorted);
    if ok { NoneSharedPermuted(sorted, kept); }
    if NoneShared(kept) { NoneSharedPermuted(kept, sorted); }
  }

  // ── Rows in label order ──

  /** `labels.Compare`, then block start. */
  function RowCmp(names: seq<string>, x: Row, y: Row): int {
    var c := SparseCmp(names, x.labels, y.labels);
    if c != 0 then c else x.start - y.start
  }

  function PositionCmp(x: Ref, y: Ref): int {
    if x.batch != y.batch then x.batch - y.batch else x.row - y.row
  }

  function RowAt(batches: seq<seq<Row>>, at: Ref): Row {
    if 0 <= at.batch < |batches| && 0 <= at.row < |batches[at.batch]| then batches[at.batch][at.row] else Row([], 0, [])
  }

  /** The order of a stable sort: rows that compare equal keep their places. */
  function StableCmp(names: seq<string>, batches: seq<seq<Row>>): (Ref, Ref) -> int {
    (x: Ref, y: Ref) =>
      var c := RowCmp(names, RowAt(batches, x), RowAt(batches, y));
      if c != 0 then c else PositionCmp(x, y)
  }

  lemma RowsOrder(names: seq<string>, x: Row, y: Row, z: Row)
    ensures RowCmp(names, x, y) < 0 <==> RowCmp(names, y, x) > 0
    ensures RowCmp(names, x, y) <= 0 && RowCmp(names, y, z) <= 0 ==> RowCmp(names, x, z) <= 0
    ensures RowCmp(names, x, y) <= 0 && RowCmp(names, y, z) <= 0 && RowCmp(names, x, z) == 0 ==>
              RowCmp(names, x, y) == 0 && RowCmp(names, y, z) == 0
    ensures RowCmp(names, x, x) == 0
  {
    PairsOrder();
    LexOrders(PairCmp());
    hide Sparse, PairCmp, Lexicographic;
    Ordered(Lex(PairCmp()), Sparse(names, x.labels, 0), Sparse(names, y.labels, 0), Sparse(names, z.labels, 0));
    hide Orders;
    SparseFlips(names, x.labels, y.labels);
    SparseFlips(names, y.labels, z.labels);
    SparseFlips(names, x.labels, z.labels);
    SparseFlips(names, x.labels, x.labels);
  }

  lemma SparseFlips(names: seq<string>, a: Labels, b: Labels)
    ensures SparseCmp(names, a, b) < 0 <==> SparseCmp(names, b, a) > 0
    ensures SparseCmp(names, a, b) == 0 <==> SparseCmp(names, b, a) == 0
    ensures SparseCmp(names, a, b) == Lex(PairCmp())(Sparse(names, a, 0), Sparse(names, b, 0))
    ensures SparseCmp(names, a, a) == 0
  {
    PairsOrder();
    LexFlips(PairCmp(), Sparse(names, a, 0), Sparse(names, b, 0));
    LexFlips(PairCmp(), Sparse(names, b, 0), Sparse(names, a, 0));
    LexEqual(PairCmp(), Sparse(names, a, 0), Sparse(names, a, 0));
    hide Sparse, PairCmp, Lexicographic;
  }

  lemma StableOrders(names: seq<string>, batches: seq<seq<Row>>)
    ensures Orders(StableCmp(names, batches))
  {
    hide RowCmp, RowAt;
    var cmp := StableCmp(names, batches);
    forall x: Ref, y: Ref, z: Ref
      ensures cmp(x, y) == 0 <==> x == y
      ensures cmp(x, y) < 0 <==> cmp(y, x) > 0
      ensures cmp(x, y) <= 0 && cmp(y, z) <= 0 ==> cmp(x, z) <= 0
    {
      RowsOrder(names, RowAt(batches, x), RowAt(batches, y), RowAt(batches, z));
      RowsOrder(names, RowAt(batches, y), RowAt(batches, x), RowAt(batches, x));
    }
    OrdersWhen(cmp);
  }

  /** Every row has a value for each label name. */
  ghost predicate Schema(names: seq<string>, batches: seq<seq<Row>>) {
    && Climbs(StringCmp(), names)
    && forall b, r :: 0 <= b < |batches| && 0 <= r < |batches[b]| ==> |batches[b][r].labels| == |names|
  }

  ghost predicate IsRef(batches: seq<seq<Row>>, at: Ref) {
    0 <= at.batch < |batches| && 0 <= at.row < |batches[at.batch]|
  }

  /** The comparison of two rows, column by column, then by block start. */
  method CompareRefs(names: seq<string>, batches: seq<seq<Row>>, x: Ref, y: Ref) returns (cmp: int)
    requires Schema(names, batches) && IsRef(batches, x) && IsRef(batches, y)
    ensures SameSign(cmp, RowCmp(names, RowAt(batches, x), RowAt(batches, y)))
  {
    hide Climbs, StringCmp, Compare;
    var a, b := batches[x.batch][x.row], batches[y.batch][y.row];
    CompareIsSparse(names, a.labels, b.labels, 0);
    cmp := CompareRows(a.labels, b.labels);
    if cmp == 0 { cmp := a.start - b.start; }
  }

  /** Every row once, batch by batch. */
  function RefsOf(batches: seq<seq<Row>>, b: nat): seq<Ref>
    requires b <= |batches|
  {
    if b == 0 then [] else RefsOf(batches, b - 1) + seq(|batches[b - 1]|, r requires 0 <= r < |batches[b - 1]| =>
                                                        Ref(b - 1, r))
  }

  lemma {:induction false} RefsClimb(batches: seq<seq<Row>>, b: nat)
    requires b <= |batches|
    ensures forall at :: at in RefsOf(batches, b) <==> IsRef(batches, at) && at.batch < b
    ensures forall i, j :: 0 <= i < j < |RefsOf(batches, b)| ==>
              PositionCmp(RefsOf(batches, b)[i], RefsOf(batches, b)[j]) < 0
  {
    if b > 0 {
      RefsClimb(batches, b - 1);
      BatchRefs(batches, b - 1);
      var before := RefsOf(batches, b - 1);
      assert forall i :: 0 <= i < |before| ==> before[i] in before;
    }
  }

  lemma BatchRefs(batches: seq<seq<Row>>, b: nat)
    requires b < |batches|
    ensures var more := seq(|batches[b]|, r requires 0 <= r < |batches[b]| => Ref(b, r));
            forall at :: at in more <==> IsRef(batches, at) && at.batch == b
  {
    var more := seq(|batches[b]|, r requires 0 <= r < |batches[b]| => Ref(b, r));
    forall at | IsRef(batches, at) && at.batch == b ensures at in more { assert more[at.row] == at; }
  }

  /** The rows in order, each once. */
  ghost predicate Sorted(names: seq<string>, batches: seq<seq<Row>>, order: seq<Ref>) {
    && Climbs(StableCmp(names, batches), order)
    && forall at :: at in order <==> IsRef(batches, at)
  }

  /** There is only one stable order. */
  lemma SortedOnce(names: seq<string>, batches: seq<seq<Row>>, a: seq<Ref>, b: seq<Ref>)
    requires Sorted(names, batches, a) && Sorted(names, batches, b)
    ensures a == b
  {
    hide StableCmp, Climbs, Orders;
    StableOrders(names, batches);
    ClimbsOnce(StableCmp(names, batches), a, b);
  }

  /** Whether the rows came in order already. */
  method IsSorted(names: seq<string>, batches: seq<seq<Row>>, refs: seq<Ref>) returns (sorted: bool)
    requires Schema(names, batches) && forall i :: 0 <= i < |refs| ==> IsRef(batches, refs[i])
    requires forall i, j :: 0 <= i < j < |refs| ==> PositionCmp(refs[i], refs[j]) < 0
    ensures sorted ==> Climbs(StableCmp(names, batches), refs)
  {
    hide Schema, IsRef, RowCmp, RowAt, Climbs, PositionCmp;
    var i := 1;
    while i < |refs|
      invariant 1 <= i && forall j :: 1 <= j < i && j < |refs| ==> StableCmp(names, batches)(refs[j - 1], refs[j]) < 0
    {
      var cmp := CompareRefs(names, batches, refs[i - 1], refs[i]);
      if cmp > 0 { return false; }
      i := i + 1;
    }
    hide StableCmp;
    StableOrders(names, batches);
    StepsClimb(StableCmp(names, batches), refs);
    sorted := true;
  }

  lemma {:induction false} StepsClimb<T(!new)>(cmp: (T, T) -> int, xs: seq<T>)
    requires Orders(cmp) && forall i :: 1 <= i < |xs| ==> cmp(xs[i - 1], xs[i]) < 0
    ensures Climbs(cmp, xs)
    decreases |xs|
  {
    if |xs| > 1 {
      var n := |xs| - 1;
      StepsClimb(cmp, xs[..n]);
      forall i | 0 <= i < n ensures cmp(xs[i], xs[n]) < 0 {
        assert i < n - 1 ==> cmp(xs[..n][i], xs[..n][n - 1]) < 0;
        Ordered(cmp, xs[i], xs[n - 1], xs[n]);
      }
      hide Orders;
      forall i, j | 0 <= i < j < |xs|
        ensures cmp(xs[i], xs[j]) < 0
      {
        assert j < n ==> cmp(xs[..n][i], xs[..n][j]) < 0;
      }
    }
  }

  /** One more row, after every one it does not come before. */
  method InsertRef(names: seq<string>, batches: seq<seq<Row>>, order: seq<Ref>, x: Ref) returns (r: seq<Ref>)
    requires Schema(names, batches) && IsRef(batches, x) && Climbs(StableCmp(names, batches), order)
    requires forall y :: y in order ==> IsRef(batches, y) && PositionCmp(y, x) < 0
    ensures Climbs(StableCmp(names, batches), r)
    ensures forall y :: y in r <==> y in order || y == x
  {
    hide Schema, IsRef, RowCmp, RowAt, Climbs, PositionCmp, Orders;
    var i := 0;
    StableOrders(names, batches);
    while i < |order|
      invariant i <= |order|
      invariant forall j :: 0 <= j < i ==> StableCmp(names, batches)(order[j], x) < 0
    {
      assert order[i] in order;
      var cmp := CompareRefs(names, batches, order[i], x);
      if cmp > 0 { break; }
      i := i + 1;
    }
    NotThere(order, x);
    hide StableCmp;
    Inserts(StableCmp(names, batches), order, i, x);
    r := order[..i] + [x] + order[i..];
    assert order == order[..i] + order[i..];
  }

  lemma NotThere(order: seq<Ref>, x: Ref)
    requires forall y :: y in order ==> PositionCmp(y, x) < 0
    ensures x !in order
  {
  }

  method SortRefs(names: seq<string>, batches: seq<seq<Row>>, refs: seq<Ref>) returns (order: seq<Ref>)
    requires Schema(names, batches) && forall at :: at in refs <==> IsRef(batches, at)
    requires forall i, j :: 0 <= i < j < |refs| ==> PositionCmp(refs[i], refs[j]) < 0
    ensures Sorted(names, batches, order)
  {
    hide Schema, IsRef, StableCmp, PositionCmp;
    order := [];
    for i := 0 to |refs|
      invariant Climbs(StableCmp(names, batches), order)
      invariant forall y :: y in order <==> y in refs[..i]
    {
      assert refs[i] in refs;
      forall y | y in order ensures IsRef(batches, y) && PositionCmp(y, refs[i]) < 0 {
        var j :| 0 <= j < i && refs[..i][j] == y;
        assert refs[j] in refs;
      }
      assert refs[..i + 1] == refs[..i] + [refs[i]];
      order := InsertRef(names, batches, order, refs[i]);
    }
    assert refs[..|refs|] == refs;
  }

  /** `OrderedRows::new`: sorted unless the rows came so. */
  method OrderRows(names: seq<string>, batches: seq<seq<Row>>) returns (order: seq<Ref>, already: bool)
    requires Schema(names, batches)
    ensures Sorted(names, batches, order)
    ensures already ==> order == RefsOf(batches, |batches|)
  {
    hide Schema, IsRef, StableCmp, PositionCmp, RefsOf;
    RefsClimb(batches, |batches|);
    RefsAll(batches);
    order := RefsOf(batches, |batches|);
    assert forall i :: 0 <= i < |order| ==> order[i] in order;
    already := IsSorted(names, batches, order);
    if !already { order := SortRefs(names, batches, order); }
  }

  lemma RefsAll(batches: seq<seq<Row>>)
    ensures forall at :: IsRef(batches, at) ==> at.batch < |batches|
  {
  }

  // ── Duplicates ──

  ghost predicate Twins(x: Row, y: Row) {
    x.labels == y.labels && Share(x.ts, y.ts)
  }

  /** No two different rows with one label set share a timestamp. */
  ghost predicate NoTwins(batches: seq<seq<Row>>) {
    forall x, y :: IsRef(batches, x) && IsRef(batches, y) && x != y ==> !Twins(RowAt(batches, x), RowAt(batches, y))
  }

  /** Rows before `n` are nobody's twin. */
  ghost predicate TwinlessTo(batches: seq<seq<Row>>, order: seq<Ref>, n: nat) {
    forall i, j :: 0 <= i < j < |order| && i < n ==> !Twins(RowAt(batches, order[i]), RowAt(batches, order[j]))
  }

  lemma TwinlessAll(names: seq<string>, batches: seq<seq<Row>>, order: seq<Ref>)
    requires Sorted(names, batches, order)
    ensures TwinlessTo(batches, order, |order|) <==> NoTwins(batches)
  {
    hide Twins, RowAt, StableCmp, IsRef;
    if TwinlessTo(batches, order, |order|) {
      forall x, y | IsRef(batches, x) && IsRef(batches, y) && x != y
        ensures !Twins(RowAt(batches, x), RowAt(batches, y))
      {
        assert x in order && y in order;
        var i :| 0 <= i < |order| && order[i] == x;
        var j :| 0 <= j < |order| && order[j] == y;
        TwinsFlip(RowAt(batches, x), RowAt(batches, y));
      }
    }
    if NoTwins(batches) {
      hide NoTwins;
      forall i, j | 0 <= i < j < |order| ensures !Twins(RowAt(batches, order[i]), RowAt(batches, order[j])) {
        assert order[i] in order && order[j] in order;
        DifferentRefs(names, batches, order, i, j);
        NotTwins(batches, order[i], order[j]);
      }
    }
  }

  lemma NotTwins(batches: seq<seq<Row>>, x: Ref, y: Ref)
    requires NoTwins(batches) && IsRef(batches, x) && IsRef(batches, y) && x != y
    ensures !Twins(RowAt(batches, x), RowAt(batches, y))
  {
    hide Twins, RowAt, IsRef;
  }

  lemma DifferentRefs(names: seq<string>, batches: seq<seq<Row>>, order: seq<Ref>, i: nat, j: nat)
    requires Sorted(names, batches, order) && i < j < |order|
    ensures order[i] != order[j]
  {
    hide StableCmp, Orders;
    StableOrders(names, batches);
    CmpSelf(StableCmp(names, batches), order[i]);
    assert StableCmp(names, batches)(order[i], order[j]) < 0;
  }

  lemma CmpSelf<T(!new)>(cmp: (T, T) -> int, x: T)
    requires Orders(cmp)
    ensures cmp(x, x) == 0
  {
  }

  lemma TwinsFlip(x: Row, y: Row)
    ensures Twins(x, y) <==> Twins(y, x)
  {
  }

  /** A run of one label set: rows `start..end`. */
  ghost predicate Run(batches: seq<seq<Row>>, order: seq<Ref>, start: nat, end: nat)
    requires start < end <= |order|
  {
    forall i :: start <= i < end ==> RowAt(batches, order[i]).labels == RowAt(batches, order[start]).labels
  }

  /** Past the end of its run a label set does not come again. */
  lemma LaterDiffers(names: seq<string>, batches: seq<seq<Row>>, order: seq<Ref>, start: nat, end: nat, j: nat)
    requires Schema(names, batches) && Sorted(names, batches, order) && start < end <= j < |order|
    requires RowAt(batches, order[end]).labels != RowAt(batches, order[start]).labels
    ensures RowAt(batches, order[j]).labels != RowAt(batches, order[start]).labels
  {
    InOrder(names, batches, order, start, end);
    if j > end { InOrder(names, batches, order, end, j); }
    var x, y, z := RowAt(batches, order[start]), RowAt(batches, order[end]), RowAt(batches, order[j]);
    assert order[start] in order && order[end] in order;
    Comparable(names, batches, order[start], order[end]);
    hide RowAt, Sorted, Schema, SparseCmp;
    SparseChains(names, x.labels, y.labels, z.labels);
  }

  lemma InOrder(names: seq<string>, batches: seq<seq<Row>>, order: seq<Ref>, i: nat, j: nat)
    requires Sorted(names, batches, order) && i < j < |order|
    ensures SparseCmp(names, RowAt(batches, order[i]).labels, RowAt(batches, order[j]).labels) <= 0
  {
    hide SparseCmp, RowAt, IsRef, PositionCmp;
    assert StableCmp(names, batches)(order[i], order[j]) < 0;
  }

  lemma Comparable(names: seq<string>, batches: seq<seq<Row>>, x: Ref, y: Ref)
    requires Schema(names, batches) && IsRef(batches, x) && IsRef(batches, y)
    ensures var a, b := RowAt(batches, x).labels, RowAt(batches, y).labels;
            |a| == |b| == |names| && (SparseCmp(names, a, b) == 0 <==> a == b) && (Compare(a, b, 0) == 0 <==> a == b)
  {
    var a, b := RowAt(batches, x).labels, RowAt(batches, y).labels;
    CompareIsSparse(names, a, b, 0);
    CompareEqual(a, b, 0);
    hide Compare, Climbs, StringCmp;
  }

  lemma SparseChains(names: seq<string>, a: Labels, b: Labels, c: Labels)
    requires SparseCmp(names, a, b) < 0 && (SparseCmp(names, b, c) <= 0 || b == c)
    ensures a != c
  {
    SparseFlips(names, a, b);
    SparseFlips(names, b, a);
    hide SparseCmp;
  }

  /** The timestamps of the rows `start..end`. */
  function SpansOf(batches: seq<seq<Row>>, order: seq<Ref>, start: nat, end: nat): seq<seq<int>>
    requires start <= end <= |order|
  {
    seq(end - start, i requires 0 <= i < end - start => RowAt(batches, order[start + i]).ts)
  }

  lemma RunClears(names: seq<string>, batches: seq<seq<Row>>, order: seq<Ref>, start: nat, end: nat)
    requires Schema(names, batches) && Sorted(names, batches, order) && start < end <= |order|
    requires TwinlessTo(batches, order, start) && Run(batches, order, start, end)
             && NoneShared(SpansOf(batches, order, start, end))
    requires end < |order| ==> RowAt(batches, order[end]).labels != RowAt(batches, order[start]).labels
    ensures TwinlessTo(batches, order, end)
  {
    hide RowAt, Schema, Sorted, Share;
    forall i, j | start <= i < end && i < j < |order|
      ensures !Twins(RowAt(batches, order[i]), RowAt(batches, order[j]))
    {
      if j < end {
        assert SpansOf(batches, order, start, end)[i - start] == RowAt(batches, order[i]).ts;
        assert SpansOf(batches, order, start, end)[j - start] == RowAt(batches, order[j]).ts;
      } else {
        LaterDiffers(names, batches, order, start, end, j);
      }
    }
  }

  lemma RunShares(batches: seq<seq<Row>>, order: seq<Ref>, start: nat, end: nat)
    requires start < end <= |order| && Run(batches, order, start, end) && TwinlessTo(batches, order, |order|)
    ensures NoneShared(SpansOf(batches, order, start, end))
  {
    hide RowAt, Share;
    forall i, j | 0 <= i < j < end - start
      ensures !Share(SpansOf(batches, order, start, end)[i], SpansOf(batches, order, start, end)[j])
    {
      assert !Twins(RowAt(batches, order[start + i]), RowAt(batches, order[start + j]));
    }
  }

  ghost predicate RowsClimb(batches: seq<seq<Row>>) {
    forall at :: IsRef(batches, at) ==> Climbing(RowAt(batches, at).ts)
  }

  lemma SpansClimb(batches: seq<seq<Row>>, order: seq<Ref>, start: nat, end: nat)
    requires RowsClimb(batches) && start <= end <= |order| && forall i :: 0 <= i < |order| ==> IsRef(batches, order[i])
    ensures AllClimb(SpansOf(batches, order, start, end))
  {
    hide Climbing, RowAt, IsRef;
  }

  lemma AreRefs(names: seq<string>, batches: seq<seq<Row>>, order: seq<Ref>)
    requires Sorted(names, batches, order)
    ensures forall i :: 0 <= i < |order| ==> IsRef(batches, order[i])
  {
    hide StableCmp, IsRef, Climbs;
    forall i | 0 <= i < |order| ensures IsRef(batches, order[i]) { assert order[i] in order; }
  }

  /** Each label set's run is checked once: an error just when two different
      rows with one label set share a timestamp. */
  method RejectSameLabelset(names: seq<string>, batches: seq<seq<Row>>, order: seq<Ref>) returns (ok: bool)
    requires Schema(names, batches) && Sorted(names, batches, order) && RowsClimb(batches)
    ensures ok <==> NoTwins(batches)
  {
    hide Schema, Sorted, IsRef, RowAt, RowsClimb, NoTwins, TwinlessTo, SpansOf, NoneShared, Compare;
    AreRefs(names, batches, order);
    TwinlessAll(names, batches, order);
    TwinlessNone(batches, order);
    var start := 0;
    while start < |order|
      invariant start <= |order| && TwinlessTo(batches, order, start)
    {
      var end, same := start + 1, true;
      while end < |order| && same
        invariant start < end <= |order| && Run(batches, order, start, end)
        invariant !same ==> end < |order| && RowAt(batches, order[end]).labels != RowAt(batches, order[start]).labels
        decreases |order| - end, same
      {
        Comparable(names, batches, order[start], order[end]);
        var a, b := Get(batches, order[start]), Get(batches, order[end]);
        var cmp := CompareRows(a.labels, b.labels);
        if cmp == 0 { end := end + 1; } else { same := false; }
      }
      OneSpan(batches, order, start);
      if end - start > 1 {
        SpansClimb(batches, order, start, end);
        if TwinlessTo(batches, order, |order|) { RunShares(batches, order, start, end); }
        ok := RejectRun(SpansOf(batches, order, start, end));
        if !ok { return; }
      }
      RunClears(names, batches, order, start, end);
      start := end;
    }
    ok := true;
  }

  function Get(batches: seq<seq<Row>>, at: Ref): (r: Row)
    requires IsRef(batches, at)
    ensures r == RowAt(batches, at)
  {
    batches[at.batch][at.row]
  }

  lemma TwinlessNone(batches: seq<seq<Row>>, order: seq<Ref>)
    ensures TwinlessTo(batches, order, 0)
  {
  }

  lemma OneSpan(batches: seq<seq<Row>>, order: seq<Ref>, start: nat)
    requires start < |order|
    ensures NoneShared(SpansOf(batches, order, start, start + 1))
  {
  }

  // ── Output ──

  /** The rows a list of places names. */
  function RowsIn(batches: seq<seq<Row>>, order: seq<Ref>): seq<Row> {
    seq(|order|, i requires 0 <= i < |order| => RowAt(batches, order[i]))
  }

  lemma {:induction false} RefsAreRows(batches: seq<seq<Row>>, b: nat)
    requires b <= |batches|
    ensures RowsIn(batches, RefsOf(batches, b)) == Flat(batches[..b])
  {
    if b > 0 {
      RefsAreRows(batches, b - 1);
      assert batches[..b][..b - 1] == batches[..b - 1];
      var before, more := RefsOf(batches, b - 1), seq(|batches[b - 1]|, r requires 0 <= r < |batches[b - 1]| =>
                                                      Ref(b - 1, r));
      assert RowsIn(batches, more) == batches[b - 1];
      assert RowsIn(batches, before + more) == RowsIn(batches, before) + RowsIn(batches, more);
    }
  }

  datatype Open = NoRun | OpenRun(batch: int, start: int, len: int)

  ghost predicate Inside(batches: seq<seq<Row>>, run: Open) {
    run.OpenRun? ==>
      0 <= run.batch < |batches| && 0 <= run.start && 0 < run.len && run.start + run.len <= |batches[run.batch]|
  }

  function Slice(batches: seq<seq<Row>>, run: Open): seq<Row>
    requires Inside(batches, run)
  {
    if run.NoRun? then [] else batches[run.batch][run.start..run.start + run.len]
  }

  lemma RowsNext(batches: seq<seq<Row>>, order: seq<Ref>, i: nat)
    requires i < |order|
    ensures RowsIn(batches, order[..i + 1]) == RowsIn(batches, order[..i]) + [RowAt(batches, order[i])]
    ensures RowsIn(batches, order[..0]) == []
  {
    hide RowAt;
  }

  lemma FlatAppend<T>(rows: seq<seq<T>>, row: seq<T>)
    ensures Flat(rows + [row]) == Flat(rows) + row
  {
    assert (rows + [row])[..|rows|] == rows;
  }

  /** Adjacent rows go out as one slice of their batch: the slices, end to end,
      are the rows in order. */
  method IntoBatches(batches: seq<seq<Row>>, order: seq<Ref>, already: bool) returns (out: seq<seq<Row>>)
    requires forall i :: 0 <= i < |order| ==> IsRef(batches, order[i])
    requires already ==> order == RefsOf(batches, |batches|)
    ensures Flat(out) == RowsIn(batches, order)
  {
    if already {
      RefsAreRows(batches, |batches|);
      assert batches[..|batches|] == batches;
      return batches;
    }
    hide RowsIn, Flat, RefsOf, RowAt, IsRef, Slice, Inside;
    out := [];
    var run := NoRun;
    NoRows(batches, order);
    for i := 0 to |order|
      invariant Inside(batches, run) && Flat(out) + Slice(batches, run) == RowsIn(batches, order[..i])
    {
      RowsNext(batches, order, i);
      out, run := TakeRow(batches, out, run, order[i]);
    }
    assert order[..|order|] == order;
    FlatAppend(out, Slice(batches, run));
    NoSlice(batches, run);
    if run.OpenRun? { out := out + [Slice(batches, run)]; }
  }

  lemma NoSlice(batches: seq<seq<Row>>, run: Open)
    requires Inside(batches, run)
    ensures run.NoRun? ==> Slice(batches, run) == []
  {
  }

  /** The next row extends the open run, or closes it and opens its own. */
  method TakeRow(batches: seq<seq<Row>>, out: seq<seq<Row>>, run: Open, at: Ref)
    returns (out': seq<seq<Row>>, run': Open)
    requires Inside(batches, run) && IsRef(batches, at)
    ensures Inside(batches, run') && Flat(out') + Slice(batches, run') == Flat(out) + Slice(batches, run) +
            [RowAt(batches, at)]
  {
    hide Flat;
    if run.OpenRun? && run.batch == at.batch && run.start + run.len == at.row {
      out', run' := out, run.(len := run.len + 1);
      assert Slice(batches, run') == Slice(batches, run) + [RowAt(batches, at)];
    } else {
      FlatAppend(out, Slice(batches, run));
      out', run' := if run.OpenRun? then out + [Slice(batches, run)] else out, OpenRun(at.batch, at.row, 1);
      assert Slice(batches, run') == [RowAt(batches, at)];
    }
  }

  lemma NoRows(batches: seq<seq<Row>>, order: seq<Ref>)
    ensures RowsIn(batches, order[..0]) == [] && Flat<Row>([]) == []
    ensures Inside(batches, NoRun) && Slice(batches, NoRun) == []
  {
  }

  /** `drop_empty`: rows with samples. */
  function Kept(rows: seq<Row>): seq<Row> {
    if rows == [] then []
    else Kept(rows[..|rows| - 1]) + (if rows[|rows| - 1].ts == [] then [] else [rows[|rows| - 1]])
  }

  function KeptIn(batches: seq<seq<Row>>): seq<seq<Row>> {
    seq(|batches|, b requires 0 <= b < |batches| => Kept(batches[b]))
  }

  datatype Outcome = Rows(batches: seq<seq<Row>>) | SameLabelset

  ghost predicate StableOrder(names: seq<string>, batches: seq<seq<Row>>, rows: seq<Row>) {
    exists order :: Sorted(names, batches, order) && rows == RowsIn(batches, order)
  }

  lemma {:induction false} KeptRows(rows: seq<Row>)
    ensures forall x :: x in Kept(rows) <==> x in rows && x.ts != []
  {
    if rows != [] {
      var n := |rows| - 1;
      KeptRows(rows[..n]);
      assert rows == rows[..n] + [rows[n]];
    }
  }

  /** A row kept has a place of its own among the rows before. */
  lemma {:induction false} KeptFrom(rows: seq<Row>, i: nat, j: nat) returns (p: nat, q: nat)
    requires i < j < |Kept(rows)|
    ensures p < q < |rows| && rows[p] == Kept(rows)[i] && rows[q] == Kept(rows)[j]
  {
    var n := |rows| - 1;
    if j < |Kept(rows[..n])| {
      p, q := KeptFrom(rows[..n], i, j);
    } else {
      KeptRows(rows[..n]);
      assert Kept(rows[..n])[i] in rows[..n];
      p :| 0 <= p < n && rows[..n][p] == Kept(rows[..n])[i];
      q := n;
    }
  }

  /** A row with samples keeps a place of its own. */
  lemma {:induction false} KeptTo(rows: seq<Row>, p: nat, q: nat) returns (i: nat, j: nat)
    requires p < q < |rows| && rows[p].ts != [] && rows[q].ts != []
    ensures i < j < |Kept(rows)| && rows[p] == Kept(rows)[i] && rows[q] == Kept(rows)[j]
  {
    var n := |rows| - 1;
    if q < n {
      i, j := KeptTo(rows[..n], p, q);
    } else {
      KeptRows(rows[..n]);
      assert rows[..n][p] in Kept(rows[..n]);
      i :| 0 <= i < |Kept(rows[..n])| && Kept(rows[..n])[i] == rows[p];
      j := |Kept(rows[..n])|;
    }
  }

  /** Dropping rows without samples drops no twins and makes none. */
  lemma KeptTwins(batches: seq<seq<Row>>)
    ensures NoTwins(KeptIn(batches)) <==> NoTwins(batches)
  {
    hide Twins, NoTwins;
    if NoTwins(batches) {
      forall x, y | IsRef(KeptIn(batches), x) && IsRef(KeptIn(batches), y) && x != y
        ensures !Twins(RowAt(KeptIn(batches), x), RowAt(KeptIn(batches), y))
      {
        var x', y' := TwinFrom(batches, x, y);
        NotTwins(batches, x', y');
      }
      NoTwinsWhen(KeptIn(batches));
    }
    if NoTwins(KeptIn(batches)) {
      forall x, y | IsRef(batches, x) && IsRef(batches, y) && x != y
        ensures !Twins(RowAt(batches, x), RowAt(batches, y))
      {
        if RowAt(batches, x).ts != [] && RowAt(batches, y).ts != [] {
          var x', y' := TwinTo(batches, x, y);
          NotTwins(KeptIn(batches), x', y');
        } else {
          EmptyTwins(RowAt(batches, x), RowAt(batches, y));
        }
      }
      NoTwinsWhen(batches);
    }
  }

  lemma NoTwinsWhen(batches: seq<seq<Row>>)
    requires forall x, y :: IsRef(batches, x) && IsRef(batches, y) && x != y ==>
               !Twins(RowAt(batches, x), RowAt(batches, y))
    ensures NoTwins(batches)
  {
    hide Twins, RowAt, IsRef;
  }

  lemma EmptyTwins(x: Row, y: Row)
    requires x.ts == [] || y.ts == []
    ensures !Twins(x, y)
  {
  }

  lemma OneFrom(rows: seq<Row>, i: nat) returns (p: nat)
    requires i < |Kept(rows)|
    ensures p < |rows| && rows[p] == Kept(rows)[i]
  {
    KeptRows(rows);
    assert Kept(rows)[i] in rows;
    p :| 0 <= p < |rows| && rows[p] == Kept(rows)[i];
  }

  lemma OneTo(rows: seq<Row>, p: nat) returns (i: nat)
    requires p < |rows| && rows[p].ts != []
    ensures i < |Kept(rows)| && rows[p] == Kept(rows)[i]
  {
    KeptRows(rows);
    assert rows[p] in rows;
    i :| 0 <= i < |Kept(rows)| && Kept(rows)[i] == rows[p];
  }

  lemma TwinFrom(batches: seq<seq<Row>>, x: Ref, y: Ref) returns (x': Ref, y': Ref)
    requires IsRef(KeptIn(batches), x) && IsRef(KeptIn(batches), y) && x != y
    ensures IsRef(batches, x') && IsRef(batches, y') && x' != y'
    ensures RowAt(batches, x') == RowAt(KeptIn(batches), x) && RowAt(batches, y') == RowAt(KeptIn(batches), y)
  {
    hide Kept;
    if x.batch != y.batch {
      var p := OneFrom(batches[x.batch], x.row);
      var q := OneFrom(batches[y.batch], y.row);
      x', y' := Ref(x.batch, p), Ref(y.batch, q);
    } else if x.row < y.row {
      var p, q := KeptFrom(batches[x.batch], x.row, y.row);
      x', y' := Ref(x.batch, p), Ref(y.batch, q);
    } else {
      var p, q := KeptFrom(batches[x.batch], y.row, x.row);
      x', y' := Ref(x.batch, q), Ref(y.batch, p);
    }
  }

  lemma TwinTo(batches: seq<seq<Row>>, x: Ref, y: Ref) returns (x': Ref, y': Ref)
    requires IsRef(batches, x) && IsRef(batches, y) && x != y && RowAt(batches, x).ts != []
             && RowAt(batches, y).ts != []
    ensures IsRef(KeptIn(batches), x') && IsRef(KeptIn(batches), y') && x' != y'
    ensures RowAt(batches, x) == RowAt(KeptIn(batches), x') && RowAt(batches, y) == RowAt(KeptIn(batches), y')
  {
    hide Kept;
    if x.batch != y.batch {
      var p := OneTo(batches[x.batch], x.row);
      var q := OneTo(batches[y.batch], y.row);
      x', y' := Ref(x.batch, p), Ref(y.batch, q);
    } else if x.row < y.row {
      var p, q := KeptTo(batches[x.batch], x.row, y.row);
      x', y' := Ref(x.batch, p), Ref(y.batch, q);
    } else {
      var p, q := KeptTo(batches[x.batch], y.row, x.row);
      x', y' := Ref(x.batch, q), Ref(y.batch, p);
    }
  }

  ghost predicate AllRows(batches: seq<seq<Row>>, names: seq<string>) {
    forall b, x :: 0 <= b < |batches| && x in batches[b] ==> |x.labels| == |names| && Climbing(x.ts)
  }

  lemma KeptSchema(names: seq<string>, batches: seq<seq<Row>>)
    requires Climbs(StringCmp(), names) && AllRows(batches, names)
    ensures Schema(names, KeptIn(batches)) && RowsClimb(KeptIn(batches))
  {
    hide Climbing, Climbs, Kept;
    var kept: seq<seq<Row>> := KeptIn(batches);
    forall b, r | 0 <= b < |kept| && 0 <= r < |kept[b]|
      ensures |kept[b][r].labels| == |names| && Climbing(kept[b][r].ts)
    {
      KeptRows(batches[b]);
      assert kept[b][r] in kept[b];
    }
  }

  /** The one result pass: refused for two rows of a label set that share a
      timestamp, else the rows, in label order unless a sort already ordered
      them. */
  method FinalizeRows(names: seq<string>, batches: seq<seq<Row>>, ordered: bool) returns (r: Outcome)
    requires Climbs(StringCmp(), names) && AllRows(batches, names)
    ensures r.SameLabelset? <==> !NoTwins(batches)
    ensures r.Rows? && ordered ==> r.batches == KeptIn(batches)
    ensures r.Rows? && !ordered ==> StableOrder(names, KeptIn(batches), Flat(r.batches))
  {
    hide Climbs, AllRows, Schema, RowsClimb, NoTwins, Sorted, RowsIn, RefsOf, Flat, Kept;
    KeptSchema(names, batches);
    KeptTwins(batches);
    var kept := KeptIn(batches);
    var order, already := OrderRows(names, kept);
    var ok := RejectSameLabelset(names, kept, order);
    if !ok { return SameLabelset; }
    if ordered { return Rows(kept); }
    AreRefs(names, kept, order);
    var out := IntoBatches(kept, order, already);
    r := Rows(out);
  }
}
