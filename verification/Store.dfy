/** A store that cuts a selection into blocks and a block's series into
    chunks, and the streaming evaluation over them. */
module Store {
  import opened Arithmetic
  import opened Series
  import opened Params
  import opened Fresh
  import opened Reading
  import opened Walks
  import opened Blocks
  import opened Stream

  /** Each timestamp once: what a store promises of a whole series. */
  ghost predicate Strict(s: seq<Sample>) {
    forall i, j :: 0 <= i < j < |s| ==> s[i].t < s[j].t
  }

  datatype Hints = Hints(start: int, end: int, window: int)

  datatype Cut = Cut(block: Block, reachLo: int, reachHi: int)

  /** Only the samples in `[lo, hi]`. */
  function Clip(s: seq<Sample>, lo: int, hi: int): seq<Sample> {
    var a := Upto(s, lo - 1);
    var b := Upto(s, hi);
    if a <= b <= |s| then s[a..b] else []
  }

  lemma ClipIsLive(s: seq<Sample>, lo: int, hi: int)
    requires Ascending(s)
    ensures Clip(s, lo, hi) == Live(s, lo - 1, hi) && Ascending(Clip(s, lo, hi))
    ensures Strict(s) ==> Strict(Clip(s, lo, hi))
  {
    var a, b := Upto(s, lo - 1), Upto(s, hi);
    UptoSplits(s, lo - 1);
    UptoSplits(s, hi);
    hide Upto;
    if a <= b {
      LiveIsSlice(s, a, b, lo - 1, hi);
      AscendingPart(s, a, b);
    } else {
      LiveNone(s, lo - 1, hi);
    }
  }

  lemma {:induction false} LiveWithin(s: seq<Sample>, lo: int, hi: int, a: int, b: int)
    requires lo <= a && b <= hi
    ensures Live(Live(s, lo, hi), a, b) == Live(s, a, b)
  {
    if s != [] {
      var last := s[|s| - 1];
      var kept := if lo < last.t <= hi then [last] else [];
      LiveWithin(s[..|s| - 1], lo, hi, a, b);
      LiveConcat(Live(s[..|s| - 1], lo, hi), kept, a, b);
      assert Live(kept, a, b) == if a < last.t <= b then [last] else [];
    }
  }

  lemma {:induction false} ConcatShift<T>(p: int -> seq<T>, q: int -> seq<T>, m: int, n: nat)
    requires forall j :: 0 <= j < n ==> p(j) == q(m + j)
    ensures Concat(p, 0, n) == Concat(q, m, m + n)
  {
    if n > 0 { ConcatShift(p, q, m, n - 1); }
  }

  /** One step of a block's clipped series is the step of the whole series. */
  lemma BlockStep(ctx: Context, q: Params, s: seq<Sample>, clipped: seq<Sample>, lo: int, hi: int, m: int, j: int)
    requires Ascending(s) && clipped == Live(s, lo, hi) && Ascending(clipped)
    requires StepAt(q, j) == StepAt(ctx.params, m + j) && EndAt(q, j) == EndAt(ctx.params, m + j)
             && q.window == ctx.params.window
    requires lo <= StartAt(q, j) && EndAt(q, j) <= hi
    ensures Parts(ctx.(params := q), clipped)(j) == Parts(ctx, s)(m + j)
  {
    hide StepAt, EndAt, Live, Upto, NonStale, Window, Ascending;
    WindowIsLive(ctx, s, m + j);
    WindowIsLive(ctx.(params := q), clipped, j);
    LiveWithin(s, lo, hi, StartAt(q, j), EndAt(q, j));
  }

  /** Whether a block's reach-back holds every sample its steps read. */
  ghost predicate Reaches(p: Params, cut: Cut) {
    && cut.reachLo <= cut.block.start - p.window + 1
    && forall k :: 0 <= k < Count(p) && EndAt(p, k) < cut.block.end ==> EndAt(p, k) <= cut.reachHi
  }

  /** A block answers its own steps as the whole series answers them. */
  lemma BlockAnswers(ctx: Context, s: seq<Sample>, cut: Cut)
    requires Ascending(s) && ctx.params.step > 0 && cut.block.start <= cut.block.end && Reaches(ctx.params, cut)
    ensures StepsBefore(ctx.params, cut.block.start) <= StepsBefore(ctx.params, cut.block.end)
    ensures Answer(ctx.(params := ForBlock(ctx.params, cut.block)), Clip(s, cut.reachLo, cut.reachHi)) ==
            Concat(Parts(ctx, s), StepsBefore(ctx.params, cut.block.start), StepsBefore(ctx.params, cut.block.end))
  {
    hide Parts, Count, StepAt, StepsBefore, ForBlock, Clip, Live;
    var p, q := ctx.params, ForBlock(ctx.params, cut.block);
    var m, n := StepsBefore(p, cut.block.start), StepsBefore(p, cut.block.end);
    BlockGrid(p, cut.block);
    BlockKeeps(p, cut.block);
    ClipIsLive(s, cut.reachLo, cut.reachHi);
    var clipped := Clip(s, cut.reachLo, cut.reachHi);
    var ctx' := ctx.(params := q);
    forall j | 0 <= j < n - m ensures Parts(ctx', clipped)(j) == Parts(ctx, s)(m + j) {
      assert cut.block.start <= EndAt(p, m + j) < cut.block.end;
      BlockStep(ctx, q, s, clipped, cut.reachLo - 1, cut.reachHi, m, j);
    }
    ConcatShift(Parts(ctx', clipped), Parts(ctx, s), m, n - m);
  }

  lemma BlockKeeps(p: Params, b: Block)
    requires p.step > 0
    ensures ForBlock(p, b).step == p.step && ForBlock(p, b).window == p.window
    ensures ForBlock(p, b).offset == p.offset && ForBlock(p, b).at == p.at
  {
    hide FirstIn, LastIn;
  }

  /** Consecutive cuts from `lo` to `start`, whose blocks each begin at or
      before `hi`; an end past i64 is clamped. */
  ghost predicate TilesTo(cuts: seq<Cut>, lo: int, hi: int, start: int) {
    && lo <= start
    && (cuts == [] ==> start == lo)
    && (cuts != [] ==> cuts[0].block.start == lo && Follows(cuts[|cuts| - 1], start, hi))
    && (forall i :: 0 < i < |cuts| ==> Follows(cuts[i - 1], cuts[i].block.start, hi))
  }

  /** `start` is where `cut` ends. */
  ghost predicate Follows(cut: Cut, start: int, hi: int) {
    && cut.block.start < start && cut.block.start <= hi
    && cut.block.end == (if start < I64_MAX then start else I64_MAX)
    && cut.reachHi == (if start - 1 < hi then start - 1 else hi)
  }

  /** The cuts tile the window ends from `lo` through `hi`. */
  ghost predicate Tiles(cuts: seq<Cut>, lo: int, hi: int) {
    exists end :: hi < end && TilesTo(cuts, lo, hi, end)
  }

  lemma TileGrows(cuts: seq<Cut>, lo: int, hi: int, start: int, cut: Cut, end: int)
    requires TilesTo(cuts, lo, hi, start) && start < end && cut.block.start == start && Follows(cut, end, hi)
    ensures TilesTo(cuts + [cut], lo, hi, end)
  {
    hide Follows;
    var more := cuts + [cut];
    forall i | 0 < i < |more| ensures Follows(more[i - 1], more[i].block.start, hi) {
      if i < |cuts| { assert more[i - 1] == cuts[i - 1]; }
    }
  }

  function NextCut(start: int, blockMs: int): int
    requires blockMs > 0
  {
    (start / blockMs + 1) * blockMs
  }

  /** A cut reaches back one window, is at most `blockMs` wide, and starts at
      a multiple of it unless it is the first. */
  ghost predicate CutAt(cut: Cut, first: bool, hints: Hints, blockMs: int)
    requires blockMs > 0
  {
    && cut.reachLo == cut.block.start - hints.window
    && cut.block.end - cut.block.start <= blockMs
    && (first || cut.block.start % blockMs == 0)
  }

  /** Blocks end at multiples of `blockMs`; the first begins with the domain. */
  method CutIntoBlocks(hints: Hints, blockMs: int) returns (cuts: seq<Cut>)
    requires blockMs > 0
    ensures Tiles(cuts, hints.start + hints.window, hints.end)
    ensures hints.start + hints.window > hints.end ==> cuts == []
    ensures forall i :: 0 <= i < |cuts| ==> CutAt(cuts[i], i == 0, hints, blockMs)
  {
    hide CutAt, TilesTo, NextCut;
    var lo, hi := hints.start + hints.window, hints.end;
    cuts := [];
    var start := lo;
    TilesNothing(lo, hi);
    while start <= hi
      invariant TilesTo(cuts, lo, hi, start)
      invariant (start == lo <==> cuts == []) && (lo > hi ==> start == lo)
      invariant start != lo ==> start % blockMs == 0
      invariant forall i :: 0 <= i < |cuts| ==> CutAt(cuts[i], i == 0, hints, blockMs)
      decreases hi + 1 - start
    {
      var end := NextCut(start, blockMs);
      NextMultiple(start, blockMs);
      var block := Block(start, if end < I64_MAX then end else I64_MAX);
      var reachLo := if start - hints.window < hints.start then hints.start else start - hints.window;
      var reachHi := if end - 1 < hi then end - 1 else hi;
      var cut := Cut(block, reachLo, reachHi);
      IsCut(cut, hints, blockMs, start == lo);
      TileGrows(cuts, lo, hi, start, cut, end);
      cuts := cuts + [cut];
      start := end;
    }
    assert Tiles(cuts, lo, hi) by { assert hi < start && TilesTo(cuts, lo, hi, start); }
  }

  lemma TilesNothing(lo: int, hi: int)
    ensures TilesTo([], lo, hi, lo)
  {
  }

  lemma IsCut(cut: Cut, hints: Hints, blockMs: int, first: bool)
    requires blockMs > 0 && cut.reachLo == cut.block.start - hints.window
    requires cut.block.end - cut.block.start <= blockMs && (first || cut.block.start % blockMs == 0)
    ensures CutAt(cut, first, hints, blockMs)
  {
  }

  lemma NextMultiple(x: int, y: int)
    requires y > 0
    ensures x < NextCut(x, y) <= x + y && NextCut(x, y) % y == 0
  {
    var q := x / y;
    assert q * y <= x < q * y + y;
    assert (q + 1) * y == q * y + y;
    Multiple(q + 1, y);
  }

  /** Without a width, one block over the whole domain. */
  function OneBlock(hints: Hints): Cut {
    var start := hints.start + hints.window;
    Cut(Block(if start < I64_MAX then start else I64_MAX, if hints.end < I64_MAX then hints.end + 1 else I64_MAX),
        hints.start, hints.end)
  }

  /** Where the chunk starting at `start` ends: one sample, or as many as span
      at most `chunkMs`. */
  method ChunkEnd(row: seq<Sample>, start: nat, chunkMs: int) returns (next: nat)
    requires start < |row|
    ensures start < next <= |row|
    ensures next == start + 1 || row[next - 1].t - row[start].t <= chunkMs
    ensures next < |row| ==> row[next].t - row[start].t > chunkMs
  {
    next := start + 1;
    while next < |row| && row[next].t - row[start].t <= chunkMs
      invariant start < next <= |row|
      invariant next == start + 1 || row[next - 1].t - row[start].t <= chunkMs
    {
      next := next + 1;
    }
  }

  /** Each chunk is sorted and spans at most `chunkMs`, and could not have
      taken the next chunk's first sample. */
  ghost predicate Chunked(chunks: seq<seq<Sample>>, chunkMs: int) {
    && (forall i :: 0 <= i < |chunks| ==> Chunk(chunks[i], chunkMs))
    && (forall i :: 0 < i < |chunks| ==> Apart(chunks[i - 1], chunks[i], chunkMs))
  }

  ghost predicate Chunk(c: seq<Sample>, chunkMs: int) {
    && Ascending(c)
    && (|c| > 1 ==> c[|c| - 1].t - c[0].t <= chunkMs)
  }

  ghost predicate Apart(c: seq<Sample>, d: seq<Sample>, chunkMs: int) {
    c != [] && d != [] && d[0].t - c[0].t > chunkMs
  }

  /** A row's samples in chunks spanning at most `chunkMs`, each as long as
      it can be; an empty row is one empty chunk. */
  method SplitIntoChunks(row: seq<Sample>, chunkMs: int) returns (chunks: seq<seq<Sample>>)
    requires Strict(row)
    ensures FirstClaim(chunks) == row
    ensures Chunked(chunks, chunkMs)
  {
    if row == [] {
      chunks := [[]];
      assert chunks[..0] == [];
      return;
    }
    chunks := [];
    assert row[..0] == [];
    var start := 0;
    while start < |row|
      invariant start <= |row| && Split(chunks, row, start, chunkMs)
    {
      hide Split;
      var next := ChunkEnd(row, start, chunkMs);
      SplitGrows(chunks, row, start, next, chunkMs);
      chunks := chunks + [row[start..next]];
      start := next;
    }
    assert row[..|row|] == row;
  }

  ghost predicate Split(chunks: seq<seq<Sample>>, row: seq<Sample>, start: nat, chunkMs: int)
    requires start <= |row|
  {
    && Chunked(chunks, chunkMs)
    && FirstClaim(chunks) == row[..start]
    && ClaimedBy(chunks) == (if start == 0 then None else Some(row[start - 1].t))
    && (chunks == [] <==> start == 0)
    && (chunks != [] ==>
          && chunks[|chunks| - 1] != []
          && (start < |row| ==> row[start].t - chunks[|chunks| - 1][0].t > chunkMs))
  }

  lemma SplitGrows(chunks: seq<seq<Sample>>, row: seq<Sample>, start: nat, next: nat, chunkMs: int)
    requires Strict(row) && start < next <= |row| && Split(chunks, row, start, chunkMs)
    requires next == start + 1 || row[next - 1].t - row[start].t <= chunkMs
    requires next < |row| ==> row[next].t - row[start].t > chunkMs
    ensures Split(chunks + [row[start..next]], row, next, chunkMs)
  {
    hide FirstClaim, ClaimedBy, Ascending, Strict;
    var chunk := row[start..next];
    ChunkClaims(chunks, row, start, next);
    assert chunk[0] == row[start] && chunk[|chunk| - 1] == row[next - 1];
    assert Chunk(chunk, chunkMs);
  }

  lemma ChunkClaims(chunks: seq<seq<Sample>>, row: seq<Sample>, start: nat, next: nat)
    requires Strict(row) && start < next <= |row|
    requires FirstClaim(chunks) == row[..start]
    requires ClaimedBy(chunks) == if start == 0 then None else Some(row[start - 1].t)
    ensures FirstClaim(chunks + [row[start..next]]) == row[..next]
    ensures ClaimedBy(chunks + [row[start..next]]) == Some(row[next - 1].t)
    ensures Ascending(row[start..next])
  {
    var chunk, more := row[start..next], chunks + [row[start..next]];
    assert more[..|more| - 1] == chunks && more[|more| - 1] == chunk;
    assert FirstClaim(more) == FirstClaim(chunks) + Later(chunk, ClaimedBy(chunks));
    assert ClaimedBy(more) == Claim(ClaimedBy(chunks), chunk);
    AllLater(row, start, next);
    hide FirstClaim, ClaimedBy, Later, Strict, Ascending;
    assert row[..start] + chunk == row[..next];
  }

  lemma AllLater(row: seq<Sample>, start: nat, next: nat)
    requires Strict(row) && start < next <= |row|
    ensures Ascending(row[start..next])
    ensures var claimed := if start == 0 then None else Some(row[start - 1].t);
            && Later(row[start..next], claimed) == row[start..next]
            && Claim(claimed, row[start..next]) == Some(row[next - 1].t)
  {
    var chunk := row[start..next];
    assert chunk[0] == row[start];
    if start > 0 {
      assert row[start - 1].t < row[start].t && row[start - 1].t < row[next - 1].t;
      assert Upto(chunk, row[start - 1].t) == 0;
    }
  }

  /** The scan range fits in i64 too. */
  ghost predicate Selectable(p: Params) {
    && Fits(p)
    && (Count(p) > 0 ==> InI64(WindowLo(p) - p.window))
  }

  function HintsOf(p: Params): Hints {
    Hints(SelectRange(p).0, SelectRange(p).1, p.window)
  }

  /** The domain of the hints holds every step's window end. */
  lemma DomainHoldsEnds(p: Params, k: nat)
    requires Selectable(p) && k < Count(p)
    ensures HintsOf(p).start + p.window == EndAt(p, 0) <= EndAt(p, k) <= HintsOf(p).end <= I64_MAX
  {
    StepsAscend(p, 0, k);
    StepsInside(p, k);
    EndsFit(p, 0);
    EndsFit(p, k);
    assert StepAt(p, 0) == p.start;
    assert InI64(StartAt(p, 0));
    hide StepAt, Count;
  }

  /** The steps blocks can answer: a window end at the last i64 is in none. */
  function Kept(p: Params): nat {
    StepsBefore(p, I64_MAX)
  }

  lemma SamePrefix(p: Params, a: int, b: int)
    requires p.step > 0
    requires forall k :: 0 <= k < Count(p) ==> (EndAt(p, k) < a <==> EndAt(p, k) < b)
    ensures StepsBefore(p, a) == StepsBefore(p, b)
  {
    hide EndAt, Count;
    BeforeIsPrefix(p, a, Count(p));
    BeforeIsPrefix(p, b, Count(p));
    BeforeIs(p, a, StepsBefore(p, b));
  }

  /** Every step is kept just when the last window end is before the last i64. */
  lemma KeptIsAll(p: Params)
    requires Fits(p)
    ensures Kept(p) <= Count(p)
    ensures Kept(p) == Count(p) <==> (Count(p) == 0 || EndAt(p, Count(p) - 1) < I64_MAX)
  {
    if Count(p) > 0 {
      hide EndAt;
      BeforeIsPrefix(p, I64_MAX, Count(p));
    }
  }

  /** What one cut answers, on any grid. */
  lemma CutAnswers(ctx: Context, s: seq<Sample>, cut: Cut)
    requires Ascending(s)
    requires Count(ctx.params) > 0 ==> cut.block.start <= cut.block.end && Reaches(ctx.params, cut)
    requires ctx.params.step > 0
    ensures Answer(ctx.(params := ForBlock(ctx.params, cut.block)), Clip(s, cut.reachLo, cut.reachHi)) ==
            Concat(Parts(ctx, s), StepsBefore(ctx.params, cut.block.start), StepsBefore(ctx.params, cut.block.end))
  {
    hide Parts, StepAt, ForBlock, Clip, Live, Reaches, FirstIn;
    if Count(ctx.params) > 0 {
      BlockAnswers(ctx, s, cut);
    } else {
      NoBlock(ctx.params, cut.block);
    }
  }

  lemma NoBlock(p: Params, b: Block)
    requires p.step > 0 && Count(p) == 0
    ensures Count(ForBlock(p, b)) == 0
  {
    FirstCeils(p, b.start);
    hide FirstIn;
  }

  lemma FirstCeils(p: Params, lo: int)
    requires p.step > 0
    ensures FirstIn(p, lo) >= 0
  {
  }

  /** The cut of a tiling reaches what its steps read. */
  lemma TileReaches(p: Params, cut: Cut, start: int, k: nat)
    requires Selectable(p) && k < Count(p)
    requires Follows(cut, start, HintsOf(p).end) && cut.reachLo == cut.block.start - p.window
    ensures cut.block.start <= cut.block.end && Reaches(p, cut)
  {
    hide StepAt, EndAt, Count, HintsOf, Fits;
    forall j | 0 <= j < Count(p) && EndAt(p, j) < cut.block.end ensures EndAt(p, j) <= cut.reachHi {
      DomainHoldsEnds(p, j);
    }
    DomainHoldsEnds(p, k);
  }

  /** The cuts of one selection, under a block width or without. */
  method Cuts(p: Params, blockMs: Option<int>) returns (cuts: seq<Cut>)
    requires Selectable(p) && p.step > 0 && (blockMs.Some? ==> blockMs.value > 0)
    ensures forall i :: 0 <= i < |cuts| && Count(p) > 0 ==> cuts[i].reachLo == cuts[i].block.start - p.window
    ensures Count(p) > 0 ==> Tiles(cuts, EndAt(p, 0), HintsOf(p).end)
  {
    hide EndAt, StepAt, Count, Fits, Tiles, SelectRange;
    var hints := HintsOf(p);
    if Count(p) > 0 { DomainHoldsEnds(p, 0); }
    if blockMs.Some? {
      cuts := CutIntoBlocks(hints, blockMs.value);
      forall i | 0 <= i < |cuts| ensures cuts[i].reachLo == cuts[i].block.start - p.window {
        assert CutAt(cuts[i], i == 0, hints, blockMs.value);
      }
    } else {
      cuts := [OneBlock(hints)];
      if Count(p) > 0 { OneTile(hints); }
    }
  }

  lemma OneTile(hints: Hints)
    requires hints.start + hints.window <= hints.end <= I64_MAX
    ensures Tiles([OneBlock(hints)], hints.start + hints.window, hints.end)
  {
    assert TilesTo([OneBlock(hints)], hints.start + hints.window, hints.end, hints.end + 1);
  }

  /** One block's series, as chunks through the streaming evaluator. */
  method EvaluateCut(ctx: Context, s: seq<Sample>, cut: Cut, chunkMs: int, units: nat -> nat) returns (out: seq<Sample>)
    requires Planned(ctx) && Strict(s) && ctx.params.step > 0 && forall i :: units(i) > 0
    requires Count(ctx.params) > 0 ==> cut.block.start <= cut.block.end && Reaches(ctx.params, cut)
    ensures out == Concat(Parts(ctx, s), StepsBefore(ctx.params, cut.block.start),
                          StepsBefore(ctx.params, cut.block.end))
  {
    hide Parts, Answer, StepsBefore, Planned, Clip, Reaches, ForBlock, FirstClaim;
    StrictAscends(s);
    ClipIsLive(s, cut.reachLo, cut.reachHi);
    var ctx' := ctx.(params := ForBlock(ctx.params, cut.block));
    BlockPlanned(ctx, cut.block);
    var rows := SplitIntoChunks(Clip(s, cut.reachLo, cut.reachHi), chunkMs);
    forall j | 0 <= j < |rows| ensures Ascending(rows[j]) { assert Chunk(rows[j], chunkMs); }
    var answers := EvaluateBlock(ctx', [rows], units);
    out := answers[0];
    CutAnswers(ctx, s, cut);
  }

  lemma StrictAscends(s: seq<Sample>)
    requires Strict(s)
    ensures Ascending(s)
  {
  }

  lemma BlockPlanned(ctx: Context, b: Block)
    requires Planned(ctx) && ctx.params.step > 0
    ensures Planned(ctx.(params := ForBlock(ctx.params, b)))
  {
    var p, q := ctx.params, ForBlock(ctx.params, b);
    hide StepAt, FirstIn, LastIn;
    if p.at.None? && q != EmptyGrid(p) {
      var first, last := FirstIn(p, b.start), LastIn(p, b.end);
      hide ForBlock, Count;
      FirstInIs(p, b.start, 0);
      CutGrid(p, first, last);
      LastInIs(p, b.end, last);
      StepAtIsProduct(p, first);
      forall k | 0 <= k < Count(q) ensures InI64(StepAt(q, k)) && InI64(EndAt(q, k)) && InI64(StartAt(q, k)) {
        LastInIs(p, b.end, first + k);
        assert StepAt(q, k) == StepAt(p, first + k);
        assert InI64(StepAt(p, first + k)) && InI64(EndAt(p, first + k)) && InI64(StartAt(p, first + k));
      }
      assert InI64(StepAt(p, first));
    }
  }

  lemma TilesStart(cuts: seq<Cut>, lo: int, hi: int, end: int)
    requires TilesTo(cuts, lo, hi, end) && lo <= hi < end
    ensures cuts != [] && cuts[0].block.start == lo
  {
  }

  lemma TileFollows(cuts: seq<Cut>, lo: int, hi: int, end: int, i: nat)
    requires TilesTo(cuts, lo, hi, end) && i < |cuts| && hi <= I64_MAX
    ensures Follows(cuts[i], if i + 1 < |cuts| then cuts[i + 1].block.start else end, hi)
    ensures i + 1 < |cuts| ==> cuts[i].block.end == cuts[i + 1].block.start
    ensures i + 1 == |cuts| ==> cuts[i].block.end == if end < I64_MAX then end else I64_MAX
  {
    if i + 1 < |cuts| {
      assert Follows(cuts[i + 1 - 1], cuts[i + 1].block.start, hi);
      if i + 2 < |cuts| { assert Follows(cuts[i + 2 - 1], cuts[i + 2].block.start, hi); }
    }
  }

  lemma NoneBefore(p: Params)
    requires p.step > 0 && Count(p) > 0
    ensures StepsBefore(p, EndAt(p, 0)) == 0
  {
    hide EndAt, Count;
    BeforeIsPrefix(p, EndAt(p, 0), Count(p));
  }

  lemma NoSteps(p: Params, bound: int)
    requires Count(p) == 0
    ensures StepsBefore(p, bound) == 0
  {
  }

  lemma BlockOrdered(p: Params, b: Block)
    requires p.step > 0 && b.start <= b.end
    ensures StepsBefore(p, b.start) <= StepsBefore(p, b.end)
  {
    BlockGrid(p, b);
  }

  /** Past the domain, only a window end at the last i64 is not before the edge. */
  lemma PastDomain(p: Params, domainEnd: int, end: int)
    requires Selectable(p) && p.step > 0 && domainEnd == HintsOf(p).end < end
    ensures StepsBefore(p, if end < I64_MAX then end else I64_MAX) == Kept(p)
  {
    hide EndAt, Count, HintsOf, Selectable, StepsBefore;
    var edge := if end < I64_MAX then end else I64_MAX;
    forall k | 0 <= k < Count(p) ensures EndAt(p, k) < edge <==> EndAt(p, k) < I64_MAX {
      DomainHoldsEnds(p, k);
    }
    SamePrefix(p, edge, I64_MAX);
  }

  /** A selection evaluated block by block, each block's series chunk by chunk
      under any budgets, answers what the whole series answers at every step a
      block can hold; its other steps, at most the last, answer nothing. */
  method EvaluateKept(ctx: Context, s: seq<Sample>, blockMs: Option<int>, chunkMs: int, units: nat -> nat)
    returns (out: seq<Sample>)
    requires Planned(ctx) && Selectable(ctx.params) && Strict(s) && ctx.params.step > 0
    requires (forall i :: units(i) > 0) && (blockMs.Some? ==> blockMs.value > 0)
    ensures out == FirstSteps(ctx, s, Kept(ctx.params))
  {
    hide Parts, Planned, EndAt, StepAt, Count, Selectable, StepsBefore, Strict, HintsOf, Reaches;
    var p := ctx.params;
    var cuts := Cuts(p, blockMs);
    out := [];
    ghost var domainEnd, end := 0, 0;
    if Count(p) > 0 {
      domainEnd := HintsOf(p).end;
      end :| domainEnd < end && TilesTo(cuts, EndAt(p, 0), domainEnd, end);
    }
    if Count(p) > 0 {
      DomainHoldsEnds(p, 0);
      TilesStart(cuts, EndAt(p, 0), domainEnd, end);
      NoneBefore(p);
    }
    ghost var edge := EndAt(p, 0);
    for i := 0 to |cuts|
      invariant Count(p) > 0 ==>
                  && out == Concat(Parts(ctx, s), 0, StepsBefore(p, edge))
                  && (i < |cuts| ==> edge == cuts[i].block.start)
                  && (i == |cuts| ==> edge == if end < I64_MAX then end else I64_MAX)
      invariant Count(p) == 0 ==> out == []
    {
      ghost var next := if i + 1 < |cuts| then cuts[i + 1].block.start else end;
      if Count(p) > 0 {
        DomainHoldsEnds(p, 0);
        TileFollows(cuts, EndAt(p, 0), domainEnd, end, i);
        TileReaches(p, cuts[i], next, 0);
        BlockOrdered(p, cuts[i].block);
        ConcatJoin(Parts(ctx, s), 0, StepsBefore(p, cuts[i].block.start), StepsBefore(p, cuts[i].block.end));
      }
      var more := EvaluateCut(ctx, s, cuts[i], chunkMs, units);
      if Count(p) == 0 { NoSteps(p, cuts[i].block.start); NoSteps(p, cuts[i].block.end); }
      out := out + more;
      edge := cuts[i].block.end;
    }
    if Count(p) > 0 {
      PastDomain(p, domainEnd, end);
    } else {
      NoSteps(p, I64_MAX);
    }
  }

  /** Every step of a query the planner takes is one some block can hold. */
  lemma ValidatedKeeps(p: Params)
    requires Validated(p)
    ensures Selectable(p) && Kept(p) == Count(p)
  {
    ValidatedFits(p);
    KeptIsAll(p);
  }

  /** So for such a query a selection evaluated block by block, each block's
      series chunk by chunk under any budgets, answers what the whole series
      answers. */
  method EvaluateSelection(ctx: Context, s: seq<Sample>, blockMs: Option<int>, chunkMs: int, units: nat -> nat)
    returns (out: seq<Sample>)
    requires Lawful(ctx) && Validated(ctx.params) && Strict(s)
    requires (forall i :: units(i) > 0) && (blockMs.Some? ==> blockMs.value > 0)
    ensures out == Answer(ctx, s)
  {
    ValidatedKeeps(ctx.params);
    hide Lawful, Selectable, Strict, FirstSteps, Kept, Count;
    out := EvaluateKept(ctx, s, blockMs, chunkMs, units);
  }

  // ── Past the planner's bounds ──

  /** No series has a value at step `k`. */
  ghost predicate Mute(ctx: Context, k: int) {
    forall s :: Strict(s) ==> ValueOf(ctx, Window(ctx, s, k), k) == None
  }

  /** Blocks answer every series exactly as no blocks at all just when no
      window that ends at the last i64 can have a value. */
  lemma BlocksAreExact(ctx: Context)
    requires Fits(ctx.params)
    ensures (forall s :: Strict(s) ==> FirstSteps(ctx, s, Kept(ctx.params)) == Answer(ctx, s)) <==>
            forall k :: 0 <= k < Count(ctx.params) && EndAt(ctx.params, k) == I64_MAX ==> Mute(ctx, k)
  {
    hide FirstSteps, EndAt, Mute, Strict;
    var p := ctx.params;
    if Count(p) > 0 {
      BeforeIsPrefix(p, I64_MAX, Count(p));
      hide Kept, Count;
      forall k | 0 <= k < Count(p) ensures k < Kept(p) <==> EndAt(p, k) != I64_MAX {
        EndsFit(p, k);
      }
      if forall k :: Kept(p) <= k < Count(p) ==> Mute(ctx, k) {
        forall s | Strict(s) ensures FirstSteps(ctx, s, Kept(p)) == Answer(ctx, s) {
          MuteSteps(ctx, s, Kept(p));
        }
      } else {
        var k :| Kept(p) <= k < Count(p) && !Mute(ctx, k);
        LostStep(ctx, k);
      }
    }
  }

  /** Steps without a value answer nothing. */
  lemma MuteSteps(ctx: Context, s: seq<Sample>, from: nat)
    requires Strict(s) && from <= Steps(ctx) && forall k :: from <= k < Steps(ctx) ==> Mute(ctx, k)
    ensures FirstSteps(ctx, s, from) == Answer(ctx, s)
  {
    hide Window, ValueOf, Strict, Count;
    var n := Steps(ctx);
    forall k | from <= k < n ensures Parts(ctx, s)(k) == [] {
      assert Mute(ctx, k);
    }
    ConcatNone(Parts(ctx, s), from, n);
    ConcatJoin(Parts(ctx, s), 0, from, n);
  }

  /** A step that can have a value, left out, is missed by some series. */
  lemma LostStep(ctx: Context, k: nat)
    requires Kept(ctx.params) <= k < Count(ctx.params) && !Mute(ctx, k)
    ensures exists s :: Strict(s) && FirstSteps(ctx, s, Kept(ctx.params)) != Answer(ctx, s)
  {
    var kept, n := Kept(ctx.params), Steps(ctx);
    hide Kept, Count, Window, ValueOf, Strict, StepAt;
    var s :| Strict(s) && ValueOf(ctx, Window(ctx, s, k), k) != None;
    assert |Parts(ctx, s)(k)| == 1;
    hide Parts;
    ConcatJoin(Parts(ctx, s), 0, kept, k);
    ConcatJoin(Parts(ctx, s), 0, k, n);
    ConcatJoin(Parts(ctx, s), k, k + 1, n);
    assert Concat(Parts(ctx, s), k, k + 1) == Concat(Parts(ctx, s), k, k) + Parts(ctx, s)(k);
    assert |FirstSteps(ctx, s, kept)| < |Answer(ctx, s)|;
  }

  /** A selector can answer at every step, under `@` too. */
  lemma SelectorSpeaks(ctx: Context, k: nat)
    requires ctx.kernel.Selector? && ctx.params.window > 0
    ensures !Mute(ctx, k)
  {
    hide EndAt, View;
    var x := Sample(EndAt(ctx.params, k), 0);
    ViewOfOne(ctx, x, k);
    ViewDecides(ctx, [x], k);
    assert Strict([x]);
  }

  /** A range function can unless it has no value of any window there. */
  lemma RangeSpeaks(ctx: Context, k: nat)
    requires ctx.kernel.Range?
    ensures var lo, hi := StartAt(ctx.params, k), EndAt(ctx.params, k);
            Mute(ctx, k) <==>
            forall w :: Strict(w) && NoStale(w) && Between(w, lo, hi) ==> ctx.kernel.fold(w, lo, hi) == None
  {
    hide StartAt, EndAt, Window;
    var lo, hi := StartAt(ctx.params, k), EndAt(ctx.params, k);
    forall s | Strict(s)
      ensures var w := NonStale(Live(s, lo, hi));
              && Strict(w) && NoStale(w) && Between(w, lo, hi)
              && ValueOf(ctx, Window(ctx, s, k), k) == ctx.kernel.fold(w, lo, hi)
    {
      StrictAscends(s);
      WindowIsLive(ctx, s, k);
      LiveStrict(s, lo, hi);
      NonStaleStrict(Live(s, lo, hi), lo, hi);
      NonStaleKeeps(Live(s, lo, hi));
    }
    forall w | Strict(w) && NoStale(w) && Between(w, lo, hi) ensures NonStale(Live(w, lo, hi)) == w {
      LiveAll(w, lo, hi);
      NonStaleAll(w);
    }
  }

  ghost predicate Between(w: seq<Sample>, lo: int, hi: int) {
    forall i :: 0 <= i < |w| ==> lo < w[i].t <= hi
  }

  lemma StrictBefore(s: seq<Sample>, some: seq<Sample>)
    requires s != [] && Strict(s) && forall x :: x in some ==> x in s[..|s| - 1]
    ensures forall i :: 0 <= i < |some| ==> some[i].t < s[|s| - 1].t
  {
    var rest := s[..|s| - 1];
    forall i | 0 <= i < |some| ensures some[i].t < s[|s| - 1].t {
      assert some[i] in some && some[i] in rest;
      var j :| 0 <= j < |rest| && rest[j] == some[i];
    }
  }

  lemma {:induction false} LiveStrict(s: seq<Sample>, lo: int, hi: int)
    requires Strict(s)
    ensures Strict(Live(s, lo, hi)) && Between(Live(s, lo, hi), lo, hi)
    ensures forall x :: x in Live(s, lo, hi) ==> x in s
  {
    if s != [] {
      LiveStrict(s[..|s| - 1], lo, hi);
      StrictBefore(s, Live(s[..|s| - 1], lo, hi));
    }
  }

  lemma {:induction false} NonStaleStrict(s: seq<Sample>, lo: int, hi: int)
    requires Strict(s) && Between(s, lo, hi)
    ensures Strict(NonStale(s)) && Between(NonStale(s), lo, hi)
    ensures forall x :: x in NonStale(s) ==> x in s
  {
    if s != [] {
      NonStaleStrict(s[..|s| - 1], lo, hi);
      StrictBefore(s, NonStale(s[..|s| - 1]));
    }
  }

  /** A grid no query reaches, whose one step every block leaves out. */
  lemma GridBeyond()
    ensures var p := Params(I64_MAX, I64_MAX, 1, 1, 0, None);
            var ctx, s := Context(Selector(PickValue), p), [Sample(I64_MAX, 0)];
            && !Validated(p) && Selectable(p) && Count(p) == 1 && Kept(p) == 0
            && FirstSteps(ctx, s, Kept(p)) == [] && Answer(ctx, s) == s
  {
    var p := Params(I64_MAX, I64_MAX, 1, 1, 0, None);
    var ctx, x := Context(Selector(PickValue), p), Sample(I64_MAX, 0);
    assert StepAt(p, 0) == I64_MAX;
    KeptIsAll(p);
    ViewOfOne(ctx, x, 0);
    ViewDecides(ctx, [x], 0);
    assert Parts(ctx, [x])(0) == [x];
    assert Concat(Parts(ctx, [x]), 0, 1) == Concat(Parts(ctx, [x]), 0, 0) + Parts(ctx, [x])(0);
  }
}
