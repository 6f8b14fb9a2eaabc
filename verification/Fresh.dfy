/** The fresh-window answer: what each step reads, computed from the whole
    series at once with no cursors, no history and no budget. */
module Fresh {
  import opened Series
  import opened Params

  /** The value made of a selected sample. */
  datatype Pick = PickValue | PickTimestamp(seconds: int -> Value)

  function PickOf(pick: Pick, s: Sample): Value {
    match pick
    case PickValue => s.v
    case PickTimestamp(seconds) => seconds(s.t)
  }

  /** A range function's value over one window of unstale samples and that
      window's bounds, left uninterpreted, and the work it is charged for. */
  datatype Kernel =
    | Selector(pick: Pick)
    | Range(fold: (seq<Sample>, int, int) -> Option<Value>, work: nat -> nat)

  datatype Context = Context(kernel: Kernel, params: Params)

  function Steps(ctx: Context): nat {
    Count(ctx.params)
  }

  /** The one law of the uninterpreted fold: an empty window has no value. */
  ghost predicate Lawful(ctx: Context) {
    ctx.kernel.Range? ==> forall lo, hi :: ctx.kernel.fold([], lo, hi) == None
  }

  /** A kernel's value of a window's samples, stale markers included. */
  function ValueOf(ctx: Context, w: seq<Sample>, k: int): Option<Value> {
    match ctx.kernel
    case Selector(pick) =>
      if w == [] || IsStale(w[|w| - 1].v) then None else Some(PickOf(pick, w[|w| - 1]))
    case Range(fold, _) =>
      fold(NonStale(w), StartAt(ctx.params, k), EndAt(ctx.params, k))
  }

  /** Step `k`'s window over the whole series: two partition points. */
  function Window(ctx: Context, s: seq<Sample>, k: int): seq<Sample> {
    var a := Upto(s, StartAt(ctx.params, k));
    var b := Upto(s, EndAt(ctx.params, k));
    if a <= b <= |s| then s[a..b] else []
  }

  /** Step `k`'s emission, none or one. */
  function Emission(ctx: Context, value: Option<Value>, k: int): seq<Sample> {
    if value.Some? then [Sample(StepAt(ctx.params, k), value.value)] else []
  }

  /** Each step's emission over the series `s`. */
  function Parts(ctx: Context, s: seq<Sample>): int -> seq<Sample> {
    k => Emission(ctx, ValueOf(ctx, Window(ctx, s, k), k), k)
  }

  /** The answers of the first `n` steps. */
  function FirstSteps(ctx: Context, s: seq<Sample>, n: int): seq<Sample> {
    Concat(Parts(ctx, s), 0, n)
  }

  /** The answer of a whole grid. */
  function Answer(ctx: Context, s: seq<Sample>): seq<Sample> {
    FirstSteps(ctx, s, Steps(ctx))
  }

  /** How many leading samples of a row earlier rows have claimed. */
  function SkipCount(row: seq<Sample>, claimed: Option<int>): nat {
    if claimed.None? then 0 else Upto(row, claimed.value)
  }

  /** The samples a row still contributes after `claimed`. */
  function Later(row: seq<Sample>, claimed: Option<int>): seq<Sample> {
    if SkipCount(row, claimed) <= |row| then row[SkipCount(row, claimed)..] else []
  }

  /** The last timestamp a list of rows has claimed. */
  function Claim(claimed: Option<int>, row: seq<Sample>): Option<int> {
    if row == [] then claimed
    else
      var last := row[|row| - 1].t;
      if claimed.Some? && claimed.value >= last then claimed else Some(last)
  }

  function ClaimedBy(rows: seq<seq<Sample>>): Option<int> {
    if rows == [] then None else Claim(ClaimedBy(rows[..|rows| - 1]), rows[|rows| - 1])
  }

  /** One series out of overlapping rows: a sample survives only if it is
      later than the last timestamp of every earlier row. */
  function FirstClaim(rows: seq<seq<Sample>>): seq<Sample> {
    if rows == [] then []
    else FirstClaim(rows[..|rows| - 1]) + Later(rows[|rows| - 1], ClaimedBy(rows[..|rows| - 1]))
  }

  // What of a window decides a kernel's value: the last sample, or the
  // unstale ones. Streaming keeps this, not the window.

  function View(ctx: Context, s: seq<Sample>, k: int): seq<Sample> {
    var w := Live(s, StartAt(ctx.params, k), EndAt(ctx.params, k));
    match ctx.kernel
    case Selector(_) => if w == [] then [] else [w[|w| - 1]]
    case Range(_, _) => NonStale(w)
  }

  lemma NonStaleIdem(s: seq<Sample>)
    ensures NonStale(NonStale(s)) == NonStale(s)
  {
    NonStaleKeeps(s);
    NonStaleAll(NonStale(s));
  }

  lemma WindowIsLive(ctx: Context, s: seq<Sample>, k: int)
    requires Ascending(s)
    ensures Window(ctx, s, k) == Live(s, StartAt(ctx.params, k), EndAt(ctx.params, k))
  {
    var lo, hi := StartAt(ctx.params, k), EndAt(ctx.params, k);
    var a, b := Upto(s, lo), Upto(s, hi);
    UptoSplits(s, lo);
    UptoSplits(s, hi);
    if a <= b {
      LiveIsSlice(s, a, b, lo, hi);
    } else {
      LiveNone(s, lo, hi);
    }
  }

  /** The value of a step is the value of its view. */
  lemma ViewDecides(ctx: Context, s: seq<Sample>, k: int)
    requires Ascending(s)
    ensures ValueOf(ctx, Window(ctx, s, k), k) == ValueOf(ctx, View(ctx, s, k), k)
  {
    WindowIsLive(ctx, s, k);
    NonStaleIdem(Live(s, StartAt(ctx.params, k), EndAt(ctx.params, k)));
  }

  lemma ViewConcat(ctx: Context, a: seq<Sample>, b: seq<Sample>, k: int)
    ensures View(ctx, a + b, k) ==
            if ctx.kernel.Range? then View(ctx, a, k) + View(ctx, b, k)
            else if View(ctx, b, k) == [] then View(ctx, a, k) else View(ctx, b, k)
  {
    var lo, hi := StartAt(ctx.params, k), EndAt(ctx.params, k);
    LiveConcat(a, b, lo, hi);
    NonStaleConcat(Live(a, lo, hi), Live(b, lo, hi));
    assert Live(b, lo, hi) == [] ==> Live(a, lo, hi) + Live(b, lo, hi) == Live(a, lo, hi);
  }

  lemma ViewOutside(ctx: Context, s: seq<Sample>, k: int)
    requires forall i :: 0 <= i < |s| ==> s[i].t <= StartAt(ctx.params, k) || EndAt(ctx.params, k) < s[i].t
    ensures View(ctx, s, k) == []
  {
    LiveNone(s, StartAt(ctx.params, k), EndAt(ctx.params, k));
  }

  lemma ViewNonStale(ctx: Context, s: seq<Sample>, k: int)
    requires ctx.kernel.Range?
    ensures View(ctx, NonStale(s), k) == View(ctx, s, k)
  {
    var lo, hi := StartAt(ctx.params, k), EndAt(ctx.params, k);
    NonStaleLive(s, lo, hi);
    NonStaleIdem(Live(s, lo, hi));
  }

  /** No sample of `s` is in step `k`'s window. */
  ghost predicate Unread(ctx: Context, s: seq<Sample>, k: int) {
    forall i :: 0 <= i < |s| ==> s[i].t <= StartAt(ctx.params, k) || EndAt(ctx.params, k) < s[i].t
  }

  lemma StepIsFinal(ctx: Context, s: seq<Sample>, more: seq<Sample>, k: int)
    requires Ascending(s) && Ascending(s + more)
    requires Unread(ctx, more, k)
    ensures Parts(ctx, s + more)(k) == Parts(ctx, s)(k)
  {
    ViewOutside(ctx, more, k);
    ViewConcat(ctx, s, more, k);
    assert View(ctx, s, k) + [] == View(ctx, s, k);
    ViewDecides(ctx, s, k);
    ViewDecides(ctx, s + more, k);
  }

  /** Steps whose window ends before every later sample never change. */
  lemma StepsAreFinal(ctx: Context, s: seq<Sample>, more: seq<Sample>, n: int)
    requires Ascending(s) && Ascending(s + more)
    requires forall k :: 0 <= k < n ==> Unread(ctx, more, k)
    ensures FirstSteps(ctx, s + more, n) == FirstSteps(ctx, s, n)
  {
    forall k | 0 <= k < n ensures Parts(ctx, s + more)(k) == Parts(ctx, s)(k) {
      StepIsFinal(ctx, s, more, k);
    }
    ConcatSame(Parts(ctx, s + more), Parts(ctx, s), 0, n);
  }

  /** Steps that see nothing answer nothing. */
  lemma EmptyStepsAnswerNothing(ctx: Context, s: seq<Sample>, from: int, n: int)
    requires Lawful(ctx) && Ascending(s) && 0 <= from <= n
    requires forall k :: from <= k < n ==> View(ctx, s, k) == []
    ensures FirstSteps(ctx, s, n) == FirstSteps(ctx, s, from)
  {
    forall k | from <= k < n ensures Parts(ctx, s)(k) == [] {
      ViewDecides(ctx, s, k);
    }
    ConcatNone(Parts(ctx, s), from, n);
    ConcatJoin(Parts(ctx, s), 0, from, n);
  }

  /** Every sample of the sorted `s` is at or before `bound`. */
  ghost predicate Within(s: seq<Sample>, bound: Option<int>) {
    s != [] ==> bound.Some? && s[|s| - 1].t <= bound.value
  }

  lemma LaterFacts(row: seq<Sample>, claimed: Option<int>)
    requires Ascending(row)
    ensures SkipCount(row, claimed) <= |row|
    ensures Ascending(Later(row, claimed))
    ensures Within(Later(row, claimed), Claim(claimed, row))
    ensures claimed.Some? && Later(row, claimed) != [] ==> claimed.value < Later(row, claimed)[0].t
  {
    if claimed.Some? {
      UptoSplits(row, claimed.value);
      AscendingPart(row, Upto(row, claimed.value), |row|);
    }
  }

  lemma {:induction false} FirstClaimAscends(rows: seq<seq<Sample>>)
    requires forall i :: 0 <= i < |rows| ==> Ascending(rows[i])
    ensures Ascending(FirstClaim(rows)) && Within(FirstClaim(rows), ClaimedBy(rows))
  {
    if rows != [] {
      var prev, row := rows[..|rows| - 1], rows[|rows| - 1];
      FirstClaimAscends(prev);
      LaterFacts(row, ClaimedBy(prev));
      AscendingJoin(FirstClaim(prev), Later(row, ClaimedBy(prev)));
    }
  }

  /** Every emission is at a step, each step at most once and in step order. */
  lemma {:induction false} AnswersAscend(ctx: Context, s: seq<Sample>, n: nat)
    requires ctx.params.step > 0
    ensures forall i, j :: 0 <= i < j < |FirstSteps(ctx, s, n)| ==>
              FirstSteps(ctx, s, n)[i].t < FirstSteps(ctx, s, n)[j].t
    ensures forall i :: 0 <= i < |FirstSteps(ctx, s, n)| ==> IsStep(ctx.params, FirstSteps(ctx, s, n)[i].t, n)
  {
    hide StepAt, Window, ValueOf;
    if n > 0 {
      AnswersAscend(ctx, s, n - 1);
      var before, part := FirstSteps(ctx, s, n - 1), Parts(ctx, s)(n - 1);
      assert FirstSteps(ctx, s, n) == before + part;
      hide FirstSteps, Parts;
      forall i | 0 <= i < |before|
        ensures IsStep(ctx.params, before[i].t, n) && before[i].t < StepAt(ctx.params, n - 1)
      {
        var k :| 0 <= k < n - 1 && before[i].t == StepAt(ctx.params, k);
        StepsAscend(ctx.params, k, n - 1);
      }
      assert IsStep(ctx.params, StepAt(ctx.params, n - 1), n);
    }
  }

  ghost predicate IsStep(p: Params, t: int, n: nat) {
    exists k :: 0 <= k < n && t == StepAt(p, k)
  }
}
