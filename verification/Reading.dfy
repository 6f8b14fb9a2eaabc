/** What a suspended walk may still read, and what it may forget. */
module Reading {
  import opened Series
  import opened Params
  import opened Fresh

  /** What a caller checks before it evaluates anything. */
  ghost predicate Planned(ctx: Context) {
    Lawful(ctx) && Fits(ctx.params)
  }

  /** A range kernel over an empty window answers nothing at any step. */
  predicate Dead(ctx: Context) {
    ctx.kernel.Range? && ctx.params.window <= 0
  }

  ghost predicate SameView(ctx: Context, a: seq<Sample>, b: seq<Sample>, k: int) {
    View(ctx, a, k) == View(ctx, b, k)
  }

  /** `a` and `b` decide every step from `from` on alike. */
  ghost predicate SameViews(ctx: Context, a: seq<Sample>, b: seq<Sample>, from: int) {
    forall k :: from <= k < Steps(ctx) ==> SameView(ctx, a, b, k)
  }

  lemma SameViewsExtend(ctx: Context, a: seq<Sample>, b: seq<Sample>, x: seq<Sample>, y: seq<Sample>, from: int)
    requires SameViews(ctx, a, b, from) && SameViews(ctx, x, y, from)
    ensures SameViews(ctx, a + x, b + y, from)
  {
    forall k | from <= k < Steps(ctx) ensures SameView(ctx, a + x, b + y, k) {
      assert SameView(ctx, a, b, k) && SameView(ctx, x, y, k);
      ViewConcat(ctx, a, x, k);
      ViewConcat(ctx, b, y, k);
    }
  }

  lemma SameViewsTrans(ctx: Context, a: seq<Sample>, b: seq<Sample>, c: seq<Sample>, from: int)
    requires SameViews(ctx, a, b, from) && SameViews(ctx, b, c, from)
    ensures SameViews(ctx, a, c, from)
  {
    forall k | from <= k < Steps(ctx) ensures SameView(ctx, a, c, k) {
      assert SameView(ctx, a, b, k) && SameView(ctx, b, c, k);
    }
  }

  /** The first `n` samples are at or before `bound`; those from `n` on are after it. */
  lemma SameViewsLater(ctx: Context, a: seq<Sample>, b: seq<Sample>, from: int, later: int)
    requires SameViews(ctx, a, b, from) && from <= later
    ensures SameViews(ctx, a, b, later)
  {
    hide View;
  }

  ghost predicate AtMost(s: seq<Sample>, n: nat, bound: int) {
    forall i :: 0 <= i < n && i < |s| ==> s[i].t <= bound
  }

  ghost predicate After(s: seq<Sample>, n: nat, bound: int) {
    forall i :: n <= i < |s| ==> bound < s[i].t
  }

  lemma AtMostAt(s: seq<Sample>, n: nat, i: nat, bound: int)
    requires AtMost(s, n, bound) && i < n <= |s|
    ensures s[i].t <= bound
  {
  }

  lemma AfterEdge(s: seq<Sample>, n: nat, bound: int)
    requires Ascending(s) && (n < |s| ==> bound < s[n].t)
    ensures After(s, n, bound)
  {
    forall i | n <= i < |s| ensures bound < s[i].t {
      assert s[n].t <= s[i].t;
    }
  }

  predicate NoStale(s: seq<Sample>) {
    forall i :: 0 <= i < |s| ==> !IsStale(s[i].v)
  }

  /** A prefix before the next window's start, and a tail after the last
      window's end, are in no remaining window. */
  lemma DeadPrefix(ctx: Context, s: seq<Sample>, from: int)
    requires ctx.params.step > 0 && 0 <= from && AtMost(s, |s|, StartAt(ctx.params, from))
    ensures SameViews(ctx, s, [], from)
  {
    forall k | from <= k < Steps(ctx) ensures SameView(ctx, s, [], k) {
      StepsAscend(ctx.params, from, k);
      ViewOutside(ctx, s, k);
    }
  }

  lemma FutureTail(ctx: Context, s: seq<Sample>, from: int)
    requires ctx.params.step > 0 && 0 <= from && After(s, 0, EndAt(ctx.params, Steps(ctx) - 1))
    ensures SameViews(ctx, s, [], from)
  {
    forall k | from <= k < Steps(ctx) ensures SameView(ctx, s, [], k) {
      StepsAscend(ctx.params, k, Steps(ctx) - 1);
      ViewOutside(ctx, s, k);
    }
  }

  lemma ViewOfOne(ctx: Context, x: Sample, k: int)
    requires ctx.kernel.Selector?
    ensures View(ctx, [x], k) == if StartAt(ctx.params, k) < x.t <= EndAt(ctx.params, k) then [x] else []
  {
    if StartAt(ctx.params, k) < x.t <= EndAt(ctx.params, k) {
      LiveAll([x], StartAt(ctx.params, k), EndAt(ctx.params, k));
    } else {
      ViewOutside(ctx, [x], k);
    }
  }

  /** A step whose window ends at `s[h - 1]` selects that sample or nothing. */
  lemma SelectorReads(ctx: Context, s: seq<Sample>, cut: nat, h: nat, k: int)
    requires ctx.kernel.Selector? && cut <= h <= |s| && (cut == h ==> h == 0)
    requires AtMost(s, h, EndAt(ctx.params, k)) && After(s, h, EndAt(ctx.params, k))
    requires Ascending(s)
    ensures View(ctx, s[cut..], k) == if h > 0 && s[h - 1].t > StartAt(ctx.params, k) then [s[h - 1]] else []
  {
    hide View, Ascending, StepAt;
    ViewOutside(ctx, s[h..], k);
    if h > 0 {
      assert s[cut..] == s[cut..h - 1] + ([s[h - 1]] + s[h..]);
      ViewConcat(ctx, s[cut..h - 1], [s[h - 1]] + s[h..], k);
      ViewConcat(ctx, [s[h - 1]], s[h..], k);
      ViewOfOne(ctx, s[h - 1], k);
      if s[h - 1].t <= StartAt(ctx.params, k) {
        EarlierToo(s, cut, h - 1, StartAt(ctx.params, k));
        ViewOutside(ctx, s[cut..h - 1], k);
      }
    }
  }

  lemma EarlierToo(s: seq<Sample>, cut: nat, n: nat, bound: int)
    requires cut <= n < |s| && Ascending(s) && s[n].t <= bound
    ensures forall i :: 0 <= i < n - cut ==> s[cut..n][i].t <= bound
  {
  }

  /** Once `s[h - 1]` is read, a later step selects no earlier sample. */
  lemma SelectorDrops(ctx: Context, s: seq<Sample>, cut: nat, h: nat, k: int)
    requires ctx.kernel.Selector? && cut < h <= |s| && Ascending(s)
    requires s[h - 1].t <= EndAt(ctx.params, k)
    ensures SameView(ctx, s[cut..], s[h - 1..], k)
  {
    assert s[cut..] == s[cut..h - 1] + s[h - 1..];
    ViewConcat(ctx, s[cut..h - 1], s[h - 1..], k);
    if s[h - 1].t <= StartAt(ctx.params, k) {
      ViewOutside(ctx, s[cut..h - 1], k);
    } else {
      assert s[h - 1..] == [s[h - 1]] + s[h..];
      ViewConcat(ctx, [s[h - 1]], s[h..], k);
      ViewOfOne(ctx, s[h - 1], k);
    }
  }

  lemma SelectorDropsAll(ctx: Context, s: seq<Sample>, cut: nat, h: nat, from: nat)
    requires ctx.kernel.Selector? && ctx.params.step > 0 && cut < h <= |s| && Ascending(s)
    requires from < Steps(ctx) ==> s[h - 1].t <= EndAt(ctx.params, from)
    ensures SameViews(ctx, s[cut..], s[h - 1..], from)
  {
    var tail, kept := s[cut..], s[h - 1..];
    forall k | from <= k < Steps(ctx) ensures SameView(ctx, tail, kept, k) {
      StepsAscend(ctx.params, from, k);
      SelectorDrops(ctx, s, cut, h, k);
    }
  }

  lemma ViewOfUnstale(ctx: Context, s: seq<Sample>, k: int)
    requires ctx.kernel.Range? && NoStale(s)
    requires After(s, 0, StartAt(ctx.params, k)) && AtMost(s, |s|, EndAt(ctx.params, k))
    ensures View(ctx, s, k) == s
  {
    LiveAll(s, StartAt(ctx.params, k), EndAt(ctx.params, k));
    NonStaleAll(s);
  }

  /** A range step reads exactly the slice between its two edges. */
  lemma RangeReads(ctx: Context, s: seq<Sample>, cut: nat, l: nat, h: nat, k: int)
    requires ctx.kernel.Range? && cut <= l <= h <= |s| && NoStale(s)
    requires AtMost(s, l, StartAt(ctx.params, k)) && After(s, l, StartAt(ctx.params, k))
    requires AtMost(s, h, EndAt(ctx.params, k)) && After(s, h, EndAt(ctx.params, k))
    ensures View(ctx, s[cut..], k) == s[l..h]
  {
    hide View, StepAt;
    assert s[cut..] == s[cut..l] + (s[l..h] + s[h..]);
    ViewConcat(ctx, s[cut..l], s[l..h] + s[h..], k);
    ViewConcat(ctx, s[l..h], s[h..], k);
    ViewOutside(ctx, s[cut..l], k);
    ViewOutside(ctx, s[h..], k);
    ViewOfUnstale(ctx, s[l..h], k);
  }

  /** Samples at or before the next window's start are never read again. */
  lemma RangeDrops(ctx: Context, s: seq<Sample>, cut: nat, l: nat, from: nat)
    requires ctx.params.step > 0 && cut <= l <= |s|
    requires AtMost(s, l, StartAt(ctx.params, from))
    ensures SameViews(ctx, s[cut..], s[l..], from)
  {
    DeadPrefix(ctx, s[cut..l], from);
    assert SameViews(ctx, s[l..], s[l..], from);
    SameViewsExtend(ctx, s[cut..l], [], s[l..], s[l..], from);
    assert s[cut..] == s[cut..l] + s[l..];
    assert [] + s[l..] == s[l..];
  }

  lemma SameViewsNone(ctx: Context, a: seq<Sample>, b: seq<Sample>, more: seq<Sample>, from: int)
    requires SameViews(ctx, a, b, from) && SameViews(ctx, more, [], from)
    ensures SameViews(ctx, a + more, b, from)
  {
    SameViewsExtend(ctx, a, b, more, [], from);
    assert b + [] == b;
  }

  lemma SameViewsUnstale(ctx: Context, s: seq<Sample>, from: int)
    requires ctx.kernel.Range?
    ensures SameViews(ctx, s, NonStale(s), from)
  {
    forall k | from <= k < Steps(ctx) ensures SameView(ctx, s, NonStale(s), k) {
      ViewNonStale(ctx, s, k);
    }
  }

  /** Under `@` a selector's whole history is its latest sample in the window. */
  lemma SameViewsLatest(ctx: Context, old': seq<Sample>, s: seq<Sample>, from: int)
    requires ctx.kernel.Selector? && ctx.params.at.Some? && s != []
    requires After(s, 0, StartAt(ctx.params, 0)) && AtMost(s, |s|, EndAt(ctx.params, 0))
    ensures SameViews(ctx, old' + s, [s[|s| - 1]], from)
  {
    var x := s[|s| - 1];
    forall k | from <= k < Steps(ctx) ensures SameView(ctx, old' + s, [x], k) {
      assert old' + s == (old' + s[..|s| - 1]) + [x];
      ViewConcat(ctx, old' + s[..|s| - 1], [x], k);
      ViewOfOne(ctx, x, k);
    }
  }

  /** New samples, all later than the answered windows, leave the answers alone. */
  lemma Unchanged(ctx: Context, s: seq<Sample>, more: seq<Sample>, n: nat)
    requires Ascending(s) && Ascending(s + more) && n <= Steps(ctx)
    requires n > 0 && !Dead(ctx) && more != [] ==> EndAt(ctx.params, n - 1) < more[0].t
    ensures FirstSteps(ctx, s + more, n) == FirstSteps(ctx, s, n)
  {
    hide View, Parts, StepAt, FirstSteps;
    if ctx.params.window <= 0 {
      forall k | 0 <= k < n ensures Unread(ctx, more, k) {}
      StepsAreFinal(ctx, s, more, n);
    } else {
      forall k | 0 <= k < n ensures Unread(ctx, more, k) {
        StepsAscend(ctx.params, k, n - 1);
        assert forall i :: 0 <= i < |more| ==> more[i] == (s + more)[|s| + i];
      }
      StepsAreFinal(ctx, s, more, n);
    }
  }

  /** What is kept of `raw` extends a history kept of `claimed`. */
  lemma KeptJoins(history: seq<Sample>, claimed: seq<Sample>, kept: seq<Sample>, raw: seq<Sample>)
    requires Ascending(claimed + raw) && raw != [] && Ascending(history) && Ascending(kept)
    requires history != [] ==> claimed != [] && history[|history| - 1].t <= claimed[|claimed| - 1].t
    requires forall x :: x in kept ==> x in raw
    ensures Ascending(history + kept)
    ensures history + kept != [] ==> (history + kept)[|history + kept| - 1].t <= (claimed + raw)[|claimed + raw| - 1].t
    ensures history != [] ==> history[|history| - 1].t <= (claimed + raw)[|claimed + raw| - 1].t
  {
    var all := claimed + raw;
    forall x | x in raw ensures x.t <= all[|all| - 1].t && (claimed != [] ==> claimed[|claimed| - 1].t <= x.t) {
      var i :| 0 <= i < |raw| && raw[i] == x;
      assert all[|claimed| + i] == x;
      if claimed != [] { assert all[|claimed| - 1] == claimed[|claimed| - 1]; }
    }
    if claimed != [] { assert all[|claimed| - 1] == claimed[|claimed| - 1]; }
    AscendingJoin(history, kept);
  }

  lemma {:induction false} NonStaleShrinks(s: seq<Sample>)
    ensures |NonStale(s)| <= |s|
  {
    if s != [] { NonStaleShrinks(s[..|s| - 1]); }
  }

  lemma NoStaleJoin(a: seq<Sample>, b: seq<Sample>)
    requires NoStale(a) && NoStale(b)
    ensures NoStale(a + b)
  {
  }

  lemma Singleton(x: Sample)
    ensures Ascending([x])
  {
  }
}
