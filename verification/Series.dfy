/** Samples, 64-bit bounds and the selections every other module shares. */
module Series {

  const I64_MIN: int := -0x8000_0000_0000_0000
  const I64_MAX: int := 0x7fff_ffff_ffff_ffff

  predicate InI64(x: int) {
    I64_MIN <= x <= I64_MAX
  }

  /** `i64::saturating_sub`. */
  function SaturatingSub(x: int, y: int): int {
    if x - y < I64_MIN then I64_MIN else if x - y > I64_MAX then I64_MAX else x - y
  }

  datatype Option<+T> = None | Some(value: T)

  /** A float is the number its 64 bits spell: nothing that moves samples
      computes with it, and the stale marker is recognised by its bits. */
  type Value = int

  /** The label that names a metric. */
  const METRIC_NAME := "__name__"

  const STALE_NAN_BITS: Value := 0x7ff0_0000_0000_0002

  predicate IsStale(v: Value) {
    v == STALE_NAN_BITS
  }

  datatype Sample = Sample(t: int, v: Value)

  /** Non-decreasing timestamps: what a store promises of one row. */
  ghost predicate Ascending(s: seq<Sample>) {
    forall i, j :: 0 <= i < j < |s| ==> s[i].t <= s[j].t
  }

  lemma AscendingJoin(a: seq<Sample>, b: seq<Sample>)
    requires Ascending(a) && Ascending(b)
    requires a != [] && b != [] ==> a[|a| - 1].t <= b[0].t
    ensures Ascending(a + b)
  {
    forall i, j | 0 <= i < j < |a + b| ensures (a + b)[i].t <= (a + b)[j].t {
      if i < |a| <= j {
        assert a[i].t <= a[|a| - 1].t;
        assert b[0].t <= b[j - |a|].t;
      }
    }
  }

  lemma AscendingPart(s: seq<Sample>, l: nat, h: nat)
    requires Ascending(s) && l <= h <= |s|
    ensures Ascending(s[l..h])
  {
  }

  /** `part(lo) + … + part(hi - 1)`. */
  function Concat<T>(part: int -> seq<T>, lo: int, hi: int): seq<T>
    decreases hi - lo
  {
    if hi <= lo then [] else Concat(part, lo, hi - 1) + part(hi - 1)
  }

  lemma {:induction false} ConcatSame<T>(p: int -> seq<T>, q: int -> seq<T>, lo: int, hi: int)
    requires forall k :: lo <= k < hi ==> p(k) == q(k)
    ensures Concat(p, lo, hi) == Concat(q, lo, hi)
    decreases hi - lo
  {
    if lo < hi { ConcatSame(p, q, lo, hi - 1); }
  }

  lemma {:induction false} ConcatJoin<T>(p: int -> seq<T>, lo: int, mid: int, hi: int)
    requires lo <= mid <= hi
    ensures Concat(p, lo, hi) == Concat(p, lo, mid) + Concat(p, mid, hi)
    decreases hi - mid
  {
    if mid < hi { ConcatJoin(p, lo, mid, hi - 1); }
  }

  lemma {:induction false} ConcatNone<T>(p: int -> seq<T>, lo: int, hi: int)
    requires forall k :: lo <= k < hi ==> p(k) == []
    ensures Concat(p, lo, hi) == []
    decreases hi - lo
  {
    if lo < hi { ConcatNone(p, lo, hi - 1); }
  }

  /** `partition_point(|t| *t <= bound)`. */
  function Upto(s: seq<Sample>, bound: int): nat {
    UptoFrom(s, bound, 0)
  }

  function UptoFrom(s: seq<Sample>, bound: int, i: nat): nat
    decreases |s| - i
  {
    if i >= |s| || s[i].t > bound then i else UptoFrom(s, bound, i + 1)
  }

  lemma {:induction false} UptoFromStops(s: seq<Sample>, bound: int, i: nat)
    requires i <= |s|
    ensures i <= UptoFrom(s, bound, i) <= |s|
    ensures forall j :: i <= j < UptoFrom(s, bound, i) ==> s[j].t <= bound
    ensures UptoFrom(s, bound, i) < |s| ==> s[UptoFrom(s, bound, i)].t > bound
    decreases |s| - i
  {
    if i < |s| && s[i].t <= bound { UptoFromStops(s, bound, i + 1); }
  }

  lemma UptoSplits(s: seq<Sample>, bound: int)
    requires Ascending(s)
    ensures Upto(s, bound) <= |s|
    ensures forall i :: 0 <= i < Upto(s, bound) ==> s[i].t <= bound
    ensures forall i :: Upto(s, bound) <= i < |s| ==> s[i].t > bound
  {
    UptoFromStops(s, bound, 0);
  }

  /** The samples with `lo < t <= hi`. */
  function Live(s: seq<Sample>, lo: int, hi: int): seq<Sample> {
    if s == [] then []
    else
      var last := s[|s| - 1];
      Live(s[..|s| - 1], lo, hi) + (if lo < last.t <= hi then [last] else [])
  }

  lemma {:induction false} LiveConcat(a: seq<Sample>, b: seq<Sample>, lo: int, hi: int)
    ensures Live(a + b, lo, hi) == Live(a, lo, hi) + Live(b, lo, hi)
    decreases |b|
  {
    if b == [] {
      assert a + b == a;
    } else {
      assert (a + b)[..|a + b| - 1] == a + b[..|b| - 1];
      LiveConcat(a, b[..|b| - 1], lo, hi);
    }
  }

  lemma {:induction false} LiveNone(s: seq<Sample>, lo: int, hi: int)
    requires forall i :: 0 <= i < |s| ==> !(lo < s[i].t <= hi)
    ensures Live(s, lo, hi) == []
  {
    if s != [] { LiveNone(s[..|s| - 1], lo, hi); }
  }

  lemma {:induction false} LiveAll(s: seq<Sample>, lo: int, hi: int)
    requires forall i :: 0 <= i < |s| ==> lo < s[i].t <= hi
    ensures Live(s, lo, hi) == s
  {
    if s != [] {
      LiveAll(s[..|s| - 1], lo, hi);
      assert s == s[..|s| - 1] + [s[|s| - 1]];
    }
  }

  /** Between two edges of sorted samples, the live ones are the slice. */
  lemma LiveIsSlice(s: seq<Sample>, l: nat, h: nat, lo: int, hi: int)
    requires l <= h <= |s|
    requires forall i :: 0 <= i < l ==> s[i].t <= lo
    requires forall i :: l <= i < h ==> lo < s[i].t <= hi
    requires forall i :: h <= i < |s| ==> hi < s[i].t
    ensures Live(s, lo, hi) == s[l..h]
  {
    hide Live;
    var a, b, c := s[..l], s[l..h], s[h..];
    assert s == (a + b) + c;
    LiveConcat(a + b, c, lo, hi);
    LiveConcat(a, b, lo, hi);
    LiveNone(a, lo, hi);
    LiveNone(c, lo, hi);
    LiveAll(b, lo, hi);
  }

  /** The samples without stale markers. */
  function NonStale(s: seq<Sample>): seq<Sample> {
    if s == [] then []
    else
      var last := s[|s| - 1];
      NonStale(s[..|s| - 1]) + (if IsStale(last.v) then [] else [last])
  }

  lemma {:induction false} NonStaleKeeps(s: seq<Sample>)
    ensures forall x :: x in NonStale(s) ==> x in s && !IsStale(x.v)
  {
    if s != [] { NonStaleKeeps(s[..|s| - 1]); }
  }

  lemma {:induction false} NonStaleConcat(a: seq<Sample>, b: seq<Sample>)
    ensures NonStale(a + b) == NonStale(a) + NonStale(b)
    decreases |b|
  {
    if b == [] {
      assert a + b == a;
    } else {
      assert (a + b)[..|a + b| - 1] == a + b[..|b| - 1];
      NonStaleConcat(a, b[..|b| - 1]);
    }
  }

  lemma {:induction false} NonStaleAll(s: seq<Sample>)
    requires forall i :: 0 <= i < |s| ==> !IsStale(s[i].v)
    ensures NonStale(s) == s
  {
    if s != [] {
      NonStaleAll(s[..|s| - 1]);
      assert s == s[..|s| - 1] + [s[|s| - 1]];
    }
  }

  lemma {:induction false} NonStaleLive(s: seq<Sample>, lo: int, hi: int)
    ensures NonStale(Live(s, lo, hi)) == Live(NonStale(s), lo, hi)
  {
    if s != [] {
      var last := s[|s| - 1];
      var tail := if lo < last.t <= hi then [last] else [];
      var kept := if IsStale(last.v) then [] else [last];
      NonStaleLive(s[..|s| - 1], lo, hi);
      NonStaleConcat(Live(s[..|s| - 1], lo, hi), tail);
      LiveConcat(NonStale(s[..|s| - 1]), kept, lo, hi);
      assert NonStale(tail) == Live(kept, lo, hi);
    }
  }

  lemma {:induction false} NonStaleAscending(s: seq<Sample>)
    requires Ascending(s)
    ensures Ascending(NonStale(s))
  {
    if s != [] {
      NonStaleAscending(s[..|s| - 1]);
      NonStaleKeeps(s[..|s| - 1]);
      assert forall x :: x in s[..|s| - 1] ==> x.t <= s[|s| - 1].t;
    }
  }
}
