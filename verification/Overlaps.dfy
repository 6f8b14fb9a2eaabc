/** Whether rows of one label set share a timestamp. */
module Overlaps {

  ghost predicate Climbing(ts: seq<int>) {
    forall i, j :: 0 <= i < j < |ts| ==> ts[i] < ts[j]
  }

  ghost predicate Share(a: seq<int>, b: seq<int>) {
    exists t :: t in a && t in b
  }

  /** No two different rows share a timestamp. */
  ghost predicate NoneShared(spans: seq<seq<int>>) {
    forall i, j :: 0 <= i < j < |spans| ==> !Share(spans[i], spans[j])
  }

  ghost predicate Spans(spans: seq<seq<int>>) {
    forall i :: 0 <= i < |spans| ==> spans[i] != [] && Climbing(spans[i])
  }

  lemma LastIsMost(ts: seq<int>, t: int)
    requires Climbing(ts) && t in ts
    ensures ts[0] <= t <= ts[|ts| - 1]
  {
  }

  // ── The heap walk ──

  /** A row's next timestamp. */
  datatype Head = Head(time: int, row: nat, point: nat)

  predicate Before(x: Head, y: Head) {
    || x.time < y.time
    || (x.time == y.time && (x.row < y.row || (x.row == y.row && x.point <= y.point)))
  }

  /** The least head, and the rest of the heap. */
  method Pop(heap: seq<Head>) returns (least: Head, rest: seq<Head>, ghost at: nat)
    requires heap != []
    ensures at < |heap| && least == heap[at] && rest == heap[..at] + heap[at + 1..]
    ensures forall h :: h in heap ==> Before(least, h)
  {
    var k := 0;
    for i := 1 to |heap|
      invariant k < i && forall j :: 0 <= j < i ==> Before(heap[k], heap[j])
    {
      if !Before(heap[k], heap[i]) { k := i; }
    }
    least, rest, at := heap[k], heap[..k] + heap[k + 1..], k;
  }

  /** `next[r]` timestamps of row `r` are taken; its head, if it has one left,
      is the next, and each row has at most one. */
  ghost predicate Heads(spans: seq<seq<int>>, heap: seq<Head>, next: seq<nat>) {
    && |next| == |spans|
    && (forall r :: 0 <= r < |spans| ==> next[r] <= |spans[r]|)
    && (forall h :: h in heap ==> HeadIs(spans, h, next))
    && Apart(heap)
    && (forall r :: 0 <= r < |spans| && next[r] < |spans[r]| ==> HasHead(heap, r))
  }

  ghost predicate HeadIs(spans: seq<seq<int>>, h: Head, next: seq<nat>)
    requires |next| == |spans|
  {
    h.row < |spans| && h.point == next[h.row] < |spans[h.row]| && h.time == spans[h.row][h.point]
  }

  ghost predicate HasHead(heap: seq<Head>, r: int) {
    exists h :: h in heap && h.row == r
  }

  ghost predicate Apart(heap: seq<Head>) {
    forall j, k :: 0 <= j < k < |heap| ==> heap[j].row != heap[k].row
  }

  /** What is taken comes no later than `at`, what is left no earlier, and no
      two rows have shared a taken timestamp; the last taken is row `from`'s. */
  ghost predicate Taken(spans: seq<seq<int>>, next: seq<nat>, at: int, from: nat)
    requires |next| == |spans| && forall r :: 0 <= r < |spans| ==> next[r] <= |spans[r]|
  {
    && (forall r, k :: 0 <= r < |spans| && 0 <= k < next[r] ==> spans[r][k] <= at)
    && (forall r, k :: 0 <= r < |spans| && next[r] <= k < |spans[r]| ==> at <= spans[r][k])
    && Unshared(spans, next)
    && from < |spans| && next[from] > 0 && spans[from][next[from] - 1] == at
  }

  /** No two rows have shared a taken timestamp. */
  ghost predicate Unshared(spans: seq<seq<int>>, next: seq<nat>)
    requires |next| == |spans| && forall r :: 0 <= r < |spans| ==> next[r] <= |spans[r]|
  {
    forall r, s, j, k :: 0 <= r < s < |spans| && 0 <= j < next[r] && 0 <= k < next[s] ==> spans[r][j] != spans[s][k]
  }

  lemma UnsharedGrows(spans: seq<seq<int>>, next: seq<nat>, row: nat)
    requires |next| == |spans| && forall r :: 0 <= r < |spans| ==> next[r] <= |spans[r]|
    requires Unshared(spans, next) && row < |spans| && next[row] < |spans[row]|
    requires forall r, k :: 0 <= r < |spans| && 0 <= k < next[r] ==> spans[r][k] < spans[row][next[row]]
    ensures Unshared(spans, next[row := next[row] + 1])
  {
    var next' := next[row := next[row] + 1];
    forall r, s, j, k | 0 <= r < s < |spans| && 0 <= j < next'[r] && 0 <= k < next'[s]
      ensures spans[r][j] != spans[s][k]
    {
      if r == row && j == next[r] {
        assert spans[s][k] < spans[row][next[row]];
      } else if s == row && k == next[s] {
        assert spans[r][j] < spans[row][next[row]];
      }
    }
  }

  lemma HeapBegins(spans: seq<seq<int>>, heap: seq<Head>, next: seq<nat>)
    requires Spans(spans) && |heap| == |spans| == |next|
    requires forall r :: 0 <= r < |spans| ==> next[r] == 0 && spans[r] != [] && heap[r] == Head(spans[r][0], r, 0)
    ensures Heads(spans, heap, next)
  {
    forall r | 0 <= r < |spans| ensures HasHead(heap, r) { assert heap[r] in heap; }
  }

  /** Without its least head the heap is heads of the other rows. */
  lemma Rest(heap: seq<Head>, at: nat)
    requires Apart(heap) && at < |heap|
    ensures var rest := heap[..at] + heap[at + 1..];
            && Apart(rest)
            && (forall h :: h in rest ==> h in heap && h.row != heap[at].row)
            && (forall h :: h in heap && h.row != heap[at].row ==> h in rest)
  {
    var rest := heap[..at] + heap[at + 1..];
    assert heap == heap[..at] + [heap[at]] + heap[at + 1..];
    forall k | 0 <= k < |rest| ensures rest[k] == heap[if k < at then k else k + 1] {}
  }

  lemma ApartAppend(heap: seq<Head>, h: Head)
    requires Apart(heap) && forall x :: x in heap ==> x.row != h.row
    ensures Apart(heap + [h])
  {
    assert forall k :: 0 <= k < |heap| ==> heap[k] in heap;
  }

  /** Taking the least head, and putting its row's next one in its place. */
  lemma HeapTakes(spans: seq<seq<int>>, heap: seq<Head>, next: seq<nat>, at: nat, heap': seq<Head>)
    requires Heads(spans, heap, next) && at < |heap|
    requires var h, rest := heap[at], heap[..at] + heap[at + 1..];
             heap' == if h.row < |spans| && h.point + 1 < |spans[h.row]|
                 then rest + [Head(spans[h.row][h.point + 1], h.row, h.point + 1)] else rest
    ensures heap[at].row < |spans| && Heads(spans, heap', next[heap[at].row := next[heap[at].row] + 1])
  {
    hide *;
    var h, rest := heap[at], heap[..at] + heap[at + 1..];
    assert h in heap;
    HeadsAre(spans, heap, next, h);
    Rest(heap, at);
    var next' := next[h.row := next[h.row] + 1];
    RestIs(spans, heap, next, h, rest);
    NextIs(spans, next, h);
    if h.point + 1 < |spans[h.row]| {
      var more := Head(spans[h.row][h.point + 1], h.row, h.point + 1);
      ApartAppend(rest, more);
      Appended(rest, more);
      RestHas(spans, heap, next, h, rest, rest + [more]);
      HeadsWhen(spans, rest + [more], next');
    } else {
      RestHas(spans, heap, next, h, rest, rest);
      HeadsWhen(spans, rest, next');
    }
  }

  lemma HeadsAre(spans: seq<seq<int>>, heap: seq<Head>, next: seq<nat>, h: Head)
    requires Heads(spans, heap, next) && h in heap
    ensures |next| == |spans| && HeadIs(spans, h, next) && h.row < |spans| && h.point == next[h.row] < |spans[h.row]|
    ensures forall r :: 0 <= r < |spans| ==> next[r] <= |spans[r]|
    ensures Apart(heap) && forall x :: x in heap ==> HeadIs(spans, x, next)
    ensures forall r :: 0 <= r < |spans| && next[r] < |spans[r]| ==> HasHead(heap, r)
  {
    hide HasHead, Apart;
  }

  lemma HeadsWhen(spans: seq<seq<int>>, heap: seq<Head>, next: seq<nat>)
    requires |next| == |spans| && forall r :: 0 <= r < |spans| ==> next[r] <= |spans[r]|
    requires Apart(heap) && forall x :: x in heap ==> HeadIs(spans, x, next)
    requires forall r :: 0 <= r < |spans| && next[r] < |spans[r]| ==> HasHead(heap, r)
    ensures Heads(spans, heap, next)
  {
    hide HasHead, Apart, HeadIs;
  }

  lemma Appended<T>(xs: seq<T>, x: T)
    ensures forall y :: y in xs + [x] <==> y in xs || y == x
  {
  }

  lemma RestIs(spans: seq<seq<int>>, heap: seq<Head>, next: seq<nat>, h: Head, rest: seq<Head>)
    requires |next| == |spans| && h.row < |next| && forall x :: x in heap ==> HeadIs(spans, x, next)
    requires forall x :: x in rest ==> x in heap && x.row != h.row
    ensures forall x :: x in rest ==> HeadIs(spans, x, next[h.row := next[h.row] + 1])
  {
  }

  lemma NextIs(spans: seq<seq<int>>, next: seq<nat>, h: Head)
    requires |next| == |spans| && HeadIs(spans, h, next)
    ensures h.point + 1 < |spans[h.row]| ==>
              HeadIs(spans, Head(spans[h.row][h.point + 1], h.row, h.point + 1), next[h.row := next[h.row] + 1])
  {
  }

  lemma RestHas(spans: seq<seq<int>>, heap: seq<Head>, next: seq<nat>, h: Head, rest: seq<Head>, heap': seq<Head>)
    requires |next| == |spans| && HeadIs(spans, h, next)
    requires forall r :: 0 <= r < |spans| && next[r] < |spans[r]| ==> HasHead(heap, r)
    requires forall x :: x in heap && x.row != h.row ==> x in rest
    requires forall x :: x in rest ==> x in heap'
    requires h.point + 1 < |spans[h.row]| ==> Head(spans[h.row][h.point + 1], h.row, h.point + 1) in heap'
    ensures var next' := next[h.row := next[h.row] + 1];
            forall r :: 0 <= r < |spans| && next'[r] < |spans[r]| ==> HasHead(heap', r)
  {
    var next' := next[h.row := next[h.row] + 1];
    forall r | 0 <= r < |spans| && next'[r] < |spans[r]| ensures HasHead(heap', r) {
      if r != h.row {
        assert HasHead(heap, r);
        var x :| x in heap && x.row == r;
        assert x in heap';
      }
    }
  }

  /** The least head is no later than anything left. */
  lemma LeastLeft(spans: seq<seq<int>>, heap: seq<Head>, next: seq<nat>, at: nat, r: nat, k: nat)
    requires Spans(spans) && Heads(spans, heap, next) && at < |heap| && forall h :: h in heap ==> Before(heap[at], h)
    requires r < |spans| && next[r] <= k < |spans[r]|
    ensures heap[at].time <= spans[r][k]
  {
    assert HasHead(heap, r);
    var h :| h in heap && h.row == r;
    assert HeadIs(spans, h, next) && Before(heap[at], h);
    assert Climbing(spans[r]);
  }

  /** A later head than the last taken has not been seen before. */
  lemma TakesNext(spans: seq<seq<int>>, heap: seq<Head>, next: seq<nat>, at: nat)
    requires Spans(spans) && Heads(spans, heap, next) && at < |heap| && forall h :: h in heap ==> Before(heap[at], h)
    requires forall r, k :: 0 <= r < |spans| && 0 <= k < next[r] ==> spans[r][k] < heap[at].time
    requires Unshared(spans, next)
    ensures heap[at].row < |spans| && next[heap[at].row] < |spans[heap[at].row]|
    ensures Taken(spans, next[heap[at].row := next[heap[at].row] + 1], heap[at].time, heap[at].row)
  {
    hide *;
    var h := heap[at];
    assert h in heap;
    HeadsAre(spans, heap, next, h);
    HeadTime(spans, h, next);
    forall r, k | 0 <= r < |spans| && next[r] <= k < |spans[r]| ensures h.time <= spans[r][k] {
      LeastLeft(spans, heap, next, at, r, k);
    }
    UnsharedGrows(spans, next, h.row);
    TakenWhen(spans, next, h.row);
  }

  lemma HeadTime(spans: seq<seq<int>>, h: Head, next: seq<nat>)
    requires |next| == |spans| && HeadIs(spans, h, next)
    ensures h.row < |spans| && h.point == next[h.row] < |spans[h.row]| && h.time == spans[h.row][h.point]
  {
  }

  lemma TakenWhen(spans: seq<seq<int>>, next: seq<nat>, row: nat)
    requires |next| == |spans| && (forall r :: 0 <= r < |spans| ==> next[r] <= |spans[r]|) && row < |spans|
             && next[row] < |spans[row]|
    requires forall r, k :: 0 <= r < |spans| && 0 <= k < next[r] ==> spans[r][k] < spans[row][next[row]]
    requires forall r, k :: 0 <= r < |spans| && next[r] <= k < |spans[r]| ==> spans[row][next[row]] <= spans[r][k]
    requires Unshared(spans, next[row := next[row] + 1])
    ensures Taken(spans, next[row := next[row] + 1], spans[row][next[row]], row)
  {
    hide Unshared;
  }

  /** Equal to the last taken, it is another row's. */
  lemma TakesAgain(spans: seq<seq<int>>, heap: seq<Head>, next: seq<nat>, at: nat, last: int, from: nat)
    requires Spans(spans) && Heads(spans, heap, next) && at < |heap| && Taken(spans, next, last, from)
             && heap[at].time == last
    ensures !NoneShared(spans)
  {
    var h := heap[at];
    assert h in heap && HeadIs(spans, h, next);
    assert Climbing(spans[from]);
    assert h.row != from;
    assert last in spans[h.row] && last in spans[from];
    assert Share(spans[h.row], spans[from]) && Share(spans[from], spans[h.row]);
  }

  lemma AllTaken(spans: seq<seq<int>>, next: seq<nat>)
    requires Heads(spans, [], next) && Unshared(spans, next)
    ensures NoneShared(spans)
  {
    assert forall r :: 0 <= r < |spans| ==> next[r] == |spans[r]|;
    forall r, s | 0 <= r < s < |spans| ensures !Share(spans[r], spans[s]) {
      forall t | t in spans[r] ensures t !in spans[s] {
        var j :| 0 <= j < |spans[r]| && spans[r][j] == t;
        forall k | 0 <= k < |spans[s]| ensures spans[s][k] != t {}
      }
    }
  }

  /** Nothing taken yet, or something last. */
  ghost predicate TakenSoFar(spans: seq<seq<int>>, next: seq<nat>, previous: Time, from: nat)
    requires |next| == |spans| && forall r :: 0 <= r < |spans| ==> next[r] <= |spans[r]|
  {
    match previous
    case Never => forall r :: 0 <= r < |spans| ==> next[r] == 0
    case At(t) => Taken(spans, next, t, from)
  }

  datatype Time = Never | At(t: int)

  lemma SoFar(spans: seq<seq<int>>, heap: seq<Head>, next: seq<nat>, previous: Time, from: nat, at: nat)
    requires Spans(spans) && Heads(spans, heap, next) && TakenSoFar(spans, next, previous, from)
    requires at < |heap| && forall h :: h in heap ==> Before(heap[at], h)
    ensures previous == At(heap[at].time) ==> !NoneShared(spans)
    ensures heap[at].row < |spans| && heap[at].point < |spans[heap[at].row]|
            && next[heap[at].row] < |spans[heap[at].row]|
    ensures previous != At(heap[at].time) ==>
              Taken(spans, next[heap[at].row := next[heap[at].row] + 1], heap[at].time, heap[at].row)
  {
    assert heap[at] in heap && HeadIs(spans, heap[at], next);
    if previous == At(heap[at].time) {
      TakesAgain(spans, heap, next, at, previous.t, from);
    } else {
      hide Spans, Heads;
      TakesNext(spans, heap, next, at);
    }
  }

  /** One borrowed head a row: the walk meets a timestamp twice just when two
      rows share it. */
  method RejectOverlapping(spans: seq<seq<int>>) returns (ok: bool)
    requires Spans(spans)
    ensures ok <==> NoneShared(spans)
  {
    hide Heads, Taken, NoneShared, Before;
    var heap := seq(|spans|, r requires 0 <= r < |spans| && spans[r] != [] => Head(spans[r][0], r, 0));
    ghost var next: seq<nat> := seq(|spans|, _ => 0);
    ghost var from := 0;
    var previous := Never;
    HeapBegins(spans, heap, next);
    HeadsSize(spans, heap, next);
    ghost var left := Total(spans);
    TotalIs(spans, next);
    ZeroSum(next);
    while heap != []
      invariant Heads(spans, heap, next) && |next| == |spans|
                && (forall r :: 0 <= r < |spans| ==> next[r] <= |spans[r]|)
      invariant TakenSoFar(spans, next, previous, from)
      invariant left == Total(spans) - Sum(next)
      decreases left
    {
      var h, rest;
      ghost var at;
      h, rest, at := Pop(heap);
      SoFar(spans, heap, next, previous, from, at);
      if previous == At(h.time) { return false; }
      previous := At(h.time);
      from := h.row;
      ghost var was := heap;
      heap := if h.point + 1 < |spans[h.row]| then rest + [Head(spans[h.row][h.point + 1], h.row, h.point + 1)]
          else rest;
      HeapTakes(spans, was, next, at, heap);
      SumSets(next, h.row, next[h.row] + 1);
      next := next[h.row := next[h.row] + 1];
      HeadsSize(spans, heap, next);
      TotalIs(spans, next);
      left := left - 1;
    }
    NoneLeft(spans, next, previous, from);
    AllTaken(spans, next);
    ok := true;
  }

  lemma NoneLeft(spans: seq<seq<int>>, next: seq<nat>, previous: Time, from: nat)
    requires |next| == |spans| && forall r :: 0 <= r < |spans| ==> next[r] <= |spans[r]|
    requires TakenSoFar(spans, next, previous, from)
    ensures Unshared(spans, next)
  {
  }

  lemma HeadsSize(spans: seq<seq<int>>, heap: seq<Head>, next: seq<nat>)
    requires Heads(spans, heap, next)
    ensures |next| == |spans| && forall r :: 0 <= r < |spans| ==> next[r] <= |spans[r]|
  {
  }

  ghost function Sum(xs: seq<nat>): nat {
    if xs == [] then 0 else Sum(xs[..|xs| - 1]) + xs[|xs| - 1]
  }

  ghost function Total(spans: seq<seq<int>>): nat {
    if spans == [] then 0 else Total(spans[..|spans| - 1]) + |spans[|spans| - 1]|
  }

  lemma {:induction false} ZeroSum(xs: seq<nat>)
    requires forall i :: 0 <= i < |xs| ==> xs[i] == 0
    ensures Sum(xs) == 0
  {
    if xs != [] { ZeroSum(xs[..|xs| - 1]); }
  }

  lemma {:induction false} SumSets(xs: seq<nat>, i: nat, x: nat)
    requires i < |xs|
    ensures Sum(xs[i := x]) == Sum(xs) - xs[i] + x
  {
    var n := |xs| - 1;
    if i < n {
      SumSets(xs[..n], i, x);
      assert xs[i := x][..n] == xs[..n][i := x];
    } else {
      assert xs[i := x][..n] == xs[..n];
    }
  }

  lemma {:induction false} TotalIs(spans: seq<seq<int>>, next: seq<nat>)
    requires |next| == |spans| && forall r :: 0 <= r < |spans| ==> next[r] <= |spans[r]|
    ensures Sum(next) <= Total(spans)
  {
    if spans != [] { TotalIs(spans[..|spans| - 1], next[..|next| - 1]); }
  }
}
