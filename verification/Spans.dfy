/** One group's dense positions over its evaluated span, with left headroom. */
module Spans {
  import opened Series

  /** An accumulator's state per position, left uninterpreted: the value before
      anything reaches it, one more value, another partial state. */
  datatype Ops<!S, !V> = Ops(blank: S, add: (S, V) -> S, merge: (S, S) -> S)

  /** What an incoming value, or an incoming partial state, makes of what a
      position holds. A fresh position takes a partial state verbatim. */
  function AddStep<S, V>(ops: Ops<S, V>): (Option<S>, V) -> S {
    (held: Option<S>, v: V) => ops.add(if held.Some? then held.value else ops.blank, v)
  }

  function MergeStep<S, V>(ops: Ops<S, V>): (Option<S>, S) -> S {
    (held: Option<S>, s: S) => if held.Some? then ops.merge(held.value, s) else s
  }

  function Held<S>(m: map<nat, S>, i: nat): Option<S> {
    if i in m then Some(m[i]) else None
  }

  /** The specification: one row folded into a map from grid index to state. */
  function FoldRow<S, X>(step: (Option<S>, X) -> S, m: map<nat, S>, ixs: seq<nat>, xs: seq<X>): map<nat, S>
    requires |ixs| == |xs|
  {
    if ixs == [] then m
    else
      var n := |ixs| - 1;
      var m' := FoldRow(step, m, ixs[..n], xs[..n]);
      m'[ixs[n] := step(Held(m', ixs[n]), xs[n])]
  }

  /** The same for consecutive positions from `index` on. */
  function FoldRun<S, X>(step: (Option<S>, X) -> S, m: map<nat, S>, index: nat, xs: seq<X>): map<nat, S> {
    if xs == [] then m
    else
      var n := |xs| - 1;
      var m' := FoldRun(step, m, index, xs[..n]);
      m'[index + n := step(Held(m', index + n), xs[n])]
  }

  /** A run of a row folds as that part of the row. */
  lemma {:induction false} RunFoldsRow<S, X>(step: (Option<S>, X) -> S, m: map<nat, S>, ixs: seq<nat>, xs: seq<X>,
                                             index: nat, from: nat, until: nat)
    requires |ixs| == |xs| && from <= until <= |xs|
    requires forall k :: from <= k < until ==> ixs[k] == index + k - from
    ensures FoldRow(step, m, ixs[..until], xs[..until]) ==
            FoldRun(step, FoldRow(step, m, ixs[..from], xs[..from]), index, xs[from..until])
    decreases until
  {
    if from < until {
      RunFoldsRow(step, m, ixs, xs, index, from, until - 1);
      var n := until - 1;
      assert ixs[..until][..until - 1] == ixs[..until - 1] && xs[..until][..until - 1] == xs[..until - 1];
      assert xs[from..until][..until - from - 1] == xs[from..until - 1];
    }
  }

  /** One series' values, or one partial row's states, sample by sample. */
  datatype Part<S, V> = Values(values: seq<V>) | Partials(states: seq<S>)

  function PartLen<S, V>(part: Part<S, V>): nat {
    match part case Values(vs) => |vs| case Partials(ss) => |ss|
  }

  function Slice<S, V>(part: Part<S, V>, from: nat, until: nat): (r: Part<S, V>)
    requires from <= until <= PartLen(part)
    ensures PartLen(r) == until - from
  {
    match part case Values(vs) => Values(vs[from..until]) case Partials(ss) => Partials(ss[from..until])
  }

  function FoldPart<S, V>(ops: Ops<S, V>, m: map<nat, S>, ixs: seq<nat>, part: Part<S, V>): map<nat, S>
    requires |ixs| == PartLen(part)
  {
    match part
    case Values(vs) => FoldRow(AddStep(ops), m, ixs, vs)
    case Partials(ss) => FoldRow(MergeStep(ops), m, ixs, ss)
  }

  function FoldPartRun<S, V>(ops: Ops<S, V>, m: map<nat, S>, index: nat, part: Part<S, V>): map<nat, S> {
    match part
    case Values(vs) => FoldRun(AddStep(ops), m, index, vs)
    case Partials(ss) => FoldRun(MergeStep(ops), m, index, ss)
  }

  lemma RunFoldsPart<S, V>(ops: Ops<S, V>, m: map<nat, S>, ixs: seq<nat>, part: Part<S, V>, index: nat, from: nat,
                           until: nat)
    requires |ixs| == PartLen(part) && from <= until <= |ixs|
    requires forall k :: from <= k < until ==> ixs[k] == index + k - from
    ensures FoldPart(ops, m, ixs[..until], Slice(part, 0, until)) ==
            FoldPartRun(ops, FoldPart(ops, m, ixs[..from], Slice(part, 0, from)), index, Slice(part, from, until))
  {
    hide FoldRow, FoldRun;
    match part
    case Values(vs) =>
      assert vs[0..until] == vs[..until] && vs[0..from] == vs[..from];
      RunFoldsRow(AddStep(ops), m, ixs, vs, index, from, until);
    case Partials(ss) =>
      assert ss[0..until] == ss[..until] && ss[0..from] == ss[..from];
      RunFoldsRow(MergeStep(ops), m, ixs, ss, index, from, until);
  }

  /** Positions `start..` are the span, whose first grid index is `first`; the
      ones before are headroom. */
  datatype Lane<S> = Lane(first: nat, start: nat, seen: seq<bool>, states: seq<S>)

  predicate Sized<S>(l: Lane<S>) {
    |l.seen| == |l.states| && l.start <= |l.seen|
  }

  function Width<S>(l: Lane<S>): nat
    requires Sized(l)
  {
    |l.seen| - l.start
  }

  /** Unseen positions hold the fresh state, and headroom is unseen. */
  ghost predicate Clean<S>(l: Lane<S>, blank: S) {
    && Sized(l)
    && (forall i :: 0 <= i < |l.seen| && !l.seen[i] ==> l.states[i] == blank)
    && (forall i :: 0 <= i < l.start ==> !l.seen[i])
  }

  /** Headroom does not reach before grid zero, and is at most the span's width. */
  ghost predicate Tidy<S>(l: Lane<S>, blank: S) {
    Clean(l, blank) && Sized(l) && l.start <= l.first && l.start <= Width(l)
  }

  predicate SeenAt<S>(l: Lane<S>, i: nat)
    requires Sized(l) && l.first <= i < l.first + Width(l)
  {
    l.seen[l.start + i - l.first]
  }

  function StateAt<S>(l: Lane<S>, i: nat): S
    requires Sized(l) && l.first <= i < l.first + Width(l)
  {
    l.states[l.start + i - l.first]
  }

  /** The states the span holds, by grid index. */
  function Contents<S>(l: Lane<S>): map<nat, S>
    requires Sized(l)
  {
    map i: nat | l.first <= i < l.first + Width(l) && SeenAt(l, i) :: StateAt(l, i)
  }

  lemma ContentsAt<S>(l: Lane<S>, i: nat)
    requires Sized(l)
    ensures i in Contents(l) <==> l.first <= i < l.first + Width(l) && l.seen[l.start + i - l.first]
    ensures i in Contents(l) ==> Contents(l)[i] == l.states[l.start + i - l.first]
  {
  }

  lemma SameContents<S>(l: Lane<S>, l': Lane<S>)
    requires Sized(l) && Sized(l')
    requires forall i: nat :: i in Contents(l) <==> i in Contents(l')
    requires forall i: nat :: i in Contents(l) && i in Contents(l') ==> Contents(l)[i] == Contents(l')[i]
    ensures Contents(l) == Contents(l')
  {
  }

  function Fill<T>(n: nat, x: T): seq<T> {
    seq(n, _ => x)
  }

  /** Rebased onto a wider physical span, old positions verbatim. */
  function Prepended<S>(l: Lane<S>, count: nat, blank: S): Lane<S> {
    l.(start := l.start + count, seen := Fill(count, false) + l.seen, states := Fill(count, blank) + l.states)
  }

  function Resized<S>(l: Lane<S>, len: nat, blank: S): Lane<S>
    requires Sized(l) && |l.seen| <= len
  {
    l.(seen := l.seen + Fill(len - |l.seen|, false), states := l.states + Fill(len - |l.states|, blank))
  }

  function Shifted<S>(l: Lane<S>, left: nat): Lane<S>
    requires left <= l.start && left <= l.first
    ensures Sized(l) ==> Sized(Shifted(l, left))
  {
    l.(start := l.start - left, first := l.first - left)
  }

  lemma PrependKeeps<S>(l: Lane<S>, count: nat, blank: S)
    requires Sized(l)
    ensures Sized(Prepended(l, count, blank)) && Contents(Prepended(l, count, blank)) == Contents(l)
  {
    var l' := Prepended(l, count, blank);
    hide Contents;
    forall i: nat
      ensures i in Contents(l) <==> i in Contents(l')
      ensures i in Contents(l) && i in Contents(l') ==> Contents(l)[i] == Contents(l')[i]
    {
      ContentsAt(l, i);
      ContentsAt(l', i);
    }
    SameContents(l, l');
  }

  lemma ResizeKeeps<S>(l: Lane<S>, len: nat, blank: S)
    requires Sized(l) && |l.seen| <= len
    ensures Sized(Resized(l, len, blank)) && Contents(Resized(l, len, blank)) == Contents(l)
  {
    var l' := Resized(l, len, blank);
    hide Contents;
    forall i: nat
      ensures i in Contents(l) <==> i in Contents(l')
      ensures i in Contents(l) && i in Contents(l') ==> Contents(l)[i] == Contents(l')[i]
    {
      ContentsAt(l, i);
      ContentsAt(l', i);
    }
    SameContents(l, l');
  }

  lemma ShiftKeeps<S>(l: Lane<S>, left: nat)
    requires Sized(l) && left <= l.start && left <= l.first
    requires forall i :: 0 <= i < l.start ==> !l.seen[i]
    ensures Contents(Shifted(l, left)) == Contents(l)
  {
    var l' := Shifted(l, left);
    hide Contents;
    forall i: nat
      ensures i in Contents(l) <==> i in Contents(l')
      ensures i in Contents(l) && i in Contents(l') ==> Contents(l)[i] == Contents(l')[i]
    {
      ContentsAt(l, i);
      ContentsAt(l', i);
    }
    SameContents(l, l');
  }

  /** Moving an empty span is free. */
  lemma MoveKeeps<S>(l: Lane<S>, first: nat)
    requires Sized(l) && Width(l) == 0
    ensures Contents(l.(first := first)) == Contents(l)
  {
    assert forall i: nat :: i !in Contents(l);
    assert forall i: nat :: i !in Contents(l.(first := first));
  }

  /** Writing one position writes one grid index. */
  lemma WriteSets<S>(l: Lane<S>, p: nat, s: S)
    requires Sized(l) && l.start <= p < |l.seen|
    ensures var l' := l.(seen := l.seen[p := true], states := l.states[p := s]);
            Sized(l') && Contents(l') == Contents(l)[l.first + p - l.start := s]
    ensures Held(Contents(l), l.first + p - l.start) == if l.seen[p] then Some(l.states[p]) else None
  {
    var l' := l.(seen := l.seen[p := true], states := l.states[p := s]);
    hide Contents;
    var m := Contents(l)[l.first + p - l.start := s];
    forall i: nat
      ensures i in m <==> i in Contents(l')
      ensures i in m && i in Contents(l') ==> m[i] == Contents(l')[i]
    {
      ContentsAt(l, i);
      ContentsAt(l', i);
    }
    assert m == Contents(l');
    ContentsAt(l, l.first + p - l.start);
  }

  class Span<S(==), V> {
    const ops: Ops<S, V>
    var first: nat
    var start: nat
    var seen: seq<bool>
    var states: seq<S>
    /** Positions ever moved by a prepend. */
    ghost var moved: nat

    ghost function Now(): Lane<S>
      reads this
    {
      Lane(first, start, seen, states)
    }

    /** Doubling bounds the movement: while more left growth is possible it is
        within the physical span, and after the last, capped one within twice. */
    ghost predicate Valid()
      reads this
    {
      && Tidy(Now(), ops.blank)
      && (if start < first then moved <= |seen| else moved <= 2 * |seen|)
    }

    constructor (ops: Ops<S, V>)
      ensures Valid() && Now() == Lane(0, 0, [], []) && moved == 0 && this.ops == ops
    {
      this.ops := ops;
      first, start, seen, states, moved := 0, 0, [], [], 0;
    }

    /** Positions charged to the memory account. */
    function Size(): nat
      reads this
    {
      |seen| + |states|
    }

    method Prepend(count: nat)
      requires Sized(Now())
      modifies this`start, this`seen, this`states, this`moved
      ensures Now() == Prepended(old(Now()), count, ops.blank) && moved == old(moved) + |old(seen)|
    {
      moved := moved + |seen|;
      seen, states := Fill(count, false) + seen, Fill(count, ops.blank) + states;
      start := start + count;
    }

    /** Headroom is at most another width, and every position ever moved is
        paid for by the width. */
    lemma MovementIsLinear()
      requires Valid()
      ensures |seen| <= 2 * Width(Now()) && moved <= 2 * |seen| <= 4 * Width(Now())
    {
      hide Clean;
      CleanIsSized(Now(), ops.blank);
    }

    /** Headroom for `left` more positions. The lane doubles unless grid zero
        comes first, and past that nothing ever moves again. */
    method Rebase(left: nat)
      requires Clean(Now(), ops.blank) && left > start && left <= first
      modifies this`start, this`seen, this`states, this`moved
      ensures Clean(Now(), ops.blank) && Contents(Now()) == old(Contents(Now()))
      ensures moved == old(moved) + |old(seen)|
      ensures start - old(start) == |seen| - |old(seen)| >= 0
      ensures left <= start <= first
      ensures start < first ==> |seen| >= 2 * |old(seen)|
      ensures start - old(start) <= left - old(start) || start - old(start) <= |old(seen)|
    {
      hide Contents, Fill, Clean;
      var origin := first - start;
      var prepend := if left - start > |seen| then left - start else |seen|;
      prepend := if prepend < origin then prepend else origin;
      CleanIsSized(Now(), ops.blank);
      PrependKeeps(Now(), prepend, ops.blank);
      PrependTidy(Now(), prepend, ops.blank);
      Prepend(prepend);
    }

    /** Room for `needed` physical positions, the new ones fresh. */
    method Widen(needed: nat)
      requires Clean(Now(), ops.blank)
      modifies this`seen, this`states
      ensures Clean(Now(), ops.blank) && Contents(Now()) == old(Contents(Now()))
      ensures |seen| == if needed > |old(seen)| then needed else |old(seen)|
    {
      hide Contents, Fill, Clean;
      CleanIsSized(Now(), ops.blank);
      if needed > |seen| {
        ResizeKeeps(Now(), needed, ops.blank);
        ResizeTidy(Now(), needed, ops.blank);
        seen, states := seen + Fill(needed - |seen|, false), states + Fill(needed - |states|, ops.blank);
      }
    }

    /** Widens the span to hold grid indices `from..=last`, refolding nothing. */
    method Include(from: nat, last: nat)
      requires Valid() && from <= last
      modifies this`first, this`start, this`seen, this`states, this`moved
      ensures Valid() && Contents(Now()) == old(Contents(Now()))
      ensures first <= from && last < first + (|seen| - start)
      ensures |old(seen)| == old(start) ==> first == from && first + |seen| - start == last + 1
      ensures |old(seen)| > old(start) ==>
                && first == (if from < old(first) then from else old(first))
                && first + |seen| - start ==
                   (if last + 1 > old(first + |seen| - start) then last + 1 else old(first + |seen| - start))
    {
      hide Contents, Clean;
      if |seen| - start == 0 {
        MoveKeeps(Now(), from);
        MoveTidy(Now(), from, ops.blank);
        first := from;
      }
      var width := |seen| - start;
      Stretch(if from < first then from else first, if last + 1 > first + width then last + 1 else first + width);
    }

    /** Rebased to begin at grid index `begin`, and to end before `end`. */
    method Stretch(begin: nat, end: nat)
      requires Valid() && begin <= first && first + |seen| - start <= end && begin < end
      modifies this`first, this`start, this`seen, this`states, this`moved
      ensures Valid() && Contents(Now()) == old(Contents(Now()))
      ensures first == begin && first + |seen| - start == end
    {
      hide Contents, Clean;
      var left := first - begin;
      if left > start { Rebase(left); }
      ShiftTidy(Now(), left, ops.blank);
      start, first := start - left, begin;
      Widen(start + end - begin);
      CleanIsSized(Now(), ops.blank);
    }

    /** One position now holds `s`, and is seen. */
    method Write(p: nat, s: S)
      requires Valid() && start <= p < |seen|
      modifies this`seen, this`states
      ensures Valid() && |seen| == |old(seen)|
      ensures seen == old(seen)[p := true]
      ensures Contents(Now()) == old(Contents(Now()))[first + p - start := s]
    {
      hide Contents, Clean;
      WriteSets(Now(), p, s);
      WriteTidy(Now(), p, s, ops.blank);
      seen, states := seen[p := true], states[p := s];
    }

    /** One series' values into consecutive positions. */
    method AddRun(at: nat, values: seq<V>)
      requires Valid() && start <= at && at + |values| <= |seen|
      modifies this`seen, this`states
      ensures Valid() && |seen| == |old(seen)|
      ensures Contents(Now()) == FoldRun(AddStep(ops), old(Contents(Now())), first + at - start, values)
    {
      hide Contents, Clean;
      ghost var was := Contents(Now());
      for i := 0 to |values|
        invariant Valid() && |seen| == |old(seen)|
        invariant Contents(Now()) == FoldRun(AddStep(ops), was, first + at - start, values[..i])
      {
        ReadAt(Now(), at + i, ops.blank);
        assert values[..i + 1][..i] == values[..i];
        Write(at + i, ops.add(states[at + i], values[i]));
      }
      assert values[..|values|] == values;
    }

    /** Where the stretch of positions from `at` that all equal `bit` ends. */
    method RunEnd(at: nat, len: nat, bit: bool) returns (end: nat)
      requires at + len <= |seen|
      ensures at <= end <= at + len
      ensures forall i :: at <= i < end ==> seen[i] == bit
      ensures end < at + len ==> seen[end] != bit
    {
      end := at;
      while end < at + len && seen[end] == bit
        invariant at <= end <= at + len
        invariant forall i :: at <= i < end ==> seen[i] == bit
      {
        end := end + 1;
      }
    }

    /** One stretch of `incoming`, `from..until`, onto positions all reached
        or all fresh. */
    method MergeStretch(at: nat, incoming: seq<S>, from: nat, until: nat, bit: bool, ghost was: map<nat, S>)
      requires Valid() && start <= at && from <= until <= |incoming| && at + |incoming| <= |seen|
      requires forall p :: at + from <= p < at + until ==> seen[p] == bit
      requires Contents(Now()) == FoldRun(MergeStep(ops), was, first + at - start, incoming[..from])
      modifies this`seen, this`states
      ensures Valid() && |seen| == |old(seen)|
      ensures Contents(Now()) == FoldRun(MergeStep(ops), was, first + at - start, incoming[..until])
    {
      hide Contents, Clean;
      for i := from to until
        invariant Valid() && |seen| == |old(seen)|
        invariant forall p :: at + i <= p < at + until ==> seen[p] == bit
        invariant Contents(Now()) == FoldRun(MergeStep(ops), was, first + at - start, incoming[..i])
      {
        ReadAt(Now(), at + i, ops.blank);
        assert incoming[..i + 1][..i] == incoming[..i];
        Write(at + i, if bit then ops.merge(states[at + i], incoming[i]) else incoming[i]);
      }
    }

    /** Partial states into consecutive positions: reached ones merge, fresh
        ones copy, stretch by stretch. */
    method MergeRun(at: nat, incoming: seq<S>)
      requires Valid() && start <= at && at + |incoming| <= |seen|
      modifies this`seen, this`states
      ensures Valid() && |seen| == |old(seen)|
      ensures Contents(Now()) == FoldRun(MergeStep(ops), old(Contents(Now())), first + at - start, incoming)
    {
      hide Contents, Clean;
      ghost var was := Contents(Now());
      var k := 0;
      while k < |incoming|
        invariant Valid() && |seen| == |old(seen)| && k <= |incoming|
        invariant Contents(Now()) == FoldRun(MergeStep(ops), was, first + at - start, incoming[..k])
      {
        var bit := seen[at + k];
        var end := RunEnd(at + k, |incoming| - k, bit);
        MergeStretch(at, incoming, k, end - at, bit, was);
        k := end - at;
      }
      assert incoming[..|incoming|] == incoming;
    }

    method FoldRunAt(at: nat, part: Part<S, V>)
      requires Valid() && start <= at && at + PartLen(part) <= |seen|
      modifies this`seen, this`states
      ensures Valid() && |seen| == |old(seen)|
      ensures Contents(Now()) == FoldPartRun(ops, old(Contents(Now())), first + at - start, part)
    {
      match part
      case Values(vs) => AddRun(at, vs);
      case Partials(ss) => MergeRun(at, ss);
    }

    /** Where grid positions `index..` of a run are, if the span holds them. */
    function LocalIndex(index: nat, len: nat): Option<nat>
      requires start <= |seen|
      reads this
    {
      if index >= first && index - first + len <= |seen| - start then Some(start + index - first) else None
    }

    /** The first `cut` positions of a flat lane leave, the rest move down. */
    method DropFront(cut: nat)
      requires Valid() && first == start == 0 == moved && cut <= |seen|
      modifies this`seen, this`states
      ensures Valid() && seen == old(seen)[cut..] && states == old(states)[cut..]
    {
      seen, states := seen[cut..], states[cut..];
    }
  }

  lemma WriteTidy<S>(l: Lane<S>, p: nat, s: S, blank: S)
    requires Clean(l, blank) && l.start <= p < |l.seen|
    ensures Clean(l.(seen := l.seen[p := true], states := l.states[p := s]), blank)
  {
  }

  /** A seen position reads what its grid index holds; an unseen one is fresh. */
  lemma ReadAt<S>(l: Lane<S>, p: nat, blank: S)
    requires Clean(l, blank) && l.start <= p < |l.seen|
    ensures Sized(l)
    ensures Held(Contents(l), l.first + p - l.start) == if l.seen[p] then Some(l.states[p]) else None
    ensures !l.seen[p] ==> l.states[p] == blank
  {
    WriteSets(l, p, blank);
  }

  lemma CleanIsSized<S>(l: Lane<S>, blank: S)
    requires Clean(l, blank)
    ensures Sized(l)
  {
  }

  lemma PrependTidy<S>(l: Lane<S>, count: nat, blank: S)
    requires Clean(l, blank)
    ensures Clean(Prepended(l, count, blank), blank) && |Prepended(l, count, blank).seen| == |l.seen| + count
  {
  }

  lemma ResizeTidy<S>(l: Lane<S>, len: nat, blank: S)
    requires Clean(l, blank) && |l.seen| <= len
    ensures Clean(Resized(l, len, blank), blank) && |Resized(l, len, blank).seen| == len
  {
  }

  lemma ShiftTidy<S>(l: Lane<S>, left: nat, blank: S)
    requires Clean(l, blank) && left <= l.start && left <= l.first
    ensures Clean(Shifted(l, left), blank) && Contents(Shifted(l, left)) == Contents(l)
  {
    ShiftKeeps(l, left);
  }

  lemma MoveTidy<S>(l: Lane<S>, first: nat, blank: S)
    requires Clean(l, blank)
    ensures Clean(l.(first := first), blank)
  {
  }
}
