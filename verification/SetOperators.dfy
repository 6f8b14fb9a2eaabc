/** What `and`, `unless` and `or` make of a vector. */
module SetOperators {
  import opened Series
  import opened Grids
  import opened Ordering
  import opened Matching

  function OtherSide(side: Side): Side {
    match side case Lhs => Rhs case Rhs => Lhs
  }

  /** The two operands exchanged. */
  function Swapped(v: View): View {
    View(v.one, map k | k in v.many :: Key(OtherSide(k.side), k.labels) := v.many[k])
  }

  lemma SwappedAt(v: View, step: nat, side: Side, x: Labels)
    ensures ManyAt(Swapped(v), step, Key(side, x)) == ManyAt(v, step, Key(OtherSide(side), x))
  {
    assert OtherSide(OtherSide(side)) == side;
    assert Key(side, x) in Swapped(v).many <==> Key(OtherSide(side), x) in v.many;
  }

  lemma SwappedSide(v: View, step: nat, side: Side)
    ensures SideAt(Swapped(v), step, side) <==> SideAt(v, step, OtherSide(side))
  {
    hide ManyAt, Swapped;
    forall x
      ensures ManyAt(Swapped(v), step, Key(side, x)) == ManyAt(v, step, Key(OtherSide(side), x))
    {
      SwappedAt(v, step, side, x);
    }
    if SideAt(v, step, OtherSide(side)) {
      var x :| ManyAt(v, step, Key(OtherSide(side), x)).Some?;
      assert ManyAt(Swapped(v), step, Key(side, x)).Some?;
    }
  }

  /** `A and B` and `A unless B` split A: each of its samples, untouched, is in
      one of them and not in the other. */
  lemma AndUnlessSplit(v: View, step: nat, x: Labels)
    ensures var a, l, r := ManyAt(v, step, Key(Lhs, x)), SetAt(And, v)(step, x), SetAt(Unless, v)(step, x);
            && (a.Some? <==> l.Some? || r.Some?)
            && !(l.Some? && r.Some?)
            && (l.Some? ==> l.value == Kept(a.value)) && (r.Some? ==> r.value == Kept(a.value))
  {
    hide ManyAt, SideAt;
  }

  /** `A or B` is A together with `B unless A`. */
  lemma OrIsLeftThenUnless(v: View, step: nat, x: Labels)
    ensures var a := ManyAt(v, step, Key(Lhs, x));
            SetAt(Or, v)(step, x) == if a.Some? then Some(Kept(a.value)) else SetAt(Unless, Swapped(v))(step, x)
    ensures ManyAt(v, step, Key(Lhs, x)).Some? ==> SetAt(Unless, Swapped(v))(step, x).None?
  {
    SwappedAt(v, step, Lhs, x);
    SwappedAt(v, step, Rhs, x);
    SwappedSide(v, step, Rhs);
    if ManyAt(v, step, Key(Lhs, x)).Some? { assert SideAt(v, step, Lhs); }
    hide ManyAt, SideAt, Swapped;
  }

  /** A series' samples are those of its steps, in step order. */
  lemma {:induction false} SampleOf(g: Grid, at: (nat, Labels) -> Option<Operands>, x: Labels, n: nat, p: Paired)
    ensures p in SamplesTo(g, at, x, n) <==> exists step: nat :: step < n && StepIs(g, at, x, step, p)
  {
    hide StepIs;
    if n > 0 {
      SampleOf(g, at, x, n - 1, p);
      LastStep(g, at, x, n - 1, p);
      if StepIs(g, at, x, n - 1, p) { assert n - 1 < n; }
    }
  }

  ghost predicate StepIs(g: Grid, at: (nat, Labels) -> Option<Operands>, x: Labels, step: nat, p: Paired) {
    at(step, x) == Some(p.operands) && p.t == Timestamp(g, step)
  }

  lemma LastStep(g: Grid, at: (nat, Labels) -> Option<Operands>, x: Labels, step: nat, p: Paired)
    ensures p in SamplesTo(g, at, x, step + 1) <==> p in SamplesTo(g, at, x, step) || StepIs(g, at, x, step, p)
  {
  }

  /** Timestamps strictly ascend in every output series, so merging by label
      set never collides. */
  lemma {:induction false} SamplesAscend(g: Grid, at: (nat, Labels) -> Option<Operands>, x: Labels, n: nat)
    requires g.step > 0
    ensures forall i :: 0 <= i < |SamplesTo(g, at, x, n)| ==> SamplesTo(g, at, x, n)[i].t < Timestamp(g, n)
    ensures forall i, j :: 0 <= i < j < |SamplesTo(g, at, x, n)| ==>
              SamplesTo(g, at, x, n)[i].t < SamplesTo(g, at, x, n)[j].t
  {
    hide Timestamp;
    if n > 0 {
      SamplesAscend(g, at, x, n - 1);
      TimestampsAscend(g, n - 1, n);
    }
  }

  /** Over a whole run: A's samples are those of `and` and those of `unless`,
      never of both. */
  lemma SamplesSplit(g: Grid, v: View, x: Labels, n: nat, p: Paired)
    requires g.step > 0
    ensures p in SamplesTo(g, SideOf(v, Lhs), x, n) <==>
            p in SamplesTo(g, SetAt(And, v), x, n) || p in SamplesTo(g, SetAt(Unless, v), x, n)
    ensures !(p in SamplesTo(g, SetAt(And, v), x, n) && p in SamplesTo(g, SetAt(Unless, v), x, n))
  {
    hide SamplesTo, Timestamp, SetAt, ManyAt;
    SampleOf(g, SideOf(v, Lhs), x, n, p);
    SampleOf(g, SetAt(And, v), x, n, p);
    SampleOf(g, SetAt(Unless, v), x, n, p);
    forall step: nat
      ensures StepIs(g, SideOf(v, Lhs), x, step, p) <==>
                StepIs(g, SetAt(And, v), x, step, p) || StepIs(g, SetAt(Unless, v), x, step, p)
      ensures !(StepIs(g, SetAt(And, v), x, step, p) && StepIs(g, SetAt(Unless, v), x, step, p))
    {
      AndUnlessSplit(v, step, x);
    }
    forall s: nat, s': nat | StepIs(g, SetAt(And, v), x, s, p) && StepIs(g, SetAt(Unless, v), x, s', p)
      ensures s == s'
    {
      TimestampsAscend(g, s, s');
      TimestampsAscend(g, s', s);
    }
  }

  /** One operand's own samples. */
  ghost function SideOf(v: View, side: Side): (nat, Labels) -> Option<Operands> {
    (step: nat, x: Labels) => match ManyAt(v, step, Key(side, x)) case Some(a) => Some(Kept(a)) case None => None
  }
}
