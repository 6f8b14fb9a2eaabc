/** Two-phase aggregation run on accumulators. */
module Phases {
  import opened Series
  import opened Grids
  import opened Spans
  import opened Aggregate
  import opened Convert
  import opened TwoPhase

  /** What a share's own accumulator holds. */
  function Within<S, V>(g: Grid, ops: Ops<S, V>, share: Share<S, V>): (model: seq<map<nat, S>>)
    requires g.step > 0
    ensures |model| == |share.home|
  {
    if |share.rows| == |share.groupOf| then FoldBatch(g, ops, Grown([], |share.home|), share.rows, share.groupOf,
                                                      |share.rows|)
    else Grown([], |share.home|)
  }

  /** What its groups emit as state. */
  ghost predicate StatesOfShare<S, V>(g: Grid, ops: Ops<S, V>, share: Share<S, V>, out: seq<seq<Entry<S>>>)
    requires g.step > 0
  {
    |out| == |share.home| && forall k :: 0 <= k < |out| ==> out[k] == RowOf(g, Within(g, ops, share)[k], AsIs())
  }

  /** A partial accumulator: its share's rows in, its groups' states out. */
  method Partial<S(==), V>(ops: Ops<S, V>, g: Grid, share: Share<S, V>, ghost groups: nat)
    returns (ok: bool, out: seq<seq<Entry<S>>>)
    requires g.step > 0 && Fair(share, groups)
    ensures ok <==> AllAccepted(g, share.rows)
    ensures ok ==> StatesOfShare(g, ops, share, out)
  {
    hide FoldBatch, RowOf, AllAccepted, Grown;
    var acc := new Grouped(ops, g);
    out := [];
    ok := acc.FoldRows(share.rows, share.groupOf, |share.home|);
    if ok {
      GrownLength<S>(|share.home|);
      out := acc.EmitAndRelease(All, AsIs());
    }
  }

  lemma GrownLength<S>(groups: nat)
    ensures |Grown<S>([], groups)| == groups
  {
  }

  /** The emitted rows as the final accumulator's merge batch. */
  function Inputs<S, V>(out: seq<seq<Entry<S>>>): seq<Option<Input<S, V>>> {
    seq(|out|, k requires 0 <= k < |out| => Some(AsInput(out[k])))
  }

  /** A share's emitted rows bring what its rows do, each to its home. */
  lemma ShareBrings<S(!new), V(!new)>(g: Grid, ops: Ops<S, V>, stands: (S, seq<V>) -> bool, share: Share<S, V>,
                                      out: seq<seq<Entry<S>>>, groups: nat)
    requires g.step > 0 && Lawful(ops, stands) && Fair(share, groups) && AllAccepted(g, share.rows)
    requires StatesOfShare(g, ops, share, out)
    ensures |RowBags(g, share.rows)| == |share.groupOf|
    ensures AllBring(g, stands, Inputs(out), GroupBags(RowBags(g, share.rows), share.groupOf, |share.home|))
    ensures AllAccepted(g, Inputs<S, V>(out))
  {
    hide Lawful, FoldBatch, AllAccepted, Columns, RowBags, BagOf, AllBring, Brings, RowOf, OnGrid, Carries, Grown;
    RowsBring(g, stands, share.rows);
    SharesSizes(g, share);
    GrownLength<S>(|share.home|);
    var bags := RowBags(g, share.rows);
    forall k | 0 <= k < |out|
      ensures Brings(g, stands, Inputs<S, V>(out)[k], BagOf(bags, share.groupOf, k, |bags|))
              && Accepted(g, Inputs<S, V>(out)[k])
    {
      EmptyGroup<S>(|share.home|, k);
      CarriesNothing(g, stands);
      BatchCarries(g, ops, stands, Grown([], |share.home|), share.rows, share.groupOf, bags, |share.rows|, k,
                   multiset{});
      assert multiset{} + BagOf(bags, share.groupOf, k, |bags|) == BagOf(bags, share.groupOf, k, |bags|);
      EmittedBrings(g, stands, Within(g, ops, share)[k], BagOf(bags, share.groupOf, k, |bags|));
    }
    EveryBrings(g, stands, Inputs(out), GroupBags(bags, share.groupOf, |share.home|));
  }

  lemma EmptyGroup<S>(groups: nat, k: nat)
    requires k < groups
    ensures |Grown<S>([], groups)| == groups && Grown<S>([], groups)[k] == map[]
  {
  }

  lemma EveryBrings<S(!new), V(!new)>(g: Grid, stands: (S, seq<V>) -> bool, rows: seq<Option<Input<S, V>>>,
                                      bags: seq<multiset<(nat, V)>>)
    requires g.step > 0 && |bags| == |rows|
    requires forall i :: 0 <= i < |rows| ==> Brings(g, stands, rows[i], bags[i]) && Accepted(g, rows[i])
    ensures AllBring(g, stands, rows, bags) && AllAccepted(g, rows)
  {
    hide Brings, Accepted;
  }

  /** Every final group carries what the first `p` shares bring to it. */
  ghost predicate CarriesAll<S(!new), V(!new)>(g: Grid, stands: (S, seq<V>) -> bool, model: seq<map<nat, S>>,
                                               shares: seq<Share<S, V>>, groups: nat, p: nat)
    requires g.step > 0 && p <= |shares|
  {
    |model| == groups && forall h :: 0 <= h < groups ==> Carries(g, stands, model[h], Gathered(g, shares, h, p))
  }

  lemma CarriesNone<S(!new), V(!new)>(g: Grid, stands: (S, seq<V>) -> bool, shares: seq<Share<S, V>>, groups: nat)
    requires g.step > 0
    ensures CarriesAll(g, stands, Grown([], groups), shares, groups, 0)
  {
    hide Carries;
    CarriesNothing(g, stands);
  }

  /** Merging one more share's rows. */
  lemma CarriesMore<S(!new), V(!new)>(g: Grid, ops: Ops<S, V>, stands: (S, seq<V>) -> bool, model: seq<map<nat, S>>,
                                      shares: seq<Share<S, V>>, groups: nat, p: nat, out: seq<seq<Entry<S>>>)
    requires g.step > 0 && p < |shares| && CarriesAll(g, stands, model, shares, groups, p)
    requires Lawful(ops, stands) && Fair(shares[p], groups) && AllAccepted(g, shares[p].rows)
    requires StatesOfShare(g, ops, shares[p], out)
    ensures AllAccepted(g, Inputs<S, V>(out))
    ensures CarriesAll(g, stands, FoldBatch(g, ops, Grown(model, groups), Inputs(out), shares[p].home, |out|), shares,
                       groups, p + 1)
  {
    hide Lawful, FoldBatch, AllAccepted, Columns, RowBags, BagOf, AllBring, RowOf, Carries, Within;
    var share := shares[p];
    ShareBrings(g, ops, stands, share, out, groups);
    SharesSizes(g, share);
    var bags := RowBags(g, share.rows);
    forall h | 0 <= h < groups
      ensures Carries(g, stands, FoldBatch(g, ops, model, Inputs(out), share.home, |out|)[h],
                      Gathered(g, shares, h, p) + ShareBag(g, share, h))
    {
      BatchCarries(g, ops, stands, model, Inputs(out), share.home, GroupBags(bags, share.groupOf, |share.home|), |out|,
                   h, Gathered(g, shares, h, p));
      HomesBag(bags, share.groupOf, share.home, Homes(share), h, |bags|);
    }
  }

  /** One share aggregated apart, and its states merged. */
  method MergeShare<S(==, !new), V(!new)>(acc: Grouped<S, V>, ghost stands: (S, seq<V>) -> bool,
                                          shares: seq<Share<S, V>>, groups: nat, p: nat)
    returns (ok: bool)
    requires acc.Valid() && p < |shares| && Fair(shares[p], groups)
    requires Lawful(acc.ops, stands) && CarriesAll(acc.grid, stands, acc.Model(), shares, groups, p)
    modifies acc`spans, acc`heapSize, acc`lanes, acc.flat, acc.spans
    ensures acc.Valid() && acc.flat == old(acc.flat)
    ensures old(acc.spans) <= acc.spans && forall i :: |old(acc.spans)| <= i < |acc.spans| ==> fresh(acc.spans[i])
    ensures ok <==> AllAccepted(acc.grid, shares[p].rows)
    ensures ok ==> CarriesAll(acc.grid, stands, acc.Model(), shares, groups, p + 1)
  {
    assert acc.grid.step > 0;
    hide *;
    var states;
    ok, states := Partial(acc.ops, acc.grid, shares[p], groups);
    if !ok { return; }
    CarriesMore(acc.grid, acc.ops, stands, acc.Model(), shares, groups, p, states);
    Regroups(acc.grid, acc.ops, shares[p], groups, states);
    ok := acc.FoldRows(Inputs(states), shares[p].home, groups);
  }

  /** The shares hold these rows, each to go where it belongs. */
  ghost predicate SharedOut<S, V>(shares: seq<Share<S, V>>, rows: seq<Option<Input<S, V>>>, homes: seq<nat>) {
    |homes| == |rows| && multiset(Placed(rows, homes)) == multiset(Dealt(shares, |shares|))
  }

  /** Rows dealt out to shares in any way, aggregated apart and merged, against
      one accumulator fed the rows itself, in any order: the same steps seen,
      and the same values finished. */
  method RunTwoPhase<S(==, !new), V(!new), R>(ops: Ops<S, V>, g: Grid, ghost stands: (S, seq<V>) -> bool,
                                              finish: S -> R, shares: seq<Share<S, V>>, groups: nat,
                                              ghost rows: seq<Option<Input<S, V>>>, ghost homes: seq<nat>)
    returns (ok: bool, out: seq<seq<Entry<R>>>)
    requires g.step > 0 && Lawful(ops, stands) && Settles(stands, finish)
    requires (forall p :: 0 <= p < |shares| ==> Fair(shares[p], groups)) && SharedOut(shares, rows, homes)
    ensures ok <==> AllAccepted(g, rows)
    ensures ok ==>
              && |out| == groups == |Grown<S>([], groups)|
              && forall h :: 0 <= h < groups ==>
                   out[h] == RowOf(g, FoldBatch(g, ops, Grown([], groups), rows, homes, |rows|)[h], finish)
  {
    hide *;
    var acc := new Grouped(ops, g);
    acc.Grow(groups);
    out := [];
    CarriesNone(g, stands, shares, groups);
    AcceptedApart(g, shares, groups, rows, homes);
    for p := 0 to |shares|
      invariant acc.Valid() && acc.ops == ops && acc.grid == g
      invariant fresh(acc) && fresh(acc.flat) && forall i :: 0 <= i < |acc.spans| ==> fresh(acc.spans[i])
      invariant CarriesAll(g, stands, acc.Model(), shares, groups, p)
      invariant forall q :: 0 <= q < p ==> AllAccepted(g, shares[q].rows)
    {
      ok := MergeShare(acc, stands, shares, groups, p);
      if !ok { return; }
    }
    ok := true;
    Finished(g, ops, stands, finish, acc.Model(), shares, groups, rows, homes);
    out := acc.EmitAndRelease(All, finish);
  }

  lemma AcceptedApart<S, V>(g: Grid, shares: seq<Share<S, V>>, groups: nat, rows: seq<Option<Input<S, V>>>,
                            homes: seq<nat>)
    requires g.step > 0 && (forall p :: 0 <= p < |shares| ==> Fair(shares[p], groups)) && SharedOut(shares, rows, homes)
    ensures AllAccepted(g, rows) <==> forall p :: 0 <= p < |shares| ==> AllAccepted(g, shares[p].rows)
    ensures Columns(rows) && |homes| == |rows|
  {
    hide Fair, AllAccepted, Columns, Dealt, Placed;
    DealtRows(g, shares, groups, |shares|);
    SameRows(g, rows, homes, Dealt(shares, |shares|));
  }

  lemma Regroups<S, V>(g: Grid, ops: Ops<S, V>, share: Share<S, V>, groups: nat, out: seq<seq<Entry<S>>>)
    requires g.step > 0 && Fair(share, groups) && StatesOfShare(g, ops, share, out)
    ensures Grouping(Inputs<S, V>(out), share.home, groups) && |Inputs<S, V>(out)| == |out|
  {
    hide RowOf, Within;
  }

  lemma Finished<S(!new), V(!new), R>(g: Grid, ops: Ops<S, V>, stands: (S, seq<V>) -> bool, finish: S -> R,
                                      model: seq<map<nat, S>>, shares: seq<Share<S, V>>, groups: nat,
                                      rows: seq<Option<Input<S, V>>>, homes: seq<nat>)
    requires g.step > 0 && Lawful(ops, stands) && Settles(stands, finish)
    requires SharedOut(shares, rows, homes) && Columns(rows) && AllAccepted(g, rows)
    requires CarriesAll(g, stands, model, shares, groups, |shares|)
    ensures |model| == groups == |Grown<S>([], groups)|
    ensures forall h :: 0 <= h < groups ==>
              RowOf(g, model[h], finish) == RowOf(g, FoldBatch(g, ops, Grown([], groups), rows, homes, |rows|)[h],
                                                  finish)
  {
    hide Lawful, Settles, Carries, RowOf, FoldBatch, Gathered, Collected, Dealt, Columns, AllAccepted, Grown, Placed;
    GrownLength<S>(groups);
    forall h | 0 <= h < groups
      ensures RowOf(g, model[h], finish) == RowOf(g, FoldBatch(g, ops, Grown([], groups), rows, homes, |rows|)[h],
                                                  finish)
    {
      OnePhaseCarries(g, ops, stands, rows, homes, groups, h);
      GatheredIsCollected(g, shares, h, |shares|);
      CollectedPermuted(g, Placed(rows, homes), Dealt(shares, |shares|), h);
      SameFinish(g, stands, finish, model[h], FoldBatch(g, ops, Grown([], groups), rows, homes, |rows|)[h],
                 Gathered(g, shares, h, |shares|));
    }
  }
}
