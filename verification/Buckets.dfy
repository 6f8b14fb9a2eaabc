/** Output series under construction, found by their label set. */
module Buckets {
  import opened Series
  import opened Grids
  import opened Ordering
  import opened Matching

  datatype Bucket = Bucket(labels: Labels, samples: seq<Paired>, claimed: Option<nat>)

  datatype Table = Table(buckets: seq<Bucket>, byLabels: map<Labels, nat>)

  const NO_TABLE := Table([], map[])

  ghost predicate Indexed(t: Table) {
    && (forall x :: x in t.byLabels ==> t.byLabels[x] < |t.buckets| && t.buckets[t.byLabels[x]].labels == x)
    && (forall b :: 0 <= b < |t.buckets| ==> t.buckets[b].labels in t.byLabels && t.byLabels[t.buckets[b].labels] == b)
  }

  ghost function NowAt(g: Grid, step: nat, got: map<Labels, Operands>, labels: Labels): seq<Paired> {
    if labels in got then [Paired(Timestamp(g, step), got[labels])] else []
  }

  /** One bucket holds its label set's samples before `step`, and what the step
      has already put under it; with `claims`, its claim says so. */
  ghost predicate BucketHolds(g: Grid, at: (nat, Labels) -> Option<Operands>, bucket: Bucket, step: nat,
                              got: map<Labels, Operands>, claims: bool)
  {
    && bucket.samples == SamplesTo(g, at, bucket.labels, step) + NowAt(g, step, got, bucket.labels)
    && (claims ==> (bucket.claimed == Some(step) <==> bucket.labels in got))
    && (claims && bucket.claimed.Some? ==> bucket.claimed.value <= step)
  }

  ghost predicate Built(g: Grid, at: (nat, Labels) -> Option<Operands>, t: Table, step: nat, got: map<Labels, Operands>,
                        claims: bool)
  {
    && Indexed(t)
    && (forall b :: 0 <= b < |t.buckets| ==> BucketHolds(g, at, t.buckets[b], step, got, claims))
    && (forall x :: x in got ==> x in t.byLabels)
    && (forall x :: SamplesTo(g, at, x, step) != [] ==> x in t.byLabels)
  }

  lemma BuiltNone(g: Grid, at: (nat, Labels) -> Option<Operands>, claims: bool)
    ensures Built(g, at, NO_TABLE, 0, map[], claims)
  {
  }

  function Pushed(t: Table, labels: Labels): Table {
    Table(t.buckets + [Bucket(labels, [], None)], t.byLabels[labels := |t.buckets|])
  }

  /** A label set met for the first time gets a bucket. */
  lemma BuiltPushes(g: Grid, at: (nat, Labels) -> Option<Operands>, t: Table, step: nat, got: map<Labels, Operands>,
                    claims: bool, labels: Labels)
    requires Built(g, at, t, step, got, claims) && labels !in t.byLabels
    ensures Built(g, at, Pushed(t, labels), step, got, claims)
  {
    hide BucketHolds;
    NewHolds(g, at, step, got, claims, labels);
    var t' := Pushed(t, labels);
    assert forall x :: x in t.byLabels ==> x in t'.byLabels;
    hide SamplesTo;
  }

  lemma NewHolds(g: Grid, at: (nat, Labels) -> Option<Operands>, step: nat, got: map<Labels, Operands>, claims: bool,
                 labels: Labels)
    ensures SamplesTo(g, at, labels, step) == [] && labels !in got ==>
              BucketHolds(g, at, Bucket(labels, [], None), step, got, claims)
  {
  }

  function Placed(t: Table, b: nat, p: Paired, claimed: Option<nat>): Table
    requires b < |t.buckets|
  {
    var bucket := t.buckets[b];
    t.(buckets := t.buckets[b := Bucket(bucket.labels, bucket.samples + [p], claimed)])
  }

  /** A label set the step has not put anything under yet takes a sample. */
  lemma BuiltPlaces(g: Grid, at: (nat, Labels) -> Option<Operands>, t: Table, step: nat, got: map<Labels, Operands>,
                    claims: bool, b: nat, x: Operands, claimed: Option<nat>)
    requires Built(g, at, t, step, got, claims) && b < |t.buckets| && t.buckets[b].labels !in got
    requires claims ==> claimed == Some(step)
    ensures Built(g, at, Placed(t, b, Paired(Timestamp(g, step), x), claimed), step, got[t.buckets[b].labels := x],
                  claims)
  {
    hide SamplesTo, Timestamp;
    var t', labels := Placed(t, b, Paired(Timestamp(g, step), x), claimed), t.buckets[b].labels;
    forall j | 0 <= j < |t'.buckets| ensures BucketHolds(g, at, t'.buckets[j], step, got[labels := x], claims) {
      assert BucketHolds(g, at, t.buckets[j], step, got, claims);
      assert j != b ==> t.buckets[j].labels != labels;
      assert SamplesTo(g, at, labels, step) + [] == SamplesTo(g, at, labels, step);
    }
    assert forall j :: 0 <= j < |t.buckets| ==> t'.buckets[j].labels == t.buckets[j].labels;
    hide BucketHolds;
  }

  /** What the step put in place is what the step answers. */
  ghost predicate Complete(at: (nat, Labels) -> Option<Operands>, step: nat, got: map<Labels, Operands>) {
    forall x :: at(step, x) == if x in got then Some(got[x]) else None
  }

  lemma BuiltSteps(g: Grid, at: (nat, Labels) -> Option<Operands>, t: Table, step: nat, got: map<Labels, Operands>,
                   claims: bool)
    requires Built(g, at, t, step, got, claims) && Complete(at, step, got)
    ensures Built(g, at, t, step + 1, map[], claims)
  {
    hide Timestamp;
    forall b | 0 <= b < |t.buckets| ensures BucketHolds(g, at, t.buckets[b], step + 1, map[], claims) {
      assert BucketHolds(g, at, t.buckets[b], step, got, claims);
      assert SamplesTo(g, at, t.buckets[b].labels, step + 1) + [] == SamplesTo(g, at, t.buckets[b].labels, step + 1);
    }
    hide BucketHolds, Indexed;
  }

  // ── Sorting the finished buckets ──

  /** The outputs so far are sorted, and are those of the first `n` buckets
      that hold anything. */
  ghost predicate SortedTo(buckets: seq<Bucket>, n: nat, out: seq<Output>)
    requires n <= |buckets|
  {
    && Climbs(LabelsCmp(), LabelsIn(out))
    && (forall i :: 0 <= i < |out| ==> FromBucket(buckets, n, out[i]))
    && (forall b :: 0 <= b < n && buckets[b].samples != [] ==> buckets[b].labels in LabelsIn(out))
  }

  ghost predicate FromBucket(buckets: seq<Bucket>, n: nat, o: Output)
    requires n <= |buckets|
  {
    exists b :: 0 <= b < n && buckets[b].samples != [] && o == OutputOf(buckets[b])
  }

  function OutputOf(bucket: Bucket): Output {
    Output(bucket.labels, bucket.samples)
  }

  /** Before everything larger, after everything smaller. */
  method Place(out: seq<Output>, o: Output) returns (r: seq<Output>)
    requires Climbs(LabelsCmp(), LabelsIn(out)) && o.labels !in LabelsIn(out)
    ensures Climbs(LabelsCmp(), LabelsIn(r))
    ensures forall x :: x in r <==> x in out || x == o
  {
    hide *;
    LabelsOrder();
    var i := 0;
    while i < |out| && LabelsCmp()(out[i].labels, o.labels) < 0
      invariant i <= |out| && forall j :: 0 <= j < i ==> LabelsCmp()(out[j].labels, o.labels) < 0
    {
      i := i + 1;
    }
    LabelsInserted(out, i, o);
    Inserts(LabelsCmp(), LabelsIn(out), i, o.labels);
    r := out[..i] + [o] + out[i..];
  }

  lemma LabelsInserted(out: seq<Output>, i: nat, o: Output)
    requires i <= |out|
    ensures |LabelsIn(out)| == |out| && forall j :: 0 <= j < |out| ==> LabelsIn(out)[j] == out[j].labels
    ensures LabelsIn(out[..i] + [o] + out[i..]) == LabelsIn(out)[..i] + [o.labels] + LabelsIn(out)[i..]
    ensures forall x :: x in out[..i] + [o] + out[i..] <==> x in out || x == o
  {
    LabelsSplit(out[..i], out[i..]);
    LabelsSplit(out[..i] + [o], out[i..]);
    LabelsSplit(out[..i], [o]);
    assert out == out[..i] + out[i..];
    assert LabelsIn([o]) == [o.labels];
    hide LabelsIn;
  }

  lemma LabelsSplit(a: seq<Output>, b: seq<Output>)
    ensures LabelsIn(a + b) == LabelsIn(a) + LabelsIn(b) && |LabelsIn(a)| == |a|
  {
  }

  /** `retain` and `sort_by`: empty buckets go, the rest in label order. */
  method Finish(t: Table) returns (out: seq<Output>)
    requires Indexed(t)
    ensures SortedTo(t.buckets, |t.buckets|, out)
  {
    hide LabelsCmp;
    out := [];
    for n := 0 to |t.buckets|
      invariant SortedTo(t.buckets, n, out)
    {
      var bucket := t.buckets[n];
      if bucket.samples != [] {
        NotYet(t, n, out);
        var before := out;
        out := Place(out, OutputOf(bucket));
        Grown(t.buckets, n, before, out);
      } else {
        Unchanged(t.buckets, n, out);
      }
    }
  }

  lemma NotYet(t: Table, n: nat, out: seq<Output>)
    requires Indexed(t) && n < |t.buckets| && SortedTo(t.buckets, n, out)
    ensures t.buckets[n].labels !in LabelsIn(out)
  {
    hide Climbs, LabelsCmp;
    forall i | 0 <= i < |out| ensures LabelsIn(out)[i] != t.buckets[n].labels {
      assert FromBucket(t.buckets, n, out[i]);
      var b :| 0 <= b < n && out[i] == OutputOf(t.buckets[b]);
      assert t.byLabels[t.buckets[b].labels] == b;
    }
  }

  lemma Unchanged(buckets: seq<Bucket>, n: nat, out: seq<Output>)
    requires n < |buckets| && SortedTo(buckets, n, out) && buckets[n].samples == []
    ensures SortedTo(buckets, n + 1, out)
  {
    hide Climbs, LabelsCmp, LabelsIn;
  }

  lemma Grown(buckets: seq<Bucket>, n: nat, before: seq<Output>, out: seq<Output>)
    requires n < |buckets| && SortedTo(buckets, n, before) && buckets[n].samples != []
    requires Climbs(LabelsCmp(), LabelsIn(out))
    requires forall x :: x in out <==> x in before || x == OutputOf(buckets[n])
    ensures SortedTo(buckets, n + 1, out)
  {
    hide Climbs, LabelsCmp;
    forall i | 0 <= i < |out| ensures FromBucket(buckets, n + 1, out[i]) {
      assert out[i] in out;
      if out[i] != OutputOf(buckets[n]) {
        var j :| 0 <= j < |before| && before[j] == out[i];
        assert FromBucket(buckets, n, before[j]);
      }
    }
    forall b | 0 <= b < n + 1 && buckets[b].samples != [] ensures buckets[b].labels in LabelsIn(out) {
      if b < n {
        var j :| 0 <= j < |before| && LabelsIn(before)[j] == buckets[b].labels;
        assert before[j] in out;
        LabelListed(out, before[j]);
      } else {
        LabelListed(out, OutputOf(buckets[n]));
      }
    }
  }

  lemma LabelListed(out: seq<Output>, o: Output)
    requires o in out
    ensures o.labels in LabelsIn(out)
  {
    var i :| 0 <= i < |out| && out[i] == o;
    assert LabelsIn(out)[i] == o.labels;
  }

  /** Every step walked, the sorted buckets are the answer. */
  lemma FinishEmits(g: Grid, at: (nat, Labels) -> Option<Operands>, t: Table, claims: bool, out: seq<Output>)
    requires Built(g, at, t, g.len, map[], claims) && SortedTo(t.buckets, |t.buckets|, out)
    ensures Emits(g, at, out)
  {
    hide Climbs, LabelsCmp, SamplesTo;
    forall i | 0 <= i < |out| ensures out[i].samples == SamplesTo(g, at, out[i].labels, g.len) != [] {
      assert FromBucket(t.buckets, |t.buckets|, out[i]);
      var b :| 0 <= b < |t.buckets| && t.buckets[b].samples != [] && out[i] == OutputOf(t.buckets[b]);
      assert BucketHolds(g, at, t.buckets[b], g.len, map[], claims);
      assert SamplesTo(g, at, out[i].labels, g.len) + [] == SamplesTo(g, at, out[i].labels, g.len);
    }
    forall x | SamplesTo(g, at, x, g.len) != [] ensures x in LabelsIn(out) {
      var b := t.byLabels[x];
      assert BucketHolds(g, at, t.buckets[b], g.len, map[], claims);
      assert SamplesTo(g, at, x, g.len) + [] == SamplesTo(g, at, x, g.len);
    }
  }
}
