/** Prometheus's order of label sets, read off the columns. */
module LabelOrder {
  import opened Ordering

  /** A label set without its absent labels, as name and value. */
  function Sparse(names: seq<string>, labels: Labels, from: nat): seq<(string, string)>
    decreases |names| - from
  {
    if from >= |names| || from >= |labels| then []
    else if labels[from] == "" then Sparse(names, labels, from + 1)
    else [(names[from], labels[from])] + Sparse(names, labels, from + 1)
  }

  /** Names decide before values do. */
  function PairCmp(): ((string, string), (string, string)) -> int {
    (x: (string, string), y: (string, string)) => if StringCmp()(x.0, y.0) != 0 then StringCmp()(x.0, y.0)
        else StringCmp()(x.1, y.1)
  }

  lemma PairsOrder()
    ensures Orders(PairCmp())
  {
    StringsOrder();
    hide StringCmp, Orders;
    var p := PairCmp();
    forall x, y, z: (string, string)
      ensures p(x, y) == 0 <==> x == y
      ensures p(x, y) < 0 <==> p(y, x) > 0
      ensures p(x, y) <= 0 && p(y, z) <= 0 ==> p(x, z) <= 0
    {
      PairOrders(x.0, x.1, y.0, y.1, z.0, z.1);
    }
    OrdersWhen(p);
  }

  lemma PairOrders(x: string, u: string, y: string, v: string, z: string, w: string)
    ensures var p := PairCmp();
            && (p((x, u), (y, v)) == 0 <==> x == y && u == v)
            && (p((x, u), (y, v)) < 0 <==> p((y, v), (x, u)) > 0)
            && (p((x, u), (y, v)) <= 0 && p((y, v), (z, w)) <= 0 ==> p((x, u), (z, w)) <= 0)
  {
    StringsOrder();
    hide StringCmp;
    var s := StringCmp();
    Ordered(s, x, y, z);
    assert s(x, y) < 0 <==> s(y, x) > 0;
    assert s(u, v) < 0 <==> s(v, u) > 0;
    assert s(u, v) <= 0 && s(v, w) <= 0 ==> s(u, w) <= 0;
  }

  /** `labels.Compare`: lexicographic over what is there. */
  function SparseCmp(names: seq<string>, a: Labels, b: Labels): int {
    Lexicographic(PairCmp(), Sparse(names, a, 0), Sparse(names, b, 0))
  }

  function HasMore(labels: Labels, from: nat): bool
    decreases |labels| - from
  {
    if from >= |labels| then false else labels[from] != "" || HasMore(labels, from + 1)
  }

  /** The columns from `f` on, as the scan reads them. */
  function Compare(a: Labels, b: Labels, f: nat): int
    decreases |a| - f
  {
    if f >= |a| || f >= |b| then 0
    else if a[f] == b[f] then Compare(a, b, f + 1)
    else if a[f] != "" && b[f] == "" then (if HasMore(b, f + 1) then -1 else 1)
    else if a[f] == "" && b[f] != "" then (if HasMore(a, f + 1) then 1 else -1)
    else StringCmp()(a[f], b[f])
  }

  predicate SameSign(x: int, y: int) {
    (x < 0 <==> y < 0) && (x > 0 <==> y > 0)
  }

  lemma {:induction false} SparseStarts(names: seq<string>, labels: Labels, from: nat)
    requires |labels| == |names|
    ensures Sparse(names, labels, from) != [] <==> HasMore(labels, from)
    ensures Sparse(names, labels, from) != [] ==>
              exists f: nat :: from <= f < |names| && Sparse(names, labels, from)[0].0 == names[f]
    decreases |names| - from
  {
    if from < |names| && labels[from] == "" {
      SparseStarts(names, labels, from + 1);
      if Sparse(names, labels, from) != [] {
        var f: nat :| from + 1 <= f < |names| && Sparse(names, labels, from + 1)[0].0 == names[f];
      }
    }
  }

  /** Over names in order the scan down the columns is the sparse order. */
  lemma {:induction false} CompareIsSparse(names: seq<string>, a: Labels, b: Labels, f: nat)
    requires Climbs(StringCmp(), names) && |a| == |b| == |names|
    ensures SameSign(Compare(a, b, f), Lexicographic(PairCmp(), Sparse(names, a, f), Sparse(names, b, f)))
    decreases |names| - f
  {
    StringsOrder();
    hide StringCmp, Orders;
    if f < |names| {
      CompareIsSparse(names, a, b, f + 1);
      SparseStarts(names, a, f + 1);
      SparseStarts(names, b, f + 1);
      SameName(names[f]);
      hide Climbs, HasMore;
      if a[f] == b[f] {
        if a[f] != "" { SkipsEqual(names[f], a[f], Sparse(names, a, f + 1), Sparse(names, b, f + 1)); }
      } else if a[f] != "" && b[f] == "" {
        LaterName(names, b, f);
        Leads(names[f], a[f], Sparse(names, a, f + 1), Sparse(names, b, f + 1));
      } else if a[f] == "" && b[f] != "" {
        LaterName(names, a, f);
        Leads(names[f], b[f], Sparse(names, b, f + 1), Sparse(names, a, f + 1));
      }
    }
  }

  lemma SameName(name: string)
    ensures StringCmp()(name, name) == 0
    ensures forall x: string, y: string :: StringCmp()(x, y) == 0 <==> x == y
  {
    StringsOrder();
    hide StringCmp;
  }

  lemma SkipsEqual(name: string, value: string, a: seq<(string, string)>, b: seq<(string, string)>)
    ensures Lexicographic(PairCmp(), [(name, value)] + a, [(name, value)] + b) == Lexicographic(PairCmp(), a, b)
  {
    PairsOrder();
    hide PairCmp;
    assert ([(name, value)] + a)[1..] == a && ([(name, value)] + b)[1..] == b;
  }

  /** The next label of a set without this one comes under a later name. */
  lemma LaterName(names: seq<string>, labels: Labels, f: nat)
    requires Climbs(StringCmp(), names) && |labels| == |names| && f < |names|
    ensures var rest := Sparse(names, labels, f + 1);
            rest != [] ==> StringCmp()(names[f], rest[0].0) < 0
  {
    SparseStarts(names, labels, f + 1);
    hide StringCmp, Sparse;
  }

  /** A label against what continues later, or ends. */
  lemma Leads(name: string, value: string, rest: seq<(string, string)>, other: seq<(string, string)>)
    requires other != [] ==> StringCmp()(name, other[0].0) < 0
    ensures var l := Lexicographic(PairCmp(), [(name, value)] + rest, other); if other == [] then l > 0 else l < 0
    ensures var l := Lexicographic(PairCmp(), other, [(name, value)] + rest); if other == [] then l < 0 else l > 0
  {
    PairsOrder();
    if other != [] {
      assert PairCmp()((name, value), other[0]) < 0;
      assert PairCmp()(other[0], (name, value)) > 0;
    }
    hide PairCmp, StringCmp, Orders;
  }

  /** Hence the scan is a total order on label sets: equal only when every
      label is, and transitive. */
  lemma CompareOrders(names: seq<string>, a: Labels, b: Labels, c: Labels)
    requires Climbs(StringCmp(), names) && |a| == |b| == |c| == |names|
    ensures Compare(a, b, 0) == 0 <==> a == b
    ensures Compare(a, b, 0) < 0 <==> Compare(b, a, 0) > 0
    ensures Compare(a, b, 0) <= 0 && Compare(b, c, 0) <= 0 ==> Compare(a, c, 0) <= 0
    ensures Compare(a, b, 0) < 0 && Compare(b, c, 0) <= 0 ==> Compare(a, c, 0) < 0
    ensures Compare(a, b, 0) <= 0 && Compare(b, c, 0) < 0 ==> Compare(a, c, 0) < 0
  {
    CompareIsSparse(names, a, b, 0);
    CompareIsSparse(names, b, a, 0);
    CompareIsSparse(names, b, c, 0);
    CompareIsSparse(names, a, c, 0);
    PairsOrder();
    LexOrders(PairCmp());
    var x, y, z := Sparse(names, a, 0), Sparse(names, b, 0), Sparse(names, c, 0);
    CompareEqual(a, b, 0);
    hide Compare, Sparse, PairCmp, Climbs, Lexicographic;
    Ordered(Lex(PairCmp()), x, y, z);
  }

  lemma {:induction false} CompareEqual(a: Labels, b: Labels, f: nat)
    requires |a| == |b|
    ensures Compare(a, b, f) == 0 <==> forall k :: f <= k < |a| ==> a[k] == b[k]
    ensures Compare(a, b, 0) == 0 && f == 0 ==> a == b
    decreases |a| - f
  {
    SameName("");
    hide StringCmp;
    if f < |a| { CompareEqual(a, b, f + 1); }
  }

  /** The scan itself. */
  method CompareRows(a: Labels, b: Labels) returns (cmp: int)
    requires |a| == |b|
    ensures cmp == Compare(a, b, 0)
  {
    var f := 0;
    while f < |a| && a[f] == b[f]
      invariant f <= |a| && Compare(a, b, f) == Compare(a, b, 0)
    {
      f := f + 1;
    }
    if f == |a| { return 0; }
    if a[f] != "" && b[f] == "" {
      var more := AnyMore(b, f + 1);
      cmp := if more then -1 else 1;
    } else if a[f] == "" && b[f] != "" {
      var more := AnyMore(a, f + 1);
      cmp := if more then 1 else -1;
    } else {
      cmp := StringCmp()(a[f], b[f]);
    }
  }

  method AnyMore(labels: Labels, from: nat) returns (more: bool)
    requires from <= |labels|
    ensures more == HasMore(labels, from)
  {
    var i := from;
    while i < |labels|
      invariant from <= i <= |labels| && HasMore(labels, from) == HasMore(labels, i)
    {
      if labels[i] != "" { return true; }
      i := i + 1;
    }
    more := false;
  }
}
