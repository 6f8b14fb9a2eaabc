/** Comparisons as signed answers, and lexicographic order over them. */
module Ordering {

  /** A comparison that orders its type: equal only to itself. */
  ghost predicate Orders<T(!new)>(cmp: (T, T) -> int) {
    && (forall x, y :: cmp(x, y) == 0 <==> x == y)
    && (forall x, y :: cmp(x, y) < 0 <==> cmp(y, x) > 0)
    && (forall x, y, z :: cmp(x, y) <= 0 && cmp(y, z) <= 0 ==> cmp(x, z) <= 0)
  }

  /** The first difference decides, and a prefix comes first. */
  function Lexicographic<T>(cmp: (T, T) -> int, a: seq<T>, b: seq<T>): int {
    if a == [] then (if b == [] then 0 else -1)
    else if b == [] then 1
    else if cmp(a[0], b[0]) != 0 then cmp(a[0], b[0])
    else Lexicographic(cmp, a[1..], b[1..])
  }

  function Lex<T>(cmp: (T, T) -> int): (seq<T>, seq<T>) -> int {
    (a: seq<T>, b: seq<T>) => Lexicographic(cmp, a, b)
  }

  lemma {:induction false} LexEqual<T(!new)>(cmp: (T, T) -> int, a: seq<T>, b: seq<T>)
    requires Orders(cmp)
    ensures Lexicographic(cmp, a, b) == 0 <==> a == b
  {
    if a != [] && b != [] {
      LexEqual(cmp, a[1..], b[1..]);
      assert a == [a[0]] + a[1..] && b == [b[0]] + b[1..];
    }
  }

  lemma {:induction false} LexFlips<T(!new)>(cmp: (T, T) -> int, a: seq<T>, b: seq<T>)
    requires Orders(cmp)
    ensures Lexicographic(cmp, a, b) < 0 <==> Lexicographic(cmp, b, a) > 0
  {
    if a != [] && b != [] { LexFlips(cmp, a[1..], b[1..]); }
  }

  lemma {:induction false} LexChains<T(!new)>(cmp: (T, T) -> int, a: seq<T>, b: seq<T>, c: seq<T>)
    requires Orders(cmp) && Lexicographic(cmp, a, b) <= 0 && Lexicographic(cmp, b, c) <= 0
    ensures Lexicographic(cmp, a, c) <= 0
  {
    if a != [] && b != [] && c != [] {
      Ordered(cmp, a[0], b[0], c[0]);
      hide Orders;
      if cmp(a[0], b[0]) == 0 && cmp(b[0], c[0]) == 0 { LexChains(cmp, a[1..], b[1..], c[1..]); }
    }
  }

  lemma Ordered<T(!new)>(cmp: (T, T) -> int, x: T, y: T, z: T)
    requires Orders(cmp)
    ensures cmp(x, y) <= 0 && cmp(y, z) <= 0 ==> cmp(x, z) <= 0
    ensures cmp(x, z) == 0 && cmp(x, y) <= 0 && cmp(y, z) <= 0 ==> cmp(x, y) == 0 && cmp(y, z) == 0
    ensures cmp(x, y) == 0 && cmp(y, z) == 0 ==> cmp(x, z) == 0
  {
  }

  lemma LexOrders<T(!new)>(cmp: (T, T) -> int)
    requires Orders(cmp)
    ensures Orders(Lex(cmp))
  {
    hide Orders;
    var lex := Lex(cmp);
    forall a, b ensures lex(a, b) == 0 <==> a == b { LexEqual(cmp, a, b); }
    forall a, b ensures lex(a, b) < 0 <==> lex(b, a) > 0 { LexFlips(cmp, a, b); }
    forall a, b, c | lex(a, b) <= 0 && lex(b, c) <= 0 ensures lex(a, c) <= 0 { LexChains(cmp, a, b, c); }
    OrdersWhen(lex);
  }

  lemma OrdersWhen<T(!new)>(cmp: (T, T) -> int)
    requires forall x, y :: cmp(x, y) == 0 <==> x == y
    requires forall x, y :: cmp(x, y) < 0 <==> cmp(y, x) > 0
    requires forall x, y, z :: cmp(x, y) <= 0 && cmp(y, z) <= 0 ==> cmp(x, z) <= 0
    ensures Orders(cmp)
  {
  }

  function CharCmp(): (char, char) -> int {
    (x: char, y: char) => x as int - y as int
  }

  function StringCmp(): (string, string) -> int {
    Lex(CharCmp())
  }

  /** A value for each name of the schema, empty where the label is absent. */
  type Labels = seq<string>

  function LabelsCmp(): (Labels, Labels) -> int {
    Lex(StringCmp())
  }

  lemma StringsOrder()
    ensures Orders(StringCmp())
  {
    assert Orders(CharCmp());
    LexOrders(CharCmp());
  }

  lemma LabelsOrder()
    ensures Orders(LabelsCmp())
  {
    StringsOrder();
    hide StringCmp, Orders;
    LexOrders(StringCmp());
  }

  /** Strictly ascending. */
  ghost predicate Climbs<T(!new)>(cmp: (T, T) -> int, xs: seq<T>) {
    forall i, j :: 0 <= i < j < |xs| ==> cmp(xs[i], xs[j]) < 0
  }

  /** One way to write a set down in order. */
  lemma {:induction false} ClimbsOnce<T(!new)>(cmp: (T, T) -> int, xs: seq<T>, ys: seq<T>)
    requires Orders(cmp) && Climbs(cmp, xs) && Climbs(cmp, ys)
    requires forall x :: x in xs <==> x in ys
    ensures xs == ys
  {
    assert ys != [] ==> ys[0] in xs;
    if xs != [] {
      assert xs[0] in ys;
      Heads(cmp, xs, ys);
      forall x ensures x in xs[1..] <==> x in ys[1..] {
        TailMembers(cmp, xs, x);
        TailMembers(cmp, ys, x);
      }
      ClimbsOnce(cmp, xs[1..], ys[1..]);
      assert xs == [xs[0]] + xs[1..] && ys == [ys[0]] + ys[1..];
    }
  }

  lemma Heads<T(!new)>(cmp: (T, T) -> int, xs: seq<T>, ys: seq<T>)
    requires Orders(cmp) && Climbs(cmp, xs) && Climbs(cmp, ys)
    requires xs != [] && ys != [] && xs[0] in ys && ys[0] in xs
    ensures xs[0] == ys[0]
  {
    var i :| 0 <= i < |ys| && ys[i] == xs[0];
    var j :| 0 <= j < |xs| && xs[j] == ys[0];
    var x, y := xs[0], ys[0];
    assert i == 0 || cmp(y, x) < 0;
    assert j == 0 || cmp(x, y) < 0;
  }

  lemma TailMembers<T(!new)>(cmp: (T, T) -> int, xs: seq<T>, x: T)
    requires Orders(cmp) && Climbs(cmp, xs) && xs != []
    ensures x in xs[1..] <==> x in xs && x != xs[0]
  {
    if x in xs[1..] {
      var i :| 0 <= i < |xs[1..]| && xs[1..][i] == x;
      assert cmp(xs[0], xs[i + 1]) < 0;
    }
  }

  /** A place in order: after everything smaller, before everything larger. */
  lemma Inserts<T(!new)>(cmp: (T, T) -> int, xs: seq<T>, i: nat, x: T)
    requires Orders(cmp) && Climbs(cmp, xs) && i <= |xs| && x !in xs
    requires forall j :: 0 <= j < i ==> cmp(xs[j], x) < 0
    requires i < |xs| ==> cmp(xs[i], x) >= 0
    ensures Climbs(cmp, xs[..i] + [x] + xs[i..])
  {
    var ys := xs[..i] + [x] + xs[i..];
    forall k | i <= k < |xs| ensures cmp(x, xs[k]) < 0 { After(cmp, xs, i, x, k); }
    hide Orders;
    forall j, k | 0 <= j < k < |ys| ensures cmp(ys[j], ys[k]) < 0 {
      var j', k' := if j > i then j - 1 else j, if k > i then k - 1 else k;
      assert j != i && k != i ==> cmp(xs[j'], xs[k']) < 0;
    }
  }

  lemma After<T(!new)>(cmp: (T, T) -> int, xs: seq<T>, i: nat, x: T, k: nat)
    requires Orders(cmp) && Climbs(cmp, xs) && i <= k < |xs| && x !in xs && cmp(xs[i], x) >= 0
    ensures cmp(x, xs[k]) < 0
  {
    assert xs[i] in xs && xs[k] in xs;
    assert i < k ==> cmp(xs[i], xs[k]) < 0;
  }
}
