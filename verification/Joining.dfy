/** What two parts of a match group hold together. */
module Joining {
  import opened Series
  import opened Ordering
  import opened Matching
  import opened MatchLanes

  function JoinOne(a: OneCell, b: OneCell): OneCell {
    if a.Nobody? then b else if b.Nobody? then a else Several
  }

  /** The later value stands where both have one. */
  function JoinLine(a: seq<Option<Value>>, b: seq<Option<Value>>): seq<Option<Value>> {
    seq(|b|, i requires 0 <= i < |b| => if b[i].None? && i < |a| then a[i] else b[i])
  }

  function JoinMany(a: map<Key, seq<Option<Value>>>, b: map<Key, seq<Option<Value>>>): map<Key, seq<Option<Value>>> {
    map k | k in a.Keys + b.Keys :: if k !in b then a[k] else if k !in a then b[k] else JoinLine(a[k], b[k])
  }

  function Join(v: View, w: View): View {
    View(seq(|v.one|, i requires 0 <= i < |v.one| => if i < |w.one| then JoinOne(v.one[i], w.one[i]) else v.one[i]),
         JoinMany(v.many, w.many))
  }

  function NoView(len: nat): View {
    View(seq(len, _ => Nobody), map[])
  }

  /** What one row alone amounts to. */
  function RowView(c: Config, len: nat, side: Side, labels: Labels, cells: map<nat, Value>): View {
    if !IsSet(c.op) && side == OneSide(c) then
      View(seq(len, i requires 0 <= i < len => if i in cells then Single(cells[i], labels) else Nobody), map[])
    else
      View(seq(len, _ => Nobody), map[Key(side, labels) := RowLine(len, cells)])
  }

  function RowLine(len: nat, cells: map<nat, Value>): seq<Option<Value>> {
    seq(len, i requires 0 <= i < len => if i in cells then Some(cells[i]) else None)
  }

  ghost predicate Sized(v: View, len: nat) {
    |v.one| == len && forall k :: k in v.many ==> |v.many[k]| == len
  }

  lemma JoinSized(v: View, w: View, len: nat)
    requires Sized(v, len) && Sized(w, len)
    ensures Sized(Join(v, w), len)
  {
  }

  lemma RowSized(c: Config, len: nat, side: Side, labels: Labels, cells: map<nat, Value>)
    ensures Sized(RowView(c, len, side, labels, cells), len)
  {
  }

  lemma JoinNone(v: View, len: nat)
    requires Sized(v, len)
    ensures Join(v, NoView(len)) == v && Join(NoView(len), v) == v
  {
  }

  lemma JoinsLine(a: seq<Option<Value>>, b: seq<Option<Value>>, c: seq<Option<Value>>)
    requires |a| == |b| == |c|
    ensures JoinLine(JoinLine(a, b), c) == JoinLine(a, JoinLine(b, c))
  {
  }

  /** Parts join to the same whatever is joined first. */
  lemma JoinAssociates(u: View, v: View, w: View, len: nat)
    requires Sized(u, len) && Sized(v, len) && Sized(w, len)
    ensures Join(Join(u, v), w) == Join(u, Join(v, w))
  {
    ManyAssociates(u.many, v.many, w.many, len);
    hide JoinMany;
    assert Join(Join(u, v), w).one == Join(u, Join(v, w)).one;
  }

  lemma ManyAssociates(a: map<Key, seq<Option<Value>>>, b: map<Key, seq<Option<Value>>>,
                       c: map<Key, seq<Option<Value>>>, len: nat)
    requires forall k :: k in a ==> |a[k]| == len
    requires forall k :: k in b ==> |b[k]| == len
    requires forall k :: k in c ==> |c[k]| == len
    ensures JoinMany(JoinMany(a, b), c) == JoinMany(a, JoinMany(b, c))
  {
    hide JoinLine;
    var l, r := JoinMany(JoinMany(a, b), c), JoinMany(a, JoinMany(b, c));
    forall k ensures k in l <==> k in r
             ensures k in l && k in r ==> l[k] == r[k]
    {
      if k in a && k in b && k in c { JoinsLine(a[k], b[k], c[k]); }
    }
  }

  /** No series of the "many" side is in both at a step. */
  ghost predicate Apart(v: View, w: View) {
    forall k, i: nat :: ManyAt(v, i, k).None? || ManyAt(w, i, k).None?
  }

  lemma ApartLines(v: View, w: View, k: Key, len: nat)
    requires Sized(v, len) && Sized(w, len) && Apart(v, w) && k in v.many && k in w.many
    ensures JoinLine(v.many[k], w.many[k]) == JoinLine(w.many[k], v.many[k])
  {
    var a, b := v.many[k], w.many[k];
    forall i | 0 <= i < len ensures a[i].None? || b[i].None? {
      assert ManyAt(v, i, k) == a[i] && ManyAt(w, i, k) == b[i];
    }
  }

  /** Then they join in either order. */
  lemma JoinCommutes(v: View, w: View, len: nat)
    requires Sized(v, len) && Sized(w, len) && Apart(v, w)
    ensures Join(v, w) == Join(w, v)
  {
    hide JoinLine, Apart;
    forall k | k in v.many && k in w.many ensures JoinLine(v.many[k], w.many[k]) == JoinLine(w.many[k], v.many[k]) {
      ApartLines(v, w, k, len);
    }
    assert JoinMany(v.many, w.many) == JoinMany(w.many, v.many);
  }

  // ── Rows into lanes ──

  /** A blank series holds nothing. */
  function Blank(side: Side, labels: Labels, len: nat): Line {
    Line(side, labels, seq(len, _ => 0), seq(len, _ => 0))
  }

  /** The "one" side takes a row. */
  lemma OneTakes(c: Config, l: Lanes, len: nat, side: Side, labels: Labels, cells: map<nat, Value>, row: nat)
    requires Sound(l, len) && !IsSet(c.op) && side == OneSide(c) && row < |l.onePool| && l.onePool[row] == labels
    ensures var l' := l.(oneCounts := Raised(l.oneCounts, cells), oneValues := Overlaid(l.oneValues, cells),
                         oneRows := Marked(l.oneRows, cells, row));
            Sound(l', len) && ViewOf(l') == Join(ViewOf(l), RowView(c, len, side, labels, cells))
  {
    var l' := l.(oneCounts := Raised(l.oneCounts, cells), oneValues := Overlaid(l.oneValues, cells),
                 oneRows := Marked(l.oneRows, cells, row));
    var v := Join(ViewOf(l), RowView(c, len, side, labels, cells));
    assert v.many == ManyView(l.many);
    hide ManyView;
    assert ViewOf(l').one == v.one;
  }

  /** The pool may grow: what the lanes point at stays. */
  lemma PoolGrows(l: Lanes, len: nat, labels: Labels)
    requires Sound(l, len) && labels !in l.onePool
    ensures Sound(l.(onePool := l.onePool + [labels]), len) && ViewOf(l.(onePool := l.onePool + [labels])) == ViewOf(l)
  {
    hide ManyView;
    assert ViewOf(l.(onePool := l.onePool + [labels])).one == ViewOf(l).one;
  }

  lemma {:induction false} ManySets(many: seq<Line>, m: nat, line: Line)
    requires m < |many| && KeyOf(line) == KeyOf(many[m])
    requires forall i, j :: 0 <= i < j < |many| ==> KeyOf(many[i]) != KeyOf(many[j])
    ensures ManyView(many[m := line]) == ManyView(many)[KeyOf(line) := LineCells(line)]
    decreases |many|
  {
    hide LineCells;
    var n := |many| - 1;
    if m < n {
      ManySets(many[..n], m, line);
      assert many[m := line][..n] == many[..n][m := line];
      assert KeyOf(many[m]) != KeyOf(many[n]);
    } else {
      assert many[m := line][..n] == many[..n];
    }
  }

  lemma ManyPushes(l: Lanes, len: nat, side: Side, labels: Labels)
    requires Sound(l, len) && forall m :: 0 <= m < |l.many| ==> KeyOf(l.many[m]) != Key(side, labels)
    ensures Sound(l.(many := l.many + [Blank(side, labels, len)]), len)
    ensures ViewOf(l.(many := l.many + [Blank(side, labels, len)])) ==
            ViewOf(l).(many := ViewOf(l).many[Key(side, labels) := seq(len, _ => None)])
    ensures Key(side, labels) !in ViewOf(l).many
  {
    var line := Blank(side, labels, len);
    ManyViewAt(l.many);
    assert (l.many + [line])[..|l.many|] == l.many;
    assert LineCells(line) == seq(len, _ => None);
    hide LineCells;
  }

  /** A row into its series' lane pair. */
  lemma LineTakes(line: Line, len: nat, cells: map<nat, Value>)
    requires |line.counts| == |line.values| == len
    ensures LineCells(line.(counts := Raised(line.counts, cells), values := Overlaid(line.values, cells))) ==
            JoinLine(LineCells(line), RowLine(len, cells))
  {
  }

  /** A series of the "many" side, known or just pushed, takes a row. */
  lemma ManyTakes(c: Config, l: Lanes, len: nat, side: Side, labels: Labels, cells: map<nat, Value>, m: nat, was: View)
    requires Sound(l, len) && (IsSet(c.op) || side != OneSide(c)) && m < |l.many|
             && KeyOf(l.many[m]) == Key(side, labels)
    requires was == ViewOf(l) ||
             (Key(side, labels) !in was.many && ViewOf(l) ==
              was.(many := was.many[Key(side, labels) := seq(len, _ => None)]))
    requires Sized(was, len)
    ensures var line := l.many[m].(counts := Raised(l.many[m].counts, cells),
                                   values := Overlaid(l.many[m].values, cells));
            var l' := l.(many := l.many[m := line]);
            Sound(l', len) && ViewOf(l') == Join(was, RowView(c, len, side, labels, cells))
  {
    hide *;
    var row := RowLine(len, cells);
    SetLine(l, len, m, cells);
    LineSizes(len, cells);
    RowJoins(c, was, len, side, labels, cells);
    LineOf(l, len, m);
    NoneJoins(len, row);
  }

  lemma LineSizes(len: nat, cells: map<nat, Value>)
    ensures |RowLine(len, cells)| == len
  {
  }

  lemma LineOf(l: Lanes, len: nat, m: nat)
    requires Sound(l, len) && m < |l.many|
    ensures KeyOf(l.many[m]) in ViewOf(l).many && ViewOf(l).many[KeyOf(l.many[m])] == LineCells(l.many[m])
  {
    ManyViewAt(l.many);
    hide LineCells, ManyView;
  }

  lemma SetLine(l: Lanes, len: nat, m: nat, cells: map<nat, Value>)
    requires Sound(l, len) && m < |l.many|
    ensures var line := l.many[m].(counts := Raised(l.many[m].counts, cells),
                                   values := Overlaid(l.many[m].values, cells));
            var l' := l.(many := l.many[m := line]);
            && Sound(l', len)
            && ViewOf(l') == ViewOf(l).(many := ViewOf(l).many[KeyOf(l.many[m]) := JoinLine(LineCells(l.many[m]),
                RowLine(len, cells))])
  {
    var line := l.many[m].(counts := Raised(l.many[m].counts, cells), values := Overlaid(l.many[m].values, cells));
    LineTakes(l.many[m], len, cells);
    ManySets(l.many, m, line);
    hide ManyView, LineCells, JoinLine, RowLine;
  }

  /** A "many" row joins its own series only. */
  lemma RowJoins(c: Config, v: View, len: nat, side: Side, labels: Labels, cells: map<nat, Value>)
    requires Sized(v, len) && (IsSet(c.op) || side != OneSide(c))
    ensures var key, row := Key(side, labels), RowLine(len, cells);
            Join(v, RowView(c, len, side, labels, cells)) ==
            v.(many := v.many[key := if key in v.many then JoinLine(v.many[key], row) else row])
  {
    hide RowLine, JoinLine;
    var key, row := Key(side, labels), RowLine(len, cells);
    var w := Join(v, RowView(c, len, side, labels, cells));
    assert w.one == v.one;
    assert w.many == v.many[key := if key in v.many then JoinLine(v.many[key], row) else row];
  }

  lemma NoneJoins(len: nat, line: seq<Option<Value>>)
    requires |line| == len
    ensures JoinLine(seq(len, _ => None), line) == line
  {
  }

  lemma ViewSized(l: Lanes, len: nat)
    requires Sound(l, len)
    ensures Sized(ViewOf(l), len)
  {
    ManyViewAt(l.many);
  }
}
