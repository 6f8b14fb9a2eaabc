/** Vector matching as a relation: what pairs with what at each step of one
    match group, and the three ways a step fails. */
module Matching {
  import opened Series
  import opened Grids
  import opened Ordering

  datatype Side = Lhs | Rhs

  datatype Op =
    | Add | Sub | Mul | Div | Mod | Pow | Atan2
    | Eql | Neq | Gtr | Lss | Gte | Lte
    | And | Or | Unless

  predicate IsSet(op: Op) {
    op.And? || op.Or? || op.Unless?
  }

  predicate IsComparison(op: Op) {
    op.Eql? || op.Neq? || op.Gtr? || op.Lss? || op.Gte? || op.Lte?
  }

  datatype Card = OneToOne | ManyToOne | OneToMany

  /** `on`/`ignoring`, `group_left`/`group_right` and the fill values. */
  datatype Modifiers = Modifiers(card: Card, on: bool, labels: seq<string>, copied: seq<string>,
                                 fillLhs: Option<Value>, fillRhs: Option<Value>)

  datatype Config = Config(op: Op, returnBool: bool, matching: Modifiers, schema: seq<string>)

  /** Neither fill follows the swap of `group_right`. */
  function FillOne(c: Config): Option<Value> {
    c.matching.fillRhs
  }

  function FillMany(c: Config): Option<Value> {
    c.matching.fillLhs
  }

  /** The side nothing fans out from. */
  function OneSide(c: Config): Side {
    if c.matching.card.OneToMany? then Lhs else Rhs
  }

  predicate DropsMetricName(c: Config) {
    if IsSet(c.op) then false else if IsComparison(c.op) then c.returnBool else true
  }

  predicate InSignature(c: Config, name: string) {
    if c.matching.on then name in c.matching.labels else name != METRIC_NAME && name !in c.matching.labels
  }

  /** The labels that decide the group; the others blank. */
  function SignatureOf(c: Config, labels: Labels): (r: Labels)
    ensures |r| == |labels|
  {
    seq(|labels|, i requires 0 <= i < |labels| => if i < |c.schema| && InSignature(c, c.schema[i]) then labels[i]
        else "")
  }

  /** Whether the result is without this label: the metric name of a changed
      metric, and under one-to-one whatever was not matched on. */
  predicate DropsLabel(c: Config, name: string) {
    || (name == METRIC_NAME && DropsMetricName(c))
    || (c.matching.card.OneToOne? && c.matching.on != (name in c.matching.labels))
  }

  function Position(schema: seq<string>, name: string): Option<nat> {
    if schema == [] then None
    else if schema[0] == name then Some(0)
    else match Position(schema[1..], name) case Some(i) => Some(i + 1) case None => None
  }

  /** The `group_x` labels, copied from the "one" side in turn. */
  function Included(schema: seq<string>, out: Labels, one: Labels, names: seq<string>): (r: Labels)
    ensures |r| == |out|
  {
    if names == [] then out
    else
      var before := Included(schema, out, one, names[..|names| - 1]);
      match Position(schema, names[|names| - 1])
      case Some(i) => if i < |before| && i < |one| then before[i := one[i]] else before
      case None => before
  }

  function ResultLabels(c: Config, base: Labels, one: Labels): (r: Labels)
    ensures |r| == |base|
  {
    if IsSet(c.op) then base
    else
      Included(c.schema,
               seq(|base|, i requires 0 <= i < |base| => if i < |c.schema| && DropsLabel(c, c.schema[i]) then ""
                   else base[i]),
               one, c.matching.copied)
  }

  lemma {:induction false} PositionIs(schema: seq<string>, name: string)
    ensures Position(schema, name).None? ==> name !in schema
    ensures Position(schema, name).Some? ==>
              Position(schema, name).value < |schema| && schema[Position(schema, name).value] == name
  {
    if schema != [] { PositionIs(schema[1..], name); }
  }

  predicate Distinct<T(==)>(xs: seq<T>) {
    forall i, j :: 0 <= i < j < |xs| ==> xs[i] != xs[j]
  }

  lemma {:induction false} IncludedAt(schema: seq<string>, out: Labels, one: Labels, names: seq<string>, i: nat)
    requires Distinct(schema) && i < |schema| == |out| == |one|
    ensures Included(schema, out, one, names)[i] == if schema[i] in names then one[i] else out[i]
  {
    if names != [] {
      var n := |names| - 1;
      IncludedAt(schema, out, one, names[..n], i);
      PositionIs(schema, names[n]);
      assert names == names[..n] + [names[n]];
    }
  }

  /** Each label of a result: included from the "one" side, else dropped, else
      the sample's own. */
  lemma ResultLabelsAt(c: Config, base: Labels, one: Labels, i: nat)
    requires Distinct(c.schema) && i < |c.schema| == |base| == |one| && !IsSet(c.op)
    ensures ResultLabels(c, base, one)[i] ==
            if c.schema[i] in c.matching.copied then one[i] else if DropsLabel(c, c.schema[i]) then "" else base[i]
  {
    hide DropsLabel;
    IncludedAt(c.schema, seq(|base|, i requires 0 <= i < |base| => if i < |c.schema| && DropsLabel(c, c.schema[i])
                             then "" else base[i]),
               one, c.matching.copied, i);
  }

  // ── What a match group holds, whatever order it came in ──

  datatype Key = Key(side: Side, labels: Labels)

  /** The "one" side at a step: no series, one, or too many. */
  datatype OneCell = Nobody | Single(value: Value, labels: Labels) | Several

  datatype View = View(one: seq<OneCell>, many: map<Key, seq<Option<Value>>>)

  function ManyAt(v: View, step: nat, k: Key): Option<Value> {
    if k in v.many && step < |v.many[k]| then v.many[k][step] else None
  }

  ghost predicate AnyMany(v: View, step: nat) {
    exists k :: ManyAt(v, step, k).Some?
  }

  /** What stands on the "many" side of a pair. */
  datatype Source = Held(key: Key) | Filled

  function OneAt(c: Config, v: View, step: nat): Option<Value>
    requires step < |v.one|
  {
    match v.one[step]
    case Single(x, _) => Some(x)
    case Nobody => FillOne(c)
    case Several => None
  }

  /** Every "many" series of the step pairs with the "one" side or its fill; a
      "one" side nothing matched pairs with the other fill. */
  ghost predicate Pairs(c: Config, v: View, step: nat, src: Source)
    requires step < |v.one|
  {
    match src
    case Held(k) => ManyAt(v, step, k).Some? && OneAt(c, v, step).Some?
    case Filled => v.one[step].Single? && FillMany(c).Some? && !AnyMany(v, step)
  }

  /** Where one side is a fill, the group's own labels stand for it. */
  function PairLabels(c: Config, cell: OneCell, src: Source): Labels {
    match (src, cell)
    case (Held(k), Single(_, one)) => ResultLabels(c, k.labels, one)
    case (Held(k), _) => ResultLabels(c, k.labels, SignatureOf(c, k.labels))
    case (Filled, Single(_, one)) => ResultLabels(c, SignatureOf(c, one), one)
    case (Filled, _) => []
  }

  datatype Operands = Both(lhs: Value, rhs: Value) | Kept(value: Value)

  function Operated(c: Config, many: Value, one: Value): Operands {
    if OneSide(c).Lhs? then Both(one, many) else Both(many, one)
  }

  function PairOperands(c: Config, v: View, step: nat, src: Source): Operands
    requires step < |v.one|
  {
    var one := OneAt(c, v, step);
    var many := match src case Held(k) => ManyAt(v, step, k) case Filled => FillMany(c);
    Operated(c, if many.Some? then many.value else 0, if one.Some? then one.value else 0)
  }

  /** Whichever side may be many, the left operand is the left-hand side's. */
  lemma OperandsKeepSides(c: Config, v: View, step: nat, k: Key)
    requires step < |v.one| && Pairs(c, v, step, Held(k)) && k.side != OneSide(c)
    ensures var p := PairOperands(c, v, step, Held(k));
            && p.Both? && OneAt(c, v, step).Some?
            && ManyAt(v, step, k) == Some(if k.side.Lhs? then p.lhs else p.rhs)
            && OneAt(c, v, step).value == if k.side.Lhs? then p.rhs else p.lhs
  {
    hide ManyAt, OneAt;
  }

  /** A fill belongs to the "one" or the "many" side; which operand that is
      turns with the cardinality, and the fill's name does not. */
  lemma FillsKeepNames(c: Config, v: View, step: nat, src: Source)
    requires step < |v.one| && Pairs(c, v, step, src)
    ensures var p, swapped := PairOperands(c, v, step, src), c.matching.card.OneToMany?;
            && (v.one[step].Nobody? ==> c.matching.fillRhs == Some(if swapped then p.lhs else p.rhs))
            && (src.Filled? ==> c.matching.fillLhs == Some(if swapped then p.rhs else p.lhs))
  {
    hide ManyAt, AnyMany;
  }

  datatype Error = Duplicate | MultipleMatches | GroupingNotUnique | OffGridSample | Corrupt

  /** With nothing on the "many" side and nothing to fill in, a step is not
      even checked. */
  ghost predicate Skipped(c: Config, v: View, step: nat) {
    !AnyMany(v, step) && FillOne(c).None? && FillMany(c).None?
  }

  /** Two series of one step. */
  ghost predicate TwoPair(c: Config, v: View, step: nat)
    requires step < |v.one|
  {
    exists s, s' :: Pairs(c, v, step, s) && Pairs(c, v, step, s') && s != s'
  }

  ghost predicate TwoCollide(c: Config, v: View, step: nat)
    requires step < |v.one|
  {
    exists s, s' :: Pairs(c, v, step, s) && Pairs(c, v, step, s') && s != s' &&
                    PairLabels(c, v.one[step], s) == PairLabels(c, v.one[step], s')
  }

  /** Which of its failures a step reports. */
  ghost function Failure(c: Config, v: View, step: nat): Option<Error>
    requires step < |v.one|
  {
    if Skipped(c, v, step) then None
    else if v.one[step].Several? then Some(Duplicate)
    else if c.matching.card.OneToOne? && TwoPair(c, v, step) then Some(MultipleMatches)
    else if TwoCollide(c, v, step) then Some(GroupingNotUnique)
    else None
  }

  /** What a step answers under a label set. */
  ghost function PairAt(c: Config, v: View): (nat, Labels) -> Option<Operands> {
    (step: nat, labels: Labels) =>
      if step >= |v.one| then None
      else if exists s :: Pairs(c, v, step, s) && PairLabels(c, v.one[step], s) == labels then
        var s :| Pairs(c, v, step, s) && PairLabels(c, v.one[step], s) == labels;
        Some(PairOperands(c, v, step, s))
      else None
  }

  // ── Set operators ──

  ghost predicate SideAt(v: View, step: nat, side: Side) {
    exists labels :: ManyAt(v, step, Key(side, labels)).Some?
  }

  ghost predicate Keeps(op: Op, v: View, step: nat, side: Side) {
    match op
    case And => side.Lhs? && SideAt(v, step, Rhs)
    case Unless => side.Lhs? && !SideAt(v, step, Rhs)
    case _ => side.Lhs? || !SideAt(v, step, Lhs)
  }

  /** What survives of a label set at a step, on whichever side it is. */
  ghost function SetAt(op: Op, v: View): (nat, Labels) -> Option<Operands> {
    (step: nat, labels: Labels) =>
      var l, r := ManyAt(v, step, Key(Lhs, labels)), ManyAt(v, step, Key(Rhs, labels));
      if l.Some? && Keeps(op, v, step, Lhs) then Some(Kept(l.value))
      else if r.Some? && Keeps(op, v, step, Rhs) then Some(Kept(r.value))
      else None
  }

  // ── The answer ──

  datatype Paired = Paired(t: int, operands: Operands)

  datatype Output = Output(labels: Labels, samples: seq<Paired>)

  /** A label set's samples over the first `n` steps. */
  ghost function SamplesTo(g: Grid, at: (nat, Labels) -> Option<Operands>, labels: Labels, n: nat): seq<Paired> {
    if n == 0 then []
    else
      SamplesTo(g, at, labels, n - 1) +
      match at(n - 1, labels) case Some(x) => [Paired(Timestamp(g, n - 1), x)] case None => []
  }

  function LabelsIn(out: seq<Output>): seq<Labels> {
    seq(|out|, i requires 0 <= i < |out| => out[i].labels)
  }

  /** A series for each label set with samples, sorted by label set. */
  ghost predicate Emits(g: Grid, at: (nat, Labels) -> Option<Operands>, out: seq<Output>) {
    && Climbs(LabelsCmp(), LabelsIn(out))
    && (forall i :: 0 <= i < |out| ==> out[i].samples == SamplesTo(g, at, out[i].labels, g.len) != [])
    && (forall labels :: SamplesTo(g, at, labels, g.len) != [] ==> labels in LabelsIn(out))
  }

  datatype Result = Ok(out: seq<Output>) | Err(error: Error)

  /** The matching, step by step: the first failing step's error, or a series
      per result label set. */
  ghost predicate Answers(c: Config, g: Grid, v: View, result: Result)
    requires |v.one| == g.len
  {
    if IsSet(c.op) then result.Ok? && Emits(g, SetAt(c.op, v), result.out)
    else
      match result
      case Err(e) => exists step: nat :: step < g.len && Failure(c, v, step) == Some(e) && NoFailure(c, v, step)
      case Ok(out) => NoFailure(c, v, g.len) && Emits(g, PairAt(c, v), out)
  }

  ghost predicate NoFailure(c: Config, v: View, n: nat)
    requires n <= |v.one|
  {
    forall step: nat :: step < n ==> Failure(c, v, step).None?
  }

  lemma EmitsOnce(g: Grid, at: (nat, Labels) -> Option<Operands>, out: seq<Output>, out': seq<Output>)
    requires Emits(g, at, out) && Emits(g, at, out')
    ensures out == out'
  {
    hide SamplesTo, Climbs, LabelsCmp, Orders;
    LabelsOrder();
    var xs, ys := LabelsIn(out), LabelsIn(out');
    forall x ensures x in xs <==> x in ys {
      Listed(g, at, out, x);
      Listed(g, at, out', x);
    }
    ClimbsOnce(LabelsCmp(), xs, ys);
    assert |out| == |xs| == |ys| == |out'|;
    forall i | 0 <= i < |out| ensures out[i] == out'[i] {
      assert xs[i] == out[i].labels && ys[i] == out'[i].labels;
    }
  }

  lemma Listed(g: Grid, at: (nat, Labels) -> Option<Operands>, out: seq<Output>, x: Labels)
    requires Emits(g, at, out)
    ensures x in LabelsIn(out) <==> SamplesTo(g, at, x, g.len) != []
  {
    hide SamplesTo, Climbs, LabelsCmp;
    if x in LabelsIn(out) {
      var i :| 0 <= i < |LabelsIn(out)| && LabelsIn(out)[i] == x;
      assert out[i].labels == x;
    }
  }

  /** What a group holds settles its answer. */
  lemma AnswersOnce(c: Config, g: Grid, v: View, r: Result, r': Result)
    requires |v.one| == g.len && Answers(c, g, v, r) && Answers(c, g, v, r')
    ensures r == r'
  {
    hide Emits, Failure, PairAt, SetAt;
    if r.Ok? && r'.Ok? {
      EmitsOnce(g, if IsSet(c.op) then SetAt(c.op, v) else PairAt(c, v), r.out, r'.out);
    }
  }
}
