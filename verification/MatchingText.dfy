/** The matching modifiers as a plan spells them, and read back. */
module MatchingText {
  import opened Series
  import opened Matching

  /** The Unicode property White_Space, by which `str::trim` goes. */
  predicate IsSpace(c: char) {
    || '\t' <= c <= '\r' || c == ' ' || c == '\U{85}' || c == '\U{A0}' || c == '\U{1680}'
    || '\U{2000}' <= c <= '\U{200A}' || c == '\U{2028}' || c == '\U{2029}' || c == '\U{202F}'
    || c == '\U{205F}' || c == '\U{3000}'
  }

  function TrimStart(s: string): string {
    if s != "" && IsSpace(s[0]) then TrimStart(s[1..]) else s
  }

  function TrimEnd(s: string): string {
    if s != "" && IsSpace(s[|s| - 1]) then TrimEnd(s[..|s| - 1]) else s
  }

  function Trim(s: string): string {
    TrimEnd(TrimStart(s))
  }

  /** What is before and after the first `c`. */
  function SplitOnce(s: string, c: char): Option<(string, string)> {
    if s == "" then None
    else if s[0] == c then Some(("", s[1..]))
    else match SplitOnce(s[1..], c) case Some(p) => Some(([s[0]] + p.0, p.1)) case None => None
  }

  /** Every piece between two `c`s. */
  function Split(s: string, c: char): (pieces: seq<string>)
    ensures pieces != []
  {
    if s == "" then [""]
    else
      var rest := Split(s[1..], c);
      if s[0] == c then [""] + rest else [[s[0]] + rest[0]] + rest[1..]
  }

  function NonEmpty(pieces: seq<string>): seq<string> {
    if pieces == [] then []
    else
      var name := Trim(pieces[0]);
      (if name == "" then [] else [name]) + NonEmpty(pieces[1..])
  }

  function SplitNames(s: string): seq<string> {
    NonEmpty(Split(s, ','))
  }

  function JoinNames(names: seq<string>): string {
    if names == [] then "" else if |names| == 1 then names[0] else names[0] + ", " + JoinNames(names[1..])
  }

  /** How a float is written and read. */
  datatype Spelling = Spelling(write: Value -> string, read: string -> Option<Value>)

  datatype Word = On | Ignoring | GroupLeft | GroupRight | FillLeft | FillRight

  function Opening(w: Word): string {
    match w
    case On => "on("
    case Ignoring => "ignoring("
    case GroupLeft => "group_left("
    case GroupRight => "group_right("
    case FillLeft => "fill_left("
    case FillRight => "fill_right("
  }

  // ── Writing ──

  function Appended(out: string, clause: string): string {
    if out == "" then clause else out + " " + clause
  }

  function Clause(w: Word, body: string): string {
    Opening(w) + body + ")"
  }

  function LabelsWritten(m: Modifiers): string {
    if m.on || m.labels != [] then Clause(if m.on then On else Ignoring, JoinNames(m.labels)) else ""
  }

  function GroupWritten(m: Modifiers, out: string): string {
    match m.card
    case OneToOne => out
    case ManyToOne => Appended(out, Clause(GroupLeft, JoinNames(m.copied)))
    case OneToMany => Appended(out, Clause(GroupRight, JoinNames(m.copied)))
  }

  function FillWritten(sp: Spelling, w: Word, fill: Option<Value>, out: string): string {
    match fill case None => out case Some(v) => Appended(out, Clause(w, sp.write(v)))
  }

  /** `Matching::literal`. */
  function Literal(sp: Spelling, m: Modifiers): string {
    FillWritten(sp, FillRight, m.fillRhs, FillWritten(sp, FillLeft, m.fillLhs, GroupWritten(m, LabelsWritten(m))))
  }

  // ── Reading ──

  datatype Read = NotHere | Broken | Found(body: string, rest: string)

  /** A clause at the head of what is left. */
  function ReadClause(s: string, w: Word): Read {
    if !(Opening(w) <= s) then NotHere
    else
      match SplitOnce(s[|Opening(w)|..], ')')
      case None => Broken
      case Some(p) => Found(p.0, TrimStart(p.1))
  }

  datatype Step = Bad | Next(m: Modifiers, rest: string)

  const NO_MODIFIERS := Modifiers(OneToOne, false, [], [], None, None)

  function ReadLabels(s: string): Step {
    match ReadClause(s, On)
    case Broken => Bad
    case Found(body, rest) => Next(NO_MODIFIERS.(on := true, labels := SplitNames(body)), rest)
    case NotHere =>
      match ReadClause(s, Ignoring)
      case Broken => Bad
      case Found(body, rest) => Next(NO_MODIFIERS.(labels := SplitNames(body)), rest)
      case NotHere => Next(NO_MODIFIERS, s)
  }

  function ReadGroup(st: Step): Step {
    match st
    case Bad => Bad
    case Next(m, s) =>
      match ReadClause(s, GroupLeft)
      case Broken => Bad
      case Found(body, rest) => Next(m.(card := ManyToOne, copied := SplitNames(body)), rest)
      case NotHere =>
        match ReadClause(s, GroupRight)
        case Broken => Bad
        case Found(body, rest) => Next(m.(card := OneToMany, copied := SplitNames(body)), rest)
        case NotHere => st
  }

  function ReadFill(sp: Spelling, w: Word, st: Step): Step {
    match st
    case Bad => Bad
    case Next(m, s) =>
      match ReadClause(s, w)
      case Broken => Bad
      case NotHere => st
      case Found(body, rest) =>
        match sp.read(body)
        case None => Bad
        case Some(v) => Next(if w.FillLeft? then m.(fillLhs := Some(v)) else m.(fillRhs := Some(v)), rest)
  }

  /** `Matching::parse`. */
  function Parse(sp: Spelling, s: string): Option<Modifiers> {
    match ReadFill(sp, FillRight, ReadFill(sp, FillLeft, ReadGroup(ReadLabels(Trim(s)))))
    case Bad => None
    case Next(m, rest) => if rest == "" then Some(m) else None
  }

  // ── Names ──

  predicate CleanName(name: string) {
    name != "" && Trim(name) == name && ',' !in name && ')' !in name
  }

  predicate CleanNames(names: seq<string>) {
    forall i :: 0 <= i < |names| ==> CleanName(names[i])
  }

  /** What the spelling of the modifiers can carry of their names. */
  predicate Spellable(m: Modifiers) {
    CleanNames(m.labels) && CleanNames(m.copied) && (m.card.OneToOne? ==> m.copied == [])
  }

  // ── Floats ──

  const SIGN_BIT: Value := 0x8000_0000_0000_0000
  const INFINITY_BITS: Value := 0x7ff0_0000_0000_0000
  const QUIET_NAN_BITS: Value := 0x7ff8_0000_0000_0000

  predicate IsNan(v: Value) {
    v % SIGN_BIT > INFINITY_BITS
  }

  /** What is left of a float once written: a NaN loses its sign and payload. */
  function Settled(v: Value): Value {
    if IsNan(v) then QUIET_NAN_BITS else v
  }

  function SettledFill(fill: Option<Value>): Option<Value> {
    match fill case None => None case Some(v) => Some(Settled(v))
  }

  /** A fill that reads back as the same bits. */
  predicate Steady(fill: Option<Value>) {
    fill.Some? && IsNan(fill.value) ==> fill.value == QUIET_NAN_BITS
  }

  lemma {:induction false} TrimStartIs(s: string)
    ensures TrimStart(s) == "" || !IsSpace(TrimStart(s)[0])
    ensures exists k :: 0 <= k <= |s| && TrimStart(s) == s[k..]
  {
    if s != "" && IsSpace(s[0]) {
      TrimStartIs(s[1..]);
      var k :| 0 <= k <= |s[1..]| && TrimStart(s[1..]) == s[1..][k..];
      assert s[1..][k..] == s[k + 1..];
    } else {
      assert s[0..] == s;
    }
  }

  lemma {:induction false} TrimEndIs(s: string)
    ensures TrimEnd(s) == "" || !IsSpace(TrimEnd(s)[|TrimEnd(s)| - 1])
    ensures TrimEnd(s) <= s
  {
    if s != "" && IsSpace(s[|s| - 1]) { TrimEndIs(s[..|s| - 1]); }
  }

  lemma TrimIs(s: string)
    ensures Trim(Trim(s)) == Trim(s)
    ensures forall c :: c in Trim(s) ==> c in s
    ensures Trim(s) != "" ==> !IsSpace(Trim(s)[0])
  {
    TrimStartIs(s);
    TrimEndIs(TrimStart(s));
    var t := TrimEnd(TrimStart(s));
    var k :| 0 <= k <= |s| && TrimStart(s) == s[k..];
    assert t != "" ==> t[0] == TrimStart(s)[0];
    assert TrimStart(t) == t;
  }

  lemma TrimSpace(s: string)
    ensures Trim(" " + s) == Trim(s)
  {
    assert (" " + s)[1..] == s;
  }

  // ── Names, there and back ──

  lemma {:induction false} SplitNone(s: string, c: char)
    requires c !in s
    ensures Split(s, c) == [s]
  {
    if s != "" {
      SplitNone(s[1..], c);
      assert [s[0]] + s[1..] == s;
    }
  }

  lemma {:induction false} SplitAt(a: string, c: char, b: string)
    requires c !in a
    ensures Split(a + [c] + b, c) == [a] + Split(b, c)
  {
    if a == "" {
      assert (a + [c] + b)[1..] == b;
    } else {
      SplitAt(a[1..], c, b);
      assert (a + [c] + b)[1..] == a[1..] + [c] + b;
      assert [a[0]] + a[1..] == a;
    }
  }

  lemma SplitSpace(s: string)
    ensures Split(" " + s, ',') == [" " + Split(s, ',')[0]] + Split(s, ',')[1..]
  {
    assert (" " + s)[1..] == s;
  }

  lemma NonEmptyHead(piece: string, rest: seq<string>)
    ensures NonEmpty([piece] + rest) == (if Trim(piece) == "" then [] else [Trim(piece)]) + NonEmpty(rest)
  {
    assert ([piece] + rest)[1..] == rest;
  }

  lemma {:induction false} NamesRead(names: seq<string>)
    requires CleanNames(names)
    ensures SplitNames(JoinNames(names)) == names
  {
    hide Trim;
    if names == [] {
      TrimNothing();
      assert Split("", ',') == [""];
      NonEmptyHead("", []);
      assert [""] + [] == [""];
    } else if |names| == 1 {
      SplitNone(names[0], ',');
      NonEmptyHead(names[0], []);
      assert [names[0]] + [] == [names[0]];
    } else {
      var rest := JoinNames(names[1..]);
      NamesRead(names[1..]);
      assert names[0] + ", " + rest == names[0] + [','] + (" " + rest);
      SplitAt(names[0], ',', " " + rest);
      SplitSpace(rest);
      var pieces := Split(rest, ',');
      assert pieces == [pieces[0]] + pieces[1..];
      NonEmptyHead(pieces[0], pieces[1..]);
      TrimSpace(pieces[0]);
      NonEmptyHead(" " + pieces[0], pieces[1..]);
      NonEmptyHead(names[0], [" " + pieces[0]] + pieces[1..]);
      assert names == [names[0]] + names[1..];
    }
  }

  lemma TrimNothing()
    ensures Trim("") == ""
  {
  }

  lemma {:induction false} JoinedChars(names: seq<string>, c: char)
    requires forall i :: 0 <= i < |names| ==> c !in names[i]
    requires c != ',' && c != ' '
    ensures c !in JoinNames(names)
  {
    if |names| > 1 { JoinedChars(names[1..], c); }
  }

  /** A piece of `s` between two `c`s. */
  ghost predicate PieceOf(piece: string, s: string, c: char) {
    forall x :: x in piece ==> x in s && x != c
  }

  lemma {:induction false} PieceChars(s: string, c: char)
    ensures forall i :: 0 <= i < |Split(s, c)| ==> PieceOf(Split(s, c)[i], s, c)
  {
    if s != "" {
      PieceChars(s[1..], c);
      var rest := Split(s[1..], c);
      forall i | 0 <= i < |Split(s, c)| ensures PieceOf(Split(s, c)[i], s, c) {
        var j := if s[0] == c && i > 0 then i - 1 else i;
        if s[0] == c && i == 0 {
          assert Split(s, c)[0] == "";
        } else {
          assert PieceOf(rest[j], s[1..], c);
          assert Split(s, c)[i] == if i > 0 || s[0] == c then rest[j] else [s[0]] + rest[0];
        }
      }
    }
  }

  lemma {:induction false} NonEmptyClean(pieces: seq<string>)
    requires forall i :: 0 <= i < |pieces| ==> ',' !in pieces[i] && ')' !in pieces[i]
    ensures CleanNames(NonEmpty(pieces))
  {
    if pieces != [] {
      NonEmptyClean(pieces[1..]);
      TrimIs(pieces[0]);
      hide Trim;
    }
  }

  lemma SplitClean(s: string)
    requires ')' !in s
    ensures CleanNames(SplitNames(s))
  {
    PieceChars(s, ',');
    var pieces := Split(s, ',');
    forall i | 0 <= i < |pieces| ensures ',' !in pieces[i] && ')' !in pieces[i] {
      assert PieceOf(pieces[i], s, ',');
    }
    NonEmptyClean(pieces);
  }

  // ── Clauses, there and back ──

  lemma {:induction false} SplitOnceAt(a: string, c: char, b: string)
    requires c !in a
    ensures SplitOnce(a + [c] + b, c) == Some((a, b))
  {
    if a == "" {
      assert (a + [c] + b)[1..] == b;
    } else {
      SplitOnceAt(a[1..], c, b);
      assert (a + [c] + b)[1..] == a[1..] + [c] + b;
      assert [a[0]] + a[1..] == a;
    }
  }

  lemma {:induction false} SplitOnceChars(s: string, c: char)
    ensures SplitOnce(s, c).Some? ==> c !in SplitOnce(s, c).value.0
  {
    if s != "" { SplitOnceChars(s[1..], c); }
  }

  /** The rest of a text after one of its clauses. */
  ghost predicate Follows(rest: string, text: string) {
    if text == "" then rest == "" else rest == " " + text && !IsSpace(text[0])
  }

  lemma ClauseReads(w: Word, body: string, rest: string, text: string)
    requires ')' !in body && Follows(rest, text)
    ensures ReadClause(Clause(w, body) + rest, w) == Found(body, text)
  {
    var s := Clause(w, body) + rest;
    assert s == Opening(w) + (body + [')'] + rest);
    assert s[|Opening(w)|..] == body + [')'] + rest;
    SplitOnceAt(body, ')', rest);
    FollowsTrims(rest, text);
    hide Opening, SplitOnce, TrimStart;
    assert Opening(w) <= s;
  }

  lemma FollowsTrims(rest: string, text: string)
    requires Follows(rest, text)
    ensures TrimStart(rest) == text
  {
    if text != "" {
      assert (" " + text)[1..] == text;
      assert TrimStart(text) == text;
    }
  }

  /** No clause opens as another does. */
  lemma ClauseSkips(w: Word, w': Word, body: string, rest: string)
    requires w != w'
    ensures ReadClause(Clause(w', body) + rest, w) == NotHere
  {
    var s, o, o' := Clause(w', body) + rest, Opening(w), Opening(w');
    OpeningsDiffer(w, w');
    var k :| 0 <= k < |o| && k < |o'| && o[k] != o'[k];
    assert s[k] == o'[k];
  }

  lemma OpeningsDiffer(w: Word, w': Word)
    requires w != w'
    ensures exists k :: 0 <= k < |Opening(w)| && k < |Opening(w')| && Opening(w)[k] != Opening(w')[k]
  {
    var o, o' := Opening(w), Opening(w');
    assert o[0] != o'[0] || o[5] != o'[5] || o[6] != o'[6];
  }

  lemma NothingSkips(w: Word)
    ensures ReadClause("", w) == NotHere
  {
  }

  /** A text written clause after clause, seen from its front. */
  datatype Part = Part(w: Word, body: string)

  function Text(parts: seq<Part>): string
    decreases |parts|, 0
  {
    if parts == [] then "" else Clause(parts[0].w, parts[0].body) + Tail(parts[1..])
  }

  function Tail(parts: seq<Part>): string
    decreases |parts|, 1
  {
    if parts == [] then "" else " " + Text(parts)
  }

  ghost predicate Whole(parts: seq<Part>) {
    forall i :: 0 <= i < |parts| ==> ')' !in parts[i].body
  }

  lemma TextStarts(parts: seq<Part>)
    requires parts != []
    ensures Text(parts) != "" && !IsSpace(Text(parts)[0])
  {
    var w := parts[0].w;
    assert !IsSpace(Opening(w)[0]);
    assert Text(parts)[0] == Opening(w)[0];
  }

  /** Reading a word off the front of a text. */
  lemma TextReads(parts: seq<Part>, w: Word)
    requires Whole(parts)
    ensures ReadClause(Text(parts), w) ==
            if parts != [] && parts[0].w == w then Found(parts[0].body, Text(parts[1..])) else NotHere
  {
    if parts == [] {
      NothingSkips(w);
    } else if parts[0].w == w {
      var rest := parts[1..];
      if rest != [] { TextStarts(rest); }
      ClauseReads(w, parts[0].body, Tail(rest), Text(rest));
    } else {
      ClauseSkips(w, parts[0].w, parts[0].body, Tail(parts[1..]));
    }
  }

  lemma {:induction false} TextAppends(parts: seq<Part>, p: Part)
    ensures Text(parts + [p]) == Appended(Text(parts), Clause(p.w, p.body))
    ensures Tail(parts + [p]) == Tail(parts) + " " + Clause(p.w, p.body)
  {
    hide Clause;
    if parts == [] {
      assert parts + [p] == [p] && [p][1..] == [];
      assert Clause(p.w, p.body) + "" == Clause(p.w, p.body);
    } else {
      assert (parts + [p])[1..] == parts[1..] + [p];
      TextAppends(parts[1..], p);
      TextStarts(parts);
    }
  }

  lemma {:induction false} TextTrims(parts: seq<Part>)
    ensures Trim(Text(parts)) == Text(parts)
  {
    if parts != [] {
      TextStarts(parts);
      TextEnds(parts);
      hide Text;
    }
  }

  lemma {:induction false} TextEnds(parts: seq<Part>)
    requires parts != []
    ensures Text(parts) != "" && Text(parts)[|Text(parts)| - 1] == ')'
  {
    hide Opening;
    if |parts| > 1 { TextEnds(parts[1..]); }
  }

  // ── The modifiers, there and back ──

  function LabelParts(m: Modifiers): seq<Part> {
    if m.on || m.labels != [] then [Part(if m.on then On else Ignoring, JoinNames(m.labels))] else []
  }

  function GroupParts(m: Modifiers): seq<Part> {
    match m.card
    case OneToOne => []
    case ManyToOne => [Part(GroupLeft, JoinNames(m.copied))]
    case OneToMany => [Part(GroupRight, JoinNames(m.copied))]
  }

  function FillParts(sp: Spelling, w: Word, fill: Option<Value>): seq<Part> {
    match fill case None => [] case Some(v) => [Part(w, sp.write(v))]
  }

  function Parts(sp: Spelling, m: Modifiers): seq<Part> {
    LabelParts(m) + GroupParts(m) + FillParts(sp, FillLeft, m.fillLhs) + FillParts(sp, FillRight, m.fillRhs)
  }

  lemma MorePart(parts: seq<Part>, more: seq<Part>)
    requires |more| <= 1
    ensures Text(parts + more) == if more == [] then Text(parts)
            else Appended(Text(parts), Clause(more[0].w, more[0].body))
  {
    if more == [] { assert parts + more == parts; } else { assert more == [more[0]]; TextAppends(parts, more[0]); }
  }

  lemma LiteralIsText(sp: Spelling, m: Modifiers)
    ensures Literal(sp, m) == Text(Parts(sp, m))
  {
    hide JoinNames, Clause, Text;
    var a, b, c, d := LabelParts(m), GroupParts(m), FillParts(sp, FillLeft, m.fillLhs),
        FillParts(sp, FillRight, m.fillRhs);
    NoText();
    MorePart([], a);
    assert [] + a == a;
    MorePart(a, b);
    MorePart(a + b, c);
    MorePart(a + b + c, d);
  }

  lemma NoText()
    ensures Text([]) == ""
  {
  }

  /** Numbers read back as the same bits and every NaN as the quiet one, and
      no float's text closes a clause. */
  ghost predicate Spells(sp: Spelling) {
    forall v :: sp.read(sp.write(v)) == Some(Settled(v)) && ')' !in sp.write(v)
  }

  lemma PartsWhole(sp: Spelling, m: Modifiers)
    requires Spells(sp) && Spellable(m)
    ensures Whole(Parts(sp, m))
  {
    JoinedChars(m.labels, ')');
    JoinedChars(m.copied, ')');
    hide JoinNames;
  }

  /** Reading one optional clause off the parts that are left. */
  lemma Peels(part: seq<Part>, rest: seq<Part>, w: Word)
    requires |part| <= 1 && Whole(part + rest)
    requires part == [] && rest != [] ==> rest[0].w != w
    ensures ReadClause(Text(part + rest), w) ==
            if part != [] && part[0].w == w then Found(part[0].body, Text(rest)) else NotHere
  {
    TextReads(part + rest, w);
    if part != [] { assert (part + rest)[1..] == rest; } else { assert part + rest == rest; }
    hide Text;
  }

  lemma LabelsRead(m: Modifiers, rest: seq<Part>)
    requires CleanNames(m.labels) && Whole(LabelParts(m) + rest)
    requires rest != [] ==> !rest[0].w.On? && !rest[0].w.Ignoring?
    ensures ReadLabels(Text(LabelParts(m) + rest)) == Next(NO_MODIFIERS.(on := m.on, labels := m.labels), Text(rest))
  {
    Peels(LabelParts(m), rest, On);
    Peels(LabelParts(m), rest, Ignoring);
    NamesRead(m.labels);
    hide Text, JoinNames, SplitNames, ReadClause;
    assert LabelParts(m) == [] ==> LabelParts(m) + rest == rest;
  }

  lemma GroupRead(m: Modifiers, now: Modifiers, rest: seq<Part>)
    requires CleanNames(m.copied) && (m.card.OneToOne? ==> m.copied == []) && Whole(GroupParts(m) + rest)
    requires now.card.OneToOne? && now.copied == []
    requires rest != [] ==> !rest[0].w.GroupLeft? && !rest[0].w.GroupRight?
    ensures ReadGroup(Next(now, Text(GroupParts(m) + rest))) ==
            Next(now.(card := m.card, copied := m.copied), Text(rest))
  {
    Peels(GroupParts(m), rest, GroupLeft);
    Peels(GroupParts(m), rest, GroupRight);
    NamesRead(m.copied);
    assert GroupParts(m) == [] ==> GroupParts(m) + rest == rest;
    hide Text, JoinNames, SplitNames, ReadClause, CleanNames, Whole;
    GroupFrom(m, now, Text(GroupParts(m) + rest), Text(rest));
  }

  lemma GroupFrom(m: Modifiers, now: Modifiers, s: string, rest: string)
    requires SplitNames(JoinNames(m.copied)) == m.copied && (m.card.OneToOne? ==> m.copied == [] && s == rest)
    requires now.card.OneToOne? && now.copied == []
    requires ReadClause(s, GroupLeft) == if m.card.ManyToOne? then Found(JoinNames(m.copied), rest) else NotHere
    requires ReadClause(s, GroupRight) == if m.card.OneToMany? then Found(JoinNames(m.copied), rest) else NotHere
    ensures ReadGroup(Next(now, s)) == Next(now.(card := m.card, copied := m.copied), rest)
  {
    hide SplitNames, JoinNames, ReadClause;
  }

  lemma FillRead(sp: Spelling, w: Word, fill: Option<Value>, now: Modifiers, rest: seq<Part>)
    requires Spells(sp) && (w.FillLeft? || w.FillRight?) && Whole(FillParts(sp, w, fill) + rest)
    requires rest != [] ==> rest[0].w != w
    requires if w.FillLeft? then now.fillLhs == None else now.fillRhs == None
    ensures ReadFill(sp, w, Next(now, Text(FillParts(sp, w, fill) + rest))) ==
            Next(if w.FillLeft? then now.(fillLhs := SettledFill(fill)) else now.(fillRhs := SettledFill(fill)),
                 Text(rest))
  {
    Peels(FillParts(sp, w, fill), rest, w);
    assert FillParts(sp, w, fill) == [] ==> FillParts(sp, w, fill) + rest == rest;
    hide Text, ReadClause, Whole;
    FillFrom(sp, w, fill, now, Text(FillParts(sp, w, fill) + rest), Text(rest));
  }

  lemma FillFrom(sp: Spelling, w: Word, fill: Option<Value>, now: Modifiers, s: string, rest: string)
    requires Spells(sp) && (w.FillLeft? || w.FillRight?) && (fill.None? ==> s == rest)
    requires if w.FillLeft? then now.fillLhs == None else now.fillRhs == None
    requires ReadClause(s, w) == if fill.Some? then Found(sp.write(fill.value), rest) else NotHere
    ensures ReadFill(sp, w, Next(now, s)) ==
            Next(if w.FillLeft? then now.(fillLhs := SettledFill(fill)) else now.(fillRhs := SettledFill(fill)), rest)
  {
    hide ReadClause;
    match fill
    case None =>
    case Some(v) => assert sp.read(sp.write(v)) == Some(Settled(v));
  }

  /** What can be spelled reads back as it was, but for the bits of a NaN. */
  lemma LiteralReads(sp: Spelling, m: Modifiers)
    requires Spells(sp) && Spellable(m)
    ensures Parse(sp, Literal(sp, m)) == Some(m.(fillLhs := SettledFill(m.fillLhs), fillRhs := SettledFill(m.fillRhs)))
  {
    hide Text, ReadLabels, ReadGroup, ReadFill, Whole, Trim, JoinNames, LabelParts, GroupParts, FillParts, CleanNames,
         Literal, Spells;
    var a, b, c, d := LabelParts(m), GroupParts(m), FillParts(sp, FillLeft, m.fillLhs),
        FillParts(sp, FillRight, m.fillRhs);
    LiteralIsText(sp, m);
    PartsWhole(sp, m);
    TextTrims(Parts(sp, m));
    assert Parts(sp, m) == a + (b + (c + (d + [])));
    WholeTails(a, b, c, d);
    PartWords(sp, m);
    LabelsRead(m, b + (c + (d + [])));
    var m1 := NO_MODIFIERS.(on := m.on, labels := m.labels);
    GroupRead(m, m1, c + (d + []));
    var m2 := m1.(card := m.card, copied := m.copied);
    FillRead(sp, FillLeft, m.fillLhs, m2, d + []);
    FillRead(sp, FillRight, m.fillRhs, m2.(fillLhs := SettledFill(m.fillLhs)), []);
    NoText();
  }

  /** The clauses come in one order. */
  lemma PartWords(sp: Spelling, m: Modifiers)
    ensures var b, c, d := GroupParts(m), FillParts(sp, FillLeft, m.fillLhs), FillParts(sp, FillRight, m.fillRhs);
            && (b + (c + (d + [])) != [] ==> !(b + (c + (d + [])))[0].w.On? && !(b + (c + (d + [])))[0].w.Ignoring?)
            && (c + (d + []) != [] ==> !(c + (d + []))[0].w.GroupLeft? && !(c + (d + []))[0].w.GroupRight?)
            && (d + [] != [] ==> (d + [])[0].w != FillLeft)
  {
    hide JoinNames;
  }

  lemma WholeTails(a: seq<Part>, b: seq<Part>, c: seq<Part>, d: seq<Part>)
    requires Whole(a + (b + (c + (d + []))))
    ensures Whole(b + (c + (d + []))) && Whole(c + (d + [])) && Whole(d + [])
  {
    var all := a + (b + (c + (d + [])));
    assert forall i :: 0 <= i < |b + (c + (d + []))| ==> (b + (c + (d + [])))[i] == all[|a| + i];
    assert forall i :: 0 <= i < |c + (d + [])| ==> (c + (d + []))[i] == all[|a| + |b| + i];
    assert forall i :: 0 <= i < |d + []| ==> (d + [])[i] == all[|a| + |b| + |c| + i];
  }

  /** What is read can be spelled. */
  lemma ReadsSpellable(sp: Spelling, s: string)
    ensures Parse(sp, s).Some? ==> Spellable(Parse(sp, s).value)
  {
    var t := Trim(s);
    LabelsSpellable(t);
    var st := ReadLabels(t);
    GroupSpellable(st);
    hide ReadLabels, ReadGroup, Trim, ReadClause, CleanNames;
  }

  lemma ClauseClean(s: string, w: Word)
    ensures var r := ReadClause(s, w); r.Found? ==> CleanNames(SplitNames(r.body))
  {
    if Opening(w) <= s {
      SplitOnceChars(s[|Opening(w)|..], ')');
      match SplitOnce(s[|Opening(w)|..], ')')
      case Some(p) => SplitClean(p.0);
      case None =>
    }
  }

  lemma LabelsSpellable(s: string)
    ensures ReadLabels(s).Next? ==>
              Spellable(ReadLabels(s).m) && ReadLabels(s).m.card.OneToOne? && ReadLabels(s).m.copied == []
  {
    ClauseClean(s, On);
    ClauseClean(s, Ignoring);
    hide ReadClause, SplitNames, CleanName;
  }

  lemma GroupSpellable(st: Step)
    requires st.Next? ==> Spellable(st.m) && st.m.card.OneToOne?
    ensures ReadGroup(st).Next? ==> Spellable(ReadGroup(st).m)
  {
    if st.Next? {
      ClauseClean(st.rest, GroupLeft);
      ClauseClean(st.rest, GroupRight);
    }
    hide ReadClause, SplitNames, CleanNames;
  }

  /** The spelling reads back as the modifiers it was written from just when
      their names can be told apart in it (none empty, padded, or holding a
      comma or a closing parenthesis, and none to copy without a group) and no
      fill is a NaN other than the quiet one. */
  lemma RoundTrips(sp: Spelling, m: Modifiers)
    requires Spells(sp)
    ensures Parse(sp, Literal(sp, m)) == Some(m) <==> Spellable(m) && Steady(m.fillLhs) && Steady(m.fillRhs)
  {
    hide Parse, Literal, Spellable;
    if Spellable(m) { LiteralReads(sp, m); }
    ReadsSpellable(sp, Literal(sp, m));
  }

  /** A name padded with a no-break space, and a fill with a NaN's payload. */
  lemma NotSpelled(sp: Spelling)
    requires Spells(sp)
    ensures var m := NO_MODIFIERS.(labels := ["\U{A0}job"]); Parse(sp, Literal(sp, m)) != Some(m)
    ensures var m := NO_MODIFIERS.(fillRhs := Some(STALE_NAN_BITS)); Parse(sp, Literal(sp, m)) != Some(m)
  {
    var name := "\U{A0}job";
    RoundTrips(sp, NO_MODIFIERS.(labels := [name]));
    RoundTrips(sp, NO_MODIFIERS.(fillRhs := Some(STALE_NAN_BITS)));
    hide Parse, Literal;
    TrimIs(name);
    assert !CleanName(name);
  }
}
