/** Dates of unix seconds in the proleptic Gregorian calendar (section 3.2.1
    of ISO 8601:2004), and reading one after a shift by whole cycles. */
module Calendar {
  import opened Arithmetic
  import opened Series

  const DAY_SECS := 86_400
  const CYCLE_DAYS := 146_097
  const CYCLE_SECS := CYCLE_DAYS * DAY_SECS

  /** 2000-01-01, the first second of a cycle. */
  const CYCLE_ANCHOR_SECS := 946_684_800

  /** The epoch, in seconds from the zero of the wrapping 64-bit count. */
  const UNIX_TO_ABSOLUTE := 9_223_372_028_741_760_000

  const TWO_64 := 0x1_0000_0000_0000_0000

  // ── The calendar ──

  predicate IsLeap(y: int) {
    y % 4 == 0 && (y % 100 != 0 || y % 400 == 0)
  }

  function YearDays(y: int): int {
    if IsLeap(y) then 366 else 365
  }

  function MonthDays(y: int, m: int): int {
    if m == 2 then (if IsLeap(y) then 29 else 28) else if m == 4 || m == 6 || m == 9 || m == 11 then 30 else 31
  }

  datatype Date = Date(year: int, month: int, day: int)

  predicate IsDate(d: Date) {
    1 <= d.month <= 12 && 1 <= d.day <= MonthDays(d.year, d.month)
  }

  /** The day after. */
  function NextDate(d: Date): Date {
    if d.day < MonthDays(d.year, d.month) then d.(day := d.day + 1)
    else if d.month < 12 then Date(d.year, d.month + 1, 1)
    else Date(d.year + 1, 1, 1)
  }

  /** Days before a year, from year 0: one more for each leap year. */
  function DaysBefore(y: int): int {
    365 * y + (y + 3) / 4 - (y + 99) / 100 + (y + 399) / 400
  }

  function DaysToMonth(y: int, m: int): int
    decreases m
  {
    if m <= 1 then 0 else DaysToMonth(y, m - 1) + MonthDays(y, m - 1)
  }

  /** A date's day, where day 0 is 1970-01-01. */
  function DayOf(d: Date): int {
    DaysBefore(d.year) - DaysBefore(1970) + DaysToMonth(d.year, d.month) + d.day - 1
  }

  /** Days number dates the way the calendar turns. */
  lemma DaysCount(d: Date)
    requires IsDate(d)
    ensures DayOf(Date(1970, 1, 1)) == 0
    ensures IsDate(NextDate(d)) && DayOf(NextDate(d)) == DayOf(d) + 1
  {
    hide DaysBefore, DaysToMonth, MonthDays, IsLeap, YearDays;
    YearTurns(d.year);
    YearIsItsMonths(d.year);
    FirstMonth(d.year);
    FirstMonth(d.year + 1);
    FirstMonth(1970);
    MonthLong(d.year, d.month + 1);
    MonthLong(d.year + 1, 1);
    if d.day == MonthDays(d.year, d.month) && d.month == 12 {
      assert DaysToMonth(d.year, 13) == DaysToMonth(d.year, 12) + MonthDays(d.year, 12);
    }
  }

  lemma MonthLong(y: int, m: int)
    ensures 28 <= MonthDays(y, m) <= 31
  {
  }

  lemma FirstMonth(y: int)
    ensures DaysToMonth(y, 1) == 0
  {
  }

  lemma YearTurns(y: int)
    ensures DaysBefore(y + 1) == DaysBefore(y) + YearDays(y)
  {
    hide YearDays, IsLeap;
    Turns(y, 4);
    Turns(y, 100);
    Turns(y, 400);
    YearDaysIs(y);
  }

  lemma YearDaysIs(y: int)
    ensures YearDays(y) == 365 + (if y % 4 == 0 then 1 else 0) - (if y % 100 == 0 then 1 else 0) +
            (if y % 400 == 0 then 1 else 0)
  {
    MultipleOf(y, 4, 25);
    MultipleOf(y, 100, 4);
  }

  lemma MultipleOf(x: int, a: int, b: int)
    requires a > 0 && b > 0
    ensures x % (a * b) == 0 ==> x % a == 0
  {
    if x % (a * b) == 0 {
      var q := x / (a * b);
      assert x == q * (a * b) == q * b * a;
      DivIs(x, a, q * b, 0);
    }
  }

  lemma Turns(y: int, n: int)
    requires n > 1
    ensures (y + 1 + (n - 1)) / n == (y + (n - 1)) / n + (if y % n == 0 then 1 else 0)
  {
    var q, r := y / n, y % n;
    assert y == q * n + r;
    if r == 0 {
      DivIs(y + (n - 1), n, q, n - 1);
      DivIs(y + n, n, q + 1, 0);
    } else {
      DivIs(y + (n - 1), n, q + 1, r - 1);
      DivIs(y + n, n, q + 1, r);
    }
  }

  lemma DivIs(x: int, n: int, q: int, r: int)
    requires n > 0 && x == q * n + r && 0 <= r < n
    ensures x / n == q && x % n == r
  {
    FloorBounds(x, n, q);
    FloorBounds(x, n, q + 1);
    assert (q + 1) * n == q * n + n;
  }

  lemma YearIsItsMonths(y: int)
    ensures DaysToMonth(y, 13) == YearDays(y)
    ensures forall m :: 1 <= m <= 12 ==> DaysToMonth(y, m + 1) == DaysToMonth(y, m) + MonthDays(y, m)
  {
    hide MonthDays, IsLeap, YearDays;
    MonthSums(y);
    assert DaysToMonth(y, 1) == 0;
    assert DaysToMonth(y, 3) == MonthDays(y, 1) + MonthDays(y, 2);
    assert DaysToMonth(y, 5) == DaysToMonth(y, 3) + MonthDays(y, 3) + MonthDays(y, 4);
    assert DaysToMonth(y, 7) == DaysToMonth(y, 5) + MonthDays(y, 5) + MonthDays(y, 6);
    assert DaysToMonth(y, 9) == DaysToMonth(y, 7) + MonthDays(y, 7) + MonthDays(y, 8);
    assert DaysToMonth(y, 11) == DaysToMonth(y, 9) + MonthDays(y, 9) + MonthDays(y, 10);
    assert DaysToMonth(y, 13) == DaysToMonth(y, 11) + MonthDays(y, 11) + MonthDays(y, 12);
  }

  lemma MonthSums(y: int)
    ensures MonthDays(y, 1) + MonthDays(y, 2) + MonthDays(y, 3) + MonthDays(y, 4) + MonthDays(y, 5) + MonthDays(y, 6) +
            MonthDays(y, 7)
            + MonthDays(y, 8) + MonthDays(y, 9) + MonthDays(y, 10) + MonthDays(y, 11) + MonthDays(y, 12) == YearDays(y)
  {
  }

  // ── The date of a day ──

  /** The year of day `n` of a cycle, from year `y` on. */
  function YearFrom(n: int, y: int): int
    decreases 400 - y
  {
    if y >= 399 || n < DaysBefore(y + 1) then y else YearFrom(n, y + 1)
  }

  function MonthFrom(y: int, n: int, m: int): int
    decreases 12 - m
  {
    if m >= 12 || n < DaysToMonth(y, m + 1) then m else MonthFrom(y, n, m + 1)
  }

  function DateIn(n: int): Date {
    var y := YearFrom(n, 0);
    var inYear := n - DaysBefore(y);
    var m := MonthFrom(y, inYear, 1);
    Date(y, m, inYear - DaysToMonth(y, m) + 1)
  }

  /** The date of a day: in its 400-year cycle, then moved by its cycles. */
  function DateOf(day: int): Date {
    var n := day + DaysBefore(1970);
    var d := DateIn(n % CYCLE_DAYS);
    d.(year := d.year + 400 * (n / CYCLE_DAYS))
  }

  lemma {:induction false} YearFromIs(n: int, y: int)
    requires 0 <= y <= 399 && DaysBefore(y) <= n < CYCLE_DAYS
    ensures var r := YearFrom(n, y); y <= r <= 399 && DaysBefore(r) <= n < DaysBefore(r + 1)
    decreases 400 - y
  {
    assert DaysBefore(400) == CYCLE_DAYS;
    hide DaysBefore;
    if y < 399 && n >= DaysBefore(y + 1) { YearFromIs(n, y + 1); }
  }

  lemma {:induction false} MonthFromIs(y: int, n: int, m: int)
    requires 1 <= m <= 12 && DaysToMonth(y, m) <= n < YearDays(y)
    ensures var r := MonthFrom(y, n, m); m <= r <= 12 && DaysToMonth(y, r) <= n < DaysToMonth(y, r + 1)
    decreases 12 - m
  {
    YearIsItsMonths(y);
    hide DaysToMonth;
    if m < 12 && n >= DaysToMonth(y, m + 1) { MonthFromIs(y, n, m + 1); }
  }

  lemma DateInIs(n: int)
    requires 0 <= n < CYCLE_DAYS
    ensures var d := DateIn(n); IsDate(d) && 0 <= d.year < 400
                                && DaysBefore(d.year) + DaysToMonth(d.year, d.month) + d.day - 1 == n
  {
    hide DaysBefore, YearFrom, DaysToMonth, MonthFrom, YearDays, MonthDays, IsLeap;
    YearZero();
    YearFromIs(n, 0);
    var y := YearFrom(n, 0);
    YearTurns(y);
    FirstMonth(y);
    MonthFromIs(y, n - DaysBefore(y), 1);
    YearIsItsMonths(y);
  }

  lemma YearZero()
    ensures DaysBefore(0) == 0
  {
  }

  lemma LeapCycles(y: int, k: int)
    ensures IsLeap(y + 400 * k) <==> IsLeap(y)
    ensures DaysBefore(y + 400 * k) == DaysBefore(y) + CYCLE_DAYS * k
  {
    Cycles(y, 4, 100 * k);
    Cycles(y, 100, 4 * k);
    Cycles(y, 400, k);
    Cycles(y + 3, 4, 100 * k);
    Cycles(y + 99, 100, 4 * k);
    Cycles(y + 399, 400, k);
  }

  lemma Cycles(x: int, n: int, k: int)
    requires n > 0
    ensures (x + n * k) / n == x / n + k && (x + n * k) % n == x % n
  {
    var q, r := x / n, x % n;
    assert x == q * n + r;
    assert (q + k) * n == q * n + n * k;
    DivIs(x + n * k, n, q + k, r);
  }

  lemma {:induction false} MonthCycles(y: int, k: int, m: int)
    ensures DaysToMonth(y + 400 * k, m) == DaysToMonth(y, m)
    ensures MonthDays(y + 400 * k, m) == MonthDays(y, m)
    decreases m
  {
    LeapCycles(y, k);
    hide IsLeap, DaysBefore;
    if m > 1 { MonthCycles(y, k, m - 1); }
  }

  /** Every day has a date, and is its date's day. */
  lemma DateOfIs(day: int)
    ensures IsDate(DateOf(day)) && DayOf(DateOf(day)) == day
  {
    hide DateIn, DaysToMonth, MonthDays, DaysBefore, IsLeap;
    var n := day + DaysBefore(1970);
    var k, r := n / CYCLE_DAYS, n % CYCLE_DAYS;
    assert n == k * CYCLE_DAYS + r && 0 <= r < CYCLE_DAYS;
    DateInIs(r);
    var d := DateIn(r);
    LeapCycles(d.year, k);
    MonthCycles(d.year, k, d.month);
  }

  /** A day has only one date. */
  lemma OneDate(c: Date, d: Date)
    requires IsDate(c) && IsDate(d) && DayOf(c) == DayOf(d)
    ensures c == d
  {
    hide *;
    YearOf(c);
    YearOf(d);
    if c.year < d.year { YearsAscend(c.year + 1, d.year); }
    if d.year < c.year { YearsAscend(d.year + 1, c.year); }
    MonthOf(c, d);
    MonthOf(d, c);
    SameMonth(c, d);
  }

  lemma SameMonth(c: Date, d: Date)
    requires c.year == d.year && c.month == d.month && DayOf(c) == DayOf(d)
    ensures c == d
  {
    hide DaysBefore, DaysToMonth;
  }

  /** A date's day is inside its year. */
  lemma YearOf(d: Date)
    requires IsDate(d)
    ensures DaysBefore(d.year) <= DayOf(d) + DaysBefore(1970) < DaysBefore(d.year + 1)
    ensures 0 <= DaysToMonth(d.year, d.month) && DaysToMonth(d.year, d.month) + d.day <= YearDays(d.year)
  {
    hide DaysBefore, DaysToMonth, MonthDays, YearDays, IsLeap;
    YearTurns(d.year);
    YearIsItsMonths(d.year);
    MonthsAscend(d.year, 1, d.month);
    MonthsAscend(d.year, d.month + 1, 13);
    FirstMonth(d.year);
  }

  lemma {:induction false} MonthsAscend(y: int, m: int, n: int)
    requires 1 <= m <= n
    ensures DaysToMonth(y, m) <= DaysToMonth(y, n)
    decreases n
  {
    if m < n { MonthsAscend(y, m, n - 1); }
  }

  lemma {:induction false} YearsAscend(x: int, y: int)
    requires x <= y
    ensures DaysBefore(x) <= DaysBefore(y)
    decreases y - x
  {
    YearTurns(y - 1);
    hide DaysBefore;
    if x < y { YearsAscend(x, y - 1); }
  }

  lemma MonthOf(c: Date, d: Date)
    requires IsDate(c) && IsDate(d) && c.year == d.year && DayOf(c) == DayOf(d)
    ensures c.month >= d.month
  {
    hide DaysBefore, DaysToMonth, MonthDays, IsLeap, YearDays;
    if c.month < d.month {
      YearIsItsMonths(c.year);
      MonthsAscend(c.year, c.month + 1, d.month);
    }
  }

  // ── What a second reads as ──

  datatype Fields = Fields(year: int, month: int, day: int, weekday: int, dayOfYear: int, monthLength: int, hour: int,
                           minute: int)

  /** The fields of a unix second, Sunday being weekday 0. */
  function FieldsOf(secs: int): Fields {
    FieldsAt(secs / DAY_SECS, secs % DAY_SECS)
  }

  function FieldsAt(day: int, time: int): Fields {
    var d := DateOf(day);
    Fields(d.year, d.month, d.day, (day + 4) % 7, DaysToMonth(d.year, d.month) + d.day, MonthDays(d.year, d.month),
           time / 3600, time % 3600 / 60)
  }

  lemma DateShifts(day: int, k: int)
    ensures DateOf(day + CYCLE_DAYS * k) == DateOf(day).(year := DateOf(day).year + 400 * k)
  {
    hide DateIn, DaysBefore;
    Cycles(day + DaysBefore(1970), CYCLE_DAYS, k);
  }

  /** Whole cycles move a date in its year alone. */
  lemma FieldsShift(secs: int, k: int)
    ensures FieldsOf(secs + CYCLE_SECS * k) == FieldsOf(secs).(year := FieldsOf(secs).year + 400 * k)
  {
    hide DateOf, DaysToMonth, MonthDays;
    Cycles(secs, DAY_SECS, CYCLE_DAYS * k);
    assert DAY_SECS * (CYCLE_DAYS * k) == CYCLE_SECS * k;
    var day := secs / DAY_SECS;
    assert (secs + CYCLE_SECS * k) / DAY_SECS == day + CYCLE_DAYS * k;
    assert (secs + CYCLE_SECS * k) % DAY_SECS == secs % DAY_SECS;
    DateShifts(day, k);
    WeekShifts(day, k);
    MonthCycles(DateOf(day).year, k, DateOf(day).month);
  }

  lemma WeekShifts(day: int, k: int)
    ensures (day + CYCLE_DAYS * k + 4) % 7 == (day + 4) % 7
  {
    Cycles(day + 4, 7, 20_871 * k);
  }

  /** `Time.absSec`: an `int64` second counted from absolute zero in 64
      unsigned bits, and back. */
  function Wrapped(secs: int): int {
    (secs + UNIX_TO_ABSOLUTE) % TWO_64 - UNIX_TO_ABSOLUTE
  }

  /** A second moved by whole cycles into the years 2000 to 2399. */
  function BeyondChrono(secs: int): (int, int) {
    var unix := Wrapped(secs);
    var cycles := (unix - CYCLE_ANCHOR_SECS) / CYCLE_SECS;
    (unix - cycles * CYCLE_SECS, cycles)
  }

  /** The anchor and the absolute zero are the dates they are said to be. */
  lemma Anchors()
    ensures DayOf(Date(2000, 1, 1)) * DAY_SECS == CYCLE_ANCHOR_SECS
    ensures DayOf(Date(2400, 1, 1)) * DAY_SECS == CYCLE_ANCHOR_SECS + CYCLE_SECS
    ensures DayOf(Date(-292_277_022_400, 3, 1)) * DAY_SECS == -UNIX_TO_ABSOLUTE
  {
    FirstMonth(2000);
    FirstMonth(2400);
    assert DaysToMonth(-292_277_022_400, 1) == 0;
    assert DaysToMonth(-292_277_022_400, 2) == 31;
    assert DaysToMonth(-292_277_022_400, 3) == 60;
  }

  lemma YearsOf(secs: int, from: int, until: int)
    requires DayOf(Date(from, 1, 1)) * DAY_SECS <= secs < DayOf(Date(until, 1, 1)) * DAY_SECS
    ensures from <= FieldsOf(secs).year < until
  {
    hide DaysBefore, DaysToMonth, DateOf, MonthDays, YearDays;
    var day := secs / DAY_SECS;
    FloorBounds(secs, DAY_SECS, DayOf(Date(from, 1, 1)));
    FloorBounds(secs, DAY_SECS, DayOf(Date(until, 1, 1)));
    DateOfIs(day);
    YearOf(DateOf(day));
    FirstMonth(from);
    FirstMonth(until);
    var y := DateOf(day).year;
    if y < from { YearsAscend(y + 1, from); }
    if until <= y { YearsAscend(until, y); }
  }

  /** For every 64-bit second: the shifted second lies in the years 2000 to
      2399, and reads as the wrapped second in every field but the year, which
      differs by exactly 400 for each cycle. */
  lemma ShiftedReads(secs: int)
    requires InI64(secs)
    ensures var (shifted, cycles) := BeyondChrono(secs);
            && 2000 <= FieldsOf(shifted).year <= 2399 && InI64(shifted) && InI64(cycles)
            && FieldsOf(Wrapped(secs)) == FieldsOf(shifted).(year := FieldsOf(shifted).year + 400 * cycles)
  {
    hide *;
    ShiftedBounds(secs);
    var (shifted, cycles) := BeyondChrono(secs);
    Anchors();
    YearsOf(shifted, 2000, 2400);
    FieldsShift(shifted, cycles);
  }

  lemma ShiftedBounds(secs: int)
    requires InI64(secs)
    ensures var (shifted, cycles) := BeyondChrono(secs);
            && CYCLE_ANCHOR_SECS <= shifted < CYCLE_ANCHOR_SECS + CYCLE_SECS
            && shifted + CYCLE_SECS * cycles == Wrapped(secs)
            && InI64(shifted) && InI64(cycles)
  {
    WrapsOnce(secs);
    hide Wrapped;
    var offset := Wrapped(secs) - CYCLE_ANCHOR_SECS;
    var k, r := offset / CYCLE_SECS, offset % CYCLE_SECS;
    assert offset == k * CYCLE_SECS + r && 0 <= r < CYCLE_SECS;
    assert InI64(k);
  }

  /** The wrap leaves a second alone from the absolute zero on, and puts the
      first second of 64 bits right after the last. */
  lemma WrapsOnce(secs: int)
    requires InI64(secs)
    ensures Wrapped(secs) == if secs >= -UNIX_TO_ABSOLUTE then secs else secs + TWO_64
    ensures Wrapped(I64_MIN) == Wrapped(I64_MAX) + 1
  {
    if secs >= -UNIX_TO_ABSOLUTE {
      DivIs(secs + UNIX_TO_ABSOLUTE, TWO_64, 0, secs + UNIX_TO_ABSOLUTE);
    } else {
      DivIs(secs + UNIX_TO_ABSOLUTE, TWO_64, -1, secs + UNIX_TO_ABSOLUTE + TWO_64);
    }
    DivIs(I64_MAX + UNIX_TO_ABSOLUTE, TWO_64, 0, I64_MAX + UNIX_TO_ABSOLUTE);
    DivIs(I64_MIN + UNIX_TO_ABSOLUTE, TWO_64, -1, I64_MIN + UNIX_TO_ABSOLUTE + TWO_64);
  }

  /** An infinity saturates to either end, and reads as one date either way. */
  lemma EndsReadAlike()
    ensures FieldsOf(Wrapped(I64_MIN)) == FieldsOf(Wrapped(I64_MAX))
  {
    hide DateOf, DaysToMonth, MonthDays, Wrapped;
    WrapsOnce(I64_MAX);
    WrapsOnce(I64_MIN);
    var last := Wrapped(I64_MAX);
    assert last == I64_MAX;
    DivIs(last, DAY_SECS, 106_751_991_167_300, 55_807);
    DivIs(last + 1, DAY_SECS, 106_751_991_167_300, 55_808);
    DivIs(55_807, 3600, 15, 1807);
    DivIs(55_808, 3600, 15, 1808);
    DivIs(1807, 60, 30, 7);
    DivIs(1808, 60, 30, 8);
  }

  /** `civil` and `year`: a library calendar that holds only some seconds, and
      the shift for the rest. */
  function Read(holds: int -> bool, secs: int): Fields {
    if holds(secs) then FieldsOf(secs)
    else
      var (shifted, cycles) := BeyondChrono(secs);
      var f := FieldsOf(shifted);
      f.(year := f.year + 400 * cycles)
  }

  /** Whatever the library holds from the absolute zero on, every 64-bit second
      reads as its date. */
  lemma ReadsEverySecond(holds: int -> bool, secs: int)
    requires InI64(secs) && (holds(secs) ==> secs >= -UNIX_TO_ABSOLUTE)
    ensures Read(holds, secs) == FieldsOf(Wrapped(secs))
  {
    hide FieldsOf, Wrapped;
    WrapsOnce(secs);
    ShiftedReads(secs);
  }
}
