/** The arithmetic behind NOW_UTC, DATE_ADD_MILLIS and their rounding, in nanoseconds. */
module TimeArithmetic {
  import opened Errors
  import opened Lexer
  import Decimal

  function Pow10(n: nat): (p: nat)
    ensures p > 0
  {
    if n == 0 then 1 else 10 * Pow10(n - 1)
  }

  /** The length of a unit of p fractional digits of a second. */
  function Unit(p: nat): (u: nat)
    requires p <= 9
    ensures u > 0
  {
    Pow10(9 - p)
  }

  /** The last multiple of a unit that is not after t. */
  function Floor(t: int, unit: nat): int
    requires unit > 0
  {
    t - t % unit
  }

  /** r is t rounded half up to a multiple of an even unit. */
  ghost predicate HalfUp(t: int, unit: nat, r: int)
    requires unit > 0
  {
    r % unit == 0 && r - unit / 2 <= t < r + unit / 2
  }

  // ----- Floors -----

  lemma MultiplesApart(a: int, b: int, unit: nat)
    requires unit > 0 && a % unit == 0 && b % unit == 0 && a < b
    ensures a + unit <= b
  {
    var i, j := a / unit, b / unit;
    assert a == unit * i && b == unit * j;
    assert j <= i ==> unit * j <= unit * i;
    assert i < j ==> unit * (i + 1) <= unit * j;
  }

  lemma FloorIs(t: int, unit: nat, r: int)
    requires unit > 0
    ensures r == Floor(t, unit) <==> r % unit == 0 && r <= t < r + unit
  {
    var f := Floor(t, unit);
    assert f == unit * (t / unit);
    ModMultiple(t / unit, unit);
    if r % unit == 0 && r <= t < r + unit {
      if r < f {
        MultiplesApart(r, f, unit);
      } else if f < r {
        MultiplesApart(f, r, unit);
      }
    }
  }

  lemma ModMultiple(i: int, unit: nat)
    requires unit > 0
    ensures (unit * i) % unit == 0
  {
    var q, m := (unit * i) / unit, (unit * i) % unit;
    assert unit * i == unit * q + m && unit * (i - q) == m;
    assert i - q >= 1 ==> unit * (i - q) >= unit;
    assert i - q <= -1 ==> unit * (i - q) <= 0 - unit;
  }

  lemma MultipleOfMultiple(t: int, fine: nat, k: nat)
    requires fine > 0 && k > 0 && fine * k > 0 && t % (fine * k) == 0
    ensures t % fine == 0
  {
    var i := t / (fine * k);
    assert t == (fine * k) * i == fine * (k * i);
    ModMultiple(k * i, fine);
  }

  /** A floor through a finer clock is the floor. */
  lemma FloorOfFloor(t: int, fine: nat, k: nat)
    requires fine > 0 && k > 0 && fine * k > 0
    ensures Floor(Floor(t, fine), fine * k) == Floor(t, fine * k)
    ensures Floor(t, fine * k) <= Floor(t, fine) <= t
  {
    var coarse := fine * k;
    var f := Floor(t, fine);
    var g := Floor(f, coarse);
    FloorIs(t, fine, f);
    FloorIs(f, coarse, g);
    MultipleOfMultiple(g, fine, k);
    ModMultiple(g / coarse + 1, coarse);
    assert g + coarse == coarse * (g / coarse + 1);
    MultipleOfMultiple(g + coarse, fine, k);
    MultiplesApart(f, g + coarse, fine);
    FloorIs(t, coarse, g);
  }

  lemma {:induction false} PowSum(a: nat, b: nat)
    ensures Pow10(a + b) == Pow10(a) * Pow10(b)
  {
    if a > 0 {
      PowSum(a - 1, b);
      assert Pow10(a) * Pow10(b) == 10 * (Pow10(a - 1) * Pow10(b));
    }
  }

  /** More digits never give an earlier instant, and none is in the future. */
  lemma FloorMonotone(t: int, p: nat, q: nat)
    requires p <= q <= 9
    ensures Floor(t, Unit(p)) <= Floor(t, Unit(q)) <= t
    ensures Floor(Floor(t, Unit(q)), Unit(p)) == Floor(t, Unit(p))
  {
    PowSum(9 - q, q - p);
    FloorOfFloor(t, Unit(q), Pow10(q - p));
  }

  // ----- NOW_UTC -----

  /** Moving the clock back half a unit makes rounding half up a truncation. */
  lemma HalfUnitShift(t: int, unit: nat, r: int)
    requires unit > 0 && unit % 2 == 0
    ensures HalfUp(t - unit / 2, unit, r) <==> r == Floor(t, unit)
  {
    FloorIs(t, unit, r);
  }

  function Zeros(n: nat): (s: string)
    ensures |s| == n && forall i :: 0 <= i < n ==> s[i] == '0'
  {
    seq(n, _ => '0')
  }

  /** The half unit as NOW_UTC writes it. */
  lemma {:induction false} HalfDigits(n: nat)
    ensures Decimal.Value("5" + Zeros(n)) == 5 * Pow10(n) == Pow10(n + 1) / 2
  {
    if n > 0 {
      HalfDigits(n - 1);
      assert ("5" + Zeros(n))[..n] == "5" + Zeros(n - 1);
    }
  }

  predicate Digits(s: string) {
    forall i :: 0 <= i < |s| ==> Decimal.IsDigit(s[i])
  }

  lemma {:induction false} PadValue(s: string, n: nat)
    requires Digits(s)
    ensures Decimal.Value(s + Zeros(n)) == Decimal.Value(s) * Pow10(n)
  {
    if n == 0 {
      assert s + Zeros(0) == s;
    } else {
      PadValue(s, n - 1);
      assert (s + Zeros(n))[..|s| + n - 1] == s + Zeros(n - 1);
    }
  }

  lemma CutStep(v: nat, u: nat, t: nat, x: nat)
    requires v * u <= t < v * u + u && x < 10
    ensures v * (10 * u) <= 10 * t + x < v * (10 * u) + 10 * u
  {
    assert v * (10 * u) == 10 * (v * u);
  }

  lemma {:induction false} CutValue(s: string, p: nat)
    requires Digits(s) && p <= |s|
    ensures var (kept, u) := (Decimal.Value(s[..p]) * Pow10(|s| - p), Pow10(|s| - p));
      kept <= Decimal.Value(s) < kept + u
    decreases |s|
  {
    if p < |s| {
      var t := s[..|s| - 1];
      CutValue(t, p);
      assert t[..p] == s[..p];
      assert Decimal.IsDigit(s[|s| - 1]);
      CutStep(Decimal.Value(s[..p]), Pow10(|s| - 1 - p), Decimal.Value(t), s[|s| - 1] as int - '0' as int);
    } else {
      assert s[..p] == s;
    }
  }

  /** Keeping p digits and writing zeros for the others is the floor to p digits. */
  lemma CutAndPad(s: string, p: nat)
    requires Digits(s) && p <= |s|
    ensures Decimal.Value(s[..p] + Zeros(|s| - p)) == Floor(Decimal.Value(s), Pow10(|s| - p))
  {
    PadValue(s[..p], |s| - p);
    CutValue(s, p);
    FloorOfProduct(Decimal.Value(s), Decimal.Value(s[..p]), Pow10(|s| - p));
  }

  lemma FloorOfProduct(t: nat, v: nat, u: nat)
    requires u > 0 && v * u <= t < v * u + u
    ensures Floor(t, u) == v * u
  {
    assert v * u == u * v;
    ModMultiple(v, u);
    FloorIs(t, u, v * u);
  }

  /** The digits each server's clock has. */
  function ClockDigits(d: Driver): (p: nat)
    ensures 3 <= p <= 7
  {
    if d.MSSQL? then 7 else if d.SQLite? then 3 else 6
  }

  /** The value NOW_UTC(p) is meant to have: SQLite's clock stops at three digits. */
  function Precision(d: Driver, p: nat): nat {
    if d.SQLite? && p > 3 then 3 else p
  }

  /** The SQL that NOW_UTC expands to, with the numerals in it as they are written. */
  datatype NowSql =
    | UtcTimestamp(digits: string)
    | ClockNow
    | CastBack(halfMicros: string, digits: string)
    | ConvertBack(halfNanos: string, digits: string)
    | Strftime
    | CutStrftime(length: string, pad: string)

  function NowSqlOf(d: Driver, p: nat): (sql: Option<NowSql>)
    requires p <= 6
    ensures sql.Some? ==> Readable(sql.value)
  {
    match d
    case MySQL => Some(UtcTimestamp(Decimal.Itoa(p)))
    case MariaDB => Some(UtcTimestamp(Decimal.Itoa(p)))
    case Pgx => Some(PgNow(p))
    case CockroachDB => Some(PgNow(p))
    case MSSQL => Some(ConvertBack("5" + Zeros(8 - p), Decimal.Itoa(p)))
    case SQLite => if p >= 3 then Some(Strftime) else Some(CutStrftime(Decimal.Itoa(20 + p), Zeros(3 - p)))
    case Unknown => None
  }

  function PgNow(p: nat): (sql: NowSql)
    requires p <= 6
    ensures Readable(sql)
  {
    if p == 6 then ClockNow else CastBack("5" + Zeros(5 - p), Decimal.Itoa(p))
  }

  /** The text of the expansion. */
  function NowText(sql: NowSql): string {
    match sql
    case UtcTimestamp(p) => "(UTC_TIMESTAMP(" + p + "))"
    case ClockNow => "(NOW() AT TIME ZONE 'UTC')"
    case CastBack(half, p) =>
      "(CAST((NOW() AT TIME ZONE 'UTC') - INTERVAL '" + half + " microseconds' AS TIMESTAMP(" + p + ")))"
    case ConvertBack(half, p) => "(CONVERT(DATETIME2(" + p + "), DATEADD(NANOSECOND, -" + half + ", SYSUTCDATETIME())))"
    case Strftime => "(STRFTIME('%Y-%m-%d %H:%M:%f', 'now'))"
    case CutStrftime(n, pad) => "(SUBSTR(STRFTIME('%Y-%m-%d %H:%M:%f', 'now'), 1, " + n + ") || '" + pad + "')"
  }

  /** The numerals are numerals. */
  predicate Readable(sql: NowSql) {
    match sql
    case UtcTimestamp(p) => Digits(p)
    case ClockNow => true
    case CastBack(half, p) => Digits(half) && Digits(p)
    case ConvertBack(half, p) => Digits(half) && Digits(p)
    case Strftime => true
    case CutStrftime(n, pad) => Digits(n) && Digits(pad)
  }

  /** A timestamp or cast of so many digits has a unit; more than nine digits have none. */
  function UnitOf(digits: string): (u: nat)
    requires Digits(digits)
    ensures u > 0
  {
    if Decimal.Value(digits) <= 9 then Unit(Decimal.Value(digits)) else 1
  }

  /** The length of "YYYY-MM-DD HH:MM:SS.", which STRFTIME writes before three digits. */
  const STAMP: nat := 20

  /** The three digits STRFTIME writes for milliseconds. */
  function Millis(ms: nat): (s: string)
    requires ms < 1000
    ensures |s| == 3 && Digits(s)
  {
    [Decimal.Digit(ms / 100), Decimal.Digit(ms / 10 % 10), Decimal.Digit(ms % 10)]
  }

  /** r is what the SQL evaluates to on a server whose clock shows an instant: casts and conversions round half up,
      UTC_TIMESTAMP truncates, and SUBSTR keeps the first characters of the text. */
  ghost predicate Evaluates(sql: NowSql, clock: int, r: int)
    requires Readable(sql)
  {
    match sql
    case UtcTimestamp(p) => r == Floor(clock, UnitOf(p))
    case ClockNow => r == clock
    case CastBack(half, p) => HalfUp(clock - Decimal.Value(half) * 1000, UnitOf(p), r)
    case ConvertBack(half, p) => HalfUp(clock - Decimal.Value(half), UnitOf(p), r)
    case Strftime => r == clock
    case CutStrftime(n, pad) =>
      var (second, ms) := (Floor(clock, SECOND), clock % SECOND / MILLI);
      && STAMP <= Decimal.Value(n) <= STAMP + 3
      && r == second + Decimal.Value(Millis(ms)[..Decimal.Value(n) - STAMP] + pad) * MILLI
  }

  const SECOND: nat := 1000000000
  const MILLI: nat := 1000000

  /** r is what the expansion of NOW_UTC(p) evaluates to at instant t. */
  ghost predicate Now(d: Driver, p: nat, t: int, r: int)
    requires p <= 6
  {
    var sql := NowSqlOf(d, p);
    sql.Some? && Evaluates(sql.value, Floor(t, Unit(ClockDigits(d))), r)
  }

  lemma HalfOfUnit(p: nat)
    requires p <= 8
    ensures Unit(p) % 2 == 0 && 5 * Pow10(8 - p) == Unit(p) / 2
    ensures p <= 5 ==> 5 * Pow10(5 - p) * 1000 == Unit(p) / 2
  {
    assert Unit(p) == 10 * Pow10(8 - p);
    if p <= 5 {
      PowSum(3, 5 - p);
      Thousand();
      assert Pow10(8 - p) == 1000 * Pow10(5 - p);
    }
  }

  lemma Thousand()
    ensures Pow10(3) == 1000
  {
    assert Pow10(2) == 100 by {
      assert Pow10(1) == 10;
    }
  }

  lemma WrittenUnit(p: nat)
    requires p <= 9
    ensures UnitOf(Decimal.Itoa(p)) == Unit(p)
  {
    Decimal.ValueOfItoa(p);
  }

  lemma MillisValue(ms: nat)
    requires ms < 1000
    ensures Decimal.Value(Millis(ms)) == ms
  {
    var s := Millis(ms);
    assert s[..2][..1] == s[..1] && s[..1][..0] == "";
    assert Decimal.Value(s[..1]) == ms / 100 && Decimal.Value(s[..2]) == 10 * (ms / 100) + ms / 10 % 10;
  }

  lemma Powers()
    ensures Pow10(3) == 1000 && Pow10(6) == MILLI && Pow10(9) == SECOND
  {
    Thousand();
    PowSum(3, 3);
    PowSum(3, 6);
  }

  /** A whole second and its milliseconds, of a clock that shows milliseconds. */
  lemma SecondAndMillis(clock: int)
    requires clock % MILLI == 0
    ensures 0 <= clock % SECOND / MILLI < 1000 && clock == Floor(clock, SECOND) + clock % SECOND / MILLI * MILLI
  {
    var q, m := clock / SECOND, clock % SECOND;
    assert clock == SECOND * q + m && SECOND == MILLI * 1000;
    ModShift(MILLI * (1000 * q), m, clock);
  }

  lemma ModShift(multiple: int, m: int, clock: int)
    requires multiple % MILLI == 0 && clock == multiple + m && clock % MILLI == 0
    ensures m % MILLI == 0
  {
  }

  /** Cutting the milliseconds of a text is a floor of the instant. */
  lemma CutIsFloor(second: int, ms: nat, p: nat)
    requires second % SECOND == 0 && ms < 1000 && p <= 3
    ensures second + Floor(ms, Pow10(3 - p)) * MILLI == Floor(second + ms * MILLI, Unit(p))
  {
    var u, f := Pow10(3 - p), Floor(ms, Pow10(3 - p));
    Powers();
    PowSum(3 - p, 6);
    assert Unit(p) == u * MILLI;
    FloorIs(ms, u, f);
    var r := second + f * MILLI;
    PowSum(9 - p, p);
    assert second == Unit(p) * (Pow10(p) * (second / SECOND));
    assert f * MILLI == Unit(p) * (f / u);
    assert r == Unit(p) * (Pow10(p) * (second / SECOND) + f / u);
    ModMultiple(Pow10(p) * (second / SECOND) + f / u, Unit(p));
    FloorIs(second + ms * MILLI, Unit(p), r);
  }

  lemma CutNow(p: nat, clock: int, r: int)
    requires p < 3 && clock % MILLI == 0
    ensures Evaluates(CutStrftime(Decimal.Itoa(20 + p), Zeros(3 - p)), clock, r) <==> r == Floor(clock, Unit(p))
  {
    var second := Floor(clock, SECOND);
    SecondAndMillis(clock);
    var ms := clock % SECOND / MILLI;
    Decimal.ValueOfItoa(20 + p);
    MillisValue(ms);
    CutAndPad(Millis(ms), p);
    FloorIs(clock, SECOND, second);
    CutIsFloor(second, ms, p);
  }

  lemma ConvertedNow(p: nat, clock: int, r: int)
    requires p <= 6
    ensures Evaluates(ConvertBack("5" + Zeros(8 - p), Decimal.Itoa(p)), clock, r) <==> r == Floor(clock, Unit(p))
  {
    WrittenUnit(p);
    HalfOfUnit(p);
    HalfDigits(8 - p);
    assert Decimal.Value("5" + Zeros(8 - p)) == Unit(p) / 2;
    HalfUnitShift(clock, Unit(p), r);
  }

  lemma CastNow(p: nat, clock: int, r: int)
    requires p < 6
    ensures Evaluates(CastBack("5" + Zeros(5 - p), Decimal.Itoa(p)), clock, r) <==> r == Floor(clock, Unit(p))
  {
    WrittenUnit(p);
    HalfOfUnit(p);
    HalfDigits(5 - p);
    assert Decimal.Value("5" + Zeros(5 - p)) * 1000 == Unit(p) / 2;
    HalfUnitShift(clock, Unit(p), r);
  }

  /** On a clock of the server's own digits, the SQL evaluates to the floor. */
  lemma EvaluatesToFloor(d: Driver, p: nat, clock: int, r: int)
    requires p <= 6 && !d.Unknown? && clock % Unit(ClockDigits(d)) == 0
    ensures Evaluates(NowSqlOf(d, p).value, clock, r) <==> r == Floor(clock, Unit(Precision(d, p)))
  {
    if Mysqlish(d) {
      WrittenUnit(p);
    } else if d.SQLite? && p < 3 {
      Powers();
      CutNow(p, clock, r);
    } else if d.SQLite? || (!d.MSSQL? && p == 6) {
      FloorExact(clock, Unit(ClockDigits(d)));
    } else if d.MSSQL? {
      ConvertedNow(p, clock, r);
    } else {
      CastNow(p, clock, r);
    }
  }

  lemma FloorExact(t: int, u: nat)
    requires u > 0 && t % u == 0
    ensures Floor(t, u) == t
  {
  }

  /** The same instant read on any driver at the same precision is the same value: the floor to p digits. */
  lemma NowIsFloor(d: Driver, p: nat, t: int, r: int)
    requires p <= 6 && !d.Unknown?
    ensures Now(d, p, t, r) <==> r == Floor(t, Unit(Precision(d, p)))
  {
    var clock := Floor(t, Unit(ClockDigits(d)));
    FloorMonotone(t, Precision(d, p), ClockDigits(d));
    FloorIs(t, Unit(ClockDigits(d)), clock);
    EvaluatesToFloor(d, p, clock, r);
  }

  // ----- DATE_ADD_MILLIS on SQL Server -----

  const HOUR: int := 3600000

  /** Go's and SQL Server's division, toward zero. */
  function TruncDiv(a: int, b: int): int
    requires b > 0
  {
    if a >= 0 then a / b else -(-a / b)
  }

  function TruncMod(a: int, b: int): int
    requires b > 0
  {
    a - b * TruncDiv(a, b)
  }

  /** The hours and the rest add up, the rest is under an hour and points the same way. */
  lemma SplitSums(n: int)
    ensures TruncDiv(n, HOUR) * HOUR + TruncMod(n, HOUR) == n
    ensures -HOUR < TruncMod(n, HOUR) < HOUR
    ensures TruncMod(n, HOUR) * n >= 0
  {
    if n >= 0 {
      assert TruncMod(n, HOUR) == n % HOUR;
    } else {
      assert TruncMod(n, HOUR) == -((-n) % HOUR);
    }
  }

  predicate FitsInt(n: int) {
    -0x8000_0000 <= n <= 0x7fff_ffff
  }

  /** DATEADD takes an int. Split, the argument of every call fits for all but intervals longer than two hundred
      thousand years. */
  lemma SplitFits(n: int)
    ensures FitsInt(TruncMod(n, HOUR))
    ensures FitsInt(TruncDiv(n, HOUR)) <==> -0x8000_0001 * HOUR < n < 0x8000_0000 * HOUR
  {
    SplitSums(n);
  }

  /** r is what DATEADD leaves of a value of the given unit: the interval is rounded to the unit first. */
  ghost predicate DateAdd(base: int, unit: nat, interval: int, r: int)
    requires unit > 0
  {
    if unit % 2 == 0 then HalfUp(interval, unit, r - base) else r == base + interval
  }

  /** The value of the expansion of DATE_ADD_MILLIS(base, n), where base has the given unit. */
  ghost predicate MssqlDateAdd(base: int, unit: nat, n: int, r: int)
    requires unit > 0
  {
    if -HOUR < n < HOUR then DateAdd(base, unit, n * MILLI, r)
    else exists mid ::
      DateAdd(base, unit, TruncDiv(n, HOUR) * HOUR * MILLI, mid) && DateAdd(mid, unit, TruncMod(n, HOUR) * MILLI, r)
  }

  /** The type the base has when DATEADD sees it: a NOW_UTC coarser than milliseconds is widened to seven digits. */
  function BaseUnit(p: nat): (u: nat)
    requires p <= 6
    ensures u > 0
  {
    if p < 3 then Unit(7) else Unit(p)
  }

  lemma ExactAdd(base: int, unit: nat, interval: int, r: int)
    requires unit > 0 && interval % unit == 0
    ensures DateAdd(base, unit, interval, r) <==> r == base + interval
  {
    if unit % 2 == 0 && HalfUp(interval, unit, r - base) {
      if r - base < interval {
        MultiplesApart(r - base, interval, unit);
      } else if interval < r - base {
        MultiplesApart(interval, r - base, unit);
      }
    }
  }

  lemma MillisDivide(p: nat, n: int)
    requires 3 <= p <= 9
    ensures (n * MILLI) % Unit(p) == 0
  {
    PowSum(9 - p, p - 3);
    assert Pow10(6) == MILLI by {
      PowSum(3, 3);
      Thousand();
    }
    assert n * MILLI == Unit(p) * (Pow10(p - 3) * n);
    ModMultiple(Pow10(p - 3) * n, Unit(p));
  }

  lemma ExactMillis(base: int, p: nat, n: int, r: int)
    requires 3 <= p <= 9
    ensures MssqlDateAdd(base, Unit(p), n, r) <==> r == base + n * MILLI
  {
    var h, m := TruncDiv(n, HOUR) * HOUR, TruncMod(n, HOUR);
    MillisDivide(p, n);
    MillisDivide(p, h);
    MillisDivide(p, m);
    SplitSums(n);
    ExactAdd(base, Unit(p), n * MILLI, r);
    ExactAdd(base, Unit(p), h * MILLI, base + h * MILLI);
    ExactAdd(base + h * MILLI, Unit(p), m * MILLI, r);
    forall mid | DateAdd(base, Unit(p), h * MILLI, mid)
      ensures mid == base + h * MILLI
    {
      ExactAdd(base, Unit(p), h * MILLI, mid);
    }
  }

  /** DATE_ADD_MILLIS(NOW_UTC(p), n) on SQL Server is exactly the floored instant plus n milliseconds. */
  lemma WideningIsExact(p: nat, t: int, n: int, now: int, r: int)
    requires p <= 6 && Now(MSSQL, p, t, now)
    ensures MssqlDateAdd(now, BaseUnit(p), n, r) <==> r == Floor(t, Unit(p)) + n * MILLI
  {
    NowIsFloor(MSSQL, p, t, now);
    ExactMillis(now, if p < 3 then 7 else p, n, r);
  }

  /** Without widening, an interval on a NOW_UTC coarser than milliseconds is added exactly when it is a whole number of
      units, and less than half a unit adds nothing: NOW_UTC(0) and 400 milliseconds give NOW_UTC(0). */
  lemma UnwidenedRounds(p: nat, now: int, n: int)
    requires p < 3 && -HOUR < n < HOUR
    ensures MssqlDateAdd(now, Unit(p), n, now + n * MILLI) <==> n * MILLI % Unit(p) == 0
    ensures MssqlDateAdd(now, Unit(p), n, now) <==> -(Unit(p) as int) <= 2 * n * MILLI < Unit(p)
  {
    HalfOfUnit(p);
    assert 0 % Unit(p) == 0;
  }
}
