/**
 Three ways to turn a day count into a calendar date, and one way back.

 The reference is the proleptic Gregorian calendar counted out year by year and month by
 month (`DayNumber`). Day 0 is 1970-01-01.
 */
module Calendar {
  import opened Text
  import opened Arithmetic

  datatype Date = Date(year: int, month: int, day: int)

  /** 1970-01-01 counted from 0000-01-01. */
  const EPOCH := 719528

  // ---- the reference calendar ----

  predicate IsLeap(year: int) {
    (year % 4 == 0 && year % 100 != 0) || year % 400 == 0
  }

  function DaysInYear(year: int): int { if IsLeap(year) then 366 else 365 }

  function MonthDays(year: int): (days: seq<int>)
    ensures |days| == 12
  {
    [31, if IsLeap(year) then 29 else 28, 31, 30, 31, 30, 31, 31, 30, 31, 30, 31]
  }

  predicate ValidDate(d: Date) {
    d.year >= 0 && 1 <= d.month <= 12 && 1 <= d.day <= MonthDays(d.year)[d.month - 1]
  }

  function DaysBeforeYear(year: nat): nat {
    if year == 0 then 0 else DaysBeforeYear(year - 1) + DaysInYear(year - 1)
  }

  /** Days of the year before the given month; month 13 stands for the whole year. */
  function DaysBeforeMonth(year: int, month: int): nat
    requires 1 <= month <= 13
  {
    var l := if IsLeap(year) then 1 else 0;
    [0, 31, 59 + l, 90 + l, 120 + l, 151 + l, 181 + l, 212 + l, 243 + l, 273 + l, 304 + l, 334 + l, 365 + l][month - 1]
  }

  lemma MonthStep(year: int, month: int)
    requires 1 <= month <= 12
    ensures DaysBeforeMonth(year, month + 1) == DaysBeforeMonth(year, month) + MonthDays(year)[month - 1]
  {
  }

  /** Days from 1970-01-01 to the given day of the given month. */
  function DayNumber(d: Date): int
    requires d.year >= 0 && 1 <= d.month <= 12
  {
    DaysBeforeYear(d.year) + DaysBeforeMonth(d.year, d.month) + d.day - 1 - EPOCH
  }

  predicate Before(a: Date, b: Date) {
    a.year < b.year || (a.year == b.year && (a.month < b.month || (a.month == b.month && a.day < b.day)))
  }

  lemma {:induction false} YearsGrow(a: nat, b: nat)
    requires a < b
    ensures DaysBeforeYear(a) + DaysInYear(a) <= DaysBeforeYear(b)
  {
    if a + 1 < b { YearsGrow(a, b - 1); }
  }

  /** Later dates have larger day numbers, so a day number names at most one valid date. */
  lemma DayNumberMonotone(a: Date, b: Date)
    requires ValidDate(a) && ValidDate(b) && Before(a, b)
    ensures DayNumber(a) < DayNumber(b)
  {
    MonthStep(a.year, a.month);
    if a.year < b.year { YearsGrow(a.year, b.year); }
  }

  lemma DayNumberInjective(a: Date, b: Date)
    requires ValidDate(a) && ValidDate(b) && DayNumber(a) == DayNumber(b)
    ensures a == b
  {
    if Before(a, b) { DayNumberMonotone(a, b); }
    if Before(b, a) { DayNumberMonotone(b, a); }
  }

  // ---- sentinel.rs: the subtraction loop ----

  /**
   Subtracts whole years, then whole months. Each subtraction is guarded, so the unsigned
   counter never underflows; the result is the one valid date whose day number is `n`.
   */
  method DaysToDate(n: nat) returns (date: Date)
    ensures ValidDate(date) && DayNumber(date) == n
    ensures date == DaysToYmd(n)
  {
    EpochYear();
    var days: nat := n;
    var year: nat := 1970;
    while days >= (if IsLeap(year) then 366 else 365)
      invariant year >= 1970 && days + DaysBeforeYear(year) - EPOCH == n
      decreases days
    {
      var daysInYear := if IsLeap(year) then 366 else 365;
      days := days - daysInYear;
      year := year + 1;
    }
    var monthDays := MonthDays(year);
    var month := 1;
    while month <= 12 && days >= monthDays[month - 1]
      invariant 1 <= month <= 13
      invariant days + DaysBeforeMonth(year, month) + DaysBeforeYear(year) - EPOCH == n
      invariant days + DaysBeforeMonth(year, month) < DaysInYear(year)
      decreases 13 - month
    {
      MonthStep(year, month);
      days := days - monthDays[month - 1];
      month := month + 1;
    }
    date := Date(year, month, days + 1);
    DaysToYmdCorrect(n);
    DayNumberInjective(date, DaysToYmd(n));
  }

  // ---- audit_log.rs and retrain_scheduler.rs: the closed forms ----

  /** audit_log.rs, on unsigned integers: every difference is a `nat`. */
  function DaysToYmd(days: nat): (date: Date)
  {
    var z := days + 719468;
    var era := z / 146097;
    var doe: nat := z % 146097;
    var yoe := YearOfEra(doe);
    var y := yoe + era * 400;
    var doy: nat := doe - (365 * yoe + yoe / 4 - yoe / 100);
    FromMarch(doy, y)
  }

  function YearOfEra(doe: nat): (yoe: nat)
    requires doe < 146097
    ensures yoe < 400 && MarchStart(yoe) <= doe < MarchStart(yoe + 1)
    ensures 0 <= doe - (365 * yoe + yoe / 4 - yoe / 100) <= 365
  {
    YearOfEraCorrect(doe);
    var a: nat := doe - doe / 1460;
    var b: nat := a + doe / 36524 - doe / 146096;
    b / 365
  }

  function FromMarch(doy: nat, y: nat): (date: Date)
    requires doy <= 365
  {
    var mp := (5 * doy + 2) / 153;
    DayOfYear(doy);
    var d: nat := doy - (153 * mp + 2) / 5 + 1;
    var m: nat := if mp < 10 then mp + 3 else mp - 9;
    Date(if m <= 2 then y + 1 else y, m, d)
  }

  /** retrain_scheduler.rs, on signed integers with a guard for negative eras. */
  function CivilFromDays(days: int): (date: Date) {
    var z := days + 719468;
    var era := TruncDiv(if z >= 0 then z else z - 146096, 146097);
    var doe := z - era * 146097;
    var yoe := TruncDiv(doe - TruncDiv(doe, 1460) + TruncDiv(doe, 36524) - TruncDiv(doe, 146096), 365);
    var y := yoe + era * 400;
    var doy := doe - (365 * yoe + TruncDiv(yoe, 4) - TruncDiv(yoe, 100));
    var mp := TruncDiv(5 * doy + 2, 153);
    var d := doy - TruncDiv(153 * mp + 2, 5) + 1;
    var mo := if mp < 10 then mp + 3 else mp - 9;
    Date(if mo <= 2 then y + 1 else y, mo, d)
  }

  /** retrain_scheduler.rs: Fliegel and Van Flandern's Julian day number. */
  function DateToDays(year: int, month: int, day: int): (r: Option<int>)
    ensures r.Some? <==> 1 <= month <= 12 && 1 <= day <= 31
  {
    if month < 1 || month > 12 || day < 1 || day > 31 then None
    else
      Some(TruncDiv(1461 * (year + 4800 + TruncDiv(month - 14, 12)), 4)
           + TruncDiv(367 * (month - 2 - 12 * TruncDiv(month - 14, 12)), 12)
           - TruncDiv(3 * TruncDiv(year + 4900 + TruncDiv(month - 14, 12), 100), 4)
           + day
           - 32075)
  }

  // ---- cycles of 400, 100 and 4 years ----

  /** Days from 0000-03-01 to March 1 of year `y`: years that end with February. */
  function MarchStart(y: int): int { 365 * y + y / 4 - y / 100 + y / 400 }

  /** `doe` lies `c` centuries, `q` four-year cycles, `u` years into its era of 400 years. */
  ghost predicate Peeled(doe: int, c: int, q: int, t: int, u: int) {
    && 0 <= c <= 3 && 0 <= q <= 24 && 0 <= u <= 3
    && doe == 36524 * c + 1461 * q + t
    && (365 * u <= t < 365 * (u + 1) || (u == 3 && t == 1460))
    && (t == 1460 && q == 24 ==> c == 3)
    && (0 <= 1461 * q + t < 36524 || doe == 146096)
  }

  lemma Peel(doe: int) returns (c: int, q: int, t: int, u: int)
    requires 0 <= doe < 146097
    ensures Peeled(doe, c, q, t, u)
  {
    c := if doe == 146096 then 3 else doe / 36524;
    var r := doe - 36524 * c;
    q := r / 1461;
    t := r - 1461 * q;
    u := if t == 1460 then 3 else t / 365;
  }

  lemma QuotientOfPeeled(doe: int, c: int, q: int, t: int, u: int)
    requires Peeled(doe, c, q, t, u) && 0 <= doe < 146097
    ensures (doe - doe / 1460 + doe / 36524 - doe / 146096) / 365 == 100 * c + 4 * q + u
  {
    var e := if 24 * c + q + t >= 1460 then 1 else 0;
    var a, b, d := 25 * c + q + e, if doe == 146096 then 4 else c, if doe == 146096 then 1 else 0;
    DivIs(doe, 1460, a);
    DivIs(doe, 36524, b);
    DivIs(doe, 146096, d);
    DivIs(doe - a + b - d, 365, 100 * c + 4 * q + u);
  }

  lemma StartOfPeeled(c: int, q: int, u: int)
    requires 0 <= c <= 3 && 0 <= q <= 24 && 0 <= u <= 3
    ensures MarchStart(100 * c + 4 * q + u) == 36524 * c + 1461 * q + 365 * u
  {
    var y := 100 * c + 4 * q + u;
    DivIs(y, 4, 25 * c + q);
    DivIs(y, 100, c);
    DivIs(y, 400, 0);
  }

  /** The year quotient of the closed form is the year of the era that contains day `doe`. */
  lemma YearOfEraCorrect(doe: int)
    requires 0 <= doe < 146097
    ensures 0 <= doe - doe / 1460 && 0 <= doe - doe / 1460 + doe / 36524 - doe / 146096
    ensures var yoe := (doe - doe / 1460 + doe / 36524 - doe / 146096) / 365;
            && 0 <= yoe < 400 && MarchStart(yoe) <= doe < MarchStart(yoe + 1)
            && 0 <= doe - (365 * yoe + yoe / 4 - yoe / 100) <= 365
  {
    var c, q, t, u := Peel(doe);
    QuotientOfPeeled(doe, c, q, t, u);
    StartOfPeeled(c, q, u);
    if u < 3 { StartOfPeeled(c, q, u + 1); }
    else if q < 24 { StartOfPeeled(c, q + 1, 0); }
    else if c < 3 { StartOfPeeled(c + 1, 0, 0); }
  }

  /** Months counted from March: `mp` and the day drawn from it stay in range. */
  lemma DayOfYear(doy: int)
    requires 0 <= doy <= 365
    ensures var mp := (5 * doy + 2) / 153;
            0 <= mp <= 11 && 0 <= doy - (153 * mp + 2) / 5 <= 30
  {
  }

  lemma EraShift(yoe: int, era: int)
    ensures MarchStart(yoe + era * 400) == MarchStart(yoe) + era * 146097
  {
    DivIs(yoe + era * 400, 4, yoe / 4 + 100 * era);
    DivIs(yoe + era * 400, 100, yoe / 100 + 4 * era);
    DivIs(yoe + era * 400, 400, yoe / 400 + era);
  }

  lemma MarchStep(y: int)
    ensures MarchStart(y + 1) == MarchStart(y) + DaysInYear(y + 1)
  {
    var a, b, c := (y + 1) % 4, (y + 1) % 100, (y + 1) % 400;
    DivIs(y, 4, if a == 0 then (y + 1) / 4 - 1 else (y + 1) / 4);
    DivIs(y, 100, if b == 0 then (y + 1) / 100 - 1 else (y + 1) / 100);
    DivIs(y, 400, if c == 0 then (y + 1) / 400 - 1 else (y + 1) / 400);
    HundredsAreFours(y + 1);
  }

  lemma HundredsAreFours(y: int)
    ensures y % 100 == 0 ==> y % 4 == 0
    ensures y % 400 == 0 ==> y % 100 == 0
  {
    if y % 100 == 0 { DivIs(y, 4, 25 * (y / 100)); }
    if y % 400 == 0 { DivIs(y, 100, 4 * (y / 400)); }
  }

  /** March 1 of year `y`, found by counting years, is `MarchStart(y)` days after 0000-03-01. */
  lemma {:induction false} MarchFirst(y: nat)
    ensures DaysBeforeYear(y) + 59 + (if IsLeap(y) then 1 else 0) == MarchStart(y) + 60
  {
    if y > 0 {
      MarchFirst(y - 1);
      MarchStep(y - 1);
    }
  }

  lemma NewYear(y: int)
    requires y >= -1
    ensures DaysBeforeYear(y + 1) == MarchStart(y) + 366
  {
    if y >= 0 { MarchFirst(y); }
  }

  lemma EpochYear()
    ensures DaysBeforeYear(1970) == EPOCH
  {
    MarchFirst(1970);
  }

  // ---- main results ----

  /** The day of a year that starts on March 1, read off as month and day. */
  lemma DateFromMarch(doy: nat, y: nat)
    requires doy < DaysInYear(y + 1)
    ensures ValidDate(FromMarch(doy, y)) && DayNumber(FromMarch(doy, y)) == MarchStart(y) + doy - 719468
  {
    MarchFirst(y);
    NewYear(y);
    MarchMonth(doy, y);
  }

  lemma MarchMonth(doy: int, y: nat)
    requires 0 <= doy < DaysInYear(y + 1)
    ensures var mp := (5 * doy + 2) / 153;
            && 0 <= mp <= 11
            && (mp < 10 ==> DaysBeforeMonth(y, mp + 3) == 59 + (if IsLeap(y) then 1 else 0) + (153 * mp + 2) / 5
                            && 0 <= doy - (153 * mp + 2) / 5 < MonthDays(y)[mp + 2])
            && (mp >= 10 ==> DaysBeforeMonth(y + 1, mp - 9) == (153 * mp + 2) / 5 - 306
                             && 0 <= doy - (153 * mp + 2) / 5 < MonthDays(y + 1)[mp - 10])
  {
  }

  /** Which March year holds day `z`, and the day within it. */
  lemma Locate(z: nat) returns (y: nat, doy: nat)
    ensures var era, doe := z / 146097, z % 146097;
            var yoe := YearOfEra(doe);
            y == yoe + era * 400 && doy == doe - (365 * yoe + yoe / 4 - yoe / 100)
    ensures z == MarchStart(y) + doy && doy < DaysInYear(y + 1)
  {
    var era, doe := z / 146097, z % 146097;
    var yoe := YearOfEra(doe);
    y := yoe + era * 400;
    DivIs(yoe, 400, 0);
    doy := doe - MarchStart(yoe);
    EraShift(yoe, era);
    EraShift(yoe + 1, era);
    assert yoe + 1 + era * 400 == y + 1;
    MarchStep(y);
  }

  /** The closed form gives the valid date that counting gives. */
  lemma DaysToYmdCorrect(n: nat)
    ensures ValidDate(DaysToYmd(n)) && DayNumber(DaysToYmd(n)) == n
  {
    var y, doy := Locate(n + 719468);
    DateFromMarch(doy, y);
    assert DaysToYmd(n) == FromMarch(doy, y);
  }

  /** The signed variant is the same function on every non-negative day count. */
  lemma ClosedFormsAgree(n: nat)
    ensures CivilFromDays(n) == DaysToYmd(n)
  {
    var z := n + 719468;
    var era, doe := z / 146097, z % 146097;
    YearOfEraCorrect(doe);
    assert z - era * 146097 == doe;
    SignedYear(doe);
    var yoe := YearOfEra(doe);
    var doy: nat := doe - (365 * yoe + yoe / 4 - yoe / 100);
    SignedDay(doy);
    hide YearOfEra;
  }

  lemma SignedYear(doe: nat)
    requires doe < 146097
    ensures TruncDiv(doe - TruncDiv(doe, 1460) + TruncDiv(doe, 36524) - TruncDiv(doe, 146096), 365) == YearOfEra(doe)
  {
    YearOfEraCorrect(doe);
  }

  lemma SignedDay(doy: nat)
    requires doy <= 365
    ensures TruncDiv(5 * doy + 2, 153) == (5 * doy + 2) / 153
    ensures var mp := (5 * doy + 2) / 153; TruncDiv(153 * mp + 2, 5) == (153 * mp + 2) / 5
  {
  }

  lemma JdnYears(y: int)
    requires y >= -1
    ensures TruncDiv(1461 * (y + 4800), 4) - TruncDiv(3 * TruncDiv(y + 4900, 100), 4) == MarchStart(y) + 1753164
  {
    var c := y / 100;
    DivIs(1461 * (y + 4800), 4, 1753200 + 365 * y + y / 4);
    DivIs(y + 4900, 100, 49 + c);
    DivIs(y, 400, c / 4);
    DivIs(3 * (49 + c), 4, 36 + c - c / 4);
  }

  lemma JdnMonths(year: int, month: int)
    requires year >= 0 && 1 <= month <= 12
    ensures var a := TruncDiv(month - 14, 12);
            && a == (if month <= 2 then -1 else 0)
            && TruncDiv(367 * (month - 2 - 12 * a), 12)
               == (if month <= 2 then 336 + DaysBeforeMonth(year, month)
                   else DaysBeforeMonth(year, month) - 29 - (if IsLeap(year) then 1 else 0))
  {
  }

  /**
   The Julian day number is the day number, shifted, for every date the code accepts. It
   accepts day 31 of every month; such a date counts on into the next month.
   */
  lemma DateToDaysCorrect(year: nat, month: int, day: int)
    requires 1 <= month <= 12 && 1 <= day <= 31
    ensures DateToDays(year, month, day) == Some(DayNumber(Date(year, month, day)) + 2440588)
  {
    JdnMonths(year, month);
    var y := if month <= 2 then year - 1 else year;
    JdnYears(y);
    NewYear(year - 1);
    MarchFirst(year);
  }

  lemma ValidDateToDays(d: Date)
    requires ValidDate(d)
    ensures DateToDays(d.year, d.month, d.day) == Some(DayNumber(d) + 2440588)
  {
    DateToDaysCorrect(d.year, d.month, d.day);
  }

  /** From day count to date to Julian day number and back, for every day since 1970. */
  lemma DateToDaysInverts(n: nat)
    ensures var d := DaysToYmd(n); DateToDays(d.year, d.month, d.day) == Some(n + 2440588)
  {
    DaysToYmdCorrect(n);
    ValidDateToDays(DaysToYmd(n));
  }

  /** Calendar order is the order of Julian day numbers. */
  lemma DateToDaysMonotone(a: Date, b: Date)
    requires ValidDate(a) && ValidDate(b)
    ensures Before(a, b) <==>
            DateToDays(a.year, a.month, a.day).value < DateToDays(b.year, b.month, b.day).value
  {
    DateToDaysCorrect(a.year, a.month, a.day);
    DateToDaysCorrect(b.year, b.month, b.day);
    if Before(a, b) { DayNumberMonotone(a, b); } else if a != b { DayNumberMonotone(b, a); }
  }
}
