/**
 UTC timestamps `YYYY-MM-DDTHH:MM:SSZ` (section 5.6 of RFC 3339): the printers of
 audit_log.rs, retrain_scheduler.rs and sentinel.rs, the parser of retrain_scheduler.rs, and
 the retraining decision that rests on them.
 */
module Timestamp {
  import opened Text
  import opened Arithmetic
  import opened Calendar

  const DAY := 86400

  function Format(d: Date, hour: nat, minute: nat, second: nat): string
    requires ValidDate(d)
  {
    Pad(d.year, 4) + "-" + Pad(d.month, 2) + "-" + Pad(d.day, 2) + "T"
    + Pad(hour, 2) + ":" + Pad(minute, 2) + ":" + Pad(second, 2) + "Z"
  }

  /** retrain_scheduler.rs: `unix_secs_to_iso8601`. */
  function RetrainIso(secs: nat): string {
    var s := secs % 60;
    var m := (secs / 60) % 60;
    var h := (secs / 3600) % 24;
    ClosedFormsAgree(secs / DAY);
    DaysToYmdCorrect(secs / DAY);
    Format(CivilFromDays(secs / DAY), h, m, s)
  }

  /** audit_log.rs: `unix_secs_to_iso8601`. */
  function AuditIso(secs: nat): string {
    var days := secs / DAY;
    var timeOfDay := secs % DAY;
    DaysToYmdCorrect(days);
    Format(DaysToYmd(days), timeOfDay / 3600, (timeOfDay % 3600) / 60, timeOfDay % 60)
  }

  lemma ClockFields(secs: nat)
    ensures (secs % DAY) / 3600 == (secs / 3600) % 24
    ensures ((secs % DAY) % 3600) / 60 == (secs / 60) % 60
    ensures (secs % DAY) % 60 == secs % 60
  {
    var h, m, s := secs / 3600, secs / 60, secs % 60;
    DivIs(secs, DAY, h / 24);
    DivIs(secs % DAY, 3600, h % 24);
    DivIs(m, 60, h);
    DivIs((secs % DAY) % 3600, 60, m % 60);
    DivIs(secs % DAY, 60, 60 * (h % 24) + m % 60);
  }

  /** The two printers write the same text for every second. */
  lemma PrintersAgree(secs: nat)
    ensures AuditIso(secs) == RetrainIso(secs)
  {
    ClockFields(secs);
    ClosedFormsAgree(secs / DAY);
  }

  /** sentinel.rs: `utc_now`, which peels seconds, minutes and hours off one counter. */
  method UtcNow(secs: nat) returns (text: string)
    ensures text == AuditIso(secs) == RetrainIso(secs)
  {
    var s := secs;
    var sec := s % 60;
    s := s / 60;
    var min := s % 60;
    s := s / 60;
    var hour := s % 24;
    var days := s / 24;
    Peeling(secs);
    ClockFields(secs);
    PrintersAgree(secs);
    var date := DaysToDate(days);
    text := Format(date, hour, min, sec);
  }

  lemma Peeling(secs: nat)
    ensures secs / 60 / 60 == secs / 3600 && secs / 60 / 60 / 24 == secs / DAY
  {
    DivIs(secs, 3600, secs / 60 / 60);
    DivIs(secs, DAY, secs / 60 / 60 / 24);
  }

  // ---- parsing ----

  /** The three numbers written in the first ten characters. */
  function ParseFields(s: string): (r: Option<Date>)
    requires |s| >= 10
  {
    var parts := Split(s[..10], '-');
    if |parts| != 3 then None
    else
      var year, month, day := ParseI64(parts[0]), ParseI64(parts[1]), ParseI64(parts[2]);
      if year.None? || month.None? || day.None? then None
      else Some(Date(year.value, month.value, day.value))
  }

  /** The Julian day number of the date in the first ten characters. */
  function ParseDate(s: string): (r: Option<int>)
    requires |s| >= 10
  {
    var fields := ParseFields(s);
    if fields.None? then None else DateToDays(fields.value.year, fields.value.month, fields.value.day)
  }

  function SaturatingSubI64(a: int, b: int): int {
    if a - b > I64_MAX then I64_MAX else if a - b < I64_MIN then I64_MIN else a - b
  }

  /** Rust's `as u64` on a signed value. */
  function AsU64(x: int): nat { x % 0x1_0000_0000_0000_0000 }

  /** The days between two timestamps, as an unsigned number. */
  function DaysBetween(from: string, to: string): (r: Option<nat>)
    requires |from| >= 10 && |to| >= 10
  {
    var fromDays := ParseDate(from);
    if fromDays.None? then None
    else
      var toDays := ParseDate(to);
      if toDays.None? then None else Some(AsU64(SaturatingSubI64(toDays.value, fromDays.value)))
  }

  /** retrain_scheduler.rs: `parse_days_since`, with the clock as a parameter. */
  function ParseDaysSince(ts: string, now: nat): (r: Option<nat>) {
    if |ts| < 19 then None
    else
      assert |RetrainIso(now)| >= 10;
      DaysBetween(ts, RetrainIso(now))
  }

  // ---- widths of printed numbers ----

  lemma PadStep(n: nat, w: nat)
    requires n >= 10 || w >= 2
    ensures Pad(n, w) == Pad(n / 10, if w > 0 then w - 1 else 0) + [DigitChar(n % 10)]
  {
  }

  lemma TwoDigits(n: nat)
    requires n < 100
    ensures |Pad(n, 2)| == 2 && |Pad(n / 10, 1)| == 1 && Pad(n, 2)[..1] == Pad(n / 10, 1)
  {
    PadStep(n, 2);
  }

  lemma YearWidth(n: nat)
    ensures |Pad(n, 4)| == 4 <==> n < 10000
  {
    PadStep(n, 4);
    PadStep(n / 10, 3);
    PadStep(n / 10 / 10, 2);
    DivIs(n, 1000, n / 10 / 10 / 10);
    assert |Pad(n, 4)| == |Pad(n / 1000, 1)| + 3;
  }

  // ---- splitting a printed date ----

  ghost predicate NoDash(s: string) { '-' !in s }

  lemma DigitsHaveNoDash(s: string)
    requires AllDigits(s)
    ensures NoDash(s)
  {
  }

  lemma SplitDate(y: string, m: string, d: string)
    requires NoDash(y) && NoDash(m) && NoDash(d)
    ensures Split(y + "-" + m + "-" + d, '-') == [y, m, d]
  {
    assert y + "-" + m + "-" + d == y + ['-'] + (m + ['-'] + d);
    SplitCons(y, '-', m + ['-'] + d);
    SplitCons(m, '-', d);
    assert [y] + ([m] + [d]) == [y, m, d];
  }

  /** The parts of the first ten characters of `y-mo-da...`, by the length of the year. */
  lemma SplitPrefix(y: string, mo: string, da: string, rest: string)
    requires NoDash(y) && NoDash(mo) && NoDash(da) && |y| >= 4 && |mo| == 2 && |da| == 2
    ensures var parts := Split((y + "-" + mo + "-" + da + rest)[..10], '-');
            && (|y| == 4 ==> parts == [y, mo, da])
            && (|y| == 5 ==> parts == [y, mo, da[..1]])
            && (|y| == 6 ==> parts == [y, mo, ""])
            && (|y| > 6 ==> |parts| < 3)
  {
    var p := (y + "-" + mo + "-" + da + rest)[..10];
    if |y| <= 6 {
      var last := if |y| == 4 then da else if |y| == 5 then da[..1] else "";
      assert p == y + "-" + mo + "-" + last;
      SplitDate(y, mo, last);
    } else if |y| <= 9 {
      assert p == y + ['-'] + mo[..9 - |y|];
      SplitCons(y, '-', mo[..9 - |y|]);
    } else {
      assert p == y[..10];
    }
  }

  lemma PrefixOfFormat(d: Date, h: nat, m: nat, s: nat)
    requires ValidDate(d)
    ensures var text := Format(d, h, m, s);
            var y, mo, da := Pad(d.year, 4), Pad(d.month, 2), Pad(d.day, 2);
            && |text| >= 19
            && var parts := Split(text[..10], '-');
            && (d.year < 10000 ==> parts == [y, mo, da])
            && (d.year >= 10000 && |parts| == 3 ==> parts == [y, mo, Pad(d.day / 10, 1)] || parts == [y, mo, ""])
  {
    hide Split, Pad;
    var y, mo, da := Pad(d.year, 4), Pad(d.month, 2), Pad(d.day, 2);
    var rest := "T" + Pad(h, 2) + ":" + Pad(m, 2) + ":" + Pad(s, 2) + "Z";
    assert Format(d, h, m, s) == y + "-" + mo + "-" + da + rest;
    DigitsHaveNoDash(y);
    DigitsHaveNoDash(mo);
    DigitsHaveNoDash(da);
    TwoDigits(d.month);
    TwoDigits(d.day);
    YearWidth(d.year);
    SplitPrefix(y, mo, da, rest);
  }

  /**
   The fields read back from a printed date: the parser keeps ten characters, and a year of
   more than four digits pushes the day out of them.
   */
  lemma FieldsOfFormat(d: Date, h: nat, m: nat, s: nat)
    requires ValidDate(d)
    ensures |Format(d, h, m, s)| >= 19
    ensures d.year < 10000 ==> ParseFields(Format(d, h, m, s)) == Some(d)
    ensures var f := ParseFields(Format(d, h, m, s));
            d.year >= 10000 && f.Some? ==> f.value.year == d.year && f.value.month == d.month && f.value.day < d.day
  {
    hide Format, Split, Pad, DigitsValue;
    PrefixOfFormat(d, h, m, s);
    if d.year > I64_MAX { ParseLargeYear(d.year); }
  }

  lemma ParseLargeYear(n: nat)
    requires n > I64_MAX
    ensures ParseI64(Pad(n, 4)) == None
  {
  }

  lemma DateOfFields(s: string, d: Date)
    requires |s| >= 10 && ValidDate(d)
    requires d.year < 10000 ==> ParseFields(s) == Some(d)
    requires var f := ParseFields(s);
             d.year >= 10000 && f.Some? ==> f.value.year == d.year && f.value.month == d.month && f.value.day < d.day
    ensures ParseDate(s) == Some(DayNumber(d) + 2440588) <==> d.year < 10000
  {
    hide ParseFields, DayNumber;
    var f := ParseFields(s);
    DateToDaysCorrect(d.year, d.month, d.day);
    DayNumberOfMonth(d.year, d.month, d.day);
    if f.Some? { DayNumberOfMonth(d.year, d.month, f.value.day); }
    hide DateToDays;
    if f.Some? && 1 <= f.value.day <= 31 { DateToDaysCorrect(d.year, d.month, f.value.day); }
  }

  lemma DayNumberOfMonth(year: nat, month: int, day: int)
    requires 1 <= month <= 12
    ensures DayNumber(Date(year, month, day)) == DayNumber(Date(year, month, 1)) + day - 1
  {
  }

  lemma PrintedDate(t: nat) returns (d: Date, h: nat, m: nat, s: nat)
    ensures ValidDate(d) && DayNumber(d) == t / DAY && RetrainIso(t) == Format(d, h, m, s)
    ensures h == (t / 3600) % 24 && m == (t / 60) % 60 && s == t % 60
  {
    ClosedFormsAgree(t / DAY);
    DaysToYmdCorrect(t / DAY);
    d, h, m, s := DaysToYmd(t / DAY), (t / 3600) % 24, (t / 60) % 60, t % 60;
  }

  // ---- main results ----

  /** 10000-01-01. */
  const Y10K := 2932897

  lemma YearTenThousand()
    ensures DaysBeforeYear(10000) == Y10K + EPOCH
  {
    MarchFirst(10000);
    hide DaysBeforeYear;
  }

  lemma DayInYear(d: Date)
    requires ValidDate(d)
    ensures DaysBeforeYear(d.year) <= DayNumber(d) + EPOCH < DaysBeforeYear(d.year) + DaysInYear(d.year)
  {
    MonthStep(d.year, d.month);
    hide DaysBeforeYear, IsLeap;
  }

  lemma FourDigitYears(d: Date)
    requires ValidDate(d)
    ensures d.year < 10000 <==> DayNumber(d) < Y10K
  {
    DayInYear(d);
    hide DayNumber, DaysBeforeYear, DaysInYear, IsLeap, MonthDays;
    YearTenThousand();
    if d.year < 10000 { YearsGrow(d.year, 10000); }
    if d.year > 10000 { YearsGrow(10000, d.year); }
  }

  /** The parser reads back the day of a printed timestamp exactly before the year 10000. */
  lemma ParseDateOfPrinted(t: nat)
    ensures |RetrainIso(t)| >= 19
    ensures ParseDate(RetrainIso(t)) == Some(t / DAY + 2440588) <==> t / DAY < Y10K
  {
    hide *;
    var d, h, m, s := PrintedDate(t);
    FieldsOfFormat(d, h, m, s);
    DateOfFields(Format(d, h, m, s), d);
    FourDigitYears(d);
  }

  lemma ClockSlices(y: string, mo: string, da: string, h: string, m: string, sec: string)
    requires |y| == 4 && |mo| == |da| == |h| == |m| == |sec| == 2
    ensures var text := y + "-" + mo + "-" + da + "T" + h + ":" + m + ":" + sec + "Z";
            && |text| == 20 && text[11..13] == h && text[14..16] == m && text[17..19] == sec
            && text[10] == 'T' && text[13] == text[16] == ':' && text[19] == 'Z'
  {
  }

  /** The second of the day, read from the fixed places of the time in a timestamp. */
  function ParseClock(s: string): (r: Option<nat>)
    requires |s| == 20
  {
    if AllDigits(s[11..13]) && AllDigits(s[14..16]) && AllDigits(s[17..19]) then
      Some(3600 * DigitsValue(s[11..13]) + 60 * DigitsValue(s[14..16]) + DigitsValue(s[17..19]))
    else None
  }

  lemma ClockOfFields(t: nat)
    ensures 3600 * ((t / 3600) % 24) + 60 * ((t / 60) % 60) + t % 60 == t % DAY
  {
    ClockFields(t);
  }

  /** A timestamp below year 10000 has 20 characters in the shape of RFC 3339, and says which second it was printed for. */
  lemma PrintedSecond(t: nat)
    requires t / DAY < Y10K
    ensures var text := RetrainIso(t);
            && |text| == 20 && text[10] == 'T' && text[13] == text[16] == ':' && text[19] == 'Z'
            && ParseDate(text) == Some(t / DAY + 2440588) && ParseClock(text) == Some(t % DAY)
  {
    hide *;
    ParseDateOfPrinted(t);
    ClockOfFields(t);
    var d, h, m, sec := PrintedDate(t);
    FourDigitYears(d);
    ClockOfFormat(d, h, m, sec);
  }

  lemma ClockOfFormat(d: Date, h: nat, m: nat, sec: nat)
    requires ValidDate(d) && d.year < 10000 && h < 100 && m < 100 && sec < 100
    ensures var text := Format(d, h, m, sec);
            && |text| == 20 && text[10] == 'T' && text[13] == text[16] == ':' && text[19] == 'Z'
            && ParseClock(text) == Some(3600 * h + 60 * m + sec)
  {
    hide Pad, DigitsValue;
    YearWidth(d.year);
    TwoDigits(d.month);
    TwoDigits(d.day);
    TwoDigits(h);
    TwoDigits(m);
    TwoDigits(sec);
    ClockSlices(Pad(d.year, 4), Pad(d.month, 2), Pad(d.day, 2), Pad(h, 2), Pad(m, 2), Pad(sec, 2));
  }

  /** So no two seconds share a timestamp. */
  lemma TimestampsDiffer(t1: nat, t2: nat)
    requires t1 / DAY < Y10K && t2 / DAY < Y10K && RetrainIso(t1) == RetrainIso(t2)
    ensures t1 == t2
  {
    hide RetrainIso, ParseDate, ParseClock;
    PrintedSecond(t1);
    PrintedSecond(t2);
  }

  lemma BetweenParsed(from: string, to: string, x: int, y: int)
    requires |from| >= 10 && |to| >= 10
    requires ParseDate(from) == Some(x) && ParseDate(to) == Some(y)
    requires I64_MIN <= y - x <= I64_MAX
    ensures DaysBetween(from, to) == Some(AsU64(y - x))
  {
  }

  /** Print at `t1`, parse at `t2`: the difference of the day counts, wrapped to 64 bits. */
  lemma PrintThenParse(t1: nat, t2: nat)
    requires t1 / DAY < Y10K && t2 / DAY < Y10K
    ensures ParseDaysSince(RetrainIso(t1), t2) == Some(AsU64(t2 / DAY - t1 / DAY))
  {
    hide RetrainIso, ParseDate;
    ParseDateOfPrinted(t1);
    ParseDateOfPrinted(t2);
    BetweenParsed(RetrainIso(t1), RetrainIso(t2), t1 / DAY + 2440588, t2 / DAY + 2440588);
  }

  lemma Wrapped(x: int)
    requires -0x8000_0000_0000_0000 < x < 0x8000_0000_0000_0000
    ensures x >= 0 ==> AsU64(x) == x
    ensures x < 0 ==> AsU64(x) == x + 0x1_0000_0000_0000_0000 > I64_MAX
  {
  }

  /** The parser's answer is the number of days gone by exactly when the timestamp's day is not in the future. */
  lemma ElapsedIffNotFuture(t1: nat, t2: nat)
    requires t1 / DAY < Y10K && t2 / DAY < Y10K
    ensures var elapsed := if t1 / DAY <= t2 / DAY then t2 / DAY - t1 / DAY else 0;
            ParseDaysSince(RetrainIso(t1), t2) == Some(elapsed) <==> t1 / DAY <= t2 / DAY
  {
    PrintThenParse(t1, t2);
    Wrapped(t2 / DAY - t1 / DAY);
  }

  lemma DaysIff(t1: nat, t2: nat)
    requires t1 <= t2
    ensures t2 / DAY - t1 / DAY == (t2 - t1) / DAY <==> t1 % DAY <= t2 % DAY
  {
    var q := t2 / DAY - t1 / DAY;
    if t1 % DAY <= t2 % DAY { DivIs(t2 - t1, DAY, q); } else { DivIs(t2 - t1, DAY, q - 1); }
  }

  /** The parser gives the full days elapsed, as documented, exactly when the clock time has been reached again. */
  lemma FullDaysIff(t1: nat, t2: nat)
    requires t1 <= t2 && t2 / DAY < Y10K
    ensures ParseDaysSince(RetrainIso(t1), t2) == Some((t2 - t1) / DAY) <==> t1 % DAY <= t2 % DAY
  {
    hide ParseDaysSince, RetrainIso, AsU64;
    DaysOrdered(t1, t2);
    PrintThenParse(t1, t2);
    Wrapped(t2 / DAY - t1 / DAY);
    DaysIff(t1, t2);
  }

  lemma DaysOrdered(t1: nat, t2: nat)
    requires t1 <= t2
    ensures t1 / DAY <= t2 / DAY
  {
  }

  /** One second after 23:59:59 of the first day the parser reports a day. */
  lemma OneSecondIsADay()
    ensures ParseDaysSince(RetrainIso(DAY - 1), DAY) == Some(1)
  {
    hide ParseDaysSince, RetrainIso, AsU64;
    PrintThenParse(DAY - 1, DAY);
    Wrapped(1);
  }

  // ---- the retraining decision ----

  datatype Reason = NeedSamples | NeverTrained | Due(days: nat) | Wait(days: nat, remaining: nat)

  datatype Decision = Decision(shouldRetrain: bool, reason: Reason, approvedCount: nat, daysSinceLast: Option<nat>)

  /** `RetrainScheduler::check`, with the stored timestamp (if any) and the clock as parameters. */
  function Check(minSamples: nat, intervalDays: nat, approved: int, edited: int, stored: Option<string>, now: nat)
    : Decision
  {
    var approvedCount := AsU64(approved + edited);
    var daysSince := if stored.None? then None else ParseDaysSince(stored.value, now);
    if approvedCount < minSamples then Decision(false, NeedSamples, approvedCount, daysSince)
    else
      match daysSince
      case None => Decision(true, NeverTrained, approvedCount, None)
      case Some(days) =>
        if days >= intervalDays then Decision(true, Due(days), approvedCount, daysSince)
        else Decision(false, Wait(days, intervalDays - days), approvedCount, daysSince)
  }

  /**
   After training at `trained`, a check at `now` asks for another run exactly when there are
   enough samples and either the interval has passed or the clock has gone back past midnight
   (the wrapped difference is larger than any practical interval).
   */
  lemma CheckAfterTraining(minSamples: nat, interval: nat, approved: nat, edited: nat, trained: nat, now: nat)
    requires trained / DAY < Y10K && now / DAY < Y10K
    requires approved + edited <= I64_MAX && interval <= I64_MAX
    ensures Check(minSamples, interval, approved, edited, Some(RetrainIso(trained)), now).shouldRetrain
            <==> approved + edited >= minSamples
                 && (now / DAY - trained / DAY >= interval || now / DAY < trained / DAY)
  {
    hide ParseDaysSince, RetrainIso, AsU64;
    PrintThenParse(trained, now);
    Wrapped(now / DAY - trained / DAY);
    Wrapped(approved + edited);
  }

  /** With no timestamp, or one that cannot be read, enough samples are enough, and fewer are not. */
  lemma CheckWithoutStamp(minSamples: nat, interval: nat, approved: nat, edited: nat, stored: Option<string>, now: nat)
    requires approved + edited <= I64_MAX
    requires stored.Some? ==> |stored.value| < 19 || ParseDate(stored.value) == None
    ensures var d := Check(minSamples, interval, approved, edited, stored, now);
            && (d.shouldRetrain <==> approved + edited >= minSamples)
            && d.approvedCount == approved + edited && d.daysSinceLast == None
  {
    hide ParseDate, RetrainIso;
    Wrapped(approved + edited);
  }
}
