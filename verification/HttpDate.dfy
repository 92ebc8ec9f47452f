/** Calendar fields from a unix second, and the IMF-fixdate of section 5.6.7 of RFC 9110. */
module HttpDate {
  import opened Bytes
  import opened Decimals

  datatype Date = Date(year: int, month: nat, day: nat, weekday: nat, hour: nat, minute: nat, second: nat)

  // ----- the Gregorian calendar, month by month

  predicate IsLeap(y: int) {
    y % 4 == 0 && (y % 100 != 0 || y % 400 == 0)
  }

  function YearLength(y: int): nat {
    if IsLeap(y) then 366 else 365
  }

  function MonthLength(y: int, m: nat): nat
    requires 1 <= m <= 12
  {
    if m == 2 then (if IsLeap(y) then 29 else 28)
    else if m == 4 || m == 6 || m == 9 || m == 11 then 30
    else 31
  }

  function DaysToMonth(y: int, m: nat): nat
    requires 1 <= m <= 13
  {
    if m == 1 then 0 else DaysToMonth(y, m - 1) + MonthLength(y, m - 1)
  }

  /** Days from the start of 1970 to the start of year `y`. */
  function DaysToYear(y: int): int {
    365 * (y - 1970) + LeapsBefore(y) - LeapsBefore(1970)
  }

  function LeapsBefore(y: int): int {
    (y - 1) / 4 - (y - 1) / 100 + (y - 1) / 400
  }

  /** Years follow one another at their lengths, from 1970 at day zero. */
  lemma {:induction false} YearsFollow(y: int)
    ensures DaysToYear(y + 1) == DaysToYear(y) + YearLength(y) && DaysToYear(1970) == 0
    ensures DaysToMonth(y, 13) == YearLength(y)
  {
    LeapStep(y);
    Months(y);
  }

  lemma {:induction false} LeapStep(y: int)
    ensures LeapsBefore(y + 1) == LeapsBefore(y) + if IsLeap(y) then 1 else 0
  {
    Floor(y, 4);
    Floor(y, 100);
    Floor(y, 400);
    Divided(y, 4, 25);
    Divided(y, 100, 4);
    CountLeaps(y, (y - 1) / 4, y / 4, (y - 1) / 100, y / 100, (y - 1) / 400, y / 400);
  }

  lemma {:induction false} Divided(y: int, n: nat, m: nat)
    requires n > 0 && m > 0
    ensures n * m > 0 && (y % (n * m) == 0 ==> y % n == 0)
  {
    assert n * m >= n by { MulBig(n, m); }
    if y % (n * m) == 0 {
      var q := y / (n * m);
      assert y == n * m * q == n * (m * q);
      DivIs(y, n, m * q, 0);
    }
  }

  lemma {:induction false} CountLeaps(y: int, a: int, b: int, c: int, d: int, e: int, f: int)
    requires b == a + (if y % 4 == 0 then 1 else 0) && d == c + (if y % 100 == 0 then 1 else 0)
    requires f == e + (if y % 400 == 0 then 1 else 0)
    requires (y % 100 == 0 ==> y % 4 == 0) && (y % 400 == 0 ==> y % 100 == 0)
    ensures b - d + f == a - c + e + if IsLeap(y) then 1 else 0
  {
  }

  lemma {:induction false} Floor(y: int, n: nat)
    requires n > 0
    ensures y / n == (y - 1) / n + if y % n == 0 then 1 else 0
  {
    var q, r := y / n, y % n;
    assert y == n * q + r;
    if r == 0 {
      assert n * (q - 1) == n * q - n;
      DivIs(y - 1, n, q - 1, n - 1);
    } else {
      DivIs(y - 1, n, q, r - 1);
    }
  }

  lemma {:induction false} MulBig(n: nat, d: int)
    ensures d >= 1 ==> n * d >= n
    ensures d <= -1 ==> n * d + n <= 0
  {
  }

  lemma {:induction false} DivIs(x: int, n: nat, q: int, r: int)
    requires n > 0 && x == n * q + r && 0 <= r < n
    ensures x / n == q && x % n == r
  {
    var d := x / n - q;
    assert x == n * (x / n) + x % n;
    assert n * d == n * (x / n) - n * q;
    MulBig(n, d);
  }

  lemma {:induction false} Months(y: int)
    ensures var f := MonthLength(y, 2);
            && DaysToMonth(y, 1) == 0 && DaysToMonth(y, 2) == 31 && DaysToMonth(y, 3) == 31 + f
            && DaysToMonth(y, 4) == 62 + f
            && DaysToMonth(y, 5) == 92 + f && DaysToMonth(y, 6) == 123 + f && DaysToMonth(y, 7) == 153 + f
            && DaysToMonth(y, 8) == 184 + f && DaysToMonth(y, 9) == 215 + f && DaysToMonth(y, 10) == 245 + f
            && DaysToMonth(y, 11) == 276 + f && DaysToMonth(y, 12) == 306 + f && DaysToMonth(y, 13) == 337 + f
  {
    hide IsLeap;
    assert DaysToMonth(y, 3) == DaysToMonth(y, 2) + MonthLength(y, 2);
    assert DaysToMonth(y, 5) == DaysToMonth(y, 4) + 30 == DaysToMonth(y, 3) + 61;
    assert DaysToMonth(y, 7) == DaysToMonth(y, 6) + 30 == DaysToMonth(y, 5) + 61;
    assert DaysToMonth(y, 9) == DaysToMonth(y, 8) + 31 == DaysToMonth(y, 7) + 62;
    assert DaysToMonth(y, 11) == DaysToMonth(y, 10) + 31 == DaysToMonth(y, 9) + 61;
    assert DaysToMonth(y, 13) == DaysToMonth(y, 12) + 31 == DaysToMonth(y, 11) + 61;
  }

  predicate ValidDay(y: int, m: nat, d: nat) {
    1 <= m <= 12 && 1 <= d <= MonthLength(y, m)
  }

  /** Days since the epoch, counted year by year and month by month. */
  function DayNumber(y: int, m: nat, d: nat): int
    requires ValidDay(y, m, d)
  {
    DaysToYear(y) + DaysToMonth(y, m) + d - 1
  }

  // ----- the conversion

  const SHIFT: int := 719_468
  const ERA: nat := 146_097

  function YearOfEra(doe: nat): int {
    (doe - doe / 1_460 + doe / 36_524 - doe / 146_096) / 365
  }

  datatype Civil = Civil(year: int, month: int, day: int)

  /** The epoch is moved to a first of March, so that leap days end their year. */
  function CivilFromDays(days: int): Civil {
    var z := days + SHIFT;
    var era, doe := z / ERA, z % ERA;
    var yoe := YearOfEra(doe);
    var doy := doe - (365 * yoe + yoe / 4 - yoe / 100);
    CivilFromMarch(yoe + era * 400, doy)
  }

  function CivilFromMarch(y: int, doy: int): Civil {
    var mp := (5 * doy + 2) / 153;
    var day := doy - (153 * mp + 2) / 5 + 1;
    var month := if mp < 10 then mp + 3 else mp - 9;
    Civil(if month <= 2 then y + 1 else y, month, day)
  }

  /** The fields are unsigned bytes; that month and day fit them is part of what is proved. */
  function FromUnix(secs: int): Date {
    var days, left := secs / 86_400, secs % 86_400;
    var c := CivilFromDays(days);
    Date(c.year, Byte(c.month), Byte(c.day), (days + 4) % 7, left / 3_600, left / 60 % 60, left % 60)
  }

  /** A truncating conversion to an unsigned byte. */
  function Byte(n: int): nat {
    n % 256
  }

  /** Whether the year counted from March ends in a leap day. */
  predicate EndsLeap(yoe: int) {
    (yoe + 1) % 4 == 0 && ((yoe + 1) % 100 != 0 || yoe == 399)
  }

  /** Century, cycle of four years, year and day pick out the year of the era. */
  lemma {:induction false} YearPicked(c: nat, q: nat, k: nat, doy: nat)
    requires c <= 3 && q <= 24 && k <= 3
    requires doy <= 364 || (doy == 365 && k == 3 && (q < 24 || c == 3))
    ensures YearOfEra(36_524 * c + 1_461 * q + 365 * k + doy) == 100 * c + 4 * q + k
  {
    var doe := 36_524 * c + 1_461 * q + 365 * k + doy;
    var t := 24 * c + q + 365 * k + doy;
    var late := if t >= 1_460 then 1 else 0;
    DivIs(doe, 1_460, 25 * c + q + late, t - 1_460 * late);
    var last := if doe == 146_096 then 1 else 0;
    DivIs(doe, 36_524, c + last, doe - 36_524 * (c + last));
    DivIs(doe, 146_096, last, doe - 146_096 * last);
    DivIs(36_500 * c + 1_460 * q + 365 * k + doy - late, 365, 100 * c + 4 * q + k, doy - late);
  }

  lemma {:induction false} PickYear(doe: nat) returns (c: nat, q: nat, k: nat, doy: nat)
    requires doe < ERA
    ensures c <= 3 && q <= 24 && k <= 3 && doe == 36_524 * c + 1_461 * q + 365 * k + doy
    ensures doy <= 364 || (doy == 365 && k == 3 && (q < 24 || c == 3))
  {
    c := if doe == 146_096 then 3 else doe / 36_524;
    var r := doe - 36_524 * c;
    q := r / 1_461;
    var s := r % 1_461;
    k := if s == 1_460 then 3 else s / 365;
    doy := s - 365 * k;
  }

  /** `doe` falls in the year of the era that the formula names. */
  lemma {:induction false} YearOfEraIs(doe: nat)
    requires doe < ERA
    ensures var yoe := YearOfEra(doe);
            var doy := doe - (365 * yoe + yoe / 4 - yoe / 100);
            0 <= yoe <= 399 && 0 <= doy <= 364 + if EndsLeap(yoe) then 1 else 0
  {
    hide YearOfEra, EndsLeap;
    var c, q, k, doy := PickYear(doe);
    YearPicked(c, q, k, doy);
    YearStart(c, q, k);
    if doy == 365 {
      LeapPicked(c, q);
    }
  }

  lemma {:induction false} YearStart(c: nat, q: nat, k: nat)
    requires c <= 3 && q <= 24 && k <= 3
    ensures var yoe := 100 * c + 4 * q + k; 365 * yoe + yoe / 4 - yoe / 100 == 36_524 * c + 1_461 * q + 365 * k
  {
    var yoe := 100 * c + 4 * q + k;
    DivIs(yoe, 4, 25 * c + q, k);
    DivIs(yoe, 100, c, 4 * q + k);
  }

  lemma {:induction false} LeapPicked(c: nat, q: nat)
    requires c <= 3 && q <= 24 && (q < 24 || c == 3)
    ensures EndsLeap(100 * c + 4 * q + 3)
  {
    var yoe := 100 * c + 4 * q + 3;
    DivIs(yoe + 1, 4, 25 * c + q + 1, 0);
    if q < 24 {
      DivIs(yoe + 1, 100, c, 4 * q + 4);
    }
  }

  /** Days to the months of a year counted from March. */
  lemma {:induction false} MonthOfYear(doy: nat)
    requires doy <= 365
    ensures var mp := (5 * doy + 2) / 153;
            var day := doy - (153 * mp + 2) / 5 + 1;
            && 0 <= mp <= 11 && 1 <= day
            && day <= if mp == 1 || mp == 3 || mp == 6 || mp == 8 then 30 else if mp == 11 then 29 else 31
  {
    var mp := (5 * doy + 2) / 153;
    DivIs(5 * doy + 2, 153, mp, (5 * doy + 2) % 153);
    assert 153 * mp <= 5 * doy + 2 < 153 * mp + 153;
    MonthStarts();
  }

  lemma {:induction false} MonthStarts()
    ensures (153 * 0 + 2) / 5 == 0 && (153 * 1 + 2) / 5 == 31 && (153 * 2 + 2) / 5 == 61 && (153 * 3 + 2) / 5 == 92
    ensures (153 * 4 + 2) / 5 == 122 && (153 * 5 + 2) / 5 == 153 && (153 * 6 + 2) / 5 == 184 && (153 * 7 + 2) / 5 == 214
    ensures (153 * 8 + 2) / 5 == 245 && (153 * 9 + 2) / 5 == 275 && (153 * 10 + 2) / 5 == 306
            && (153 * 11 + 2) / 5 == 337
  {
  }

  /** The first of March, by the calendar. */
  lemma {:induction false} MarchStart(y: int)
    ensures DaysToYear(y) + DaysToMonth(y, 3) == 365 * y + y / 4 - y / 100 + y / 400 - SHIFT
    ensures DaysToYear(y + 1) == DaysToYear(y) + DaysToMonth(y, 3) + 306
  {
    Months(y);
    LeapStep(y);
    Floor(y, 4);
    Floor(y, 100);
    Floor(y, 400);
    YearsFollow(y);
  }

  lemma {:induction false} EraYears(yoe: int, era: int)
    requires 0 <= yoe <= 399
    ensures var y := yoe + era * 400;
            && y / 4 == yoe / 4 + 100 * era && y / 100 == yoe / 100 + 4 * era && y / 400 == era
            && (EndsLeap(yoe) ==> IsLeap(y + 1))
  {
    var y := yoe + era * 400;
    DivIs(y, 4, yoe / 4 + 100 * era, yoe % 4);
    DivIs(y, 100, yoe / 100 + 4 * era, yoe % 100);
    DivIs(y, 400, era, yoe);
    if EndsLeap(yoe) {
      DivIs(y + 1, 4, (yoe + 1) / 4 + 100 * era, 0);
      if yoe == 399 {
        DivIs(y + 1, 400, era + 1, 0);
      } else {
        DivIs(y + 1, 100, (yoe + 1) / 100 + 4 * era, (yoe + 1) % 100);
      }
    }
  }

  /** A day of the year counted from March is a valid calendar day, with the right number. */
  lemma {:induction false} FromMarch(y: int, doy: nat)
    requires doy <= 365 && (doy == 365 ==> IsLeap(y + 1))
    ensures var c := CivilFromMarch(y, doy);
            && 1 <= c.month <= 12 && 1 <= c.day <= 31 && ValidDay(c.year, c.month, c.day)
            && DayNumber(c.year, c.month, c.day) == DaysToYear(y) + DaysToMonth(y, 3) + doy
  {
    MonthOfYear(doy);
    MarchStart(y);
    Months(y);
    Months(y + 1);
    MonthStarts();
    hide IsLeap, DaysToYear;
    var mp := (5 * doy + 2) / 153;
    var month := if mp < 10 then mp + 3 else mp - 9;
    var year := if month <= 2 then y + 1 else y;
    assert DaysToMonth(year, month) == if mp < 10 then DaysToMonth(y, 3) + (153 * mp + 2) / 5
                                       else (153 * mp + 2) / 5 - 306;
  }

  function ToUnix(d: Date): int
    requires ValidDay(d.year, d.month, d.day)
  {
    DayNumber(d.year, d.month, d.day) * 86_400 + d.hour * 3_600 + d.minute * 60 + d.second
  }

  predicate ValidTime(d: Date) {
    d.hour <= 23 && d.minute <= 59 && d.second <= 59
  }

  lemma {:induction false} DaysSplit(days: int)
    ensures var z := days + SHIFT;
            var era, doe := z / ERA, z % ERA;
            var yoe := YearOfEra(doe);
            var doy := doe - (365 * yoe + yoe / 4 - yoe / 100);
            && 0 <= doy <= 365 && (doy == 365 ==> IsLeap(yoe + era * 400 + 1))
            && DaysToYear(yoe + era * 400) + DaysToMonth(yoe + era * 400, 3) + doy == days
  {
    hide YearOfEra, IsLeap, DaysToYear, DaysToMonth, EndsLeap;
    var z := days + SHIFT;
    var era, doe := z / ERA, z % ERA;
    YearOfEraIs(doe);
    var yoe := YearOfEra(doe);
    EraYears(yoe, era);
    MarchStart(yoe + era * 400);
  }

  lemma {:induction false} TimeSplit(left: nat)
    requires left < 86_400
    ensures left == left / 3_600 * 3_600 + left / 60 % 60 * 60 + left % 60 && left / 3_600 <= 23
  {
    var m := left / 60;
    DivIs(left, 3_600, m / 60, left - 3_600 * (m / 60));
  }

  lemma {:induction false} CivilIs(days: int)
    ensures var c := CivilFromDays(days);
            1 <= c.month <= 12 && 1 <= c.day <= 31 && ValidDay(c.year, c.month,
                                                               c.day) && DayNumber(c.year, c.month, c.day) == days
  {
    hide YearOfEra, IsLeap, DaysToYear, DaysToMonth, MonthLength, CivilFromMarch;
    DaysSplit(days);
    var z := days + SHIFT;
    var era, doe := z / ERA, z % ERA;
    var yoe := YearOfEra(doe);
    FromMarch(yoe + era * 400, doe - (365 * yoe + yoe / 4 - yoe / 100));
  }

  /** For every second, the fields are a valid date and time, and counting them back gives the second. */
  lemma {:induction false} FromUnixIsCalendar(secs: int)
    ensures var d := FromUnix(secs);
            && ValidDay(d.year, d.month, d.day) && ValidTime(d) && ToUnix(d) == secs
            && d.weekday == (secs / 86_400 + 4) % 7
  {
    hide CivilFromDays, DayNumber, ValidDay;
    CivilIs(secs / 86_400);
    TimeSplit(secs % 86_400);
  }

  // ----- no other date has that number

  lemma {:induction false} YearsGrow(y: int, z: int)
    requires y < z
    ensures DaysToYear(y) + YearLength(y) <= DaysToYear(z)
    decreases z - y
  {
    YearsFollow(z - 1);
    if y < z - 1 {
      YearsGrow(y, z - 1);
    }
  }

  lemma {:induction false} MonthsGrow(y: int, m: nat, n: nat)
    requires 1 <= m < n <= 13
    ensures DaysToMonth(y, m) + MonthLength(y, m) <= DaysToMonth(y, n)
    decreases n - m
  {
    if m < n - 1 {
      MonthsGrow(y, m, n - 1);
    }
  }

  /** A later day has a larger number: the calendar counts every day once. */
  lemma {:induction false} DaysGrow(y: int, m: nat, d: nat, z: int, n: nat, e: nat)
    requires ValidDay(y, m, d) && ValidDay(z, n, e)
    requires y < z || (y == z && (m < n || (m == n && d < e)))
    ensures DayNumber(y, m, d) < DayNumber(z, n, e)
  {
    hide DaysToYear, DaysToMonth, YearLength, MonthLength;
    if y < z {
      YearsGrow(y, z);
      YearsFollow(y);
      MonthsGrow(y, m, 13);
    } else if m < n {
      MonthsGrow(y, m, n);
    }
  }

  /** Every valid date and time is found again from its second, with the weekday of its day. */
  lemma {:induction false} CalendarIsFromUnix(d: Date)
    requires ValidDay(d.year, d.month, d.day) && ValidTime(d)
    ensures FromUnix(ToUnix(d)) == d.(weekday := (DayNumber(d.year, d.month, d.day) + 4) % 7)
  {
    hide FromUnix, DayNumber, ValidDay;
    var secs := ToUnix(d);
    var f := FromUnix(secs);
    FromUnixIsCalendar(secs);
    var n, t := DayNumber(d.year, d.month, d.day), d.hour * 3_600 + d.minute * 60 + d.second;
    DivIs(secs, 86_400, n, t);
    SameTime(d);
    var u := f.hour * 3_600 + f.minute * 60 + f.second;
    SameTime(f);
    DivIs(secs, 86_400, DayNumber(f.year, f.month, f.day), u);
    SameDay(f, d);
  }

  lemma {:induction false} SameTime(d: Date)
    requires ValidTime(d)
    ensures var t := d.hour * 3_600 + d.minute * 60 + d.second;
            t < 86_400 && t / 3_600 == d.hour && t / 60 % 60 == d.minute && t % 60 == d.second
  {
    var t := d.hour * 3_600 + d.minute * 60 + d.second;
    DivIs(t, 3_600, d.hour, d.minute * 60 + d.second);
    DivIs(t, 60, d.hour * 60 + d.minute, d.second);
    DivIs(d.hour * 60 + d.minute, 60, d.hour, d.minute);
  }

  lemma {:induction false} SameDay(f: Date, d: Date)
    requires ValidDay(f.year, f.month, f.day) && ValidDay(d.year, d.month, d.day)
    requires DayNumber(f.year, f.month, f.day) == DayNumber(d.year, d.month, d.day)
    ensures f.year == d.year && f.month == d.month && f.day == d.day
  {
    hide DayNumber, ValidDay;
    var fl := f.year < d.year || (f.year == d.year && (f.month < d.month || (f.month == d.month && f.day < d.day)));
    var dl := d.year < f.year || (d.year == f.year && (d.month < f.month || (d.month == f.month && d.day < f.day)));
    if fl {
      DaysGrow(f.year, f.month, f.day, d.year, d.month, d.day);
    } else if dl {
      DaysGrow(d.year, d.month, d.day, f.year, f.month, f.day);
    }
  }

  /** A day later the weekday is the next one. */
  lemma {:induction false} WeekdaysFollow(secs: int)
    ensures FromUnix(secs + 86_400).weekday == (FromUnix(secs).weekday + 1) % 7
    ensures FromUnix(0).weekday == 4
  {
    hide CivilFromDays;
    DivIs(secs + 86_400, 86_400, secs / 86_400 + 1, secs % 86_400);
  }

  // ----- rendering

  function MonthName(m: nat): (r: bytes)
    requires 1 <= m <= 12
    ensures |r| == 3
  {
    if m == 1 then [74, 97, 110] // Jan
    else if m == 2 then [70, 101, 98] // Feb
    else if m == 3 then [77, 97, 114] // Mar
    else if m == 4 then [65, 112, 114] // Apr
    else if m == 5 then [77, 97, 121] // May
    else if m == 6 then [74, 117, 110] // Jun
    else if m == 7 then [74, 117, 108] // Jul
    else if m == 8 then [65, 117, 103] // Aug
    else if m == 9 then [83, 101, 112] // Sep
    else if m == 10 then [79, 99, 116] // Oct
    else if m == 11 then [78, 111, 118] // Nov
    else [68, 101, 99] // Dec
  }

  function WeekdayName(w: nat): (r: bytes)
    requires w <= 6
    ensures |r| == 3
  {
    if w == 0 then [83, 117, 110] // Sun
    else if w == 1 then [77, 111, 110] // Mon
    else if w == 2 then [84, 117, 101] // Tue
    else if w == 3 then [87, 101, 100] // Wed
    else if w == 4 then [84, 104, 117] // Thu
    else if w == 5 then [70, 114, 105] // Fri
    else [83, 97, 116] // Sat
  }

  function Two(n: nat): (r: bytes)
    requires n <= 99
    ensures |r| == 2
  {
    [48 + n / 10, 48 + n % 10]
  }

  function Zeros(n: int): (r: bytes)
    ensures |r| == if n < 0 then 0 else n
  {
    if n <= 0 then [] else [48] + Zeros(n - 1)
  }

  /** At least four characters, zeros after the sign. */
  function YearText(y: int): bytes {
    if y >= 0 then Zeros(4 - |Decimal(y)|) + Decimal(y) else [45] + (Zeros(3 - |Decimal(-y)|) + Decimal(-y))
  }

  function ClockText(d: Date): (r: bytes)
    requires ValidTime(d)
    ensures |r| == 8
  {
    Two(d.hour) + [COLON] + Two(d.minute) + [COLON] + Two(d.second)
  }

  function Render(d: Date): bytes
    requires ValidDay(d.year, d.month, d.day) && ValidTime(d) && d.weekday <= 6
  {
    WeekdayName(d.weekday) + [44, SP] + Two(d.day) + [SP] + MonthName(d.month) + [SP]
    + (YearText(d.year) + ([SP] + ClockText(d) + [SP, 71, 77, 84]))
  }

  const I64_MIN: int := -0x8000_0000_0000_0000
  const I64_MAX: int := 0x7FFF_FFFF_FFFF_FFFF

  lemma {:induction false} LeapsAround(y: int)
    ensures y >= 1970 ==> DaysToYear(y) >= 365 * (y - 1970)
    ensures y <= 1970 ==> DaysToYear(y) <= 365 * (y - 1970)
  {
    if y > 1970 {
      YearsGrow(1970, y);
      MoreThan(1970, y);
    } else if y < 1970 {
      MoreThan(y, 1970);
    }
    YearsFollow(1970);
  }

  lemma {:induction false} MoreThan(y: int, z: int)
    requires y <= z
    ensures DaysToYear(z) - DaysToYear(y) >= 365 * (z - y)
    decreases z - y
  {
    if y < z {
      MoreThan(y, z - 1);
      YearsFollow(z - 1);
    }
  }

  /** The years a 64-bit second can name have at most twelve digits. */
  lemma {:induction false} YearBound(secs: int)
    requires I64_MIN <= secs <= I64_MAX
    ensures -1_000_000_000_000 < FromUnix(secs).year < 1_000_000_000_000
  {
    hide FromUnix, DaysToYear, DaysToMonth, IsLeap;
    var d := FromUnix(secs);
    FromUnixIsCalendar(secs);
    LeapsAround(d.year);
    YearsFollow(d.year);
    MonthsGrow(d.year, d.month, 13);
  }

  lemma {:induction false} YearTextFits(y: int)
    requires -1_000_000_000_000 < y < 1_000_000_000_000
    ensures |YearText(y)| <= 13
    ensures 0 <= y <= 9999 ==> |YearText(y)| == 4 && YearText(y) == Zeros(4 - |Decimal(y)|) + Decimal(y)
  {
    hide Decimal, Zeros;
    Powers();
    DecimalLength(if y >= 0 then y else -y, 12);
    if 0 <= y <= 9999 {
      DecimalLength(y, 4);
    }
  }

  /** Every second's rendering fits the cache's buffer, and is 29 bytes for a year of four digits. */
  lemma {:induction false} RenderingFits(secs: int)
    requires I64_MIN <= secs <= I64_MAX
    ensures var d := FromUnix(secs);
            && ValidDay(d.year, d.month, d.day) && ValidTime(d) && d.weekday <= 6
            && |Render(d)| <= 40 && (0 <= d.year <= 9999 ==> |Render(d)| == 29)
  {
    hide FromUnix, YearText, ClockText, MonthName, WeekdayName, Two, ValidDay, ToUnix;
    FromUnixIsCalendar(secs);
    YearBound(secs);
    YearTextFits(FromUnix(secs).year);
    MonthIs(FromUnix(secs));
  }

  lemma {:induction false} MonthIs(d: Date)
    requires ValidDay(d.year, d.month, d.day)
    ensures 1 <= d.month <= 12 && 1 <= d.day <= 31
  {
  }

  // ----- reading a rendering back

  function MonthOf(b: bytes): Option<nat> {
    if b == [74, 97, 110] then Some(1)
    else if b == [70, 101, 98] then Some(2)
    else if b == [77, 97, 114] then Some(3)
    else if b == [65, 112, 114] then Some(4)
    else if b == [77, 97, 121] then Some(5)
    else if b == [74, 117, 110] then Some(6)
    else if b == [74, 117, 108] then Some(7)
    else if b == [65, 117, 103] then Some(8)
    else if b == [83, 101, 112] then Some(9)
    else if b == [79, 99, 116] then Some(10)
    else if b == [78, 111, 118] then Some(11)
    else if b == [68, 101, 99] then Some(12)
    else None
  }

  function WeekdayOf(b: bytes): Option<nat> {
    if b == [83, 117, 110] then Some(0)
    else if b == [77, 111, 110] then Some(1)
    else if b == [84, 117, 101] then Some(2)
    else if b == [87, 101, 100] then Some(3)
    else if b == [84, 104, 117] then Some(4)
    else if b == [70, 114, 105] then Some(5)
    else if b == [83, 97, 116] then Some(6)
    else None
  }

  function Number(s: bytes): int {
    ValueOf(s, |s|)
  }

  function Signed(s: bytes): int {
    if s != [] && s[0] == 45 then -Number(s[1..]) else Number(s)
  }

  /** The marks between the fields of an IMF-fixdate. */
  predicate Punctuated(s: bytes)
    requires |s| >= 29
  {
    var n := |s|;
    && s[3..5] == Ascii(", ") && s[7..8] == Ascii(" ") && s[11..12] == Ascii(" ") && s[n - 13..n - 12] == Ascii(" ")
    && s[n - 10..n - 9] == Ascii(":") && s[n - 7..n - 6] == Ascii(":") && s[n - 4..] == Ascii(" GMT")
  }

  /** The fields of a rendering, by position; the year takes what the fixed parts around it leave. */
  function Fields(s: bytes): Option<Date> {
    if |s| < 29 || !Punctuated(s) || WeekdayOf(s[..3]).None? || MonthOf(s[8..11]).None? then None
    else
      var n := |s|;
      var day, year := Number(s[5..7]), Signed(s[12..n - 13]);
      var hour, minute, second := Number(s[n - 12..n - 10]), Number(s[n - 9..n - 7]), Number(s[n - 6..n - 4]);
      if day < 0 || hour < 0 || minute < 0 || second < 0 then None
      else Some(Date(year, MonthOf(s[8..11]).value, day, WeekdayOf(s[..3]).value, hour, minute, second))
  }

  const MONTHS: seq<string> := ["Jan", "Feb", "Mar", "Apr", "May", "Jun", "Jul", "Aug", "Sep", "Oct", "Nov", "Dec"]
  const WEEKDAYS: seq<string> := ["Sun", "Mon", "Tue", "Wed", "Thu", "Fri", "Sat"]

  /** Months are named as in section 5.6.7 of RFC 9110. */
  lemma {:induction false} MonthNamed(m: nat)
    requires 1 <= m <= 12
    ensures MonthName(m) == Ascii(MONTHS[m - 1])
  {
    assert |MONTHS[m - 1]| == 3;
  }

  /** And so are the days of the week. */
  lemma {:induction false} WeekdayNamed(w: nat)
    requires w <= 6
    ensures WeekdayName(w) == Ascii(WEEKDAYS[w])
  {
    assert |WEEKDAYS[w]| == 3;
  }

  lemma {:induction false} NamesRead(m: nat, w: nat)
    requires 1 <= m <= 12 && w <= 6
    ensures MonthOf(MonthName(m)) == Some(m) && WeekdayOf(WeekdayName(w)) == Some(w)
  {
  }

  lemma {:induction false} TwoReads(n: nat)
    requires n <= 99
    ensures Number(Two(n)) == n
  {
    assert ValueOf(Two(n), 0) == 0;
    assert ValueOf(Two(n), 1) == n / 10;
  }

  lemma {:induction false} PaddedReads(k: int, n: nat)
    ensures Number(Zeros(k) + Decimal(n)) == n
    decreases k
  {
    if k <= 0 {
      Empties(Decimal(n));
      DecimalReads(n);
    } else {
      PaddedReads(k - 1, n);
      AppendAppend([48], Zeros(k - 1), Decimal(n));
      LeadingZero(Zeros(k - 1) + Decimal(n), |Zeros(k - 1) + Decimal(n)|);
    }
  }

  lemma {:induction false} LeadingZero(s: bytes, n: nat)
    requires n <= |s|
    ensures ValueOf([48] + s, n + 1) == ValueOf(s, n)
  {
    if n > 0 {
      LeadingZero(s, n - 1);
    } else {
      assert ValueOf([48] + s, 0) == 0;
    }
  }

  /** What each position of a rendering with a four-digit year holds. */
  lemma {:induction false} Positions(d: Date)
    requires ValidDay(d.year, d.month, d.day) && ValidTime(d) && d.weekday <= 6 && |YearText(d.year)| >= 4
    ensures var s := Render(d);
            var n := |s|;
            && n >= 29 && s[..3] == WeekdayName(d.weekday) && s[5..7] == Two(d.day) && s[8..11] == MonthName(d.month)
            && s[12..n - 13] == YearText(d.year)
            && s[n - 12..n - 10] == Two(d.hour) && s[n - 9..n - 7] == Two(d.minute) && s[n - 6..n - 4] == Two(d.second)
            && Punctuated(s)
  {
    hide YearText, MonthName, WeekdayName, Two;
    var tail := [SP] + ClockText(d) + [SP, 71, 77, 84];
    var pre := WeekdayName(d.weekday) + [44, SP] + Two(d.day) + [SP] + MonthName(d.month) + [SP];
    var s := Render(d);
    assert s == pre + (YearText(d.year) + tail);
    assert pre[..3] == WeekdayName(d.weekday) && pre[5..7] == Two(d.day) && pre[8..11] == MonthName(d.month);
    assert tail[1..3] == Two(d.hour) && tail[4..6] == Two(d.minute) && tail[7..9] == Two(d.second);
    PositionsIn(pre, YearText(d.year), tail);
    assert pre[3..5] == [44, SP] && pre[7..8] == [SP] && pre[11..12] == [SP];
    assert tail[0..1] == [SP] && tail[3..4] == [COLON] && tail[6..7] == [COLON] && tail[9..] == [SP, 71, 77, 84];
    MarksIn(pre, YearText(d.year), tail);
  }

  lemma {:induction false} PositionsIn(pre: bytes, year: bytes, tail: bytes)
    requires |pre| == 12 && |year| >= 4 && |tail| == 13
    ensures var s := pre + (year + tail);
            var n := |s|;
            && s[..3] == pre[..3] && s[5..7] == pre[5..7] && s[8..11] == pre[8..11] && s[12..n - 13] == year
            && s[n - 12..n - 10] == tail[1..3] && s[n - 9..n - 7] == tail[4..6] && s[n - 6..n - 4] == tail[7..9]
  {
    var s := pre + (year + tail);
    assert s == pre + year + tail;
    Halves(pre + year, tail);
    var n := |s|;
    assert s[n - 12..n - 10] == s[n - 13..][1..3] && s[n - 9..n - 7] == s[n - 13..][4..6]
           && s[n - 6..n - 4] == s[n - 13..][7..9];
    assert s[12..n - 13] == s[..n - 13][12..];
  }

  lemma {:induction false} MarksIn(pre: bytes, year: bytes, tail: bytes)
    requires |pre| == 12 && |year| >= 4 && |tail| == 13
    requires pre[3..5] == [44, SP] && pre[7..8] == [SP] && pre[11..12] == [SP]
    requires tail[0..1] == [SP] && tail[3..4] == [COLON] && tail[6..7] == [COLON] && tail[9..] == [SP, 71, 77, 84]
    ensures Punctuated(pre + (year + tail))
  {
    var s := pre + (year + tail);
    assert s == pre + year + tail;
    Halves(pre + year, tail);
    var n := |s|;
    assert s[3..5] == pre[3..5] && s[7..8] == pre[7..8] && s[11..12] == pre[11..12];
    assert s[n - 13..n - 12] == s[n - 13..][0..1] && s[n - 10..n - 9] == s[n - 13..][3..4]
           && s[n - 7..n - 6] == s[n - 13..][6..7] && s[n - 4..] == s[n - 13..][9..];
    Marks();
  }

  lemma {:induction false} Marks()
    ensures Ascii(", ") == [44, SP] && Ascii(" ") == [SP] && Ascii(":") == [COLON] && Ascii(" GMT") == [SP, 71, 77, 84]
  {
  }

  /** The padded digits of a year, and its sign, read back as the year. */
  lemma {:induction false} YearReads(y: int)
    ensures |YearText(y)| >= 4 && Signed(YearText(y)) == y
  {
    hide Number, Zeros, Decimal;
    if y >= 0 {
      PaddedReads(4 - |Decimal(y)|, y);
      StartsWithDigit(4 - |Decimal(y)|, y);
    } else {
      PaddedReads(3 - |Decimal(-y)|, -y);
      assert YearText(y)[1..] == Zeros(3 - |Decimal(-y)|) + Decimal(-y);
    }
  }

  lemma {:induction false} StartsWithDigit(k: int, n: nat)
    ensures var s := Zeros(k) + Decimal(n); s == [] || s[0] != 45
  {
  }

  /** For every second, the rendering reads back as exactly its calendar fields. */
  lemma {:induction false} RenderingReads(secs: int)
    requires I64_MIN <= secs <= I64_MAX
    ensures var d := FromUnix(secs);
            ValidDay(d.year, d.month, d.day) && ValidTime(d) && d.weekday <= 6 && Fields(Render(d)) == Some(d)
  {
    hide FromUnix, MonthName, WeekdayName, Two, Number, Signed, Render, ValidDay, MonthOf, WeekdayOf, YearText;
    RenderingFits(secs);
    var d := FromUnix(secs);
    YearReads(d.year);
    Positions(d);
    MonthIs(d);
    NamesRead(d.month, d.weekday);
    TwoReads(d.day);
    TwoReads(d.hour);
    TwoReads(d.minute);
    TwoReads(d.second);
  }

  // ----- the cache

  class DateCache {
    var sec: Option<int>
    var len: nat
    const text: array<byte>

    /** The buffer holds the rendering of the second it is labelled with. */
    ghost predicate Valid()
      reads this, text
    {
      && text.Length == 40 && len <= 40
      && (sec.Some? ==> I64_MIN <= sec.value <= I64_MAX && text[..len] == Rendering(sec.value))
    }

    constructor ()
      ensures Valid() && fresh(text)
    {
      sec, len, text := None, 0, new byte[40](_ => 0);
    }

    /** The rendering of `secs`, made anew only when the second changes. */
    method Render(secs: int) returns (r: bytes)
      requires Valid() && I64_MIN <= secs <= I64_MAX
      modifies this, text
      ensures Valid() && r == Rendering(secs)
    {
      if sec != Some(secs) {
        var text' := Rendering(secs);
        RenderingFits(secs);
        forall i | 0 <= i < |text'| {
          text[i] := text'[i];
        }
        len, sec := |text'|, Some(secs);
        assert text[..len] == text';
      }
      r := text[..len];
    }
  }

  function Rendering(secs: int): bytes
    requires I64_MIN <= secs <= I64_MAX
  {
    FromUnixIsCalendar(secs);
    Render(FromUnix(secs))
  }
}
