/** Civil dates from day counts, and the timestamp text built on them. */
module CivilDate {
  import opened Decimal

  const U64_MAX: nat := 0xFFFF_FFFF_FFFF_FFFF
  const U32: nat := 0x1_0000_0000
  const DAY: nat := 86400

  datatype Date = Date(year: nat, month: nat, day: nat)

  // ----- the calendar -----

  predicate IsLeap(year: nat) {
    year % 4 == 0 && (year % 100 != 0 || year % 400 == 0)
  }

  function DaysIn(year: nat, month: nat): nat {
    if month == 2 then (if IsLeap(year) then 29 else 28)
    else if month == 4 || month == 6 || month == 9 || month == 11 then 30
    else 31
  }

  predicate ValidDate(d: Date) {
    1 <= d.month <= 12 && 1 <= d.day <= DaysIn(d.year, d.month)
  }

  function NextDay(d: Date): Date {
    if d.day < DaysIn(d.year, d.month) then d.(day := d.day + 1)
    else if d.month < 12 then Date(d.year, d.month + 1, 1)
    else Date(d.year + 1, 1, 1)
  }

  predicate Before(a: Date, b: Date) {
    a.year < b.year || (a.year == b.year && (a.month < b.month || (a.month == b.month && a.day < b.day)))
  }

  // ----- the conversion -----

  const EPOCH: nat := 719468

  function YearOfEra(doe: nat): nat
    requires doe < 146097
  {
    (doe - doe / 1460 + doe / 36524 - doe / 146096) / 365
  }

  function YearStart(yoe: nat): nat {
    365 * yoe + yoe / 4 - yoe / 100
  }

  function MonthOf(mp: nat): nat {
    if mp < 10 then mp + 3 else mp - 9
  }

  function MonthStart(mp: nat): nat {
    (153 * mp + 2) / 5
  }

  /** The date before its year is cut to 32 bits. Day counts from the epoch never make `z` negative. */
  function Civil(days: nat): Date {
    var z := days + EPOCH;
    var era := z / 146097;
    var doe := z - era * 146097;
    var yoe := YearOfEra(doe);
    EraYear(doe);
    var doy := doe - YearStart(yoe);
    var mp := (5 * doy + 2) / 153;
    var d := doy - MonthStart(mp) + 1;
    var m := MonthOf(mp);
    var y := yoe + era * 400;
    Date(if m <= 2 then y + 1 else y, m, d)
  }

  function DaysToYmd(days: nat): Date {
    var d := Civil(days);
    d.(year := d.year % U32)
  }

  /** The year, beginning in March, that a date belongs to, and its day in that year. */
  function MarchYear(date: Date): int {
    if date.month <= 2 then date.year as int - 1 else date.year
  }

  function MarchDay(date: Date): int
    requires 1 <= date.month <= 12
  {
    MonthStart((date.month + 9) % 12) + date.day - 1
  }

  function DaysFromMarch(y: int, doy: int): int {
    var era := y / 400;
    var yoe := y - era * 400;
    era * 146097 + yoe * 365 + yoe / 4 - yoe / 100 + doy - EPOCH
  }

  /** The usual inverse: days from a civil date, counted from March. */
  function DaysFromCivil(date: Date): int
    requires 1 <= date.month <= 12
  {
    DaysFromMarch(MarchYear(date), MarchDay(date))
  }

  // ----- one era, as centuries, four-year cycles, years and days -----

  /** Day `j` of year `k` of cycle `q` of century `c`; the 366th day only at the end of a leap year. */
  predicate InEra(c: int, q: int, k: int, j: int) {
    && 0 <= c < 4 && 0 <= q < 25 && 0 <= k < 4 && 0 <= j <= 365
    && (j == 365 ==> k == 3 && (q < 24 || c == 3))
  }

  function DayOfEra(c: int, q: int, k: int, j: int): int {
    36524 * c + 1461 * q + 365 * k + j
  }

  lemma Quotients(c: int, q: int, k: int, j: int)
    requires InEra(c, q, k, j)
    ensures var doe := DayOfEra(c, q, k, j);
      && 0 <= doe < 146097
      && doe / 1460 == 25 * c + q + (if 24 * c + q + 365 * k + j >= 1460 then 1 else 0)
      && doe / 36524 - doe / 146096 == c
  {
  }

  lemma YearStartIs(c: int, q: int, k: int)
    requires 0 <= c < 4 && 0 <= q < 25 && 0 <= k < 4
    ensures YearStart(100 * c + 4 * q + k) == DayOfEra(c, q, k, 0)
  {
    var yoe := 100 * c + 4 * q + k;
    assert yoe / 4 == 25 * c + q && yoe / 100 == c;
  }

  lemma Years(n: int, r: int)
    requires 0 <= r < 365
    ensures (365 * n + r) / 365 == n
  {
  }

  lemma YearOfEraIs(c: int, q: int, k: int, j: int)
    requires InEra(c, q, k, j)
    ensures var doe := DayOfEra(c, q, k, j);
      && 0 <= doe < 146097
      && YearOfEra(doe) == 100 * c + 4 * q + k && YearStart(100 * c + 4 * q + k) == doe - j
  {
    Quotients(c, q, k, j);
    YearStartIs(c, q, k);
    var doe := DayOfEra(c, q, k, j);
    var r := j - (doe / 1460 - 25 * c - q);
    assert doe - doe / 1460 + doe / 36524 - doe / 146096 == 365 * (100 * c + 4 * q + k) + r;
    Years(100 * c + 4 * q + k, r);
  }

  lemma Decompose(doe: nat) returns (c: int, q: int, k: int, j: int)
    requires doe < 146097
    ensures InEra(c, q, k, j) && doe == DayOfEra(c, q, k, j)
  {
    c := if doe / 36524 < 4 then doe / 36524 else 3;
    var r := doe - 36524 * c;
    q := r / 1461;
    var t := r - 1461 * q;
    k := if t / 365 < 4 then t / 365 else 3;
    j := t - 365 * k;
  }

  /** The year found begins at or before the day, and the next one after it. */
  lemma EraYear(doe: nat)
    requires doe < 146097
    ensures YearOfEra(doe) < 400 && YearStart(YearOfEra(doe)) <= doe <= YearStart(YearOfEra(doe)) + 365
    ensures MonthStart((5 * (doe - YearStart(YearOfEra(doe))) + 2) / 153) <= doe - YearStart(YearOfEra(doe))
  {
    var c, q, k, j := Decompose(doe);
    YearOfEraIs(c, q, k, j);
  }

  // ----- months, counted from March -----

  predicate IsMonth(mp: int) {
    0 <= mp < 12
  }

  /** The longest the month can be. */
  function MonthLength(mp: int): nat {
    if mp == 11 then 29 else if mp == 1 || mp == 3 || mp == 6 || mp == 8 then 30 else 31
  }

  lemma MonthOfDay(j: nat)
    requires j <= 365
    ensures var mp := (5 * j + 2) / 153;
      IsMonth(mp) && MonthStart(mp) <= j < MonthStart(mp) + MonthLength(mp)
      && (mp == 11 && j - MonthStart(mp) + 1 == 29 <==> j == 365)
  {
  }

  lemma MonthIs(mp: nat, j: nat)
    requires IsMonth(mp) && MonthStart(mp) <= j < MonthStart(mp) + MonthLength(mp)
    ensures j <= 365 && (5 * j + 2) / 153 == mp && (j == 365 ==> mp == 11)
  {
  }

  lemma Rem4(a: int, r: int)
    requires 0 <= r < 4
    ensures (4 * a + r) % 4 == r
  {
  }

  lemma Rem100(a: int, r: int)
    requires 0 <= r < 100
    ensures (100 * a + r) % 100 == r
  {
  }

  lemma Rem400(a: int, r: int)
    requires 0 <= r < 400
    ensures (400 * a + r) % 400 == r
  {
  }

  lemma Fours(era: nat, c: int, q: int, k: int)
    requires 0 <= k < 4
    ensures (400 * era + 100 * c + 4 * q + k + 1) % 4 == 0 <==> k == 3
  {
    var a := 100 * era + 25 * c + q;
    if k == 3 { Rem4(a + 1, 0); } else { Rem4(a, k + 1); }
  }

  lemma Hundreds(era: nat, c: int, q: int, k: int)
    requires 0 <= q < 25 && 0 <= k < 4
    ensures (400 * era + 100 * c + 4 * q + k + 1) % 100 == 0 <==> q == 24 && k == 3
  {
    var a := 4 * era + c;
    if q == 24 && k == 3 { Rem100(a + 1, 0); } else { Rem100(a, 4 * q + k + 1); }
  }

  lemma FourHundreds(era: nat, c: int, q: int, k: int)
    requires 0 <= c < 4 && 0 <= q < 25 && 0 <= k < 4
    ensures (400 * era + 100 * c + 4 * q + k + 1) % 400 == 0 <==> c == 3 && q == 24 && k == 3
  {
    if c == 3 && q == 24 && k == 3 { Rem400(era + 1, 0); } else { Rem400(era, 100 * c + 4 * q + k + 1); }
  }

  lemma LeapYear(era: nat, c: int, q: int, k: int)
    requires 0 <= c < 4 && 0 <= q < 25 && 0 <= k < 4
    ensures IsLeap((400 * era + 100 * c + 4 * q + k + 1) as nat) <==> k == 3 && (q < 24 || c == 3)
  {
    Fours(era, c, q, k);
    Hundreds(era, c, q, k);
    FourHundreds(era, c, q, k);
  }

  /** The date of day `j` of a year that begins in March of `year`. */
  function FromMarch(year: nat, j: nat): Date
    requires j <= 365
  {
    MonthOfDay(j);
    var mp := (5 * j + 2) / 153;
    var m := MonthOf(mp);
    Date(if m <= 2 then year + 1 else year, m, j - MonthStart(mp) + 1)
  }

  lemma CivilIs(days: nat, era: nat, c: int, q: int, k: int, j: int)
    requires InEra(c, q, k, j) && days + EPOCH == 146097 * era + DayOfEra(c, q, k, j)
    ensures Civil(days) == FromMarch(400 * era + 100 * c + 4 * q + k, j)
  {
    YearOfEraIs(c, q, k, j);
    assert (days + EPOCH) / 146097 == era;
  }

  lemma Locate(days: nat) returns (era: nat, c: int, q: int, k: int, j: int)
    ensures InEra(c, q, k, j) && days + EPOCH == 146097 * era + DayOfEra(c, q, k, j)
    ensures Civil(days) == FromMarch(400 * era + 100 * c + 4 * q + k, j)
  {
    era := (days + EPOCH) / 146097;
    c, q, k, j := Decompose((days + EPOCH) % 146097);
    CivilIs(days, era, c, q, k, j);
  }

  lemma FromMarchValid(era: nat, c: int, q: int, k: int, j: int)
    requires InEra(c, q, k, j)
    ensures ValidDate(FromMarch(400 * era + 100 * c + 4 * q + k, j))
  {
    LeapYear(era, c, q, k);
    MonthOfDay(j);
  }

  lemma MarchCounts(era: nat, c: int, q: int, k: int, j: int)
    requires InEra(c, q, k, j)
    ensures DaysFromMarch(400 * era + 100 * c + 4 * q + k, j) == 146097 * era + DayOfEra(c, q, k, j) - EPOCH
  {
    hide YearOfEra;
    YearOfEraIs(c, q, k, j);
    SplitYear(era, 100 * c + 4 * q + k);
  }

  lemma SplitYear(era: nat, yoe: int)
    requires 0 <= yoe < 400
    ensures (400 * era + yoe) / 400 == era
  {
  }

  lemma FromMarchFields(year: nat, j: nat)
    requires j <= 365
    ensures var date := FromMarch(year, j);
      1 <= date.month <= 12 && 1 <= date.day && MarchYear(date) == year && MarchDay(date) == j
  {
    MonthOfDay(j);
  }

  lemma FromMarchCounts(era: nat, c: int, q: int, k: int, j: int)
    requires InEra(c, q, k, j)
    ensures var date := FromMarch(400 * era + 100 * c + 4 * q + k, j);
      1 <= date.month <= 12 && 1 <= date.day && DaysFromCivil(date) == 146097 * era + DayOfEra(c, q, k, j) - EPOCH
  {
    hide DaysFromMarch, FromMarch, MarchYear, MarchDay, DayOfEra;
    FromMarchFields(400 * era + 100 * c + 4 * q + k, j);
    MarchCounts(era, c, q, k, j);
  }

  /** Every day count is a valid date, and the usual formula gives the count back. */
  lemma CivilRoundTrip(days: nat)
    ensures ValidDate(Civil(days)) && DaysFromCivil(Civil(days)) == days
  {
    var era, c, q, k, j := Locate(days);
    FromMarchValid(era, c, q, k, j);
    FromMarchCounts(era, c, q, k, j);
  }

  lemma SplitDate(date: Date) returns (era: nat, c: int, q: int, k: int, j: int)
    requires ValidDate(date) && (date.year > 0 || date.month > 2)
    ensures InEra(c, q, k, j) && FromMarch(400 * era + 100 * c + 4 * q + k, j) == date
  {
    var y: nat := if date.month <= 2 then date.year - 1 else date.year;
    era := y / 400;
    var yoe := y % 400;
    c := yoe / 100;
    q := (yoe % 100) / 4;
    k := yoe % 4;
    assert y == 400 * era + 100 * c + 4 * q + k;
    var mp := (date.month + 9) % 12;
    assert MonthOf(mp) == date.month;
    j := MonthStart(mp) + date.day - 1;
    LeapYear(era, c, q, k);
    MonthIs(mp, j);
  }

  /** Conversely every valid date from the epoch on is the date of its own day count. */
  lemma DateRoundTrip(date: Date)
    requires ValidDate(date) && DaysFromCivil(date) >= 0
    ensures Civil(DaysFromCivil(date)) == date
  {
    var era, c, q, k, j := SplitDate(date);
    FromMarchCounts(era, c, q, k, j);
    CivilIs(DaysFromCivil(date), era, c, q, k, j);
  }

  function LastDay(c: int, q: int, k: int): nat {
    if k == 3 && (q < 24 || c == 3) then 365 else 364
  }

  lemma NextWithin(y: nat, j: nat)
    requires j < 364 || (j == 364 && IsLeap(y + 1))
    ensures NextDay(FromMarch(y, j)) == FromMarch(y, j + 1)
  {
    MonthOfDay(j);
    MonthOfDay(j + 1);
  }

  lemma NextAcross(y: nat)
    ensures NextDay(FromMarch(y, if IsLeap(y + 1) then 365 else 364)) == FromMarch(y + 1, 0)
  {
  }

  lemma NextInYear(era: nat, c: int, q: int, k: int, j: int)
    requires InEra(c, q, k, j)
    ensures var y := 400 * era + 100 * c + 4 * q + k;
      NextDay(FromMarch(y, j)) == if j < LastDay(c, q, k) then FromMarch(y, j + 1) else FromMarch(y + 1, 0)
  {
    hide NextDay, FromMarch, IsLeap;
    var y := 400 * era + 100 * c + 4 * q + k;
    LeapYear(era, c, q, k);
    if j < LastDay(c, q, k) {
      NextWithin(y, j);
    } else {
      NextAcross(y);
    }
  }

  /** The day after a position in the era, carrying into years, cycles, centuries and eras. */
  function Carry(era: nat, c: int, q: int, k: int, j: int): (nat, int, int, int, int) {
    if j < LastDay(c, q, k) then (era, c, q, k, j + 1)
    else if k < 3 then (era, c, q, k + 1, 0)
    else if q < 24 then (era, c, q + 1, 0, 0)
    else if c < 3 then (era, c + 1, 0, 0, 0)
    else (era + 1, 0, 0, 0, 0)
  }

  lemma CarryStays(era: nat, c: int, q: int, k: int, j: int)
    requires InEra(c, q, k, j)
    ensures var (era', c', q', k', j') := Carry(era, c, q, k, j);
      && InEra(c', q', k', j') && j' == (if j < LastDay(c, q, k) then j + 1 else 0)
  {
  }

  lemma LastOfYear(c: int, q: int, k: int, j: int)
    requires InEra(c, q, k, j) && j >= LastDay(c, q, k)
    ensures j == if k == 3 && (q < 24 || c == 3) then 365 else 364
  {
  }

  lemma CarryDays(era: nat, c: int, q: int, k: int, j: int)
    requires InEra(c, q, k, j)
    ensures var (era', c', q', k', j') := Carry(era, c, q, k, j);
      146097 * era' + DayOfEra(c', q', k', j') == 146097 * era + DayOfEra(c, q, k, j) + 1
  {
    hide LastDay;
    if j >= LastDay(c, q, k) {
      LastOfYear(c, q, k, j);
    }
  }

  lemma CarryYears(era: nat, c: int, q: int, k: int, j: int)
    requires InEra(c, q, k, j)
    ensures var (era', c', q', k', j') := Carry(era, c, q, k, j);
      400 * era' + 100 * c' + 4 * q' + k' ==
      400 * era + 100 * c + 4 * q + k + (if j < LastDay(c, q, k) then 0 else 1)
  {
  }

  /** The conversion starts on 1970-01-01 and walks the proleptic Gregorian calendar day by day. */
  lemma CivilIsCalendar(days: nat)
    ensures Civil(days + 1) == NextDay(Civil(days))
  {
    hide Civil, FromMarch, NextDay, Carry, DayOfEra;
    var era, c, q, k, j := Locate(days);
    NextInYear(era, c, q, k, j);
    CarryStays(era, c, q, k, j);
    CarryDays(era, c, q, k, j);
    CarryYears(era, c, q, k, j);
    var (era', c', q', k', j') := Carry(era, c, q, k, j);
    CivilIs(days + 1, era', c', q', k', j');
  }

  lemma CivilEpoch()
    ensures Civil(0) == Date(1970, 1, 1)
  {
    hide Civil;
    CivilIs(0, 4, 3, 17, 1, 306);
  }

  lemma NextDayIsLater(a: Date, b: Date)
    requires ValidDate(b) && (a == b || Before(a, b))
    ensures Before(a, NextDay(b))
  {
  }

  /** Later days have later dates. */
  lemma {:induction false} CivilIncreases(days: nat, later: nat)
    requires days < later
    ensures Before(Civil(days), Civil(later))
    decreases later
  {
    hide Civil, NextDay;
    CivilRoundTrip(later - 1);
    CivilIsCalendar(later - 1);
    if days < later - 1 {
      CivilIncreases(days, later - 1);
    }
    NextDayIsLater(Civil(days), Civil(later - 1));
  }

  // ----- the 32-bit year -----

  /** The first day whose year does not fit 32 bits, and the first day that repeats a date. */
  const CUT: nat := 1568703873082
  const WRAPPED: nat := 1568704592610

  lemma CutDates()
    ensures Civil(CUT) == Date(U32, 1, 1) && Civil(WRAPPED) == Date(1970 + U32, 1, 1)
  {
    hide Civil;
    CivilIs(CUT, 10737418, 0, 23, 3, 306);
    CivilIs(WRAPPED, 10737423, 0, 16, 1, 306);
  }

  lemma FirstOfYear(days: nat, first: nat)
    requires Civil(first).month == 1 && Civil(first).day == 1
    ensures days < first <==> Civil(days).year < Civil(first).year
  {
    hide Civil;
    CivilRoundTrip(days);
    if days < first {
      CivilIncreases(days, first);
    } else if first < days {
      CivilIncreases(first, days);
    }
  }

  /** The years a day count leads to, by the day count. */
  lemma CivilYears(days: nat)
    ensures 1970 <= Civil(days).year
    ensures days < CUT <==> Civil(days).year < U32
    ensures days < WRAPPED <==> Civil(days).year < 1970 + U32
  {
    hide Civil;
    CutDates();
    CivilEpoch();
    FirstOfYear(days, 0);
    FirstOfYear(days, CUT);
    FirstOfYear(days, WRAPPED);
  }

  /** The returned date is the calendar's exactly up to the last day of year 4294967295. */
  lemma YmdExact(days: nat)
    ensures DaysToYmd(days) == Civil(days) <==> days < CUT
  {
    hide Civil;
    CivilYears(days);
  }

  lemma OneYear(x: nat, y: nat)
    requires 1970 <= x < 1970 + U32 && 1970 <= y < 1970 + U32 && x % U32 == y % U32
    ensures x == y
  {
  }

  /** Dates repeat themselves only from day `WRAPPED` on, though they are wrong from `CUT` on. */
  lemma YmdInjective(a: nat, b: nat)
    requires a < WRAPPED && b < WRAPPED && DaysToYmd(a) == DaysToYmd(b)
    ensures a == b
  {
    hide Civil, DaysFromCivil;
    CivilYears(a);
    CivilYears(b);
    OneYear(Civil(a).year, Civil(b).year);
    CivilRoundTrip(a);
    CivilRoundTrip(b);
  }

  // ----- the timestamp text -----

  function Zeros(n: nat): string {
    seq(n, _ => '0')
  }

  /** At least `width` digits. */
  function Pad(width: nat, n: nat): string {
    var s := Show(n);
    if |s| < width then Zeros(width - |s|) + s else s
  }

  function Clock(month: nat, day: nat, second: nat): string {
    "-" + Pad(2, month) + "-" + Pad(2, day) + "T" + Pad(2, second / 3600) + ":" + Pad(2, second % 3600 / 60) + ":"
    + Pad(2, second % 60) + "Z"
  }

  function UnixToIso8601(seconds: nat): string {
    var d := DaysToYmd(seconds / DAY);
    Pad(4, d.year) + Clock(d.month, d.day, seconds % DAY)
  }

  lemma {:induction false} ReadZeros(n: nat, s: string)
    requires AllDigits(s)
    ensures AllDigits(Zeros(n) + s) && Read(Zeros(n) + s) == Read(s)
    decreases n + |s|
  {
    var t := Zeros(n) + s;
    if s != "" {
      assert t[..|t| - 1] == Zeros(n) + s[..|s| - 1];
      ReadZeros(n, s[..|s| - 1]);
    } else if n > 0 {
      assert t[..|t| - 1] == Zeros(n - 1) + s;
      ReadZeros(n - 1, s);
    }
  }

  lemma PadReads(width: nat, n: nat)
    ensures AllDigits(Pad(width, n)) && Read(Pad(width, n)) == n
  {
    ReadShow(n);
    if |Show(n)| < width {
      ReadZeros(width - |Show(n)|, Show(n));
    }
  }

  lemma TwoDigits(n: nat)
    requires n < 100
    ensures |Pad(2, n)| == 2
  {
  }

  lemma ClockLength(month: nat, day: nat, second: nat)
    requires month < 100 && day < 100 && second < DAY
    ensures |Clock(month, day, second)| == 16
  {
    TwoDigits(month);
    TwoDigits(day);
    TwoDigits(second / 3600);
    TwoDigits(second % 3600 / 60);
    TwoDigits(second % 60);
  }

  lemma PadInjective(width: nat, m: nat, n: nat)
    requires Pad(width, m) == Pad(width, n)
    ensures m == n
  {
    PadReads(width, m);
    PadReads(width, n);
  }

  lemma ClockInjective(month: nat, day: nat, second: nat, month': nat, day': nat, second': nat)
    requires month < 100 && day < 100 && second < DAY && month' < 100 && day' < 100 && second' < DAY
    requires Clock(month, day, second) == Clock(month', day', second')
    ensures month == month' && day == day' && second == second'
  {
    hide Pad;
    var s, t := Clock(month, day, second), Clock(month', day', second');
    Fields(month, day, second);
    Fields(month', day', second');
    assert s[1..3] == t[1..3] && s[4..6] == t[4..6] && s[7..9] == t[7..9];
    assert s[10..12] == t[10..12] && s[13..15] == t[13..15];
    PadInjective(2, month, month');
    PadInjective(2, day, day');
    PadInjective(2, second / 3600, second' / 3600);
    PadInjective(2, second % 3600 / 60, second' % 3600 / 60);
    PadInjective(2, second % 60, second' % 60);
    ClockOf(second);
    ClockOf(second');
  }

  lemma ClockOf(second: nat)
    ensures second == 3600 * (second / 3600) + 60 * (second % 3600 / 60) + second % 60
  {
  }

  lemma Fields(month: nat, day: nat, second: nat)
    requires month < 100 && day < 100 && second < DAY
    ensures var s := Clock(month, day, second);
      && |s| == 16 && s[1..3] == Pad(2, month) && s[4..6] == Pad(2, day) && s[7..9] == Pad(2, second / 3600)
      && s[10..12] == Pad(2, second % 3600 / 60) && s[13..15] == Pad(2, second % 60)
  {
    hide Pad;
    TwoDigits(month);
    TwoDigits(day);
    TwoDigits(second / 3600);
    TwoDigits(second % 3600 / 60);
    TwoDigits(second % 60);
  }

  lemma SplitText(a: string, b: string, a': string, b': string)
    requires a + b == a' + b' && |b| == |b'|
    ensures a == a' && b == b'
  {
    assert a == (a + b)[..|a|] && b == (a + b)[|a|..];
    assert a' == (a' + b')[..|a'|] && b' == (a' + b')[|a'|..];
  }

  /** Two seconds before day `WRAPPED` never print alike. */
  lemma Iso8601Injective(a: nat, b: nat)
    requires a < WRAPPED * DAY && b < WRAPPED * DAY && UnixToIso8601(a) == UnixToIso8601(b)
    ensures a == b
  {
    hide Civil, Pad, Clock;
    var d, e := DaysToYmd(a / DAY), DaysToYmd(b / DAY);
    SmallFields(a / DAY);
    SmallFields(b / DAY);
    ClockLength(d.month, d.day, a % DAY);
    ClockLength(e.month, e.day, b % DAY);
    SplitText(Pad(4, d.year), Clock(d.month, d.day, a % DAY), Pad(4, e.year), Clock(e.month, e.day, b % DAY));
    PadInjective(4, d.year, e.year);
    ClockInjective(d.month, d.day, a % DAY, e.month, e.day, b % DAY);
    YmdInjective(a / DAY, b / DAY);
    assert a == DAY * (a / DAY) + a % DAY && b == DAY * (b / DAY) + b % DAY;
  }

  lemma SmallFields(days: nat)
    ensures DaysToYmd(days).month < 100 && DaysToYmd(days).day < 100
  {
    hide Civil;
    CivilRoundTrip(days);
  }

  /** The first repetition: a second within 64 bits that prints as the epoch. */
  lemma Iso8601Wraps()
    ensures WRAPPED * DAY <= U64_MAX && UnixToIso8601(WRAPPED * DAY) == UnixToIso8601(0)
  {
    hide Civil, Pad, Clock;
    CutDates();
    CivilEpoch();
    assert WRAPPED * DAY / DAY == WRAPPED && WRAPPED * DAY % DAY == 0;
  }

  ghost predicate Determines(limit: nat) {
    forall a: nat, b: nat | a < limit && b < limit && UnixToIso8601(a) == UnixToIso8601(b) :: a == b
  }

  /** The timestamp determines its second among all the seconds below a limit exactly when the limit
      is at most the start of day `WRAPPED`. */
  lemma Iso8601Exact(limit: nat)
    ensures Determines(limit) <==> limit <= WRAPPED * DAY
  {
    hide UnixToIso8601;
    if limit <= WRAPPED * DAY {
      forall a: nat, b: nat | a < limit && b < limit && UnixToIso8601(a) == UnixToIso8601(b)
        ensures a == b
      {
        Iso8601Injective(a, b);
      }
    } else {
      Iso8601Wraps();
    }
  }

  // ----- what the text says -----

  lemma PadLength(width: nat, n: nat)
    requires width > 0
    ensures |Pad(width, n)| >= width
  {
  }

  lemma FourDigits(n: nat)
    ensures |Pad(4, n)| == 4 <==> n < 10000
  {
    FewDigits(n);
  }

  lemma FewDigits(n: nat)
    ensures |Show(n)| <= 4 <==> n < 10000
  {
    assert |Show(n / 10)| <= 3 <==> n / 10 < 1000 by { ThreeDigits(n / 10); }
  }

  lemma ThreeDigits(n: nat)
    ensures |Show(n)| <= 3 <==> n < 1000
  {
    assert |Show(n / 10)| <= 2 <==> n / 10 < 100;
  }

  /** The text is a numeral between these two places, and it reads as `n`. */
  predicate NumeralAt(s: string, from: nat, to: nat, n: nat) {
    from <= to <= |s| && AllDigits(s[from..to]) && Read(s[from..to]) == n
  }

  predicate MarkAt(s: string, i: nat, c: char) {
    i < |s| && s[i] == c
  }

  /** From its `k`th place on: month, day, hour, minute and second, each in two digits. */
  predicate ReadsFrom(s: string, k: nat, month: nat, day: nat, hour: nat, minute: nat, second: nat) {
    && |s| == k + 16 && MarkAt(s, k, '-') && MarkAt(s, k + 3, '-') && MarkAt(s, k + 6, 'T') && MarkAt(s, k + 9, ':')
    && MarkAt(s, k + 12, ':') && MarkAt(s, k + 15, 'Z')
    && NumeralAt(s, k + 1, k + 3, month) && NumeralAt(s, k + 4, k + 6, day) && NumeralAt(s, k + 7, k + 9, hour)
    && NumeralAt(s, k + 10, k + 12, minute) && NumeralAt(s, k + 13, k + 15, second)
  }

  lemma ClockReads(month: nat, day: nat, second: nat)
    requires month < 100 && day < 100 && second < 86400
    ensures ReadsFrom(Clock(month, day, second), 0, month, day, second / 3600, second % 3600 / 60, second % 60)
  {
    hide Pad;
    TwoDigits(month);
    TwoDigits(day);
    TwoDigits(second / 3600);
    TwoDigits(second % 3600 / 60);
    TwoDigits(second % 60);
    Fields(month, day, second);
    PadReads(2, month);
    PadReads(2, day);
    PadReads(2, second / 3600);
    PadReads(2, second % 3600 / 60);
    PadReads(2, second % 60);
  }

  lemma ReadsAfter(year: string, s: string, month: nat, day: nat, hour: nat, minute: nat, second: nat)
    requires ReadsFrom(s, 0, month, day, hour, minute, second)
    ensures ReadsFrom(year + s, |year|, month, day, hour, minute, second)
  {
    var t, k := year + s, |year|;
    assert t[k + 1..k + 3] == s[1..3] && t[k + 4..k + 6] == s[4..6] && t[k + 7..k + 9] == s[7..9];
    assert t[k + 10..k + 12] == s[10..12] && t[k + 13..k + 15] == s[13..15];
    assert t[k] == s[0] && t[k + 3] == s[3] && t[k + 6] == s[6] && t[k + 9] == s[9] && t[k + 12] == s[12]
        && t[k + 15] == s[15];
  }

  /** A year of at least four digits, then the rest. */
  predicate ReadsAs(s: string, year: nat, month: nat, day: nat, hour: nat, minute: nat, second: nat) {
    && |s| >= 20 && NumeralAt(s, 0, |s| - 16, year) && (|s| == 20 <==> year < 10000)
    && ReadsFrom(s, |s| - 16, month, day, hour, minute, second)
  }

  lemma PartsRead(year: nat, month: nat, day: nat, t: nat)
    requires month < 100 && day < 100 && t < 86400
    ensures ReadsAs(Pad(4, year) + Clock(month, day, t), year, month, day, t / 3600, t % 3600 / 60, t % 60)
  {
    hide Pad, Clock, ReadsFrom;
    var y, clock := Pad(4, year), Clock(month, day, t);
    ClockReads(month, day, t);
    ClockLength(month, day, t);
    ReadsAfter(y, clock, month, day, t / 3600, t % 3600 / 60, t % 60);
    PadReads(4, year);
    PadLength(4, year);
    FourDigits(year);
    assert (y + clock)[0..|y|] == y;
  }

  lemma SecondOfHour(n: nat, q: nat, r: nat)
    requires r < 3600 && n == 3600 * q + r
    ensures n % 3600 == r
  {
  }

  lemma SecondOfMinute(n: nat, q: nat, r: nat)
    requires r < 60 && n == 60 * q + r
    ensures n % 60 == r
  {
  }

  lemma TimeOfDay(seconds: nat)
    ensures seconds % 86400 % 3600 == seconds % 3600 && seconds % 86400 % 60 == seconds % 60
  {
    var day, t := seconds / 86400, seconds % 86400;
    assert seconds == 86400 * day + t;
    SecondOfHour(seconds, 24 * day + t / 3600, t % 3600);
    SecondOfMinute(seconds, 1440 * day + t / 60, t % 60);
  }

  /** The timestamp reads, field by field, as the calendar date of its day, with the year cut to 32
      bits, and the time in that day. */
  lemma Iso8601Reads(seconds: nat)
    ensures var d := Civil(seconds / 86400);
      ReadsAs(UnixToIso8601(seconds), d.year % 0x1_0000_0000, d.month, d.day, seconds % 86400 / 3600,
              seconds % 3600 / 60, seconds % 60)
  {
    hide Civil, Pad, Clock, ReadsAs;
    var d := Civil(seconds / 86400);
    SmallFields(seconds / 86400);
    PartsRead(d.year % U32, d.month, d.day, seconds % 86400);
    TimeOfDay(seconds);
  }
}
