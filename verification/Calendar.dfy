/**
 * The UPS's calendar: civil times in 2000-2099 against seconds since the unix epoch.
 *
 * Days are counted from 0000-03-01, so that a leap day is the last day of its year. `EPOCH_DAYS`
 * is 1970-01-01 in that count.
 */
module Calendar {
  import opened Bytes
  import opened Wrappers

  type u16 = x: nat | x < 0x1_0000

  datatype UpsTime = UpsTime(year: u16, month: byte, day: byte, hour: byte, minute: byte, second: Option<byte>)

  datatype Date = Date(year: nat, month: nat, day: nat)

  const SECONDS_PER_DAY: nat := 86_400
  const DAYS_PER_ERA: nat := 146_097
  const EPOCH_DAYS: nat := 719_468

  // ---- The conversions, as the code computes them -------------------------------------------

  /** Days from the start of a 400-year era to the start of its year `yoe`. */
  function DaysBeforeYear(yoe: nat): nat {
    365 * yoe + yoe / 4 - yoe / 100
  }

  /** Days from 1 March to the first of month `mp`, months counted from March. */
  function DaysBeforeMonth(mp: nat): nat {
    (153 * mp + 2) / 5
  }

  function YearOfEra(doe: nat): nat {
    (doe - doe / 1_460 + doe / 36_524 - doe / 146_096) / 365
  }

  function MonthOfYear(doy: nat): nat {
    (5 * doy + 2) / 153
  }

  function CivilFromDays(z: nat): Date {
    CivilOfEra(z / DAYS_PER_ERA, z % DAYS_PER_ERA)
  }

  function CivilOfEra(era: nat, doe: nat): Date
    requires doe < DAYS_PER_ERA
  {
    var yoe := YearOfEra(doe);
    YearContainsDay(doe);
    var doy := doe - DaysBeforeYear(yoe);
    var mp := MonthOfYear(doy);
    MonthContainsDay(doy);
    var month := if mp < 10 then mp + 3 else mp - 9;
    Date(yoe + era * 400 + if month <= 2 then 1 else 0, month, doy - DaysBeforeMonth(mp) + 1)
  }

  function FromUnixSeconds(secs: nat): Option<UpsTime> {
    var rem := secs % SECONDS_PER_DAY;
    var date := CivilFromDays(secs / SECONDS_PER_DAY + EPOCH_DAYS);
    CivilIsReal(secs / SECONDS_PER_DAY + EPOCH_DAYS);
    if date.year < 2000 || date.year > 2099 then None
    else Some(UpsTime(date.year, date.month, date.day, rem / 3_600, rem % 3_600 / 60, Some(rem % 60)))
  }

  predicate IsPlausible(t: UpsTime) {
    && 2000 <= t.year <= 2099
    && 1 <= t.month <= 12
    && 1 <= t.day <= 31
    && t.hour <= 23
    && t.minute <= 59
    && (t.second.Some? ==> t.second.value <= 59)
  }

  function SecondOf(t: UpsTime): byte {
    if t.second.Some? then t.second.value else 0
  }

  function DaysFromCivil(date: Date): nat
    requires date.year >= 1 && 1 <= date.month <= 12 && date.day >= 1
  {
    var y := date.year - if date.month <= 2 then 1 else 0;
    var mp := if date.month > 2 then date.month - 3 else date.month + 9;
    y / 400 * DAYS_PER_ERA + DaysBeforeYear(y % 400) + DaysBeforeMonth(mp) + date.day - 1
  }

  function ToUnixSeconds(t: UpsTime): Option<nat> {
    if !IsPlausible(t) then None
    else
      var days := DaysFromCivil(Date(t.year, t.month, t.day)) - EPOCH_DAYS;
      AfterEpoch(Date(t.year, t.month, t.day));
      Some(days * SECONDS_PER_DAY + t.hour * 3_600 + t.minute * 60 + SecondOf(t))
  }

  // ---- What a date is, independently of either conversion -----------------------------------

  predicate IsLeap(year: nat) {
    year % 4 == 0 && (year % 100 != 0 || year % 400 == 0)
  }

  function DaysInMonth(year: nat, month: nat): nat {
    match month
    case 2 => if IsLeap(year) then 29 else 28
    case 4 => 30
    case 6 => 30
    case 9 => 30
    case 11 => 30
    case _ => 31
  }

  predicate IsRealDate(date: Date) {
    1 <= date.month <= 12 && 1 <= date.day <= DaysInMonth(date.year, date.month)
  }

  /** A plausible time whose day exists in its month. */
  predicate IsReal(t: UpsTime) {
    IsPlausible(t) && IsRealDate(Date(t.year, t.month, t.day))
  }

  // ---- Year and month arithmetic -------------------------------------------------------------

  lemma DivisionIsUnique(a: nat, m: nat, q: nat, r: nat)
    requires r < m && a == m * q + r
    ensures a / m == q && a % m == r
  {
    var d := a / m - q;
    assert m * d == r - a % m by {
      assert a == m * (a / m) + a % m;
      assert m * d == m * (a / m) - m * q;
    }
    MultipleIsLarge(m, d);
  }

  lemma MultipleIsLarge(m: nat, d: int)
    ensures d >= 1 ==> m * d >= m
    ensures d <= -1 ==> m * d <= 0 - m
  {
  }

  /** Within one century of an era, `y` is the year whose days contain day `r`. */
  lemma YearOfCentury(c: nat, r: nat, k: nat, y: nat)
    requires c <= 3 && r < 36_524
    requires k == (24 * c + r) / 1_460
    requires y == (r - k) / 365
    ensures y <= 99
    ensures 365 * y + y / 4 <= r < 365 * (y + 1) + (y + 1) / 4
  {
  }

  /** The year computed from a day of the era is the one that contains it. */
  lemma YearContainsDay(doe: nat)
    requires doe < DAYS_PER_ERA
    ensures YearOfEra(doe) <= 399
    ensures DaysBeforeYear(YearOfEra(doe)) <= doe
    ensures doe < DaysBeforeYear(YearOfEra(doe) + 1) || (doe == 146_096 && YearOfEra(doe) == 399)
    ensures doe - DaysBeforeYear(YearOfEra(doe)) <= 365
  {
    var c := doe / 36_524;
    var r := doe % 36_524;
    if c <= 3 {
      var k := (24 * c + r) / 1_460;
      assert doe / 1_460 == 25 * c + k;
      var y := (r - k) / 365;
      YearOfCentury(c, r, k, y);
      assert YearOfEra(doe) == 100 * c + y;
      assert (100 * c + y) / 4 == 25 * c + y / 4;
      assert (100 * c + y + 1) / 4 == 25 * c + (y + 1) / 4;
    }
  }

  lemma YearsAreOrdered(a: nat, b: nat)
    ensures a <= b ==> DaysBeforeYear(a) <= DaysBeforeYear(b)
  {
  }

  /** A year of an era is determined by any of its days. */
  lemma YearIsUnique(doe: nat, yoe: nat)
    requires yoe <= 399 && doe < DAYS_PER_ERA
    requires DaysBeforeYear(yoe) <= doe
    requires doe < DaysBeforeYear(yoe + 1) || (doe == 146_096 && yoe == 399)
    ensures YearOfEra(doe) == yoe
  {
    YearContainsDay(doe);
    var found := YearOfEra(doe);
    YearsAreOrdered(found + 1, yoe);
    YearsAreOrdered(yoe + 1, found);
  }

  /** A March-based year has 366 days exactly when it ends in a leap February. */
  lemma LengthOfYear(yoe: nat)
    requires yoe < 399
    ensures DaysBeforeYear(yoe + 1) - DaysBeforeYear(yoe) == if IsLeap(yoe + 1) then 366 else 365
  {
    assert (yoe + 1) / 4 - yoe / 4 == if (yoe + 1) % 4 == 0 then 1 else 0;
    assert (yoe + 1) / 100 - yoe / 100 == if (yoe + 1) % 100 == 0 then 1 else 0;
    assert (yoe + 1) % 400 == yoe + 1;
  }

  lemma LeapDependsOnYearOfEra(era: nat, n: nat)
    ensures IsLeap(era * 400 + n) == IsLeap(n)
  {
    var y := era * 400 + n;
    DivisionIsUnique(y, 4, era * 100 + n / 4, n % 4);
    DivisionIsUnique(y, 100, era * 4 + n / 100, n % 100);
    DivisionIsUnique(y, 400, era + n / 400, n % 400);
  }

  /** The month computed from a day of the year contains it, and its length is a month's. */
  lemma MonthContainsDay(doy: nat)
    requires doy <= 365
    ensures MonthOfYear(doy) <= 11
    ensures DaysBeforeMonth(MonthOfYear(doy)) <= doy < DaysBeforeMonth(MonthOfYear(doy) + 1)
  {
  }

  /** Month lengths from March to January; February ends with the year. */
  lemma LengthOfMonth(year: nat, mp: nat)
    requires mp <= 10
    ensures DaysBeforeMonth(mp + 1) - DaysBeforeMonth(mp)
         == DaysInMonth(year, if mp < 10 then mp + 3 else mp - 9)
  {
  }

  // ---- Dates against day numbers -------------------------------------------------------------

  lemma CivilIsReal(z: nat)
    ensures IsRealDate(CivilFromDays(z))
    ensures CivilFromDays(z).year >= 1 || CivilFromDays(z).month > 2
  {
    hide YearOfEra;
    var era, doe := z / DAYS_PER_ERA, z % DAYS_PER_ERA;
    YearContainsDay(doe);
    var yoe := YearOfEra(doe);
    var doy := doe - DaysBeforeYear(yoe);
    MonthContainsDay(doy);
    var mp := MonthOfYear(doy);
    var date := CivilFromDays(z);
    if mp <= 10 {
      LengthOfMonth(date.year, mp);
    } else {
      LeapDependsOnYearOfEra(era, yoe + 1);
      if yoe < 399 {
        LengthOfYear(yoe);
      }
      assert date.year == era * 400 + (yoe + 1);
      assert doy == 365 ==> IsLeap(yoe + 1);
    }
  }

  lemma DaysRoundTrip(z: nat)
    requires CivilFromDays(z).year >= 1
    ensures 1 <= CivilFromDays(z).month <= 12 && CivilFromDays(z).day >= 1
    ensures DaysFromCivil(CivilFromDays(z)) == z
  {
    hide YearOfEra;
    var era, doe := z / DAYS_PER_ERA, z % DAYS_PER_ERA;
    YearContainsDay(doe);
    var yoe := YearOfEra(doe);
    var doy := doe - DaysBeforeYear(yoe);
    MonthContainsDay(doy);
    var date := CivilFromDays(z);
    var y := date.year - if date.month <= 2 then 1 else 0;
    assert y == 400 * era + yoe;
    DivisionIsUnique(y, 400, era, yoe);
    assert z == era * DAYS_PER_ERA + doe;
  }

  /** A real date's place in its March-based year. */
  lemma DayOfRealDate(date: Date, yoe: nat, mp: nat, doy: nat)
    requires IsRealDate(date) && yoe <= 399
    requires mp == if date.month > 2 then date.month - 3 else date.month + 9
    requires doy == DaysBeforeMonth(mp) + date.day - 1
    requires IsLeap(yoe + 1) == IsLeap(date.year + if date.month > 2 then 1 else 0)
    ensures MonthOfYear(doy) == mp
    ensures doy <= 364 || (doy == 365 && IsLeap(yoe + 1))
  {
  }

  lemma CivilRoundTrips(date: Date)
    requires date.year >= 1 && IsRealDate(date)
    ensures CivilFromDays(DaysFromCivil(date)) == date
  {
    hide YearOfEra, MonthOfYear, DaysBeforeYear, DaysInMonth, IsLeap;
    var y := date.year - if date.month <= 2 then 1 else 0;
    var mp := if date.month > 2 then date.month - 3 else date.month + 9;
    var era, yoe := y / 400, y % 400;
    var doy := DaysBeforeMonth(mp) + date.day - 1;
    LeapDependsOnYearOfEra(era, yoe + 1);
    DayOfRealDate(date, yoe, mp, doy);
    DayOfEra(yoe, doy);
    DivisionIsUnique(DaysFromCivil(date), DAYS_PER_ERA, era, DaysBeforeYear(yoe) + doy);
  }

  lemma DayOfEra(yoe: nat, doy: nat)
    requires yoe <= 399
    requires doy <= 364 || (doy == 365 && IsLeap(yoe + 1))
    ensures DaysBeforeYear(yoe) + doy < DAYS_PER_ERA
    ensures YearOfEra(DaysBeforeYear(yoe) + doy) == yoe
  {
    if yoe < 399 {
      LengthOfYear(yoe);
      YearsAreOrdered(yoe + 1, 399);
    }
    YearIsUnique(DaysBeforeYear(yoe) + doy, yoe);
  }

  lemma AfterEpoch(date: Date)
    requires date.year >= 2000 && 1 <= date.month <= 12 && date.day >= 1
    ensures DaysFromCivil(date) >= EPOCH_DAYS
  {
  }

  // ---- The two directions --------------------------------------------------------------------

  /** Where the device's first and last years fall in their eras. */
  lemma DeviceYears(era: nat, doe: nat)
    requires doe < DAYS_PER_ERA
    ensures era * 400 <= CivilOfEra(era, doe).year <= era * 400 + 400
    ensures CivilOfEra(era, doe).year == era * 400 + 400 <==> doe >= 146_037
    ensures CivilOfEra(era, doe).year <= era * 400 + 99 <==> doe < 36_465
  {
    hide YearOfEra;
    YearContainsDay(doe);
    var yoe := YearOfEra(doe);
    MonthContainsDay(doe - DaysBeforeYear(yoe));
    YearsAreOrdered(yoe + 1, 99);
    YearsAreOrdered(100, yoe);
    YearsAreOrdered(yoe + 1, 399);
    assert DaysBeforeYear(99) == 36_159 && DaysBeforeYear(100) == 36_524 && DaysBeforeYear(399) == 145_731;
  }

  /** The day numbers of the years 2000 to 2099, the years the device can hold. */
  lemma DeviceDays(z: nat)
    ensures 2000 <= CivilFromDays(z).year <= 2099 <==> 730_425 <= z < 766_950
  {
    hide CivilOfEra;
    DeviceYears(z / DAYS_PER_ERA, z % DAYS_PER_ERA);
    var era, doe := z / DAYS_PER_ERA, z % DAYS_PER_ERA;
    assert z == era * DAYS_PER_ERA + doe;
  }

  lemma TimeOfDayIsUnique(hour: nat, minute: nat, second: nat)
    requires hour <= 23 && minute <= 59 && second <= 59
    ensures var rem := hour * 3_600 + minute * 60 + second;
      rem < SECONDS_PER_DAY && rem / 3_600 == hour && rem % 3_600 / 60 == minute && rem % 60 == second
  {
  }

  /** Seconds as a day number and a time of that day. */
  lemma SecondsAreDays(secs: nat, days: nat, rem: nat)
    requires rem < SECONDS_PER_DAY
    ensures secs == days * SECONDS_PER_DAY + rem <==> days == secs / SECONDS_PER_DAY && rem == secs % SECONDS_PER_DAY
  {
  }

  /** A real date of the device's years at time of day `rem`, read as an instant. */
  lemma InstantOf(date: Date, days: nat, rem: nat, t: UpsTime)
    requires rem < SECONDS_PER_DAY && IsRealDate(date) && 2000 <= date.year <= 2099
    requires DaysFromCivil(date) == days + EPOCH_DAYS
    requires Date(t.year, t.month, t.day) == date
    requires t.hour == rem / 3_600 && t.minute == rem % 3_600 / 60 && t.second == Some(rem % 60)
    ensures IsReal(t) && ToUnixSeconds(t) == Some(days * SECONDS_PER_DAY + rem)
  {
  }

  const DEVICE_START: nat := 946_684_800
  const DEVICE_END: nat := 4_102_444_800

  /** The instants the device can hold: 2000-01-01 up to, not including, 2100-01-01. */
  lemma DeviceInstants(secs: nat)
    ensures FromUnixSeconds(secs).Some? <==> DEVICE_START <= secs < DEVICE_END
  {
    hide CivilFromDays;
    DeviceDays(secs / SECONDS_PER_DAY + EPOCH_DAYS);
  }

  /** Reading an instant as a date and back is exact, and the date is a real one. */
  lemma InstantRoundTrips(secs: nat)
    requires DEVICE_START <= secs < DEVICE_END
    ensures FromUnixSeconds(secs).Some?
    ensures var t := FromUnixSeconds(secs).value;
      IsReal(t) && t.second.Some? && ToUnixSeconds(t) == Some(secs)
  {
    hide CivilFromDays, DaysFromCivil, YearOfEra, DaysBeforeYear;
    var days, rem := secs / SECONDS_PER_DAY, secs % SECONDS_PER_DAY;
    DeviceInstants(secs);
    CivilIsReal(days + EPOCH_DAYS);
    DaysRoundTrip(days + EPOCH_DAYS);
    InstantOf(CivilFromDays(days + EPOCH_DAYS), days, rem, FromUnixSeconds(secs).value);
    assert secs == days * SECONDS_PER_DAY + rem;
  }

  /** Reading a date as an instant and back is exact precisely for the days that exist. */
  lemma DateRoundTrips(t: UpsTime)
    requires IsPlausible(t)
    ensures ToUnixSeconds(t).Some?
    ensures FromUnixSeconds(ToUnixSeconds(t).value) == Some(t.(second := Some(SecondOf(t)))) <==> IsReal(t)
  {
    if IsReal(t) {
      RealDateRoundTrips(t);
    } else if FromUnixSeconds(ToUnixSeconds(t).value).Some? {
      DeviceInstants(ToUnixSeconds(t).value);
      InstantRoundTrips(ToUnixSeconds(t).value);
    }
  }

  lemma RealDateRoundTrips(t: UpsTime)
    requires IsReal(t)
    ensures ToUnixSeconds(t).Some?
    ensures FromUnixSeconds(ToUnixSeconds(t).value) == Some(t.(second := Some(SecondOf(t))))
  {
    hide CivilFromDays, DaysFromCivil, IsRealDate;
    var secs := ToUnixSeconds(t).value;
    var date := Date(t.year, t.month, t.day);
    AfterEpoch(date);
    TimeOfDayIsUnique(t.hour, t.minute, SecondOf(t));
    SecondsAreDays(secs, DaysFromCivil(date) - EPOCH_DAYS, t.hour * 3_600 + t.minute * 60 + SecondOf(t));
    CivilRoundTrips(date);
  }

  lemma SameInstant()
    ensures ToUnixSeconds(UpsTime(2026, 2, 30, 0, 0, Some(0))) == ToUnixSeconds(UpsTime(2026, 3, 2, 0, 0, Some(0)))
  {
    hide DaysBeforeYear;
    assert 2025 / 400 == 2026 / 400 == 5 && 2025 % 400 == 25 && 2026 % 400 == 26;
    YearTwentySix();
  }

  lemma YearTwentySix()
    ensures DaysBeforeYear(26) == DaysBeforeYear(25) + 365
  {
  }

  /** A day that does not exist is taken for the one it would run into. */
  lemma ThirtiethOfFebruary()
    ensures var t := UpsTime(2026, 2, 30, 0, 0, Some(0));
      && IsPlausible(t) && ToUnixSeconds(t).Some?
      && FromUnixSeconds(ToUnixSeconds(t).value) == Some(UpsTime(2026, 3, 2, 0, 0, Some(0)))
  {
    hide CivilFromDays, ToUnixSeconds, FromUnixSeconds;
    SameInstant();
    RealDateRoundTrips(UpsTime(2026, 3, 2, 0, 0, Some(0)));
  }
}
