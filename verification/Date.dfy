/** Calendar arithmetic in UTC: days since 1970-01-01 and civil dates of the proleptic Gregorian calendar. */
module Date {

  const MS_PER_DAY: int := 86400000

  datatype Civil = Civil(year: int, month: int, day: int)

  predicate IsLeap(year: int) {
    (year % 4 == 0 && year % 100 != 0) || year % 400 == 0
  }

  function DaysInMonth(year: int, month: int): int {
    if month == 2 then (if IsLeap(year) then 29 else 28)
    else if month == 4 || month == 6 || month == 9 || month == 11 then 30
    else 31
  }

  predicate Valid(c: Civil) {
    1 <= c.month <= 12 && 1 <= c.day <= DaysInMonth(c.year, c.month)
  }

  function YearOfEra(dayOfEra: nat): int {
    (dayOfEra - dayOfEra / 1460 + dayOfEra / 36524 - dayOfEra / 146096) / 365
  }

  /** The date of a day of a year that begins in March. */
  function CivilOfYear(march: int, dayOfYear: int): Civil {
    var shifted := (5 * dayOfYear + 2) / 153;
    var day := dayOfYear - (153 * shifted + 2) / 5 + 1;
    var month := if shifted < 10 then shifted + 3 else shifted - 9;
    Civil(march + (if month <= 2 then 1 else 0), month, day)
  }

  function CivilOfEra(era: int, dayOfEra: nat): Civil {
    var yearOfEra := YearOfEra(dayOfEra);
    CivilOfYear(yearOfEra + era * 400, dayOfEra - (365 * yearOfEra + yearOfEra / 4 - yearOfEra / 100))
  }

  function CivilFromDays(days: int): Civil {
    var z := days + 719468;
    CivilOfEra(z / 146097, z % 146097)
  }

  function DayOfYear(month: int, day: int): int {
    (153 * (if month > 2 then month - 3 else month + 9) + 2) / 5 + day - 1
  }

  function DayOfEra(yearOfEra: int, dayOfYear: int): int {
    yearOfEra * 365 + yearOfEra / 4 - yearOfEra / 100 + dayOfYear
  }

  function DaysFromCivil(c: Civil): int {
    var y := if c.month <= 2 then c.year - 1 else c.year;
    var era := y / 400;
    era * 146097 + DayOfEra(y - era * 400, DayOfYear(c.month, c.day)) - 719468
  }

  // ---- years that begin in March ----

  /** A day of a 400-year era: the century, the four years in it, the year in those, and the day of a year that begins in March. */
  predicate InEra(c: int, q: int, y: int, doy: int) {
    && 0 <= c <= 3 && 0 <= q <= 24 && 0 <= y <= 3 && 0 <= doy <= 365
    && (doy == 365 ==> y == 3 && (q < 24 || c == 3))
  }

  function Day(c: int, q: int, y: int, doy: int): int {
    36524 * c + 1461 * q + 365 * y + doy
  }

  /** Every day of an era is one of those. */
  lemma Decompose(doe: int) returns (c: int, q: int, y: int, doy: int)
    requires 0 <= doe < 146097
    ensures InEra(c, q, y, doy) && doe == Day(c, q, y, doy)
  {
    c := if doe / 36524 < 3 then doe / 36524 else 3;
    var r := doe - 36524 * c;
    assert 0 <= r <= 36524 && (r == 36524 ==> c == 3);
    q := r / 1461;
    var s := r - 1461 * q;
    assert 0 <= s <= 1460;
    y := if s / 365 < 3 then s / 365 else 3;
    doy := s - 365 * y;
  }

  lemma DayInRange(c: int, q: int, y: int, doy: int)
    requires InEra(c, q, y, doy)
    ensures 0 <= Day(c, q, y, doy) < 146097
  {
  }

  /** The year of a day is found without looking the leap years up. */
  lemma YearIsFound(c: int, q: int, y: int, doy: int)
    requires InEra(c, q, y, doy)
    ensures 0 <= Day(c, q, y, doy) && YearOfEra(Day(c, q, y, doy)) == 100 * c + 4 * q + y
  {
    var doe := Day(c, q, y, doy);
    var t := 24 * c + q + 365 * y + doy;
    var over := if t >= 1460 then 1 else 0;
    assert doe == 1460 * (25 * c + q) + t && 0 <= t < 2 * 1460;
    assert doe / 1460 == 25 * c + q + over;
    var last := if doe == 146096 then 1 else 0;
    Centuries(c, q, y, doy);
    assert doe / 146096 == last;
    assert doe - doe / 1460 + doe / 36524 - doe / 146096 == 365 * (100 * c + 4 * q + y) + doy - over + doe / 36524 - c - last;
  }

  lemma Centuries(c: int, q: int, y: int, doy: int)
    requires InEra(c, q, y, doy)
    ensures var doe := Day(c, q, y, doy);
            if doe == 146096 then doe / 36524 == 4 && c == 3 else 0 <= doe < 146096 && doe / 36524 == c
  {
  }

  lemma YearLength(c: int, q: int, y: int)
    requires 0 <= c <= 3 && 0 <= q <= 24 && 0 <= y <= 3
    ensures var yoe := 100 * c + 4 * q + y;
            && 0 <= yoe < 400 && yoe / 4 == 25 * c + q && yoe / 100 == c
            && 365 * yoe + yoe / 4 - yoe / 100 == Day(c, q, y, 0)
  {
  }

  /** A year of the era, taken apart. */
  lemma YearParts(yoe: int) returns (c: int, q: int, y: int)
    requires 0 <= yoe < 400
    ensures 0 <= c <= 3 && 0 <= q <= 24 && 0 <= y <= 3 && yoe == 100 * c + 4 * q + y
  {
    c := yoe / 100;
    var r := yoe - 100 * c;
    q := r / 4;
    y := r - 4 * q;
  }

  /** The last day of a March year is there exactly when its February is a leap year's. */
  lemma LeapOfEra(c: int, q: int, y: int, era: int)
    requires 0 <= c <= 3 && 0 <= q <= 24 && 0 <= y <= 3
    ensures IsLeap(100 * c + 4 * q + y + era * 400 + 1) <==> y == 3 && (q < 24 || c == 3)
  {
    Mod4(25 * c + q + 100 * era, y + 1);
    Mod100(c + 4 * era, 4 * q + y + 1);
    Mod400(era, 100 * c + 4 * q + y + 1);
    var year := 100 * c + 4 * q + y + era * 400 + 1;
    assert year % 4 == 0 <==> y == 3;
    assert year % 100 == 0 <==> q == 24 && y == 3;
    assert year % 400 == 0 <==> c == 3 && q == 24 && y == 3;
  }

  lemma Mod4(a: int, b: int)
    ensures (4 * a + b) % 4 == b % 4
  {
  }

  lemma Mod100(a: int, b: int)
    ensures (100 * a + b) % 100 == b % 100
  {
  }

  lemma Mod400(a: int, b: int)
    ensures (400 * a + b) % 400 == b % 400
  {
  }

  // ---- months ----

  function FirstOf(shifted: int): int {
    (153 * shifted + 2) / 5
  }

  function MonthOf(shifted: int): int {
    if shifted < 10 then shifted + 3 else shifted - 9
  }

  /** The months from March on: a day of the year is in the one whose first day it has passed. */
  lemma MonthIsFound(doy: int, shifted: int)
    requires 0 <= shifted <= 11 && FirstOf(shifted) <= doy && (shifted < 11 ==> doy < FirstOf(shifted + 1)) && doy <= 365
    ensures (5 * doy + 2) / 153 == shifted
  {
  }

  lemma MonthInRange(doy: int)
    requires 0 <= doy <= 365
    ensures var shifted := (5 * doy + 2) / 153;
            && 0 <= shifted <= 11 && FirstOf(shifted) <= doy && (shifted < 11 ==> doy < FirstOf(shifted + 1))
  {
  }

  /** The length of each month but February, which is last. */
  lemma MonthLengths(shifted: int, year: int)
    requires 0 <= shifted <= 10
    ensures FirstOf(shifted + 1) - FirstOf(shifted) == DaysInMonth(year, MonthOf(shifted))
    ensures FirstOf(11) == 337
  {
  }

  // ---- days and dates ----

  /** The date of a day of an era. */
  function DateOf(era: int, c: int, q: int, y: int, shifted: int, day: int): Civil {
    var month := MonthOf(shifted);
    Civil(100 * c + 4 * q + y + era * 400 + (if month <= 2 then 1 else 0), month, day)
  }

  /** The day as both directions see it: an era, a day of it, a month that begins before it, and the day of the month. */
  predicate Parts(days: int, era: int, c: int, q: int, y: int, doy: int, shifted: int, day: int) {
    && InEra(c, q, y, doy) && days + 719468 == era * 146097 + Day(c, q, y, doy)
    && 0 <= shifted <= 11 && FirstOf(shifted) <= doy && (shifted < 11 ==> doy < FirstOf(shifted + 1))
    && day == doy - FirstOf(shifted) + 1
  }

  lemma HasParts(days: int) returns (era: int, c: int, q: int, y: int, doy: int, shifted: int, day: int)
    ensures Parts(days, era, c, q, y, doy, shifted, day)
  {
    var z := days + 719468;
    era := z / 146097;
    c, q, y, doy := Decompose(z % 146097);
    MonthInRange(doy);
    shifted := (5 * doy + 2) / 153;
    day := doy - FirstOf(shifted) + 1;
  }

  lemma DivEra(era: int, doe: int)
    requires 0 <= doe < 146097
    ensures (era * 146097 + doe) / 146097 == era && (era * 146097 + doe) % 146097 == doe
  {
  }

  lemma CivilOfEraIs(era: int, c: int, q: int, y: int, doy: int)
    requires InEra(c, q, y, doy)
    ensures 0 <= Day(c, q, y, doy) && CivilOfEra(era, Day(c, q, y, doy)) == CivilOfYear(100 * c + 4 * q + y + era * 400, doy)
  {
    DayOfItsYear(c, q, y, doy);
  }

  lemma DayOfItsYear(c: int, q: int, y: int, doy: int)
    requires InEra(c, q, y, doy)
    ensures var doe := Day(c, q, y, doy);
            && 0 <= doe && YearOfEra(doe) == 100 * c + 4 * q + y
            && doe - (365 * YearOfEra(doe) + YearOfEra(doe) / 4 - YearOfEra(doe) / 100) == doy
  {
    YearIsFound(c, q, y, doy);
    YearLength(c, q, y);
  }

  lemma CivilOfYearIs(march: int, doy: int, shifted: int)
    requires 0 <= shifted <= 11 && FirstOf(shifted) <= doy && (shifted < 11 ==> doy < FirstOf(shifted + 1)) && doy <= 365
    ensures CivilOfYear(march, doy) == Civil(march + (if MonthOf(shifted) <= 2 then 1 else 0), MonthOf(shifted), doy - FirstOf(shifted) + 1)
  {
    MonthIsFound(doy, shifted);
  }

  lemma CivilOfParts(days: int, era: int, c: int, q: int, y: int, doy: int, shifted: int, day: int)
    requires Parts(days, era, c, q, y, doy, shifted, day)
    ensures CivilFromDays(days) == DateOf(era, c, q, y, shifted, day)
  {
    DayInRange(c, q, y, doy);
    DivEra(era, Day(c, q, y, doy));
    CivilOfEraIs(era, c, q, y, doy);
    CivilOfYearIs(100 * c + 4 * q + y + era * 400, doy, shifted);
  }

  lemma PartsAreValid(days: int, era: int, c: int, q: int, y: int, doy: int, shifted: int, day: int)
    requires Parts(days, era, c, q, y, doy, shifted, day)
    ensures Valid(DateOf(era, c, q, y, shifted, day))
  {
    LeapOfEra(c, q, y, era);
    if shifted <= 10 {
      MonthLengths(shifted, DateOf(era, c, q, y, shifted, day).year);
    }
  }

  lemma DivYears(era: int, yoe: int)
    requires 0 <= yoe < 400
    ensures (yoe + era * 400) / 400 == era
  {
  }

  lemma DayOfEraIs(c: int, q: int, y: int, doy: int)
    requires 0 <= c <= 3 && 0 <= q <= 24 && 0 <= y <= 3
    ensures DayOfEra(100 * c + 4 * q + y, doy) == Day(c, q, y, doy)
  {
    YearLength(c, q, y);
  }

  lemma DaysOfParts(days: int, era: int, c: int, q: int, y: int, doy: int, shifted: int, day: int)
    requires Parts(days, era, c, q, y, doy, shifted, day)
    ensures DaysFromCivil(DateOf(era, c, q, y, shifted, day)) == days
  {
    assert DayOfYear(MonthOf(shifted), day) == doy;
    DaysOfMarch(era, c, q, y, DateOf(era, c, q, y, shifted, day));
    DayOfEraIs(c, q, y, doy);
  }

  /** A date, counted from the parts of its March year. */
  lemma DaysOfMarch(era: int, c: int, q: int, y: int, date: Civil)
    requires 0 <= c <= 3 && 0 <= q <= 24 && 0 <= y <= 3
    requires (if date.month <= 2 then date.year - 1 else date.year) == 100 * c + 4 * q + y + era * 400
    ensures DaysFromCivil(date) == era * 146097 + DayOfEra(100 * c + 4 * q + y, DayOfYear(date.month, date.day)) - 719468
  {
    DivYears(era, 100 * c + 4 * q + y);
  }

  /** A valid date has parts too. */
  lemma ValidHasParts(date: Civil) returns (era: int, c: int, q: int, y: int, doy: int, shifted: int)
    requires Valid(date)
    ensures Parts(DaysFromCivil(date), era, c, q, y, doy, shifted, date.day) && date == DateOf(era, c, q, y, shifted, date.day)
  {
    var march := if date.month <= 2 then date.year - 1 else date.year;
    era := march / 400;
    c, q, y := YearParts(march - era * 400);
    YearLength(c, q, y);
    LeapOfEra(c, q, y, era);
    shifted := if date.month > 2 then date.month - 3 else date.month + 9;
    doy := FirstOf(shifted) + date.day - 1;
    if shifted <= 10 {
      MonthLengths(shifted, date.year);
    } else {
      MonthLengths(10, date.year);
    }
  }

  /** Every day is a valid date, and the date is that day's. */
  lemma DaysAreDates(days: int)
    ensures Valid(CivilFromDays(days)) && DaysFromCivil(CivilFromDays(days)) == days
  {
    var era, c, q, y, doy, shifted, day := HasParts(days);
    CivilOfParts(days, era, c, q, y, doy, shifted, day);
    PartsAreValid(days, era, c, q, y, doy, shifted, day);
    DaysOfParts(days, era, c, q, y, doy, shifted, day);
  }

  /** Every valid date is the date of its day. */
  lemma DatesAreDays(date: Civil)
    requires Valid(date)
    ensures CivilFromDays(DaysFromCivil(date)) == date
  {
    var era, c, q, y, doy, shifted := ValidHasParts(date);
    CivilOfParts(DaysFromCivil(date), era, c, q, y, doy, shifted, date.day);
  }

  function NextMonth(year: int, month: int): Civil {
    if month == 12 then Civil(year + 1, 1, 1) else Civil(year, month + 1, 1)
  }

  /** The day after, as a calendar has it. */
  function DayAfter(date: Civil): Civil {
    if date.day < DaysInMonth(date.year, date.month) then Civil(date.year, date.month, date.day + 1)
    else NextMonth(date.year, date.month)
  }

  /** Consecutive months are as far apart as the first of them is long. */
  lemma MonthsApart(year: int, month: int)
    requires 1 <= month <= 12
    ensures DaysFromCivil(NextMonth(year, month)) - DaysFromCivil(Civil(year, month, 1)) == DaysInMonth(year, month)
  {
    if month == 2 {
      FebruaryEnds(year);
    } else if month == 12 {
      MonthLengths(9, year);
    } else {
      MonthLengths(if month > 2 then month - 3 else month + 9, year);
    }
  }

  lemma FebruaryEnds(year: int)
    ensures DaysFromCivil(Civil(year, 3, 1)) - DaysFromCivil(Civil(year, 2, 1)) == DaysInMonth(year, 2)
  {
    var era := (year - 1) / 400;
    var c, q, y := YearParts(year - 1 - era * 400);
    LeapOfEra(c, q, y, era);
    if y < 3 {
      FebruaryBetween(year, era, c, q, y, era, c, q, y + 1);
    } else if q < 24 {
      FebruaryBetween(year, era, c, q, 3, era, c, q + 1, 0);
    } else if c < 3 {
      FebruaryBetween(year, era, c, 24, 3, era, c + 1, 0, 0);
    } else {
      FebruaryBetween(year, era, 3, 24, 3, era + 1, 0, 0, 0);
    }
  }

  /** From the first of February of one March year to the first day of the next. */
  lemma FebruaryBetween(year: int, era: int, c: int, q: int, y: int, era': int, c': int, q': int, y': int)
    requires 0 <= c <= 3 && 0 <= q <= 24 && 0 <= y <= 3 && year - 1 == 100 * c + 4 * q + y + era * 400
    requires 0 <= c' <= 3 && 0 <= q' <= 24 && 0 <= y' <= 3 && year == 100 * c' + 4 * q' + y' + era' * 400
    ensures DaysFromCivil(Civil(year, 3, 1)) - DaysFromCivil(Civil(year, 2, 1))
            == (era' - era) * 146097 + 36524 * (c' - c) + 1461 * (q' - q) + 365 * (y' - y) - 337
  {
    assert DayOfYear(2, 1) == 337 && DayOfYear(3, 1) == 0;
    DaysOfMarch(era, c, q, y, Civil(year, 2, 1));
    DayOfEraIs(c, q, y, 337);
    DaysOfMarch(era', c', q', y', Civil(year, 3, 1));
    DayOfEraIs(c', q', y', 0);
  }

  lemma LaterInMonth(date: Civil, k: int)
    ensures DaysFromCivil(date.(day := date.day + k)) == DaysFromCivil(date) + k
  {
  }

  lemma DayAfterCounts(date: Civil)
    requires Valid(date)
    ensures DaysFromCivil(DayAfter(date)) == DaysFromCivil(date) + 1
  {
    if date.day < DaysInMonth(date.year, date.month) {
      LaterInMonth(date, 1);
    } else {
      var first := Civil(date.year, date.month, 1);
      LaterInMonth(first, date.day - 1);
      assert first.(day := first.day + (date.day - 1)) == date;
      MonthsApart(date.year, date.month);
    }
  }

  /** One day more is the day after, on every day of the calendar. */
  lemma TomorrowIsTheDayAfter(days: int)
    ensures CivilFromDays(days + 1) == DayAfter(CivilFromDays(days))
  {
    DaysAreDates(days);
    DatedTomorrow(days, CivilFromDays(days));
  }

  lemma DatedTomorrow(days: int, date: Civil)
    requires Valid(date) && DaysFromCivil(date) == days
    ensures CivilFromDays(days + 1) == DayAfter(date)
  {
    DayAfterCounts(date);
    DatesAreDays(DayAfter(date));
  }

  /** The days are counted from the first of January 1970. */
  lemma DayZero(epoch: Civil)
    requires epoch == Civil(1970, 1, 1)
    ensures DaysFromCivil(epoch) == 0 && CivilFromDays(0) == epoch
  {
    EpochCounts(epoch);
    DatesAreDays(epoch);
  }

  lemma EpochCounts(epoch: Civil)
    requires epoch == Civil(1970, 1, 1)
    ensures DaysFromCivil(epoch) == 0
  {
  }
}
