/** Billing boundaries (src/meter/billing_calendar.py). Instants are UTC seconds, dates are day
    numbers since 1970-01-01, months are 12 * year + month - 1. Asia/Karachi is UTC+5, always. */
module Calendar {
  const DAY := 86400
  const OFFSET := 5 * 3600
  const EPOCH_MONTH := 12 * 1970

  function LocalDate(instant: int): int {
    (instant + OFFSET) / DAY
  }

  /** The UTC instant at which a local date begins. */
  function DateStart(date: int): int {
    date * DAY - OFFSET
  }

  predicate LeapYear(year: int) {
    year % 4 == 0 && (year % 100 != 0 || year % 400 == 0)
  }

  function DaysInMonth(month: int): (days: int)
    ensures 28 <= days <= 31
  {
    var m := month % 12;
    if m == 1 then (if LeapYear(month / 12) then 29 else 28)
    else if m in {3, 5, 8, 10} then 30
    else 31
  }

  /** The day number of the first of a month: each month begins when the one before it ends. */
  function FirstDay(month: int): int
    decreases if month >= EPOCH_MONTH then month - EPOCH_MONTH else EPOCH_MONTH - month
  {
    if month == EPOCH_MONTH then 0
    else if month > EPOCH_MONTH then FirstDay(month - 1) + DaysInMonth(month - 1)
    else FirstDay(month + 1) - DaysInMonth(month)
  }

  lemma {:induction false} MonthLength(month: int)
    ensures FirstDay(month + 1) == FirstDay(month) + DaysInMonth(month)
  {
  }

  lemma {:induction false} MonthParts(year: int, k: nat)
    requires k < 12
    ensures (12 * year + k) % 12 == k && (12 * year + k) / 12 == year
  {
  }

  /** The twelve months, by what the Gregorian calendar says of them. */
  lemma {:induction false} TwelveLengths(year: int, k: nat)
    requires k < 12
    ensures DaysInMonth(12 * year + k)
         == if k == 1 then (if year % 400 == 0 || (year % 4 == 0 && year % 100 != 0) then 29 else 28)
            else [31, 28, 31, 30, 31, 30, 31, 31, 30, 31, 30, 31][k]
  {
    hide LeapYear;
    MonthParts(year, k);
    LeapYears(year);
  }

  lemma {:induction false} LeapYears(year: int)
    ensures LeapYear(year) <==> year % 400 == 0 || (year % 4 == 0 && year % 100 != 0)
  {
    MultiplesOf400(year);
  }

  lemma {:induction false} MultiplesOf400(n: int)
    ensures n % 400 == 0 ==> n % 100 == 0
    ensures n % 100 == 0 ==> n % 4 == 0
  {
    if n % 400 == 0 {
      FourHundreds(n / 400);
    }
    if n % 100 == 0 {
      Hundreds(n / 100);
    }
  }

  lemma {:induction false} FourHundreds(q: int)
    ensures (400 * q) % 100 == 0
  {
  }

  lemma {:induction false} Hundreds(q: int)
    ensures (100 * q) % 4 == 0
  {
  }

  /** Leap days in the years before this one, counted from year 1. */
  function LeapsBefore(year: int): int {
    (year - 1) / 4 - (year - 1) / 100 + (year - 1) / 400
  }

  lemma {:induction false} OneMoreMultiple(n: int, d: int)
    requires d in {4, 100, 400}
    ensures n / d - (n - 1) / d == if n % d == 0 then 1 else 0
  {
  }

  lemma {:induction false} LeapDay(year: int)
    ensures LeapsBefore(year + 1) - LeapsBefore(year) == if year % 400 == 0 || (year % 4 == 0 && year % 100 != 0) then 1 else 0
  {
    hide LeapsBefore;
    OneMoreMultiple(year, 4);
    OneMoreMultiple(year, 100);
    OneMoreMultiple(year, 400);
    MultiplesOf400(year);
    LeapsAre(year);
    LeapsAre(year + 1);
  }

  lemma {:induction false} LeapsAre(year: int)
    ensures LeapsBefore(year) == (year - 1) / 4 - (year - 1) / 100 + (year - 1) / 400
  {
  }

  /** The days from the first of the year's month k to the first of its month k + 1, added up. */
  function DaysUpTo(year: int, k: nat): int
    requires k <= 12
  {
    if k == 0 then 0 else DaysUpTo(year, k - 1) + DaysInMonth(12 * year + k - 1)
  }

  lemma {:induction false} MonthsAddUp(year: int, k: nat)
    requires k <= 12
    ensures FirstDay(12 * year + k) == FirstDay(12 * year) + DaysUpTo(year, k)
  {
    hide FirstDay, DaysInMonth;
    if k > 0 {
      MonthsAddUp(year, k - 1);
      MonthLength(12 * year + k - 1);
    }
  }

  lemma {:induction false} DaysInYear(year: int, k: nat)
    requires k <= 12
    ensures DaysUpTo(year, k)
         == [0, 31, 59, 90, 120, 151, 181, 212, 243, 273, 304, 334, 365][k]
            + if k > 1 && (year % 400 == 0 || (year % 4 == 0 && year % 100 != 0)) then 1 else 0
  {
    hide DaysInMonth;
    if k > 0 {
      DaysInYear(year, k - 1);
      TwelveLengths(year, k - 1);
    }
  }

  lemma {:induction false} OneYear(year: int)
    ensures FirstDay(12 * (year + 1)) == FirstDay(12 * year) + 365 + LeapsBefore(year + 1) - LeapsBefore(year)
  {
    hide FirstDay, DaysInMonth, LeapsBefore, DaysUpTo;
    MonthsAddUp(year, 12);
    DaysInYear(year, 12);
    LeapDay(year);
  }

  /** When a year begins, in closed form: 365 days for every year since 1970 and one for each leap day. */
  lemma {:induction false} YearStart(year: int)
    ensures FirstDay(12 * year) == 365 * (year - 1970) + LeapsBefore(year) - 477
    decreases if year >= 1970 then year - 1970 else 1970 - year
  {
    hide LeapsBefore, DaysInMonth;
    if year == 1970 {
      LeapsOf1970();
    } else if year > 1970 {
      YearStart(year - 1);
      OneYear(year - 1);
    } else {
      YearStart(year + 1);
      OneYear(year);
    }
  }

  lemma {:induction false} LeapsOf1970()
    ensures LeapsBefore(1970) == 477
  {
  }

  /** The calendar repeats after 400 years, which have 146097 days. */
  lemma {:induction false} GregorianCycle(year: int)
    ensures FirstDay(12 * (year + 400)) == FirstDay(12 * year) + 146097
  {
    hide FirstDay, LeapsBefore;
    YearStart(year);
    YearStart(year + 400);
    LeapsInCycle(year);
  }

  lemma {:induction false} LeapsInCycle(year: int)
    ensures LeapsBefore(year + 400) == LeapsBefore(year) + 97
  {
    var n := year - 1;
    assert (n + 400) / 4 == n / 4 + 100;
    assert (n + 400) / 100 == n / 100 + 4;
    assert (n + 400) / 400 == n / 400 + 1;
  }

  function MonthStart(month: int): int {
    DateStart(FirstDay(month))
  }

  function MonthEnd(month: int): int {
    MonthStart(month + 1)
  }

  function MonthFrom(date: int, guess: int): (month: int)
    ensures FirstDay(month) <= date < FirstDay(month + 1)
    decreases date < FirstDay(guess), if date < FirstDay(guess) then FirstDay(guess) - date else date - FirstDay(guess)
  {
    MonthLength(guess - 1);
    MonthLength(guess);
    if date < FirstDay(guess) then MonthFrom(date, guess - 1)
    else if date >= FirstDay(guess + 1) then MonthFrom(date, guess + 1)
    else guess
  }

  /** The local month a date falls in. */
  function MonthOf(date: int): int {
    MonthFrom(date, EPOCH_MONTH)
  }

  function PeriodMonth(instant: int): int {
    MonthOf(LocalDate(instant))
  }

  function PeriodStartOf(instant: int): int {
    MonthStart(PeriodMonth(instant))
  }

  lemma {:induction false} LocalDateMonotone(a: int, b: int)
    requires a <= b
    ensures LocalDate(a) <= LocalDate(b)
  {
  }

  /** Midnight in Karachi is 19:00 UTC the day before: the epoch's own month began five hours before it,
      and July 2026 begins at 2026-06-30T19:00:00Z. */
  lemma {:induction false} KarachiBoundaries()
    ensures MonthStart(12 * 1970) == -18000 && LocalDate(-18000) == 0 && LocalDate(-18001) == -1
    ensures MonthStart(12 * 2026 + 6) == 1782846000
    ensures LocalDate(1782846000) == FirstDay(12 * 2026 + 6) == LocalDate(1782845999) + 1
  {
    hide FirstDay;
    YearStart(1970);
    YearStart(2026);
    MonthsAddUp(2026, 6);
    DaysInYear(2026, 6);
    assert LeapsBefore(2026) == 491 && LeapsBefore(1970) == 477;
  }

  /** Whole local days in [start, end); the change day belongs to what starts on it. */
  function WholeDaysBetween(start: int, end: int): (days: int)
    ensures days == if LocalDate(end) > LocalDate(start) then LocalDate(end) - LocalDate(start) else 0
  {
    if end <= start then 0 else
      LocalDateMonotone(start, end);
      LocalDate(end) - LocalDate(start)
  }

  function Dates(first: int, last: int): (dates: set<int>)
    ensures forall date :: date in dates <==> first <= date < last
    ensures |dates| == if first < last then last - first else 0
    decreases last - first
  {
    if first >= last then {} else Dates(first, last - 1) + {last - 1}
  }

  /** The dates a span owns: from the one it starts on up to, not including, the one it ends on. */
  function OwnedDates(start: int, end: int): set<int> {
    Dates(LocalDate(start), LocalDate(end))
  }

  /** The count is of the dates owned, so a span cut in two owns as many in its parts as whole. */
  lemma {:induction false} WholeDaysAreOwned(start: int, cut: int, end: int)
    ensures WholeDaysBetween(start, end) == |OwnedDates(start, end)|
    ensures start <= cut <= end ==> OwnedDates(start, end) == OwnedDates(start, cut) + OwnedDates(cut, end)
    ensures start <= cut <= end ==> WholeDaysBetween(start, end) == WholeDaysBetween(start, cut) + WholeDaysBetween(cut, end)
  {
    if start <= cut <= end {
      LocalDateMonotone(start, cut);
      LocalDateMonotone(cut, end);
    }
  }

  lemma {:induction false} LocalDateBounds(instant: int, date: int)
    ensures LocalDate(instant) >= date <==> instant >= DateStart(date)
  {
  }

  lemma {:induction false} FirstDayMonotone(a: int, b: int)
    requires a < b
    ensures FirstDay(a) < FirstDay(b)
    decreases b - a
  {
    MonthLength(b - 1);
    if a < b - 1 {
      FirstDayMonotone(a, b - 1);
    }
  }

  /** An instant lies in exactly one billing period, the one its partition key names, so every
      redelivery of an event resolves to the same partition. */
  lemma {:induction false} InstantInOnePeriod(instant: int, month: int)
    ensures MonthStart(month) <= instant < MonthEnd(month) <==> month == PeriodMonth(instant)
  {
    var own := PeriodMonth(instant);
    LocalDateBounds(instant, FirstDay(month));
    LocalDateBounds(instant, FirstDay(month + 1));
    if month < own {
      if month + 1 < own {
        FirstDayMonotone(month + 1, own);
      }
    } else if own < month {
      if own + 1 < month {
        FirstDayMonotone(own + 1, month);
      }
    }
  }

  /** A local day never straddles a month: its instants are one 24-hour span of one period. */
  lemma {:induction false} DayInOnePeriod(date: int, instant: int)
    ensures LocalDate(instant) == date <==> DateStart(date) <= instant < DateStart(date) + DAY
    ensures LocalDate(instant) == date ==> PeriodStartOf(instant) == MonthStart(MonthOf(date))
  {
    LocalDateBounds(instant, date);
    LocalDateBounds(instant, date + 1);
  }
}
