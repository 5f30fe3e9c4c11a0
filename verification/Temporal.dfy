/** Bounds of date and timestamp columns recovered from the year, month, day or hour partition
    values of a manifest (`ManifestFileStatsGetter`). */
module Temporal {
  import opened Plan

  // ----- The proleptic Gregorian calendar -----

  predicate IsLeap(y: int) { y % 4 == 0 && (y % 100 != 0 || y % 400 == 0) }

  function YearLength(y: int): int { if IsLeap(y) then 366 else 365 }

  /** Day number of January 1, counted from 1970-01-01. */
  function StartOfYear(y: int): int
    decreases if y < 1970 then 1970 - y else y - 1970
  {
    if y == 1970 then 0
    else if y > 1970 then StartOfYear(y - 1) + YearLength(y - 1)
    else StartOfYear(y + 1) - YearLength(y)
  }

  /** The length of month `m`, where January is 0. */
  function MonthLength(m: nat, leap: bool): nat
    requires m < 12
  {
    if m == 1 then (if leap then 29 else 28) else if m == 3 || m == 5 || m == 8 || m == 10 then 30 else 31
  }

  function DaysBefore(m: nat, leap: bool): nat
    requires m <= 12
  {
    if m == 0 then 0 else DaysBefore(m - 1, leap) + MonthLength(m - 1, leap)
  }

  /** Day number of the first day of month `k`, counted in months from January 1970. */
  function StartOfMonth(k: int): int
  {
    StartOfYear(1970 + k / 12) + DaysBefore(k % 12, IsLeap(1970 + k / 12))
  }

  /** The well-known closed form: a leap day every fourth year, but not every hundredth, and again
      every four hundredth. */
  lemma {:induction false} YearsCounted(y: int)
    ensures StartOfYear(y) == 365 * (y - 1970) + (y - 1) / 4 - (y - 1) / 100 + (y - 1) / 400 - 477
    decreases if y < 1970 then 1970 - y else y - 1970
  {
    if y > 1970 {
      YearsCounted(y - 1);
      LeapDays(y - 1);
    } else if y < 1970 {
      YearsCounted(y + 1);
      LeapDays(y);
    }
  }

  lemma {:induction false} LeapDays(y: int)
    ensures y / 4 - y / 100 + y / 400 == (y - 1) / 4 - (y - 1) / 100 + (y - 1) / 400 + (if IsLeap(y) then 1 else 0)
  {
    Quotients(y, 4);
    Quotients(y, 100);
    Quotients(y, 400);
  }

  lemma {:induction false} Quotients(y: int, d: int)
    requires d > 1
    ensures y / d == (y - 1) / d + (if y % d == 0 then 1 else 0)
  {
    var q := if y % d == 0 then y / d - 1 else y / d;
    FloorBounds(y - 1, d, q, q);
  }

  /** The first days of the months of a year, counted from its first day. */
  lemma {:induction false} MonthTable(leap: bool)
    ensures var l := if leap then 1 else 0;
      && DaysBefore(0, leap) == 0 && DaysBefore(1, leap) == 31 && DaysBefore(2, leap) == 59 + l
      && DaysBefore(3, leap) == 90 + l && DaysBefore(4, leap) == 120 + l && DaysBefore(5, leap) == 151 + l
      && DaysBefore(6, leap) == 181 + l && DaysBefore(7, leap) == 212 + l && DaysBefore(8, leap) == 243 + l
      && DaysBefore(9, leap) == 273 + l && DaysBefore(10, leap) == 304 + l && DaysBefore(11, leap) == 334 + l
  {
    assert DaysBefore(1, leap) == 31;
    assert DaysBefore(3, leap) == if leap then 91 else 90;
    assert DaysBefore(5, leap) == if leap then 152 else 151;
    assert DaysBefore(7, leap) == if leap then 213 else 212;
    assert DaysBefore(9, leap) == if leap then 274 else 273;
  }

  lemma {:induction false} YearFollowsYear(y: int)
    ensures StartOfYear(y + 1) == StartOfYear(y) + YearLength(y)
  {
  }

  lemma {:induction false} TwelveMonths(leap: bool)
    ensures DaysBefore(12, leap) == if leap then 366 else 365
  {
    assert DaysBefore(1, leap) == 31;
    assert DaysBefore(2, leap) == if leap then 60 else 59;
    assert DaysBefore(4, leap) == if leap then 121 else 120;
    assert DaysBefore(6, leap) == if leap then 182 else 181;
    assert DaysBefore(8, leap) == if leap then 244 else 243;
    assert DaysBefore(10, leap) == if leap then 305 else 304;
  }

  lemma {:induction false} NextMonth(k: int)
    ensures k % 12 == 11 ==> (k + 1) / 12 == k / 12 + 1 && (k + 1) % 12 == 0
    ensures k % 12 != 11 ==> (k + 1) / 12 == k / 12 && (k + 1) % 12 == k % 12 + 1
  {
  }

  /** Twelve months make a year: each begins where the one before it ends. */
  lemma {:induction false} MonthFollowsMonth(k: int)
    ensures StartOfMonth(k + 1) == StartOfMonth(k) + MonthLength(k % 12, IsLeap(1970 + k / 12))
  {
    var y, m := 1970 + k / 12, k % 12;
    NextMonth(k);
    if m == 11 {
      YearFollowsYear(y);
      TwelveMonths(IsLeap(y));
    }
  }

  // ----- Partition transforms -----

  /** `y` years after 1970. */
  predicate InYear(day: int, y: int) { StartOfYear(1970 + y) <= day < StartOfYear(1970 + y + 1) }

  predicate InMonth(day: int, k: int) { StartOfMonth(k) <= day < StartOfMonth(k + 1) }

  /** The year transform of a day. */
  function YearOf(day: int): (y: int)
    ensures InYear(day, y)
  {
    if day >= 0 then YearUp(day, 0) else YearDown(day, -1)
  }

  function YearUp(day: int, y: int): (r: int)
    requires StartOfYear(1970 + y) <= day
    ensures InYear(day, r)
    decreases day - StartOfYear(1970 + y)
  {
    YearFollowsYear(1970 + y);
    if day < StartOfYear(1970 + y + 1) then y else YearUp(day, y + 1)
  }

  function YearDown(day: int, y: int): (r: int)
    requires day < StartOfYear(1970 + y + 1)
    ensures InYear(day, r)
    decreases StartOfYear(1970 + y + 1) - day
  {
    YearFollowsYear(1970 + y);
    if StartOfYear(1970 + y) <= day then y else YearDown(day, y - 1)
  }

  /** The month transform of a day. */
  function MonthOf(day: int): (k: int)
    ensures InMonth(day, k)
  {
    if day >= 0 then MonthUp(day, 0) else MonthDown(day, -1)
  }

  function MonthUp(day: int, k: int): (r: int)
    requires StartOfMonth(k) <= day
    ensures InMonth(day, r)
    decreases day - StartOfMonth(k)
  {
    MonthFollowsMonth(k);
    if day < StartOfMonth(k + 1) then k else MonthUp(day, k + 1)
  }

  function MonthDown(day: int, k: int): (r: int)
    requires day < StartOfMonth(k + 1)
    ensures InMonth(day, r)
    decreases StartOfMonth(k + 1) - day
  {
    MonthFollowsMonth(k);
    if StartOfMonth(k) <= day then k else MonthDown(day, k - 1)
  }

  datatype Transform = Year | Month | Day | Hour

  const MicrosPerHour := 3_600_000_000
  const MicrosPerDay := 86_400_000_000

  /** The transform of a date. */
  function OfDate(tr: Transform, day: int): int
    requires tr != Hour
  {
    match tr
    case Year => YearOf(day)
    case Month => MonthOf(day)
    case _ => day
  }

  /** The transform of a timestamp in microseconds. */
  function OfTimestamp(tr: Transform, micros: int): int
  {
    if tr == Hour then micros / 3_600_000_000 else OfDate(tr, micros / 86_400_000_000)
  }

  // ----- The code -----

  const MaxInt := 0x7fff_ffff
  const MinInt := -0x8000_0000
  const MaxInt64 := 0x7fff_ffff_ffff_ffff
  const MinInt64 := -0x8000_0000_0000_0000

  /** Division rounding toward zero. */
  function Truncated(n: int, d: int): int
    requires d > 0
  {
    if n >= 0 then n / d else -((-n) / d)
  }

  /** `None` where the code raises. */
  function YearsToDays(years: int): Option<int>
  {
    if Truncated(MinInt, 366) <= years <= Truncated(MaxInt, 366) then Some(StartOfYear(1970 + years)) else None
  }

  function MonthsToDays(months: int): Option<int>
  {
    if 0 <= months <= Truncated(MaxInt, 31) then Some(StartOfMonth(months)) else None
  }

  function DaysToHours(days: int): Option<int>
  {
    if Truncated(MinInt, 24) <= days <= Truncated(MaxInt, 24) then Some(24 * days) else None
  }

  function HoursToMicros(hours: int): Option<int>
  {
    if Truncated(MinInt64, MicrosPerHour) <= hours <= Truncated(MaxInt64, MicrosPerHour)
    then Some(hours * MicrosPerHour) else None
  }

  datatype Stats = Raises | NoStats | Bounds(min: int, max: int)

  function Bound(lo: Option<int>, hi: Option<int>): Stats
  {
    if lo.None? || hi.None? then Raises else Bounds(lo.value, hi.value - 1)
  }

  /** First and last day of the partition values; the hour transform has none. */
  function DayBounds(tr: Transform, min: int, max: int): Stats
  {
    match tr
    case Year => Bound(YearsToDays(min), YearsToDays(max + 1))
    case Month => Bound(MonthsToDays(min), MonthsToDays(max + 1))
    case Day => Bounds(min, max)
    case Hour => Raises
  }

  function HourBounds(tr: Transform, min: int, max: int): Stats
  {
    if tr == Hour then Bounds(min, max) else
      match DayBounds(tr, min, max)
      case Bounds(first, last) => Bound(DaysToHours(first), DaysToHours(last + 1))
      case s => s
  }

  function MicroBounds(tr: Transform, min: int, max: int): Stats
  {
    match HourBounds(tr, min, max)
    case Bounds(first, last) => Bound(HoursToMicros(first), HoursToMicros(last + 1))
    case s => s
  }

  datatype ValueType = Date | Timestamp | Timestamptz | Other

  /** The statistics handed to the filter for the partition values `min` to `max`. */
  function GetStats(kind: ValueType, tr: Transform, min: int, max: int): Stats
  {
    if max == MaxInt then NoStats else
      match kind
      case Date => DayBounds(tr, min, max)
      case Timestamp => MicroBounds(tr, min, max)
      case Timestamptz =>
        (match MicroBounds(tr, min, max)
         case Bounds(lo, hi) =>
           if lo < MinInt64 + MicrosPerDay || hi > MaxInt64 - MicrosPerDay then NoStats
           else Bounds(lo - MicrosPerDay, hi + MicrosPerDay)
         case s => s)
      case Other => NoStats
  }

  // ----- Exactness -----

  /** The years that `std::chrono::year` can hold; beyond them the days of the code are unspecified. */
  predicate ChronoYear(y: int) { -32767 <= y <= 32767 }

  /** All dates the bounds are computed from lie in those years. */
  predicate InCalendar(tr: Transform, min: int, max: int)
  {
    match tr
    case Year => ChronoYear(1970 + min) && ChronoYear(1970 + max + 1)
    case Month => ChronoYear(1970 + min / 12) && ChronoYear(1970 + (max + 1) / 12)
    case _ => true
  }

  predicate Grows(start: int -> int, k: int) { start(k) < start(k + 1) }

  lemma {:induction false} Ascends(start: int -> int, k: int, l: int)
    requires k <= l && forall i :: Grows(start, i)
    ensures start(k) <= start(l)
    decreases l - k
  {
    if k < l {
      Ascends(start, k, l - 1);
      assert Grows(start, l - 1);
    }
  }

  /** Intervals that follow each other: a range of them is the range between their ends. */
  lemma {:induction false} Preimage(start: int -> int, min: int, max: int, k: int, day: int)
    requires (forall i :: Grows(start, i)) && start(k) <= day < start(k + 1)
    ensures start(min) <= day < start(max + 1) <==> min <= k <= max
  {
    if k < min { Ascends(start, k + 1, min); } else { Ascends(start, min, k); }
    if k > max { Ascends(start, max + 1, k); } else { Ascends(start, k + 1, max + 1); }
  }

  lemma {:induction false} YearPreimage(min: int, max: int, day: int)
    ensures StartOfYear(1970 + min) <= day < StartOfYear(1970 + max + 1) <==> min <= YearOf(day) <= max
  {
    var start := y => StartOfYear(1970 + y);
    forall y ensures Grows(start, y) { YearFollowsYear(1970 + y); }
    Preimage(start, min, max, YearOf(day), day);
    assert 1970 + (max + 1) == 1970 + max + 1;
  }

  lemma {:induction false} MonthPreimage(min: int, max: int, day: int)
    ensures StartOfMonth(min) <= day < StartOfMonth(max + 1) <==> min <= MonthOf(day) <= max
  {
    var start := StartOfMonth;
    forall k ensures Grows(start, k) { MonthGrows(k); }
    Preimage(start, min, max, MonthOf(day), day);
  }

  lemma {:induction false} MonthGrows(k: int)
    ensures Grows(StartOfMonth, k)
  {
    MonthFollowsMonth(k);
  }

  lemma {:induction false} DayBoundsExact(tr: Transform, min: int, max: int, day: int)
    requires DayBounds(tr, min, max).Bounds?
    ensures tr != Hour
    ensures DayBounds(tr, min, max).min <= day <= DayBounds(tr, min, max).max <==> min <= OfDate(tr, day) <= max
  {
    if tr == Year { YearPreimage(min, max, day); }
    if tr == Month { MonthPreimage(min, max, day); }
  }

  /** The bounds of a date column contain exactly the days whose transform lies between the
      partition values. */
  lemma {:induction false} DateBoundsExact(tr: Transform, min: int, max: int, day: int)
    requires GetStats(Date, tr, min, max).Bounds? && InCalendar(tr, min, max)
    ensures tr != Hour
    ensures GetStats(Date, tr, min, max).min <= day <= GetStats(Date, tr, min, max).max <==>
            min <= OfDate(tr, day) <= max
  {
    DayBoundsExact(tr, min, max, day);
  }

  lemma {:induction false} FloorBounds(n: int, d: int, lo: int, hi: int)
    requires d > 0
    ensures lo * d <= n < (hi + 1) * d <==> lo <= n / d <= hi
  {
    var q, r := n / d, n % d;
    assert n == q * d + r;
    if lo <= q { assert lo * d <= q * d; } else { assert (q + 1) * d <= lo * d; }
    if q <= hi { assert (q + 1) * d <= (hi + 1) * d; } else { assert (hi + 1) * d <= q * d; }
  }

  lemma {:induction false} MicrosOfHours(tr: Transform, min: int, max: int)
    requires MicroBounds(tr, min, max).Bounds?
    ensures HourBounds(tr, min, max).Bounds?
    ensures MicroBounds(tr, min, max).min == HourBounds(tr, min, max).min * MicrosPerHour
    ensures MicroBounds(tr, min, max).max == (HourBounds(tr, min, max).max + 1) * MicrosPerHour - 1
  {
  }

  lemma {:induction false} MicrosOfDays(tr: Transform, min: int, max: int)
    requires MicroBounds(tr, min, max).Bounds? && tr != Hour
    ensures DayBounds(tr, min, max).Bounds?
    ensures MicroBounds(tr, min, max).min == DayBounds(tr, min, max).min * MicrosPerDay
    ensures MicroBounds(tr, min, max).max == (DayBounds(tr, min, max).max + 1) * MicrosPerDay - 1
  {
    MicrosOfHours(tr, min, max);
  }

  lemma {:induction false} MicroBoundsExact(tr: Transform, min: int, max: int, micros: int)
    requires MicroBounds(tr, min, max).Bounds?
    ensures MicroBounds(tr, min, max).min <= micros <= MicroBounds(tr, min, max).max <==>
            min <= OfTimestamp(tr, micros) <= max
  {
    if tr == Hour {
      MicrosOfHours(tr, min, max);
      FloorBounds(micros, MicrosPerHour, min, max);
    } else {
      MicrosOfDays(tr, min, max);
      FloorBounds(micros, MicrosPerDay, DayBounds(tr, min, max).min, DayBounds(tr, min, max).max);
      DayBoundsExact(tr, min, max, micros / MicrosPerDay);
    }
  }

  /** The bounds of a timestamp column contain exactly the instants whose transform lies between
      the partition values. */
  lemma {:induction false} TimestampBoundsExact(tr: Transform, min: int, max: int, micros: int)
    requires GetStats(Timestamp, tr, min, max).Bounds? && InCalendar(tr, min, max)
    ensures GetStats(Timestamp, tr, min, max).min <= micros <= GetStats(Timestamp, tr, min, max).max <==>
            min <= OfTimestamp(tr, micros) <= max
  {
    MicroBoundsExact(tr, min, max, micros);
  }

  lemma {:induction false} Widened(tr: Transform, min: int, max: int)
    requires GetStats(Timestamptz, tr, min, max).Bounds?
    ensures MicroBounds(tr, min, max).Bounds?
    ensures GetStats(Timestamptz, tr, min, max).min == MicroBounds(tr, min, max).min - MicrosPerDay
    ensures GetStats(Timestamptz, tr, min, max).max == MicroBounds(tr, min, max).max + MicrosPerDay
  {
  }

  /** The local time belongs to the partition and lies at most a day away. */
  predicate LocalTime(tr: Transform, min: int, max: int, micros: int, local: int)
  {
    local - MicrosPerDay <= micros <= local + MicrosPerDay && min <= OfTimestamp(tr, local) <= max
  }

  function Clamp(n: int, lo: int, hi: int): int { if n < lo then lo else if n > hi then hi else n }

  lemma {:induction false} BoundsNonempty(tr: Transform, min: int, max: int)
    requires MicroBounds(tr, min, max).Bounds? && min <= max
    ensures MicroBounds(tr, min, max).min <= MicroBounds(tr, min, max).max
  {
    if tr == Hour {
      MicrosOfHours(tr, min, max);
    } else {
      MicrosOfDays(tr, min, max);
      DayBoundsExact(tr, min, max, DayBounds(tr, min, max).min);
      if tr == Year { YearsGrow(min, max); }
      if tr == Month { MonthsGrow(min, max); }
    }
  }

  lemma {:induction false} YearsGrow(min: int, max: int)
    requires min <= max
    ensures StartOfYear(1970 + min) < StartOfYear(1970 + max + 1)
  {
    var start := y => StartOfYear(1970 + y);
    forall y ensures Grows(start, y) { YearFollowsYear(1970 + y); }
    Ascends(start, min, max);
    assert Grows(start, max) && 1970 + (max + 1) == 1970 + max + 1;
  }

  lemma {:induction false} MonthsGrow(min: int, max: int)
    requires min <= max
    ensures StartOfMonth(min) < StartOfMonth(max + 1)
  {
    forall k ensures Grows(StartOfMonth, k) { MonthGrows(k); }
    Ascends(StartOfMonth, min, max);
    assert Grows(StartOfMonth, max);
  }

  /** For a timestamp with time zone the transform is taken of a local time up to a day away: the
      bounds contain exactly the instants with such a time in the partition. */
  lemma {:induction false} TimestamptzBoundsExact(tr: Transform, min: int, max: int, micros: int)
    requires GetStats(Timestamptz, tr, min, max).Bounds? && InCalendar(tr, min, max)
    ensures (exists local :: LocalTime(tr, min, max, micros, local)) ==>
            GetStats(Timestamptz, tr, min, max).min <= micros <= GetStats(Timestamptz, tr, min, max).max
    ensures min <= max && GetStats(Timestamptz, tr, min, max).min <= micros <= GetStats(Timestamptz, tr, min, max).max
            ==> exists local :: LocalTime(tr, min, max, micros, local)
  {
    Widened(tr, min, max);
    var lo, hi := MicroBounds(tr, min, max).min, MicroBounds(tr, min, max).max;
    if min <= max && lo - MicrosPerDay <= micros <= hi + MicrosPerDay {
      BoundsNonempty(tr, min, max);
      var local := Clamp(micros, lo, hi);
      MicroBoundsExact(tr, min, max, local);
      assert LocalTime(tr, min, max, micros, local);
    }
    if local :| LocalTime(tr, min, max, micros, local) { MicroBoundsExact(tr, min, max, local); }
  }

  // ----- Which values are refused -----

  predicate AcceptedYear(y: int) { -5_867_441 <= y <= 5_867_441 }
  predicate AcceptedMonth(k: int) { 0 <= k <= 69_273_666 }
  predicate AcceptedDay(day: int) { -89_478_485 <= day <= 89_478_485 }

  predicate Accepted(tr: Transform, min: int, max: int)
  {
    match tr
    case Year => AcceptedYear(min) && AcceptedYear(max + 1)
    case Month => AcceptedMonth(min) && AcceptedMonth(max + 1)
    case _ => true
  }

  /** The first day of the partition value. */
  function FirstDay(tr: Transform, value: int): int
  {
    match tr
    case Year => StartOfYear(1970 + value)
    case Month => StartOfMonth(value)
    case _ => value
  }

  lemma {:induction false} DayBoundsWhen(tr: Transform, min: int, max: int)
    ensures DayBounds(tr, min, max).Bounds? <==> tr != Hour && Accepted(tr, min, max)
    ensures DayBounds(tr, min, max).Bounds? ==>
            DayBounds(tr, min, max) == Bounds(FirstDay(tr, min), FirstDay(tr, max + 1) - 1)
    ensures DayBounds(tr, min, max).Bounds? || DayBounds(tr, min, max) == Raises
  {
    assert 1970 + (max + 1) == 1970 + max + 1;
  }

  /** A date column has no bounds for the greatest partition value, and raises for the hour transform
      and for years and months outside the accepted ones. */
  lemma {:induction false} DateStatsExactly(tr: Transform, min: int, max: int)
    ensures GetStats(Date, tr, min, max).NoStats? <==> max == 0x7fff_ffff
    ensures GetStats(Date, tr, min, max).Raises? <==> max != 0x7fff_ffff && (tr == Hour || !Accepted(tr, min, max))
  {
    DayBoundsWhen(tr, min, max);
  }

  /** All days lie where they can be turned into hours. */
  predicate Convertible(tr: Transform, min: int, max: int)
  {
    tr == Hour || (Accepted(tr, min, max) && AcceptedDay(FirstDay(tr, min)) && AcceptedDay(FirstDay(tr, max + 1)))
  }

  lemma {:induction false} HourBoundsWhen(tr: Transform, min: int, max: int)
    ensures HourBounds(tr, min, max).Bounds? <==> Convertible(tr, min, max)
    ensures HourBounds(tr, min, max).Bounds? || HourBounds(tr, min, max) == Raises
  {
    DayBoundsWhen(tr, min, max);
  }

  lemma {:induction false} MicroBoundsWhen(tr: Transform, min: int, max: int)
    requires Int32(min) && Int32(max) && max != 0x7fff_ffff
    ensures MicroBounds(tr, min, max).Bounds? <==> Convertible(tr, min, max)
    ensures MicroBounds(tr, min, max).Bounds? || MicroBounds(tr, min, max) == Raises
    ensures MicroBounds(tr, min, max).Bounds? ==>
      && MinInt64 + MicrosPerDay <= MicroBounds(tr, min, max).min
      && MicroBounds(tr, min, max).max <= MaxInt64 - MicrosPerDay
  {
    HourBoundsWhen(tr, min, max);
    if Convertible(tr, min, max) {
      HoursFit(tr, min, max);
      HoursAreFew(HourBounds(tr, min, max).min);
      HoursAreFew(HourBounds(tr, min, max).max + 1);
    }
  }

  lemma {:induction false} HoursAreFew(hours: int)
    requires MinInt <= hours <= MaxInt + 1
    ensures HoursToMicros(hours).Some?
    ensures MinInt64 + MicrosPerDay <= HoursToMicros(hours).value <= MaxInt64 - MicrosPerDay
  {
  }

  /** A timestamp column, with time zone or without, has no bounds for the greatest partition value
      only, and raises exactly when a value is outside the accepted ones or a day too far away. */
  lemma {:induction false} TimestampStatsExactly(kind: ValueType, tr: Transform, min: int, max: int)
    requires (kind == Timestamp || kind == Timestamptz) && Int32(min) && Int32(max)
    ensures GetStats(kind, tr, min, max).NoStats? <==> max == 0x7fff_ffff
    ensures GetStats(kind, tr, min, max).Raises? <==> max != 0x7fff_ffff && !Convertible(tr, min, max)
  {
    if max != MaxInt { MicroBoundsWhen(tr, min, max); }
  }

  /** Columns of other types have no bounds. */
  lemma {:induction false} OtherStats(tr: Transform, min: int, max: int)
    ensures GetStats(Other, tr, min, max).NoStats?
  {
  }

  // ----- No overflow -----

  predicate Int32(n: int) { MinInt <= n <= MaxInt }
  predicate Int64(n: int) { MinInt64 <= n <= MaxInt64 }

  lemma {:induction false} YearsBounded(years: int)
    ensures years >= 0 ==> 0 <= StartOfYear(1970 + years) <= 366 * years
    ensures years < 0 ==> 366 * years <= StartOfYear(1970 + years) < 0
    decreases if years < 0 then -years else years
  {
    if years > 0 { YearsBounded(years - 1); }
    if years < 0 { YearsBounded(years + 1); }
  }

  lemma {:induction false} MonthsBounded(months: nat)
    ensures 0 <= StartOfMonth(months) <= 31 * months
  {
    if months > 0 {
      MonthsBounded(months - 1);
      MonthFollowsMonth(months - 1);
    }
  }

  /** On every accepted input the day numbers stay within 32 bits, and so does the day after. */
  lemma {:induction false} DaysFit(tr: Transform, min: int, max: int)
    requires DayBounds(tr, min, max).Bounds? && Int32(min) && Int32(max) && max != MaxInt
    ensures Int32(max + 1) && Int32(DayBounds(tr, min, max).min)
    ensures Int32(DayBounds(tr, min, max).max) && Int32(DayBounds(tr, min, max).max + 1)
  {
    if tr == Year {
      YearsBounded(min);
      YearsBounded(max + 1);
      assert 1970 + (max + 1) == 1970 + max + 1;
    }
    if tr == Month {
      MonthsBounded(min);
      MonthsBounded(max + 1);
    }
  }

  /** The hours stay within 32 bits. */
  lemma {:induction false} HoursFit(tr: Transform, min: int, max: int)
    requires HourBounds(tr, min, max).Bounds? && Int32(min) && Int32(max)
    ensures Int32(HourBounds(tr, min, max).min) && Int32(HourBounds(tr, min, max).max)
  {
  }

  /** The microseconds of an hour stay within 64 bits, one microsecond less included; hours of
      32 bits are always accepted. */
  lemma {:induction false} MicrosFit(hours: int)
    ensures HoursToMicros(hours).Some? ==> Int64(HoursToMicros(hours).value) && Int64(HoursToMicros(hours).value - 1)
    ensures Int32(hours) ==> HoursToMicros(hours).Some?
  {
  }

  /** The bounds handed to the filter fit their column type. */
  lemma {:induction false} StatsFit(kind: ValueType, tr: Transform, min: int, max: int)
    requires GetStats(kind, tr, min, max).Bounds? && Int32(min) && Int32(max)
    ensures kind == Date ==> Int32(GetStats(kind, tr, min, max).min) && Int32(GetStats(kind, tr, min, max).max)
    ensures Int64(GetStats(kind, tr, min, max).min) && Int64(GetStats(kind, tr, min, max).max)
  {
    if kind == Date {
      DaysFit(tr, min, max);
    } else {
      var hours := HourBounds(tr, min, max);
      MicrosFit(hours.min);
      MicrosFit(hours.max + 1);
    }
  }
}
