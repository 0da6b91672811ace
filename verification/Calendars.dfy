/** Business-day arithmetic (domain/deadline.go). Instants are nanoseconds, days are numbered from 1970-01-01. */
module Calendars {
  import opened Regimes

  const DAY := 86_400_000_000_000

  /** A time zone: the local day an instant falls in, and the instant at which a local day begins. */
  datatype ZoneRules = ZoneRules(dayOf: int -> int, midnight: int -> int)

  /** Days follow one another, and every instant lies in its own day, however long daylight saving makes that day. */
  ghost predicate TilesTime(z: ZoneRules) {
    && (forall at :: z.midnight(z.dayOf(at)) <= at < z.midnight(z.dayOf(at) + 1))
    && (forall day, later | day < later :: z.midnight(day) < z.midnight(later))
  }

  type Zone = z: ZoneRules | TilesTime(z) witness ZoneRules(at => at / DAY, day => day * DAY)

  const UTC: Zone := ZoneRules(at => at / DAY, day => day * DAY)

  /** A tenant's calendar: its zone and the local days that are holidays. */
  datatype Calendar = Calendar(zone: Zone, holidays: set<int>)

  function DayOf(cal: Calendar, at: int): int { (cal.zone.dayOf)(at) }

  /** The last instant of a local day. */
  function EndOfDay(cal: Calendar, day: int): int { (cal.zone.midnight)(day + 1) - 1 }

  /** Day 0 was a Thursday, so Monday is 0 and the weekend is 5 and 6. */
  predicate IsWeekday(day: int) { (day + 3) % 7 < 5 }

  predicate IsBusinessDay(cal: Calendar, day: int) { IsWeekday(day) && day !in cal.holidays }

  predicate Counts(cal: Calendar, unit: DayUnit, day: int) { unit == CalendarDays || IsBusinessDay(cal, day) }

  /** How many counting days there are after from, up to and including to. */
  function CountIn(cal: Calendar, unit: DayUnit, from: int, until: int): (n: nat)
    ensures n <= (if until <= from then 0 else until - from)
    decreases until - from
  {
    if until <= from then 0
    else CountIn(cal, unit, from, until - 1) + if Counts(cal, unit, until) then 1 else 0
  }

  lemma {:induction false} CountSplit(cal: Calendar, unit: DayUnit, from: int, mid: int, until: int)
    requires from <= mid <= until
    ensures CountIn(cal, unit, from, until) == CountIn(cal, unit, from, mid) + CountIn(cal, unit, mid, until)
    decreases until - mid
  {
    if mid < until {
      CountSplit(cal, unit, from, mid, until - 1);
    }
  }

  lemma CountIsMonotone(cal: Calendar, unit: DayUnit, from: int, until: int, from': int, until': int)
    requires from' <= from && until <= until'
    ensures CountIn(cal, unit, from, until) <= CountIn(cal, unit, from', until')
  {
    if from <= until {
      CountSplit(cal, unit, from', from, until');
      CountSplit(cal, unit, from, until, until');
    }
  }

  // ---------------------------------------------------------------------------------------------------
  // Enough days always lie ahead: any 7m days hold 5m weekdays, of which at most |holidays| are lost.

  const NO_HOLIDAYS := Calendar(UTC, {})

  /** Weekdays up to and including day, counted from a fixed Monday. */
  function WeekdaysUpTo(day: int): int {
    5 * ((day + 3) / 7) + if (day + 3) % 7 < 5 then (day + 3) % 7 + 1 else 5
  }

  lemma {:induction false} WeekdaysInClosedForm(from: int, until: int)
    requires from <= until
    ensures CountIn(NO_HOLIDAYS, BusinessDays, from, until) == WeekdaysUpTo(until) - WeekdaysUpTo(from)
    decreases until - from
  {
    if from < until {
      WeekdaysInClosedForm(from, until - 1);
    }
  }

  function HolidaysIn(cal: Calendar, from: int, until: int): set<int> {
    set day | day in cal.holidays && from < day <= until
  }

  lemma {:induction false} HolidaysCostAtMostThemselves(cal: Calendar, from: int, until: int)
    requires from <= until
    ensures CountIn(NO_HOLIDAYS, BusinessDays, from, until)
         <= CountIn(cal, BusinessDays, from, until) + |HolidaysIn(cal, from, until)|
    decreases until - from
  {
    if from < until {
      HolidaysCostAtMostThemselves(cal, from, until - 1);
      var before := HolidaysIn(cal, from, until - 1);
      if until in cal.holidays {
        assert HolidaysIn(cal, from, until) == before + {until};
      } else {
        assert HolidaysIn(cal, from, until) == before;
      }
    }
  }

  lemma SubsetIsNoLarger<T>(a: set<T>, b: set<T>)
    requires a <= b
    ensures |a| <= |b|
  {
    assert b == a + (b - a);
  }

  /** Days within which n counting days are certain to have passed. */
  function Horizon(cal: Calendar, n: nat): nat {
    7 * ((n + |cal.holidays| + 4) / 5)
  }

  lemma HorizonSuffices(cal: Calendar, unit: DayUnit, day: int, n: nat)
    ensures CountIn(cal, unit, day, day + Horizon(cal, n)) >= n
  {
    var weeks := (n + |cal.holidays| + 4) / 5;
    var until := day + 7 * weeks;
    WeekdaysInClosedForm(day, until);
    FiveAWeek(day, weeks);
    HolidaysCostAtMostThemselves(cal, day, until);
    SubsetIsNoLarger(HolidaysIn(cal, day, until), cal.holidays);
    MoreCalendarDays(cal, day, until);
  }

  lemma FiveAWeek(day: int, weeks: nat)
    ensures WeekdaysUpTo(day + 7 * weeks) == WeekdaysUpTo(day) + 5 * weeks
  {
    assert (day + 7 * weeks + 3) / 7 == (day + 3) / 7 + weeks;
  }

  lemma {:induction false} MoreCalendarDays(cal: Calendar, from: int, until: int)
    ensures CountIn(cal, BusinessDays, from, until) <= CountIn(cal, CalendarDays, from, until)
    decreases until - from
  {
    if from < until {
      MoreCalendarDays(cal, from, until - 1);
    }
  }

  // ---------------------------------------------------------------------------------------------------
  // The due day

  /** The count-th counting day after day, looking no further than limit. */
  function Seek(cal: Calendar, unit: DayUnit, day: int, count: nat, limit: int): (due: int)
    requires CountIn(cal, unit, day, limit) >= count
    ensures day <= due && CountIn(cal, unit, day, due) == count
    ensures count > 0 ==> due <= limit && Counts(cal, unit, due)
    decreases limit - day
  {
    if count == 0 then day
    else
      assert CountIn(cal, unit, day, day + 1) == if Counts(cal, unit, day + 1) then 1 else 0;
      assert CountIn(cal, unit, day, limit) == CountIn(cal, unit, day, day + 1) + CountIn(cal, unit, day + 1, limit) by {
        CountSplit(cal, unit, day, day + 1, limit);
      }
      var due := Seek(cal, unit, day + 1, if Counts(cal, unit, day + 1) then count - 1 else count, limit);
      CountSplit(cal, unit, day, day + 1, due);
      due
  }

  /** The day a clock of the given count runs out; a count that is not positive runs out on the day it starts. */
  function DueDay(cal: Calendar, unit: DayUnit, start: int, count: int): int {
    if count <= 0 then start
    else
      HorizonSuffices(cal, unit, start, count);
      Seek(cal, unit, start, count, start + Horizon(cal, count))
  }

  /**
   * The characterisation everything else follows from: a day is on or after the due day exactly when enough
   * counting days have passed by then.
   */
  lemma DueDayIsTheEarliest(cal: Calendar, unit: DayUnit, start: int, count: int, day: int)
    requires count > 0
    ensures DueDay(cal, unit, start, count) <= day <==> CountIn(cal, unit, start, day) >= count
  {
    var due := DueDay(cal, unit, start, count);
    HorizonSuffices(cal, unit, start, count);
    if due <= day {
      CountIsMonotone(cal, unit, start, due, start, day);
    } else {
      CountIsMonotone(cal, unit, start, day, start, due - 1);
    }
  }

  /** It is the only counting day with exactly count counting days up to it, and it lies within the horizon. */
  lemma DueDayIsTheNth(cal: Calendar, unit: DayUnit, start: int, count: int, day: int)
    requires count > 0
    ensures day == DueDay(cal, unit, start, count)
       <==> day > start && Counts(cal, unit, day) && CountIn(cal, unit, start, day) == count
    ensures DueDay(cal, unit, start, count) - start <= 7 * ((count + |cal.holidays| + 4) / 5)
  {
    HorizonSuffices(cal, unit, start, count);
    if day > start && Counts(cal, unit, day) && CountIn(cal, unit, start, day) == count {
      DueDayIsTheEarliest(cal, unit, start, count, day);
      DueDayIsTheEarliest(cal, unit, start, count, day - 1);
    }
  }

  /** No Saturday, no Sunday and no holiday; day 0 was a Thursday. */
  predicate IsWorkingDay(cal: Calendar, day: int) { day % 7 != 2 && day % 7 != 3 && day !in cal.holidays }

  lemma WorkingDaysCount(cal: Calendar, day: int)
    ensures Counts(cal, BusinessDays, day) <==> IsWorkingDay(cal, day)
  {
  }

  function WorkingDays(cal: Calendar, from: int, until: int): set<int> {
    set day | from < day <= until && IsWorkingDay(cal, day)
  }

  lemma OneMoreWorkingDay(cal: Calendar, from: int, until: int)
    requires from < until
    ensures WorkingDays(cal, from, until)
         == WorkingDays(cal, from, until - 1) + if IsWorkingDay(cal, until) then {until} else {}
  {
  }

  lemma {:induction false} CountingWorkingDays(cal: Calendar, from: int, until: int)
    requires from <= until
    ensures CountIn(cal, BusinessDays, from, until) == |WorkingDays(cal, from, until)|
    ensures CountIn(cal, CalendarDays, from, until) == until - from
    decreases until - from
  {
    if from < until {
      CountingWorkingDays(cal, from, until - 1);
      OneMoreWorkingDay(cal, from, until);
      WorkingDaysCount(cal, until);
    }
  }

  /** In calendar terms alone: the due day is the working day with exactly count working days up to it. */
  lemma DueOnAWorkingDay(cal: Calendar, start: int, count: int, day: int)
    requires count > 0
    ensures day == DueDay(cal, BusinessDays, start, count)
       <==> day > start && IsWorkingDay(cal, day) && |WorkingDays(cal, start, day)| == count
  {
    DueDayIsTheNth(cal, BusinessDays, start, count, day);
    if day > start {
      CountingWorkingDays(cal, start, day);
      WorkingDaysCount(cal, day);
    }
  }

  /** And counting calendar days is adding them. */
  lemma DueAfterCalendarDays(cal: Calendar, start: int, count: int)
    ensures DueDay(cal, CalendarDays, start, count) == start + if count > 0 then count else 0
  {
    if count > 0 {
      DueDayIsTheNth(cal, CalendarDays, start, count, start + count);
      CountingWorkingDays(cal, start, start + count);
    }
  }

  /** On the calendar: so many working days later, so many days later, or the same day if the count is not positive. */
  ghost predicate RunsOutOn(cal: Calendar, clock: Clock, start: int, day: int) {
    if clock.count <= 0 then day == start
    else
      match clock.unit
      case CalendarDays => day == start + clock.count
      case BusinessDays =>
        day > start && IsWorkingDay(cal, day) && |WorkingDays(cal, start, day)| == clock.count
  }

  lemma RunsOutOnItsDueDay(cal: Calendar, clock: Clock, start: int, day: int)
    ensures RunsOutOn(cal, clock, start, day) <==> day == DueDay(cal, clock.unit, start, clock.count)
  {
    DueAfterCalendarDays(cal, start, clock.count);
    if clock.count > 0 {
      DueOnAWorkingDay(cal, start, clock.count, day);
    }
  }

  /** The loop of Calendar.Due; that it ends is the counting argument above. */
  method FindDue(cal: Calendar, start: int, clock: Clock) returns (due: int)
    ensures due == Due(cal, start, clock)
    ensures RunsOutOn(cal, clock, DayOf(cal, start), DayOf(cal, due)) && DayOf(cal, due + 1) == DayOf(cal, due) + 1
  {
    var day := DayOf(cal, start);
    var n := 0;
    ghost var first := day;
    while n < clock.count
      invariant n == CountIn(cal, clock.unit, first, day)
      invariant first <= day && (n > 0 || day == first || n < clock.count)
      invariant n == clock.count > 0 ==> Counts(cal, clock.unit, day)
      invariant n == 0 || n <= clock.count
      decreases if clock.count <= 0 then 0 else DueDay(cal, clock.unit, first, clock.count) - day
    {
      DueDayIsTheEarliest(cal, clock.unit, first, clock.count, day);
      day := day + 1;
      if clock.unit == CalendarDays || IsBusinessDay(cal, day) {
        n := n + 1;
      }
    }
    if clock.count > 0 {
      DueDayIsTheNth(cal, clock.unit, first, clock.count, day);
    }
    due := EndOfDay(cal, day);
    RunsOutOnItsDueDay(cal, clock, first, day);
    EndOfDayIsInTheDay(cal, day);
    NothingIsLaterThatDay(cal, day);
  }

  /** The last instant of the due day. */
  function Due(cal: Calendar, start: int, clock: Clock): int {
    EndOfDay(cal, DueDay(cal, clock.unit, DayOf(cal, start), clock.count))
  }

  // ---------------------------------------------------------------------------------------------------
  // Algebra of due times

  lemma EndOfDayIsInTheDay(cal: Calendar, day: int)
    ensures DayOf(cal, EndOfDay(cal, day)) == day
  {
  }

  lemma NothingIsLaterThatDay(cal: Calendar, day: int)
    ensures DayOf(cal, EndOfDay(cal, day) + 1) == day + 1
  {
    var at := EndOfDay(cal, day) + 1;
    assert (cal.zone.midnight)(DayOf(cal, at)) <= at < (cal.zone.midnight)(DayOf(cal, at) + 1);
  }

  lemma DayIsMonotone(cal: Calendar, a: int, b: int)
    ensures a <= b ==> DayOf(cal, a) <= DayOf(cal, b)
    ensures a <= EndOfDay(cal, DayOf(cal, a))
  {
  }

  lemma EndOfDayIsMonotone(cal: Calendar, day: int, later: int)
    requires day <= later
    ensures EndOfDay(cal, day) <= EndOfDay(cal, later)
  {
  }

  /** Waiting a days and then b more is waiting a + b days. */
  lemma DueComposes(cal: Calendar, unit: DayUnit, kind: DeadlineKind, start: int, a: nat, b: nat)
    ensures Due(cal, Due(cal, start, Clock(kind, a, unit)), Clock(kind, b, unit)) == Due(cal, start, Clock(kind, a + b, unit))
  {
    var day := DayOf(cal, start);
    EndOfDayIsInTheDay(cal, DueDay(cal, unit, day, a));
    DueDaysCompose(cal, unit, day, a, b);
  }

  lemma DueDaysCompose(cal: Calendar, unit: DayUnit, day: int, a: nat, b: nat)
    ensures DueDay(cal, unit, DueDay(cal, unit, day, a), b) == DueDay(cal, unit, day, a + b)
  {
    if a > 0 && b > 0 {
      var mid := DueDay(cal, unit, day, a);
      var end := DueDay(cal, unit, mid, b);
      DueDayIsTheNth(cal, unit, mid, b, end);
      DueDayIsTheNth(cal, unit, day, a, mid);
      CountSplit(cal, unit, day, mid, end);
      DueDayIsTheNth(cal, unit, day, a + b, end);
    }
  }

  /** A later start, a longer count or more holidays never bring a clock forward. */
  lemma DueIsMonotone(cal: Calendar, cal': Calendar, clock: Clock, clock': Clock, start: int, start': int)
    requires cal.zone == cal'.zone && cal.holidays <= cal'.holidays
    requires clock.unit == clock'.unit && clock.count <= clock'.count
    requires start <= start'
    ensures Due(cal, start, clock) <= Due(cal', start', clock')
  {
    var unit, day, day' := clock.unit, DayOf(cal, start), DayOf(cal', start');
    var due' := DueDay(cal', unit, day', clock'.count);
    DayIsMonotone(cal, start, start');
    if clock.count > 0 {
      DueDayIsTheNth(cal', unit, day', clock'.count, due');
      MoreHolidaysCountLess(cal, cal', unit, day', due');
      CountIsMonotone(cal, unit, day', due', day, due');
      DueDayIsTheEarliest(cal, unit, day, clock.count, due');
    } else if clock'.count > 0 {
      DueDayIsTheNth(cal', unit, day', clock'.count, due');
    }
    EndOfDayIsMonotone(cal, DueDay(cal, unit, day, clock.count), due');
  }

  lemma {:induction false} MoreHolidaysCountLess(cal: Calendar, cal': Calendar, unit: DayUnit, from: int, until: int)
    requires cal.holidays <= cal'.holidays
    ensures CountIn(cal', unit, from, until) <= CountIn(cal, unit, from, until)
    decreases until - from
  {
    if from < until {
      MoreHolidaysCountLess(cal, cal', unit, from, until - 1);
    }
  }

  /** Counting business days is never quicker than counting calendar days. */
  lemma BusinessDaysTakeLonger(cal: Calendar, kind: DeadlineKind, start: int, count: int)
    ensures Due(cal, start, Clock(kind, count, CalendarDays)) <= Due(cal, start, Clock(kind, count, BusinessDays))
  {
    if count > 0 {
      var day := DayOf(cal, start);
      var due := DueDay(cal, BusinessDays, day, count);
      DueDayIsTheNth(cal, BusinessDays, day, count, due);
      MoreCalendarDays(cal, day, due);
      DueDayIsTheEarliest(cal, CalendarDays, day, count, due);
    }
  }

  /** A clock never runs out before the end of the day it starts on. */
  lemma DueIsNotBeforeTheStart(cal: Calendar, start: int, clock: Clock)
    ensures start <= Due(cal, start, clock)
  {
    DayIsMonotone(cal, start, start);
    if clock.count > 0 {
      DueDayIsTheNth(cal, clock.unit, DayOf(cal, start), clock.count, DueDay(cal, clock.unit, DayOf(cal, start), clock.count));
    }
  }
}
