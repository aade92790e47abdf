/** What `Flight.calc_required_vacation_days` computes, as functions of the
    two trip dates and the holiday calendar, and what follows from it.

    The holiday calendar (`holidays.KR` in the program) is a parameter: a
    predicate on day ordinals, true for the public holidays. */
module Vacation {
  import opened PyDate

  /** A day that costs no vacation: `date in kr_holidays or date.weekday() >= 5`. */
  predicate NonWorking(isHoliday: int -> bool, ordinal: int) {
    isHoliday(ordinal) || Weekday(ordinal) >= 5
  }

  /** How many of the `n` days from ordinal `start` on are non-working; the
      loop over `range(n)` runs no times when `n <= 0`. */
  function NonWorkingCount(isHoliday: int -> bool, start: int, n: int): nat
    decreases n
  {
    if n <= 0 then 0
    else NonWorkingCount(isHoliday, start, n - 1) + (if NonWorking(isHoliday, start + n - 1) then 1 else 0)
  }

  /** `(sdate2 - sdate1).days + 1`: the number of dates in the inclusive
      range, or a non-positive number when the dates are reversed. */
  function Span(sdate1: ValidDate, sdate2: ValidDate): int {
    Ordinal(sdate2) - Ordinal(sdate1) + 1
  }

  /** The value `calc_required_vacation_days` stores in `vacation_req`. */
  function RequiredVacationDays(sdate1: ValidDate, sdate2: ValidDate, isHoliday: int -> bool): int {
    Span(sdate1, sdate2) - NonWorkingCount(isHoliday, Ordinal(sdate1), Span(sdate1, sdate2))
  }

  /** The working days in `[lo, hi]`: the reference definition of the count. */
  ghost function WorkingDays(isHoliday: int -> bool, lo: int, hi: int): set<int> {
    set k | lo <= k <= hi && !NonWorking(isHoliday, k)
  }

  // ---------------------------------------------------------- the counter

  lemma {:induction false} NonWorkingCountAtMost(isHoliday: int -> bool, start: int, n: int)
    ensures NonWorkingCount(isHoliday, start, n) <= if n <= 0 then 0 else n
    decreases n
  {
    if n > 0 {
      NonWorkingCountAtMost(isHoliday, start, n - 1);
    }
  }

  lemma {:induction false} NonWorkingCountAll(isHoliday: int -> bool, start: int, n: nat)
    requires forall k :: start <= k < start + n ==> NonWorking(isHoliday, k)
    ensures NonWorkingCount(isHoliday, start, n) == n
    decreases n
  {
    if n > 0 {
      NonWorkingCountAll(isHoliday, start, n - 1);
    }
  }

  lemma {:induction false} WorkingDaysCount(isHoliday: int -> bool, start: int, n: nat)
    ensures |WorkingDays(isHoliday, start, start + n - 1)| == n - NonWorkingCount(isHoliday, start, n)
    decreases n
  {
    if n > 0 {
      WorkingDaysCount(isHoliday, start, n - 1);
      var before := WorkingDays(isHoliday, start, start + n - 2);
      var last := start + n - 1;
      if NonWorking(isHoliday, last) {
        assert WorkingDays(isHoliday, start, last) == before;
      } else {
        assert WorkingDays(isHoliday, start, last) == before + {last};
      }
    } else {
      assert WorkingDays(isHoliday, start, start - 1) == {};
    }
  }

  lemma {:induction false} NonWorkingCountMonotone(fewer: int -> bool, more: int -> bool, start: int, n: int)
    requires forall k :: start <= k < start + n ==> fewer(k) ==> more(k)
    ensures NonWorkingCount(fewer, start, n) <= NonWorkingCount(more, start, n)
    decreases n
  {
    if n > 0 {
      NonWorkingCountMonotone(fewer, more, start, n - 1);
    }
  }

  lemma {:induction false} NonWorkingCountWeekdaysOnly(h1: int -> bool, h2: int -> bool, start: int, n: int)
    requires forall k :: start <= k < start + n && Weekday(k) < 5 ==> h1(k) == h2(k)
    ensures NonWorkingCount(h1, start, n) == NonWorkingCount(h2, start, n)
    decreases n
  {
    if n > 0 {
      NonWorkingCountWeekdaysOnly(h1, h2, start, n - 1);
    }
  }

  // ------------------------------------------- properties of the result

  /** For a trip whose return is not before its departure, the vacation
      needed lies between none and every day of the trip. */
  lemma RequiredVacationDaysBounds(sdate1: ValidDate, sdate2: ValidDate, isHoliday: int -> bool)
    requires Ordinal(sdate1) <= Ordinal(sdate2)
    ensures 0 <= RequiredVacationDays(sdate1, sdate2, isHoliday) <= Span(sdate1, sdate2)
  {
    NonWorkingCountAtMost(isHoliday, Ordinal(sdate1), Span(sdate1, sdate2));
  }

  /** The vacation needed is the number of working days in the inclusive
      range of the trip. */
  lemma RequiredVacationDaysAreWorkingDays(sdate1: ValidDate, sdate2: ValidDate, isHoliday: int -> bool)
    requires Ordinal(sdate1) <= Ordinal(sdate2)
    ensures RequiredVacationDays(sdate1, sdate2, isHoliday) == |WorkingDays(isHoliday, Ordinal(sdate1), Ordinal(sdate2))|
  {
    WorkingDaysCount(isHoliday, Ordinal(sdate1), Span(sdate1, sdate2));
  }

  /** A same-day trip costs one day exactly when that day is a working day. */
  lemma SameDayTrip(d: ValidDate, isHoliday: int -> bool)
    ensures RequiredVacationDays(d, d, isHoliday) == if NonWorking(isHoliday, Ordinal(d)) then 0 else 1
  {
    assert NonWorkingCount(isHoliday, Ordinal(d), 1) == NonWorkingCount(isHoliday, Ordinal(d), 0) +
      (if NonWorking(isHoliday, Ordinal(d)) then 1 else 0);
  }

  /** Saturdays and Sundays never cost vacation, whatever the calendar: a trip
      made only of weekend days costs nothing. */
  lemma WeekendTripIsFree(sdate1: ValidDate, sdate2: ValidDate, isHoliday: int -> bool)
    requires Ordinal(sdate1) <= Ordinal(sdate2)
    requires forall k :: Ordinal(sdate1) <= k <= Ordinal(sdate2) ==> Weekday(k) >= 5
    ensures RequiredVacationDays(sdate1, sdate2, isHoliday) == 0
  {
    NonWorkingCountAll(isHoliday, Ordinal(sdate1), Span(sdate1, sdate2));
  }

  /** Only what the calendar says about Monday to Friday matters: two
      calendars that agree on the working weekdays of the trip give the same
      vacation cost. */
  lemma WeekendHolidaysIrrelevant(sdate1: ValidDate, sdate2: ValidDate, h1: int -> bool, h2: int -> bool)
    requires forall k :: Ordinal(sdate1) <= k <= Ordinal(sdate2) && Weekday(k) < 5 ==> h1(k) == h2(k)
    ensures RequiredVacationDays(sdate1, sdate2, h1) == RequiredVacationDays(sdate1, sdate2, h2)
  {
    NonWorkingCountWeekdaysOnly(h1, h2, Ordinal(sdate1), Span(sdate1, sdate2));
  }

  /** A calendar with more holidays never makes a trip cost more. */
  lemma MoreHolidaysCostLess(sdate1: ValidDate, sdate2: ValidDate, fewer: int -> bool, more: int -> bool)
    requires forall k :: Ordinal(sdate1) <= k <= Ordinal(sdate2) ==> fewer(k) ==> more(k)
    ensures RequiredVacationDays(sdate1, sdate2, more) <= RequiredVacationDays(sdate1, sdate2, fewer)
  {
    NonWorkingCountMonotone(fewer, more, Ordinal(sdate1), Span(sdate1, sdate2));
  }

  /** Reversed dates are not rejected: the loop runs no times and the stored
      value is the non-positive span itself. */
  lemma ReversedTrip(sdate1: ValidDate, sdate2: ValidDate, isHoliday: int -> bool)
    requires Ordinal(sdate2) < Ordinal(sdate1)
    ensures RequiredVacationDays(sdate1, sdate2, isHoliday) == Ordinal(sdate2) - Ordinal(sdate1) + 1 <= 0
  {
  }

  lemma WeekdayShift(ordinal: int, i: nat)
    ensures Weekday(ordinal + i) == (Weekday(ordinal) + i) % 7
  {
    var w := Weekday(ordinal);
    var q := (ordinal + 6) / 7;
    var r := (w + i) % 7;
    var q2 := (w + i) / 7;
    DivMod(ordinal + i + 6, 7, q + q2, r);
  }

  lemma DayIndicator(isHoliday: int -> bool, start: int, i: nat)
    requires !isHoliday(start + i)
    ensures NonWorkingCount(isHoliday, start, i + 1) ==
            NonWorkingCount(isHoliday, start, i) + WeekendIndicator(Weekday(start), i)
  {
    WeekdayShift(start, i);
  }

  /** Whether the day `i` days after a day of weekday `w` is a Saturday or Sunday. */
  function WeekendIndicator(w: int, i: nat): nat {
    if (w + i) % 7 >= 5 then 1 else 0
  }

  lemma WeekendsFromAnyWeekday(w: int)
    requires 0 <= w < 7
    ensures WeekendIndicator(w, 0) + WeekendIndicator(w, 1) + WeekendIndicator(w, 2) + WeekendIndicator(w, 3) +
            WeekendIndicator(w, 4) + WeekendIndicator(w, 5) + WeekendIndicator(w, 6) == 2
  {
    if w == 0 {
    } else if w == 1 {
    } else if w == 2 {
    } else if w == 3 {
    } else if w == 4 {
    } else if w == 5 {
    } else {
      assert w == 6;
    }
  }

  /** Seven consecutive days hold exactly one Saturday and one Sunday. */
  lemma WeekHasTwoWeekendDays(isHoliday: int -> bool, start: int)
    requires forall k :: start <= k < start + 7 ==> !isHoliday(k)
    ensures NonWorkingCount(isHoliday, start, 7) == 2
  {
    var w := Weekday(start);
    DayIndicator(isHoliday, start, 0);
    DayIndicator(isHoliday, start, 1);
    DayIndicator(isHoliday, start, 2);
    DayIndicator(isHoliday, start, 3);
    DayIndicator(isHoliday, start, 4);
    DayIndicator(isHoliday, start, 5);
    DayIndicator(isHoliday, start, 6);
    assert NonWorkingCount(isHoliday, start, 0) == 0;
    WeekendsFromAnyWeekday(w);
  }

  /** A week-long trip without public holidays costs five vacation days. */
  lemma FullWeekCostsFive(sdate1: ValidDate, sdate2: ValidDate, isHoliday: int -> bool)
    requires Span(sdate1, sdate2) == 7
    requires forall k :: Ordinal(sdate1) <= k <= Ordinal(sdate2) ==> !isHoliday(k)
    ensures RequiredVacationDays(sdate1, sdate2, isHoliday) == 5
  {
    WeekHasTwoWeekendDays(isHoliday, Ordinal(sdate1));
  }
}
