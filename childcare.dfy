/**
 * The childcare reservation page: care is offered on Wednesdays only, except
 * the fourth Wednesday of December and the third Wednesday of August; a
 * booking starts at 09:30 or later on a quarter hour, ends by 17:30, starts
 * by 16:30, and costs 500 yen per hour.
 */
module Childcare {
  import opened Wrappers
  import opened Calendar

  // ---------------------------------------------------------------
  // The n-th Wednesday of a month
  // ---------------------------------------------------------------

  /** Day of the month of the first Wednesday. */
  function FirstWednesday(y: int, m: int): (f: int)
    requires y >= 1970 && 1 <= m <= 12
    ensures 1 <= f <= 7
  {
    1 + (Wednesday - Weekday(Date(y, m, 1)) + 7) % 7
  }

  /** Day of the month of the `n`-th Wednesday (n from 1 to 4 always fits in the month). */
  function NthWednesday(y: int, m: int, n: int): (r: int)
    requires y >= 1970 && 1 <= m <= 12 && 1 <= n <= 4
    ensures 1 <= r <= 28
  {
    FirstWednesday(y, m) + 7 * (n - 1)
  }

  /** Days `d` of the month that are Wednesdays are exactly the first one plus whole weeks. */
  lemma IsWednesdayDay(y: int, m: int, d: int)
    requires ValidDate(Date(y, m, d))
    ensures Weekday(Date(y, m, d)) == Wednesday <==> d >= FirstWednesday(y, m) && (d - FirstWednesday(y, m)) % 7 == 0
  {
    WeekdayInMonth(y, m, d);
    WednesdayOfMonth(Weekday(Date(y, m, 1)), d);
  }

  /** The weekday arithmetic of `IsWednesdayDay`, with `w` the weekday of the 1st. */
  lemma WednesdayOfMonth(w: int, d: int)
    requires 0 <= w < 7 && d >= 1
    ensures var f := 1 + (Wednesday - w + 7) % 7;
      (w + d - 1) % 7 == Wednesday <==> d >= f && (d - f) % 7 == 0
  {
    var f := 1 + (Wednesday - w + 7) % 7;
    assert f - 1 + w == Wednesday || f - 1 + w == Wednesday + 7;
    var q := (d - f) / 7;
    assert d - f == 7 * q + (d - f) % 7;
    assert w + d - 1 == (f - 1 + w) + 7 * q + (d - f) % 7;
  }

  /** Wednesdays among days 1 .. d-1 when the first Wednesday is day `f`. */
  function CountFrom(f: int, d: int): int {
    if d <= f then 0 else (d - f - 1) / 7 + 1
  }

  /**
   * Each day adds one to the count exactly when it is a Wednesday, and the
   * count stays below `n` only up to the `n`-th Wednesday.
   */
  lemma CountFromFacts(f: int, d: int, n: int)
    requires 1 <= n
    ensures CountFrom(f, d + 1) == CountFrom(f, d) + (if d >= f && (d - f) % 7 == 0 then 1 else 0)
    ensures CountFrom(f, d) <= n - 1 ==> d <= f + 7 * (n - 1)
    ensures d >= f && (d - f) % 7 == 0 && CountFrom(f, d) == n - 1 ==> d == f + 7 * (n - 1)
  {
    if d > f {
      var q := (d - f - 1) / 7;
      assert d - f - 1 == 7 * q + (d - f - 1) % 7;
      assert (d - f) % 7 == 0 <==> (d - f - 1) % 7 == 6;
    }
  }

  /** Wednesdays among days 1 .. d-1 of the month. */
  function WednesdaysBefore(y: int, m: int, d: int): int
    requires y >= 1970 && 1 <= m <= 12
  {
    CountFrom(FirstWednesday(y, m), d)
  }

  /**
   * The counting loop of the holiday checks: walk from the first of the month,
   * counting Wednesdays, and stop on the `n`-th.
   */
  method CountToNthWednesday(y: int, m: int, n: int) returns (day: int)
    requires y >= 1970 && 1 <= m <= 12 && 1 <= n <= 4
    ensures day == NthWednesday(y, m, n)
    ensures Weekday(Date(y, m, day)) == Wednesday && WednesdaysBefore(y, m, day) == n - 1
  {
    var target := NthWednesday(y, m, n);
    var f := FirstWednesday(y, m);
    day := 1;
    var count := 0;
    while count < n
      invariant 1 <= day <= target
      invariant 0 <= count <= n
      invariant count < n ==> count == WednesdaysBefore(y, m, day)
      invariant count == n ==> day == target
      decreases target - day, n - count
    {
      IsWednesdayDay(y, m, day);
      CountFromFacts(f, day, n);
      if Weekday(Date(y, m, day)) == Wednesday {
        count := count + 1;
      }
      if count < n {
        CountFromFacts(f, day + 1, n);
        day := day + 1;
      }
    }
    IsWednesdayDay(y, m, day);
  }

  // ---------------------------------------------------------------
  // Closed Wednesdays and the next open one
  // ---------------------------------------------------------------

  /** The year-end closing (4th Wednesday of December) and the Obon closing (3rd Wednesday of August). */
  predicate IsClosedWednesday(d: Date)
    requires ValidDate(d)
  {
    (d.month == 12 && d.day == NthWednesday(d.year, 12, 4))
    || (d.month == 8 && d.day == NthWednesday(d.year, 8, 3))
  }

  /** The days a closing can fall on: December 22-28 and August 15-21. */
  predicate InClosingWindow(d: Date) {
    (d.month == 12 && 22 <= d.day <= 28) || (d.month == 8 && 15 <= d.day <= 21)
  }

  /** An open day: a Wednesday that is not a closing. */
  predicate IsAvailable(d: Date)
    requires ValidDate(d)
  {
    Weekday(d) == Wednesday && !InClosingWindow(d)
  }

  /**
   * For a Wednesday, being the counted 4th Wednesday of December or 3rd
   * Wednesday of August is exactly falling in the closing window.
   */
  lemma ClosingWindows(d: Date)
    requires ValidDate(d) && Weekday(d) == Wednesday
    ensures IsClosedWednesday(d) <==> InClosingWindow(d)
  {
    IsWednesdayDay(d.year, d.month, d.day);
    var f := FirstWednesday(d.year, d.month);
    var t := (d.day - f) / 7;
    assert d.day == f + 7 * t;
  }

  /** The Wednesday after a closed Wednesday is open. */
  lemma AfterClosingIsOpen(d: Date)
    requires ValidDate(d) && Weekday(d) == Wednesday && InClosingWindow(d)
    ensures IsAvailable(AddDays(d, 7))
  {
    WeekLaterIsWednesday(d);
    WeekAfterWindow(d);
  }

  lemma WeekLaterIsWednesday(d: Date)
    requires ValidDate(d) && Weekday(d) == Wednesday
    ensures Weekday(AddDays(d, 7)) == Wednesday
  {
    WeekdayRepeats(d, 7);
  }

  /** A week after a day of a closing window is outside every window. */
  lemma WeekAfterWindow(d: Date)
    requires ValidDate(d) && InClosingWindow(d)
    ensures !InClosingWindow(AddDays(d, 7))
  {
    AddDaysShort(d, 7);
  }

  /** From weekday `w`, `(Wednesday - w + 7) % 7` days on, fewer than a week, is a Wednesday. */
  lemma DaysToWednesday(w: int)
    requires 0 <= w < 7
    ensures 0 <= (Wednesday - w + 7) % 7 < 7 && (w + (Wednesday - w + 7) % 7) % 7 == Wednesday
  {
  }

  /** From any day, an open Wednesday comes within two weeks. */
  lemma OpenWithinTwoWeeks(start: Date) returns (j: nat)
    requires ValidDate(start)
    ensures j < 14 && IsAvailable(AddDays(start, j))
  {
    var j0 := (Wednesday - Weekday(start) + 7) % 7;
    DaysToWednesday(Weekday(start));
    AddDaysNumber(start, j0);
    if IsAvailable(AddDays(start, j0)) {
      return j0;
    }
    AfterClosingIsOpen(AddDays(start, j0));
    AddDaysAdd(start, j0, 7);
    return j0 + 7;
  }

  /**
   * The search for the earliest open Wednesday on or after `start`, a day
   * at a time, with the closings checked by the counting loop.
   */
  method FindNextAvailableWednesday(start: Date) returns (r: Date)
    requires ValidDate(start)
    ensures ValidDate(r) && IsAvailable(r)
    ensures DayNumber(start) <= DayNumber(r) < DayNumber(start) + 14
    ensures r == AddDays(start, DayNumber(r) - DayNumber(start))
    ensures forall j :: 0 <= j < DayNumber(r) - DayNumber(start) ==> !IsAvailable(AddDays(start, j))
  {
    ghost var bound := OpenWithinTwoWeeks(start);
    var date := start;
    ghost var k: nat := 0;
    while true
      invariant ValidDate(date) && date == AddDays(start, k) && k <= bound
      invariant NoneOpenBefore(start, k)
      decreases bound - k
    {
      if Weekday(date) == Wednesday {
        var closed := IsClosedByCounting(date);
        ClosingWindows(date);
        if !closed {
          SearchFound(start, k, bound, date);
          return date;
        }
      }
      SearchStep(start, k, bound);
      date := NextDay(date);
      k := k + 1;
    }
  }

  /** None of the first `k` days from `start` is an open Wednesday. */
  ghost predicate NoneOpenBefore(start: Date, k: nat)
    requires ValidDate(start)
  {
    forall j :: 0 <= j < k ==> !IsAvailable(AddDays(start, j))
  }

  /** A day passed over that is not open extends the days known not to be open. */
  lemma SearchStep(start: Date, k: nat, bound: nat)
    requires ValidDate(start) && NoneOpenBefore(start, k) && !IsAvailable(AddDays(start, k))
    requires k <= bound && IsAvailable(AddDays(start, bound))
    ensures NoneOpenBefore(start, k + 1) && k + 1 <= bound
    ensures AddDays(start, k + 1) == NextDay(AddDays(start, k))
  {
  }

  /** The first open day found, `k` days on, is the search's answer. */
  lemma SearchFound(start: Date, k: nat, bound: nat, r: Date)
    requires ValidDate(start) && NoneOpenBefore(start, k) && r == AddDays(start, k) && k <= bound < 14
    ensures DayNumber(start) <= DayNumber(r) < DayNumber(start) + 14
    ensures r == AddDays(start, DayNumber(r) - DayNumber(start))
    ensures forall j :: 0 <= j < DayNumber(r) - DayNumber(start) ==> !IsAvailable(AddDays(start, j))
  {
    AddDaysNumber(start, k);
  }

  /** The closing checks of the search: the n-th Wednesday found by counting. */
  method IsClosedByCounting(date: Date) returns (closed: bool)
    requires ValidDate(date)
    ensures closed <==> IsClosedWednesday(date)
  {
    closed := false;
    if date.month == 12 {
      var fourth := CountToNthWednesday(date.year, 12, 4);
      if date.day == fourth {
        closed := true;
      }
    }
    if date.month == 8 {
      var third := CountToNthWednesday(date.year, 8, 3);
      if date.day == third {
        closed := true;
      }
    }
  }

  // ---------------------------------------------------------------
  // Form initialisation
  // ---------------------------------------------------------------

  /** The current local time: today's date and the hour of the day. */
  datatype Now = Now(today: Date, hour: int)

  /** What the form is filled with on load. */
  datatype InitialForm = InitialForm(reservationDate: Date, afterFiveNotice: bool, startHour: int, startMinute: int)

  /** Where the search for the prefilled date starts: today, or tomorrow from 17:00 on. */
  function SearchStart(now: Now): (d: Date)
    requires ValidDate(now.today)
    ensures ValidDate(d)
  {
    if now.hour >= 17 then NextDay(now.today) else now.today
  }

  /** The form's load step, as written: the earliest open Wednesday from `SearchStart`, start 09:30. */
  method InitializeReservationForm(now: Now) returns (form: InitialForm)
    requires ValidDate(now.today)
    ensures ValidDate(form.reservationDate) && IsAvailable(form.reservationDate)
    ensures form.afterFiveNotice <==> now.hour >= 17
    ensures DayNumber(SearchStart(now)) <= DayNumber(form.reservationDate)
    ensures forall j :: 0 <= j < DayNumber(form.reservationDate) - DayNumber(SearchStart(now)) ==>
      !IsAvailable(AddDays(SearchStart(now), j))
    ensures form.startHour == 9 && form.startMinute == 30
  {
    var d := FindNextAvailableWednesday(SearchStart(now));
    form := InitialForm(d, now.hour >= 17, 9, 30);
  }

  /** The form's load step with the search always starting tomorrow. */
  method InitializeReservationFormFromTomorrow(now: Now) returns (form: InitialForm)
    requires ValidDate(now.today)
    ensures ValidDate(form.reservationDate) && IsAvailable(form.reservationDate)
    ensures DayNumber(form.reservationDate) > DayNumber(now.today)
    ensures form.afterFiveNotice <==> now.hour >= 17
    ensures forall j :: 0 <= j < DayNumber(form.reservationDate) - DayNumber(NextDay(now.today)) ==>
      !IsAvailable(AddDays(NextDay(now.today), j))
    ensures form.startHour == 9 && form.startMinute == 30
  {
    NextDayNumber(now.today);
    var d := FindNextAvailableWednesday(NextDay(now.today));
    form := InitialForm(d, now.hour >= 17, 9, 30);
  }

  // ---------------------------------------------------------------
  // Validation and price
  // ---------------------------------------------------------------

  /** A time of day as the time input gives it. */
  datatype Time = Time(hour: nat, minute: nat)

  function MinutesOfDay(t: Time): nat {
    60 * t.hour + t.minute
  }

  const EarliestStart: int := 9 * 60 + 30
  const LatestEnd: int := 17 * 60 + 30
  const LastDropOff: int := 16 * 60 + 30

  /**
   * The reservation form: the date (None when it does not parse), the start
   * time (None when empty), the usage hours and the child's age as parsed by
   * `parseInt` (None for NaN), and the gender selection.
   */
  datatype ReservationInput = ReservationInput(
    date: Option<Date>,
    start: Option<Time>,
    usageHours: Option<int>,
    childAge: Option<int>,
    childGender: string)

  /** The validation errors, in the order they are checked. */
  datatype ReservationError =
    | NotAfterToday
    | NotWednesday
    | YearEndClosing
    | ObonClosing
    | MissingStartOrUsage
    | NotQuarterHour
    | StartsBeforeOpening
    | EndsAfterClosing
    | StartsAfterLastDropOff
    | AgeOutOfRange
    | MissingGender

  /** The checks of the confirm button, in order; the first failing one is reported. */
  function CheckReservation(today: Date, input: ReservationInput): Result<(), ReservationError>
    requires ValidDate(today)
    requires input.date.Some? ==> ValidDate(input.date.value)
  {
    if input.date.Some? && DayNumber(input.date.value) <= DayNumber(today) then Err(NotAfterToday)
    else if input.date.None? || Weekday(input.date.value) != Wednesday then Err(NotWednesday)
    else
      var d := input.date.value;
      if d.month == 12 && d.day == NthWednesday(d.year, 12, 4) then Err(YearEndClosing)
      else if d.month == 8 && d.day == NthWednesday(d.year, 8, 3) then Err(ObonClosing)
      else if input.start.None? || input.usageHours.None? then Err(MissingStartOrUsage)
      else
        var s := MinutesOfDay(input.start.value);
        var u := input.usageHours.value;
        if input.start.value.minute % 15 != 0 then Err(NotQuarterHour)
        else if s < EarliestStart then Err(StartsBeforeOpening)
        else if s + 60 * u > LatestEnd then Err(EndsAfterClosing)
        else if s > LastDropOff then Err(StartsAfterLastDropOff)
        else if input.childAge.None? || input.childAge.value < 0 || input.childAge.value > 15 then Err(AgeOutOfRange)
        else if input.childGender == "" then Err(MissingGender)
        else Ok(())
  }

  /** The confirm button's validation, with the closings found by the counting loop. */
  method ValidateReservation(today: Date, input: ReservationInput) returns (r: Result<(), ReservationError>)
    requires ValidDate(today)
    requires input.date.Some? ==> ValidDate(input.date.value)
    ensures r == CheckReservation(today, input)
  {
    if input.date.Some? && DayNumber(input.date.value) <= DayNumber(today) {
      return Err(NotAfterToday);
    }
    if input.date.None? || Weekday(input.date.value) != Wednesday {
      return Err(NotWednesday);
    }
    var d := input.date.value;
    if d.month == 12 {
      var fourth := CountToNthWednesday(d.year, 12, 4);
      if d.day == fourth {
        return Err(YearEndClosing);
      }
    }
    if d.month == 8 {
      var third := CountToNthWednesday(d.year, 8, 3);
      if d.day == third {
        return Err(ObonClosing);
      }
    }
    if input.start.None? || input.usageHours.None? {
      return Err(MissingStartOrUsage);
    }
    var t := input.start.value;
    var u := input.usageHours.value;
    if t.minute % 15 != 0 {
      return Err(NotQuarterHour);
    }
    var s := 60 * t.hour + t.minute;
    if s < EarliestStart {
      return Err(StartsBeforeOpening);
    }
    if s + 60 * u > LatestEnd {
      return Err(EndsAfterClosing);
    }
    if s > LastDropOff {
      return Err(StartsAfterLastDropOff);
    }
    if input.childAge.None? || input.childAge.value < 0 || input.childAge.value > 15 {
      return Err(AgeOutOfRange);
    }
    if input.childGender == "" {
      return Err(MissingGender);
    }
    return Ok(());
  }

  /** The fee for one hour of care, in yen. */
  const PricePerHour: int := 500

  /** The fee for a stay: every hour costs the same. */
  function CalculatePrice(usageHours: int): (r: int)
    ensures r == PricePerHour * usageHours
  {
    usageHours * PricePerHour
  }

  /** A reservation passes exactly when every rule holds at once. */
  lemma AcceptedExactly(today: Date, input: ReservationInput)
    requires ValidDate(today)
    requires input.date.Some? ==> ValidDate(input.date.value)
    ensures CheckReservation(today, input).Ok? <==>
      input.date.Some? && DayNumber(input.date.value) > DayNumber(today) && IsAvailable(input.date.value)
      && input.start.Some? && input.usageHours.Some?
      && input.start.value.minute % 15 == 0
      && EarliestStart <= MinutesOfDay(input.start.value) <= LastDropOff
      && MinutesOfDay(input.start.value) + 60 * input.usageHours.value <= LatestEnd
      && input.childAge.Some? && 0 <= input.childAge.value <= 15
      && input.childGender != ""
  {
    if input.date.Some? && Weekday(input.date.value) == Wednesday {
      ClosingWindows(input.date.value);
    }
  }

  /**
   * An accepted booking uses at most 8 hours and costs at most 4000 yen;
   * with at least one hour booked, the end-time rule already implies the
   * last drop-off rule.
   */
  lemma AcceptedBounds(today: Date, input: ReservationInput)
    requires ValidDate(today)
    requires input.date.Some? ==> ValidDate(input.date.value)
    requires CheckReservation(today, input).Ok?
    ensures input.usageHours.value <= 8
    ensures CalculatePrice(input.usageHours.value) <= 4000
  {
  }

  lemma LastDropOffImplied(s: int, u: int)
    requires u >= 1 && s + 60 * u <= LatestEnd
    ensures s <= LastDropOff
  {
  }

  /** The errors about the date itself. */
  predicate IsDateError(e: ReservationError) {
    e == NotAfterToday || e == NotWednesday || e == YearEndClosing || e == ObonClosing
  }

  /** An open Wednesday after today, such as the one prefilled from tomorrow, passes every date rule. */
  lemma LaterOpenDatePassesDateRules(today: Date, input: ReservationInput)
    requires ValidDate(today) && input.date.Some? && ValidDate(input.date.value)
    requires DayNumber(input.date.value) > DayNumber(today) && IsAvailable(input.date.value)
    ensures CheckReservation(today, input).Ok? || !IsDateError(CheckReservation(today, input).error)
  {
    ClosingWindows(input.date.value);
  }

  /**
   * As written, before 17:00 on an open Wednesday (2025-10-15, 10:00) the
   * form prefills today's date, and validation refuses it as not after today.
   */
  lemma SameDayPrefillRejected()
    ensures var now := Now(Date(2025, 10, 15), 10);
      ValidDate(now.today) && SearchStart(now) == now.today && IsAvailable(now.today)
      && CheckReservation(now.today, ReservationInput(Some(now.today), Some(Time(9, 30)), Some(2), Some(3), "girl"))
         == Err(NotAfterToday)
  {
    ExampleOpen();
    SameDayRejected(Date(2025, 10, 15), ReservationInput(Some(Date(2025, 10, 15)), Some(Time(9, 30)), Some(2), Some(3), "girl"));
  }

  /** 2025-10-15 is an open Wednesday. */
  lemma ExampleOpen()
    ensures ValidDate(Date(2025, 10, 15)) && IsAvailable(Date(2025, 10, 15))
  {
    ExampleDayNumber();
  }

  /** A reservation for today itself is refused as not after today, whatever else it holds. */
  lemma SameDayRejected(today: Date, input: ReservationInput)
    requires ValidDate(today) && input.date == Some(today)
    ensures CheckReservation(today, input) == Err(NotAfterToday)
  {
  }

  /** 2025-10-15 is day 20376 after 1970-01-01, a Wednesday. */
  lemma ExampleDayNumber()
    ensures DayNumber(Date(2025, 10, 15)) == 20376
  {
    DaysBefore2025();
    DaysBeforeOctober2025();
  }

  lemma DaysBefore2000()
    ensures DaysBeforeYear(2000) == 10957
  {
    assert DaysBeforeYear(1975) == 1826;
    assert DaysBeforeYear(1980) == 3652;
    assert DaysBeforeYear(1985) == 5479;
    assert DaysBeforeYear(1990) == 7305;
    assert DaysBeforeYear(1995) == 9131;
  }

  lemma DaysBefore2025()
    ensures DaysBeforeYear(2025) == 20089
  {
    DaysBefore2000();
    assert DaysBeforeYear(2005) == 12784;
    assert DaysBeforeYear(2010) == 14610;
    assert DaysBeforeYear(2015) == 16436;
    assert DaysBeforeYear(2020) == 18262;
  }

  lemma DaysBeforeOctober2025()
    ensures DaysBeforeMonth(2025, 10) == 273
  {
  }
}
