/**
 * The create-booking form (`src/features/bookings/CreateBookingForm.jsx`):
 * the derived nights and prices, the days already booked in the chosen
 * cabin, the field rules checked on submit, and the booking record that is
 * submitted when every rule passes.
 *
 * Dates are day numbers. The date picker yields dates at the start of a day,
 * so a day d is the timestamp d * MsPerDay for the helpers of helpers.js.
 */
module CreateBookingForm {
  import opened Wrappers
  import opened Text
  import Helpers
  import BookingStatus

  /** The hotel settings the form reads. */
  datatype Settings = Settings(
    minBookingLength: int,
    maxBookingLength: int,
    maxGuestsPerBooking: int,
    breakfastPrice: int)

  /** An existing booking of the cabin, from its first to its last day. */
  datatype Stay = Stay(startDate: int, endDate: int)

  /**
   * The selected cabin as loaded for the form; `bookings` are its bookings
   * that are not checked out (the loader filters them).
   */
  datatype Cabin = Cabin(regularPrice: int, discount: int, maxCapacity: int, bookings: seq<Stay>)

  /**
   * The form's values. An empty or non-numeric field is None. `checkingIn` is
   * the "Is the guest checking in?" box (the form field named `status`).
   */
  datatype Draft = Draft(
    guestId: Option<int>,
    numGuests: Option<int>,
    cabinId: Option<int>,
    startDate: Option<int>,
    endDate: Option<int>,
    observations: string,
    hasBreakfast: bool,
    isPaid: bool,
    checkingIn: bool)

  datatype Field = GuestId | NumGuests | CabinId | StartDate | EndDate | Observations | IsPaid | Status

  /** The record handed to the create-booking mutation. */
  datatype Booking = Booking(
    guestId: int,
    cabinId: int,
    numGuests: Option<int>,
    startDate: int,
    endDate: int,
    observations: string,
    numNights: int,
    extrasPrice: int,
    cabinPrice: int,
    totalPrice: int,
    hasBreakfast: bool,
    isPaid: bool,
    status: string)

  // ---------------------------------------------------------------- derived values

  /** A picked day as a timestamp: the start of that day. */
  function AtStartOfDay(day: Option<int>): Option<int> {
    match day
    case Some(d) => Some(d * Helpers.MsPerDay)
    case None => None
  }

  /** `numNights`: subtractDates(endDate, startDate); NaN (None) when a date is missing. */
  function NumNights(d: Draft): Option<int> {
    Helpers.SubtractDates(AtStartOfDay(d.endDate), AtStartOfDay(d.startDate))
  }

  /** The number of nights is the number of days from the start date to the end date. */
  lemma NumNightsIsDayDifference(d: Draft)
    ensures NumNights(d).Some? <==> d.startDate.Some? && d.endDate.Some?
    ensures NumNights(d).Some? ==> NumNights(d).value == d.endDate.value - d.startDate.value
  {
    if d.startDate.Some? && d.endDate.Some? {
      Helpers.SubtractDatesSameTimeOfDay(d.endDate.value, d.startDate.value, 0);
    }
  }

  /** `extrasPrice`: nights x breakfast price x guests, or 0 when that is NaN. */
  function ExtrasPrice(s: Settings, d: Draft): int {
    match (NumNights(d), d.numGuests)
    case (Some(n), Some(g)) => n * s.breakfastPrice * g
    case _ => 0
  }

  /** `cabinPrice`: (regular price - discount) x nights, or 0 when no cabin is loaded or a date is missing. */
  function CabinPrice(cabin: Option<Cabin>, d: Draft): int {
    match (cabin, NumNights(d))
    case (Some(c), Some(n)) => (c.regularPrice - c.discount) * n
    case _ => 0
  }

  /** `totalPrice`: the cabin price, plus the extras only when breakfast is chosen. */
  function TotalPrice(s: Settings, cabin: Option<Cabin>, d: Draft): int {
    if d.hasBreakfast then CabinPrice(cabin, d) + ExtrasPrice(s, d) else CabinPrice(cabin, d)
  }

  /** The price shown and submitted, for a complete draft, in terms of the day numbers. */
  lemma {:induction false} PriceQuote(s: Settings, c: Cabin, d: Draft)
    requires d.startDate.Some? && d.endDate.Some? && d.numGuests.Some?
    ensures var nights := d.endDate.value - d.startDate.value;
      && ExtrasPrice(s, d) == nights * s.breakfastPrice * d.numGuests.value
      && CabinPrice(Some(c), d) == (c.regularPrice - c.discount) * nights
      && TotalPrice(s, Some(c), d) == CabinPrice(Some(c), d) + (if d.hasBreakfast then ExtrasPrice(s, d) else 0)
  {
    NumNightsIsDayDifference(d);
  }

  // ---------------------------------------------------------------- booked days

  /** date-fns `eachDayOfInterval`: every day from start to end, both included (none for a reversed interval). */
  function EachDayOfInterval(start: int, end: int): (days: seq<int>)
    ensures forall day :: day in days <==> start <= day <= end
  {
    if start > end then []
    else
      var days := seq(end - start + 1, i => start + i);
      assert forall day {:trigger day in days} :: start <= day <= end ==> days[day - start] == day;
      days
  }

  /** `bookedDates`: the days of every existing booking, flattened. */
  function BookedDates(stays: seq<Stay>): (days: seq<int>)
  {
    if stays == [] then []
    else EachDayOfInterval(stays[0].startDate, stays[0].endDate) + BookedDates(stays[1..])
  }

  /** The start-date rule's test: some day of the new stay is among the booked days. */
  predicate AlreadyBooked(cabin: Option<Cabin>, start: int, end: int) {
    cabin.Some? &&
    var booked := BookedDates(cabin.value.bookings);
    var days := EachDayOfInterval(start, end);
    exists i :: 0 <= i < |days| && days[i] in booked
  }

  /** Reference definition: an existing stay shares a day with [start, end], both ends included. */
  predicate SharesDay(stay: Stay, start: int, end: int) {
    stay.startDate <= stay.endDate && start <= end &&
    start <= stay.endDate && stay.startDate <= end
  }

  /** A day is booked exactly when some existing stay covers it. */
  lemma {:induction false} BookedDatesCover(stays: seq<Stay>, day: int)
    ensures day in BookedDates(stays) <==>
      exists k :: 0 <= k < |stays| && stays[k].startDate <= day <= stays[k].endDate
  {
    if stays != [] {
      BookedDatesCover(stays[1..], day);
      if day in BookedDates(stays[1..]) {
        var k :| 0 <= k < |stays[1..]| && stays[1..][k].startDate <= day <= stays[1..][k].endDate;
        assert stays[k + 1] == stays[1..][k];
      }
      if exists k :: 0 <= k < |stays| && stays[k].startDate <= day <= stays[k].endDate {
        var k :| 0 <= k < |stays| && stays[k].startDate <= day <= stays[k].endDate;
        if k > 0 {
          assert stays[1..][k - 1] == stays[k];
        }
      }
    }
  }

  /**
   * The day-list test of the form agrees with interval arithmetic: the new
   * stay is rejected exactly when it shares a day with an existing one.
   */
  lemma AlreadyBookedIffSharesDay(c: Cabin, start: int, end: int)
    ensures AlreadyBooked(Some(c), start, end) <==>
      exists k :: 0 <= k < |c.bookings| && SharesDay(c.bookings[k], start, end)
  {
    var stays := c.bookings;
    var days := EachDayOfInterval(start, end);
    var booked := BookedDates(stays);
    if AlreadyBooked(Some(c), start, end) {
      var i :| 0 <= i < |days| && days[i] in booked;
      BookedDatesCover(stays, days[i]);
      var k :| 0 <= k < |stays| && stays[k].startDate <= days[i] <= stays[k].endDate;
      assert SharesDay(stays[k], start, end);
    }
    if exists k :: 0 <= k < |stays| && SharesDay(stays[k], start, end) {
      var k :| 0 <= k < |stays| && SharesDay(stays[k], start, end);
      var day := if start < stays[k].startDate then stays[k].startDate else start;
      BookedDatesCover(stays, day);
      assert days[day - start] == day;
    }
  }

  // ---------------------------------------------------------------- field rules

  function GuestIdRule(d: Draft): (err: Option<string>)
    ensures err.Some? <==> d.guestId.None?
  {
    if d.guestId.None? then Some("Guest name is required") else None
  }

  function NumGuestsRule(s: Settings, d: Draft): (err: Option<string>)
    ensures err.None? <==> d.numGuests.Some? && 1 <= d.numGuests.value <= s.maxGuestsPerBooking
  {
    match d.numGuests
    case None => Some("Number of guests is required")
    case Some(g) =>
      if g < 1 then Some("Number of guests cannot be less than 1")
      else if g > s.maxGuestsPerBooking then
        Some("Number of guests cannot be more than " + IntToDecimal(s.maxGuestsPerBooking))
      else None
  }

  function CabinIdRule(d: Draft): (err: Option<string>)
    ensures err.Some? <==> d.cabinId.None?
  {
    if d.cabinId.None? then Some("Cabin name is required") else None
  }

  /**
   * Required, then no day of the stay may already be booked; without an end
   * date or a loaded cabin there is nothing to conflict with.
   */
  function StartDateRule(cabin: Option<Cabin>, d: Draft): (err: Option<string>)
    ensures d.startDate.None? ==> err == Some("Start date is required")
    ensures d.startDate.Some? && (d.endDate.None? || cabin.None?) ==> err.None?
    ensures cabin.Some? && d.startDate.Some? && d.endDate.Some? ==>
      (err.None? <==> forall k :: 0 <= k < |cabin.value.bookings| ==>
        !SharesDay(cabin.value.bookings[k], d.startDate.value, d.endDate.value))
  {
    if d.startDate.None? then Some("Start date is required")
    else if d.endDate.Some? && cabin.Some? then
      AlreadyBookedIffSharesDay(cabin.value, d.startDate.value, d.endDate.value);
      if AlreadyBooked(cabin, d.startDate.value, d.endDate.value) then Some("Cannot book already booked dates")
      else None
    else None
  }

  /** Required, then the stay must last at least the minimum number of nights. */
  function EndDateRule(s: Settings, d: Draft): (err: Option<string>)
    ensures d.endDate.None? ==> err == Some("End date is required")
    ensures d.endDate.Some? ==>
      (err.None? <==> d.startDate.Some? && d.endDate.value - d.startDate.value >= s.minBookingLength)
  {
    NumNightsIsDayDifference(d);
    if d.endDate.None? then Some("End date is required")
    else if NumNights(d).None? || NumNights(d).value < s.minBookingLength then
      Some("End date must be at least " + IntToDecimal(s.minBookingLength) + " days after start date")
    else None
  }

  function ObservationsRule(d: Draft): (err: Option<string>)
    ensures err.Some? <==> d.observations == ""
  {
    if d.observations == "" then Some("Observations is required") else None
  }

  function IsPaidRule(d: Draft): (err: Option<string>)
    ensures err.None? <==> !d.checkingIn || d.isPaid
  {
    if d.checkingIn && !d.isPaid then Some("Please make the payment to check in") else None
  }

  function StatusRule(d: Draft, today: int): (err: Option<string>)
    ensures err.None? <==> !d.checkingIn || d.startDate == Some(today)
  {
    if d.checkingIn && d.startDate != Some(today) then Some("Your booking doesn't start today") else None
  }

  const AllFields: set<Field> := {GuestId, NumGuests, CabinId, StartDate, EndDate, Observations, IsPaid, Status}

  /** The rule of one field: its message when broken. */
  function Rule(s: Settings, cabin: Option<Cabin>, d: Draft, today: int, f: Field): Option<string> {
    match f
    case GuestId => GuestIdRule(d)
    case NumGuests => NumGuestsRule(s, d)
    case CabinId => CabinIdRule(d)
    case StartDate => StartDateRule(cabin, d)
    case EndDate => EndDateRule(s, d)
    case Observations => ObservationsRule(d)
    case IsPaid => IsPaidRule(d)
    case Status => StatusRule(d, today)
  }

  /** The form's `errors`: every field whose rule is broken, with its message (one per field). */
  function Errors(s: Settings, cabin: Option<Cabin>, d: Draft, today: int): (errors: map<Field, string>)
    ensures forall f :: f in errors <==> Rule(s, cabin, d, today, f).Some?
    ensures forall f :: f in errors ==> errors[f] == Rule(s, cabin, d, today, f).value
  {
    map f | f in AllFields && Rule(s, cabin, d, today, f).Some? :: Rule(s, cabin, d, today, f).value
  }

  /**
   * `onSubmit`, reached only when no rule is broken: the draft with the
   * derived nights and prices and the initial status.
   */
  function Submit(s: Settings, cabin: Option<Cabin>, d: Draft, today: int): (r: Result<Booking, map<Field, string>>)
    ensures r.Failure? <==> exists f :: Rule(s, cabin, d, today, f).Some?
    ensures r.Failure? ==> r.error == Errors(s, cabin, d, today)
    ensures r.Success? ==> r.value.status == BookingStatus.InitialStatus(d.checkingIn)
    ensures r.Success? ==>
      d.guestId == Some(r.value.guestId) && d.cabinId == Some(r.value.cabinId) && d.numGuests == r.value.numGuests &&
      d.startDate == Some(r.value.startDate) && d.endDate == Some(r.value.endDate) &&
      r.value.observations == d.observations && r.value.hasBreakfast == d.hasBreakfast && r.value.isPaid == d.isPaid
  {
    if exists f :: Rule(s, cabin, d, today, f).Some? then Failure(Errors(s, cabin, d, today))
    else
      assert Rule(s, cabin, d, today, GuestId).None? && Rule(s, cabin, d, today, CabinId).None?;
      assert Rule(s, cabin, d, today, StartDate).None? && Rule(s, cabin, d, today, EndDate).None?;
      Success(Booking(
        d.guestId.value, d.cabinId.value, d.numGuests, d.startDate.value, d.endDate.value, d.observations,
        NumNights(d).value, ExtrasPrice(s, d), CabinPrice(cabin, d), TotalPrice(s, cabin, d),
        d.hasBreakfast, d.isPaid, BookingStatus.InitialStatus(d.checkingIn)))
  }

  // ---------------------------------------------------------------- what an admitted booking satisfies

  /** No admitted booking shares a day with an existing booking of its cabin. */
  lemma AdmittedHasNoOverlap(s: Settings, c: Cabin, d: Draft, today: int)
    requires Submit(s, Some(c), d, today).Success?
    ensures var b := Submit(s, Some(c), d, today).value;
      forall k :: 0 <= k < |c.bookings| ==> !SharesDay(c.bookings[k], b.startDate, b.endDate)
  {
    assert Rule(s, Some(c), d, today, StartDate).None? && Rule(s, Some(c), d, today, EndDate).None?;
    AlreadyBookedIffSharesDay(c, d.startDate.value, d.endDate.value);
  }

  /** The nights of an admitted booking are its day span, at least the minimum length. */
  lemma AdmittedNights(s: Settings, cabin: Option<Cabin>, d: Draft, today: int)
    requires Submit(s, cabin, d, today).Success?
    ensures var b := Submit(s, cabin, d, today).value;
      && b.numNights == b.endDate - b.startDate
      && b.numNights >= s.minBookingLength
      && (s.minBookingLength >= 1 ==> b.startDate < b.endDate)
  {
    NumNightsIsDayDifference(d);
    assert Rule(s, cabin, d, today, EndDate).None?;
  }

  /** An admitted booking has between 1 and the maximum number of guests. */
  lemma AdmittedGuests(s: Settings, cabin: Option<Cabin>, d: Draft, today: int)
    requires Submit(s, cabin, d, today).Success?
    ensures var b := Submit(s, cabin, d, today).value;
      b.numGuests.Some? && 1 <= b.numGuests.value <= s.maxGuestsPerBooking
  {
    assert Rule(s, cabin, d, today, NumGuests).None?;
  }

  /** An admitted booking that is checked in at creation is paid and starts today. */
  lemma AdmittedCheckInIsPaidToday(s: Settings, cabin: Option<Cabin>, d: Draft, today: int)
    requires Submit(s, cabin, d, today).Success?
    ensures var b := Submit(s, cabin, d, today).value;
      b.status == BookingStatus.CheckedIn ==> b.isPaid && b.startDate == today
  {
    if d.checkingIn {
      assert Rule(s, cabin, d, today, IsPaid).None? && Rule(s, cabin, d, today, Status).None?;
    }
  }

  /**
   * The prices of an admitted booking: the extras are always computed and
   * submitted, but added to the total only with breakfast.
   */
  lemma AdmittedPrices(s: Settings, c: Cabin, d: Draft, today: int)
    requires Submit(s, Some(c), d, today).Success?
    ensures var b := Submit(s, Some(c), d, today).value;
      && b.numGuests.Some?
      && b.extrasPrice == b.numNights * s.breakfastPrice * b.numGuests.value
      && b.cabinPrice == (c.regularPrice - c.discount) * b.numNights
      && b.totalPrice == b.cabinPrice + (if b.hasBreakfast then b.extrasPrice else 0)
  {
    assert Rule(s, Some(c), d, today, StartDate).None? && Rule(s, Some(c), d, today, EndDate).None?;
    AdmittedGuests(s, Some(c), d, today);
    AdmittedNights(s, Some(c), d, today);
    PriceQuote(s, c, d);
  }

  /** With a cabin whose discount does not exceed its price, a non-negative breakfast price and minimum stay, nothing costs less than zero. */
  lemma AdmittedTotalNonNegative(s: Settings, c: Cabin, d: Draft, today: int)
    requires Submit(s, Some(c), d, today).Success?
    requires c.discount <= c.regularPrice && s.breakfastPrice >= 0 && s.minBookingLength >= 0
    ensures Submit(s, Some(c), d, today).value.totalPrice >= 0
  {
    var b := Submit(s, Some(c), d, today).value;
    AdmittedPrices(s, c, d, today);
    AdmittedNights(s, Some(c), d, today);
    AdmittedGuests(s, Some(c), d, today);
    assert b.numNights * s.breakfastPrice >= 0;
  }

  /** Ticking breakfast changes the total and nothing else; the extras price submitted is the same. */
  lemma BreakfastOnlyChangesTotal(s: Settings, cabin: Option<Cabin>, d: Draft, today: int)
    requires Submit(s, cabin, d, today).Success?
    ensures var d' := d.(hasBreakfast := !d.hasBreakfast);
      && Submit(s, cabin, d', today).Success?
      && Submit(s, cabin, d', today).value ==
         Submit(s, cabin, d, today).value.(hasBreakfast := d'.hasBreakfast, totalPrice := TotalPrice(s, cabin, d'))
  {
    var d' := d.(hasBreakfast := !d.hasBreakfast);
    assert forall f :: Rule(s, cabin, d', today, f) == Rule(s, cabin, d, today, f);
  }

  // ---------------------------------------------------------------- rules that only apply when checking in

  /** Payment and the start date are only checked when the guest is checking in. */
  lemma CheckInRulesOnlyWhenCheckingIn(d: Draft, today: int)
    ensures IsPaidRule(d).Some? <==> d.checkingIn && !d.isPaid
    ensures StatusRule(d, today).Some? <==> d.checkingIn && d.startDate != Some(today)
  {
  }

  // ---------------------------------------------------------------- the maximum stay length

  /** The range the end-date picker offers: from the minimum to the maximum stay after the start date. */
  function EndDatePickerRange(s: Settings, start: int): (range: (int, int))
    ensures range.1 - range.0 == s.maxBookingLength - s.minBookingLength
  {
    (start + s.minBookingLength, start + s.maxBookingLength)
  }

  /** The end dates the picker offers are exactly those whose stay lasts from the minimum to the maximum number of nights. */
  lemma EndDatePickerOffersAllowedStays(s: Settings, d: Draft)
    requires d.startDate.Some? && d.endDate.Some?
    ensures var range := EndDatePickerRange(s, d.startDate.value);
      range.0 <= d.endDate.value <= range.1 <==> s.minBookingLength <= NumNights(d).value <= s.maxBookingLength
  {
    NumNightsIsDayDifference(d);
  }

  /**
   * The maximum stay length bounds only the date picker: changing it changes
   * neither the violations nor the submitted booking.
   */
  lemma {:induction false} MaxLengthIsNotARule(s: Settings, maxLength: int, cabin: Option<Cabin>, d: Draft, today: int)
    ensures Submit(s.(maxBookingLength := maxLength), cabin, d, today) == Submit(s, cabin, d, today)
  {
    var s' := s.(maxBookingLength := maxLength);
    assert NumGuestsRule(s', d) == NumGuestsRule(s, d);
    assert EndDateRule(s', d) == EndDateRule(s, d);
    assert ExtrasPrice(s', d) == ExtrasPrice(s, d);
    assert forall f :: Rule(s', cabin, d, today, f) == Rule(s, cabin, d, today, f);
    assert Errors(s', cabin, d, today) == Errors(s, cabin, d, today);
  }

  // ---------------------------------------------------------------- the guest count and the cabin choice

  /**
   * Leaving the guest-count field clears the chosen cabin when the count is
   * empty or zero, or exceeds the loaded cabin's capacity. With a count but
   * no cabin data the choice stays: without a cabin id the lookup returns
   * `[]`, whose undefined capacity never compares smaller, and while the
   * cabin is still loading the handler throws before it changes anything.
   */
  function OnGuestsBlur(numGuests: Option<int>, cabin: Option<Cabin>, cabinId: Option<int>): (r: Option<int>)
    ensures r == None || r == cabinId
    ensures (numGuests.None? || numGuests == Some(0)) ==> r == None
    ensures numGuests.Some? && numGuests.value != 0 && cabin.Some? ==>
      (r == None <==> numGuests.value > cabin.value.maxCapacity || cabinId.None?)
    ensures numGuests.Some? && numGuests.value != 0 && cabin.None? ==> r == cabinId
  {
    if numGuests.None? || numGuests.value == 0 then None
    else if cabin.None? then cabinId
    else if numGuests.value > cabin.value.maxCapacity then None
    else cabinId
  }

  /** A cabin is offered in the cabin list unless it holds fewer guests than requested. */
  function CabinOptionEnabled(maxCapacity: int, numGuests: Option<int>): (enabled: bool)
    ensures enabled <==> numGuests.None? || numGuests.value <= maxCapacity
  {
    numGuests.None? || !(maxCapacity < numGuests.value)
  }

  /**
   * The cabin list and the guest-count field agree: for a non-zero count, a
   * chosen cabin stays chosen when the field is left exactly when the list
   * offers it.
   */
  lemma EnabledCabinSurvivesBlur(c: Cabin, numGuests: int, cabinId: int)
    requires numGuests != 0
    ensures CabinOptionEnabled(c.maxCapacity, Some(numGuests)) <==>
      OnGuestsBlur(Some(numGuests), Some(c), Some(cabinId)) == Some(cabinId)
  {
  }

  // ---------------------------------------------------------------- worked examples

  const ScenarioSettings := Settings(1, 30, 4, 15)
  const ScenarioCabin := Cabin(100, 0, 4, [])
  const ScenarioDraft := Draft(Some(7), Some(2), Some(3), Some(100), Some(103), "late arrival", true, false, false)

  /** Three nights, two guests, breakfast at 15: 300 + 90, unconfirmed. */
  lemma ScenarioAdmitted()
    ensures Submit(ScenarioSettings, Some(ScenarioCabin), ScenarioDraft, 90) ==
      Success(Booking(7, 3, Some(2), 100, 103, "late arrival", 3, 90, 300, 390, true, false, "unconfirmed"))
  {
    assert NumNights(ScenarioDraft) == Some(3) by { NumNightsIsDayDifference(ScenarioDraft); }
    assert !AlreadyBooked(Some(ScenarioCabin), 100, 103);
  }

  /** The errors are determined by the rules one field at a time. */
  lemma ErrorsAre(s: Settings, cabin: Option<Cabin>, d: Draft, today: int, expected: map<Field, string>)
    requires forall f :: Rule(s, cabin, d, today, f) == if f in expected then Some(expected[f]) else None
    ensures Errors(s, cabin, d, today) == expected
  {
  }

  /** An existing stay inside the requested dates is a conflict on the start date. */
  lemma ScenarioConflict()
    ensures Submit(ScenarioSettings, Some(ScenarioCabin.(bookings := [Stay(101, 102)])), ScenarioDraft, 90) ==
      Failure(map[StartDate := "Cannot book already booked dates"])
  {
    var c := ScenarioCabin.(bookings := [Stay(101, 102)]);
    assert NumNights(ScenarioDraft) == Some(3) by { NumNightsIsDayDifference(ScenarioDraft); }
    AlreadyBookedIffSharesDay(c, 100, 103);
    assert SharesDay(c.bookings[0], 100, 103);
    ErrorsAre(ScenarioSettings, Some(c), ScenarioDraft, 90, map[StartDate := "Cannot book already booked dates"]);
    assert Rule(ScenarioSettings, Some(c), ScenarioDraft, 90, StartDate).Some?;
  }

  /** An existing stay ending on the requested start day is a conflict too: both ends count. */
  lemma ScenarioTouchingConflict()
    ensures AlreadyBooked(Some(ScenarioCabin.(bookings := [Stay(95, 100)])), 100, 103)
  {
    var c := ScenarioCabin.(bookings := [Stay(95, 100)]);
    AlreadyBookedIffSharesDay(c, 100, 103);
    assert SharesDay(c.bookings[0], 100, 103);
  }

  /** Five guests against a maximum of four. */
  lemma ScenarioTooManyGuests()
    ensures Submit(ScenarioSettings, Some(ScenarioCabin), ScenarioDraft.(numGuests := Some(5)), 90) ==
      Failure(map[NumGuests := "Number of guests cannot be more than 4"])
  {
    var d := ScenarioDraft.(numGuests := Some(5));
    assert NumNights(d) == Some(3) by { NumNightsIsDayDifference(d); }
    assert !AlreadyBooked(Some(ScenarioCabin), 100, 103);
    assert IntToDecimal(ScenarioSettings.maxGuestsPerBooking) == "4";
    assert "Number of guests cannot be more than " + "4" == "Number of guests cannot be more than 4";
    assert Rule(ScenarioSettings, Some(ScenarioCabin), d, 90, NumGuests) == Some("Number of guests cannot be more than 4");
    ErrorsAre(ScenarioSettings, Some(ScenarioCabin), d, 90, map[NumGuests := "Number of guests cannot be more than 4"]);
  }

  /** Checking in unpaid on a day other than the start day breaks both check-in rules. */
  lemma ScenarioUnpaidCheckIn()
    ensures Submit(ScenarioSettings, Some(ScenarioCabin), ScenarioDraft.(checkingIn := true), 90) ==
      Failure(map[IsPaid := "Please make the payment to check in", Status := "Your booking doesn't start today"])
  {
    var d := ScenarioDraft.(checkingIn := true);
    assert NumNights(d) == Some(3) by { NumNightsIsDayDifference(d); }
    assert !AlreadyBooked(Some(ScenarioCabin), 100, 103);
    ErrorsAre(ScenarioSettings, Some(ScenarioCabin), d, 90,
      map[IsPaid := "Please make the payment to check in", Status := "Your booking doesn't start today"]);
    assert Rule(ScenarioSettings, Some(ScenarioCabin), d, 90, IsPaid).Some?;
  }
}
