# The Wild Oasis: a Dafny model of the hotel admin core

The Wild Oasis is a staff application for a small hotel of cabins. This
project models the decisions its front end makes, and proves properties
about them:

- **The create-booking form** (`CreateBookingForm`). It derives the number
  of nights, the extras, cabin and total prices, and the days the chosen
  cabin is already booked. It lists the errors of the form's field rules.
  When no rule is broken, it builds the booking record that is submitted.
- **The booking lifecycle** (`BookingStatus`) and the three views that
  offer actions on it (`BookingDetail`, `GuestBookingActions`, `TodayItem`).
  The status goes from unconfirmed to checked in to checked out.
- **The cabin service** (`ApiCabins`). A `CabinStore` holds the cabins
  table, the image bucket and the bookings. It models create or update of a
  cabin, with the upload of a new image, the rollback of the row when the
  upload fails, and the deletion of the old image. It also models the
  deletion of a cabin and the lookup of one cabin with its open bookings.
- **The cabin form** (`CreateCabinForm`), the **duplicate action** of a
  cabin row (`CabinRow`), and the **cabin list** (`UseCabins`). The list is
  filtered by discount and sorted in place by a field and a direction.
- **The guest form** (`CreateGuestForm`), with its email, national-id and
  flag-URL formats. Also the **guest list query** (`UseGuests`), with its
  page parameters and prefetching, and the **guest page** (`GuestDetail`),
  with its spending totals and booking-count tag.
- **The sign-up form** (`SignupForm`) and **the stay-length chart**
  (`DurationChart`), which counts stays into buckets by label.
- **The date helpers** (`Helpers`), on millisecond timestamps with a
  `JsDate` class whose setters change the date in place. Also some
  JavaScript string behaviour the code relies on (`Text`): `split`,
  `replace` of the first match, `slice`, decimal printing and parsing, and
  ASCII case.

JavaScript's `undefined` and `NaN` are `None` of an `Option` wherever the
code tests them (`|| 0`, `|| 1`, `?.`). A form rule set is modelled the way
react-hook-form applies it. Each field reports the message of its first
broken rule. The form's `errors` map holds every field with a broken rule.
The submit handler runs only when that map is empty. Randomness (the
image-name number), failures of the database and of storage, the current
time and the time-zone offset are all parameters.

Where the code departs from the intended booking rules, the model follows the code:

- The observations field is required by the booking form.
- The extras price is always computed and submitted. It is added to the
  total only when breakfast is chosen.
- The cabin's capacity, a start date in the past and the maximum stay length
  are not submit rules. Capacity only clears the cabin choice on blur and
  disables cabins in the list. The dates are only bounded by the date
  pickers.

## Model

| member | source | states |
|---|---|---|
| Helpers.JsDate.SetHours | src/utils/helpers.js:60 | `setHours(h, m)` sets hours and minutes from the start of the same day and keeps seconds and milliseconds |
| Helpers.JsDate.SetUtcHours | src/utils/helpers.js:26-27 | `setUTCHours(h, m, s, ms)` sets the whole time of day within the same day |
| Helpers.SubtractDates | src/utils/helpers.js:4-5 | defined exactly when both dates are; whole days between the dates, truncated toward zero |
| Helpers.SubtractDatesPositive | src/utils/helpers.js:4-5 | the difference is positive exactly when the first date is at least one whole day later |
| Helpers.SubtractDatesAntisymmetric | src/utils/helpers.js:4-5 | swapping the two dates negates the difference |
| Helpers.SubtractDatesSameTimeOfDay | src/utils/helpers.js:4-5 | two dates at the same time of day differ by exactly their day numbers |
| Helpers.GetToday | src/utils/helpers.js:20-29 | the result is on the same day as now, at its first millisecond, or at its last with `end` |
| Helpers.OffsetToHoursMinutes | src/utils/helpers.js:57-59 | whole hours and minutes below 60 that add up to the absolute offset |
| Helpers.OffsetSignDropped | src/utils/helpers.js:58-59 | offsets east and west of UTC by the same amount give the same clock reading |
| Helpers.SetLocalHoursToUtcOffset | src/utils/helpers.js:56-62 | returns the same date object; a null date is left alone; otherwise the clock is set to the offset's hours and minutes, on the same day |
| Helpers.SetClockKeepsDay | src/utils/helpers.js:60 | setting a clock reading of less than 24 hours keeps the day and the seconds |
| BookingStatus.InitialStatus | src/features/bookings/CreateBookingForm.jsx:90 | a new booking is checked in exactly when the guest is checking in, otherwise unconfirmed; exactly one of check-in and check-out is then allowed |
| BookingStatus.Allows | src/features/bookings/BookingDetail.jsx:50-82 | unconfirmed allows all but check-out, checked in allows details and check-out, checked out allows details and delete; check-out only when checked in |
| BookingDetail.TagText | src/features/bookings/BookingDetail.jsx:38 | the tag has the status's length and is the status itself when it has no dash |
| BookingDetail.TwoWordTag | src/features/bookings/BookingDetail.jsx:38 | "a-b" shows as "a b" when the first word has no dash |
| BookingDetail.Actions | src/features/bookings/BookingDetail.jsx:45-82 | check in only when unconfirmed, check out only when checked in, delete unless checked in; never check out and delete together |
| BookingDetail.ActionsFollowLifecycle | src/features/bookings/BookingDetail.jsx:50-82 | an action is offered exactly when the lifecycle allows it |
| GuestBookingActions.Actions | src/features/guests/GuestBookingActions.jsx:35-76 | details first, and the lifecycle actions each exactly when the status permits; checked out offers details and delete |
| GuestBookingActions.ActionsFollowLifecycle | src/features/guests/GuestBookingActions.jsx:40-76 | the bar offers an action exactly when the lifecycle allows it |
| GuestBookingActions.SameActionsAsBookingPage | src/features/guests/GuestBookingActions.jsx:40-76 | apart from details, the guest page and the booking page offer the same actions |
| TodayItem.TagOf | src/features/check-in-out/TodayItem.jsx:31-32 | arriving exactly for unconfirmed, departing exactly for checked in |
| TodayItem.ActionOf | src/features/check-in-out/TodayItem.jsx:38-54 | check in exactly for unconfirmed, check out exactly for checked in |
| TodayItem.TagMatchesAction | src/features/check-in-out/TodayItem.jsx:31-54 | tag and button appear together, arriving goes with check in, and the button is allowed by the lifecycle |
| CreateBookingForm.NumNightsIsDayDifference | src/features/bookings/CreateBookingForm.jsx:58-61 | the nights are defined exactly when both dates are, and are end day minus start day |
| CreateBookingForm.NumNights | src/features/bookings/CreateBookingForm.jsx:58-61 | whole days from start to end; its meaning is proved in `NumNightsIsDayDifference` |
| CreateBookingForm.ExtrasPrice | src/features/bookings/CreateBookingForm.jsx:63 | nights x breakfast price x guests, or 0 when either is unknown; proved in `PriceQuote` |
| CreateBookingForm.CabinPrice | src/features/bookings/CreateBookingForm.jsx:64 | (regular price - discount) x nights, or 0 without a cabin or nights; proved in `PriceQuote` |
| CreateBookingForm.TotalPrice | src/features/bookings/CreateBookingForm.jsx:65 | the cabin price plus the extras exactly when breakfast is ticked; proved in `PriceQuote` |
| CreateBookingForm.PriceQuote | src/features/bookings/CreateBookingForm.jsx:63-65 | cabin price is (regular - discount) x nights, extras nights x breakfast x guests, total adds extras only with breakfast |
| CreateBookingForm.EachDayOfInterval | src/features/bookings/CreateBookingForm.jsx:74-77 | the days listed are exactly those from start to end, both included |
| CreateBookingForm.BookedDates | src/features/bookings/CreateBookingForm.jsx:67-77 | the days of all existing stays of the cabin; proved in `BookedDatesCover` |
| CreateBookingForm.AlreadyBooked | src/features/bookings/CreateBookingForm.jsx:204-207 | some day of the requested interval is a booked day; proved in `AlreadyBookedIffSharesDay` |
| CreateBookingForm.BookedDatesCover | src/features/bookings/CreateBookingForm.jsx:67-77 | a day is booked exactly when some existing stay covers it |
| CreateBookingForm.AlreadyBookedIffSharesDay | src/features/bookings/CreateBookingForm.jsx:204-207 | the start-date check fires exactly when the new stay shares a day with an existing stay |
| CreateBookingForm.GuestIdRule | src/features/bookings/CreateBookingForm.jsx:109 | broken exactly when no guest is chosen |
| CreateBookingForm.NumGuestsRule | src/features/bookings/CreateBookingForm.jsx:134-145 | passes exactly for a count from 1 to the maximum guests per booking |
| CreateBookingForm.CabinIdRule | src/features/bookings/CreateBookingForm.jsx:157 | broken exactly when no cabin is chosen |
| CreateBookingForm.StartDateRule | src/features/bookings/CreateBookingForm.jsx:202-208 | required; with an end date and a loaded cabin, passes exactly when no booked stay shares a day with the request |
| CreateBookingForm.EndDateRule | src/features/bookings/CreateBookingForm.jsx:233-238 | required; passes exactly when there is a start date and the stay lasts at least the minimum nights |
| CreateBookingForm.ObservationsRule | src/features/bookings/CreateBookingForm.jsx:248-250 | broken exactly when the observations are empty |
| CreateBookingForm.IsPaidRule | src/features/bookings/CreateBookingForm.jsx:279-281 | broken exactly when checking in unpaid |
| CreateBookingForm.StatusRule | src/features/bookings/CreateBookingForm.jsx:295-299 | broken exactly when checking in on a booking that does not start today |
| CreateBookingForm.CabinOptionEnabled | src/features/bookings/CreateBookingForm.jsx:167 | a cabin is selectable exactly when no count is given or the count is within its capacity |
| CreateBookingForm.EnabledCabinSurvivesBlur | src/features/bookings/CreateBookingForm.jsx:146-167 | for a non-zero count, a chosen cabin survives leaving the guests field exactly when the list offers it |
| CreateBookingForm.Errors | src/features/bookings/CreateBookingForm.jsx:105-300 | a field is in the errors exactly when its rule is broken, with that rule's message |
| CreateBookingForm.Submit | src/features/bookings/CreateBookingForm.jsx:79-98 | fails exactly when some rule is broken, with all the errors; otherwise the record carries the draft's guest, cabin, guest count, dates, observations, breakfast and payment flags, and its status is the initial status |
| CreateBookingForm.AdmittedHasNoOverlap | src/features/bookings/CreateBookingForm.jsx:202-208 | an admitted booking shares no day with a booking of its cabin |
| CreateBookingForm.AdmittedNights | src/features/bookings/CreateBookingForm.jsx:233-238 | an admitted booking's nights are its day span and at least the minimum stay |
| CreateBookingForm.AdmittedGuests | src/features/bookings/CreateBookingForm.jsx:134-145 | an admitted booking has between one and the maximum number of guests |
| CreateBookingForm.AdmittedCheckInIsPaidToday | src/features/bookings/CreateBookingForm.jsx:279-300 | a booking checked in at creation is paid and starts today |
| CreateBookingForm.AdmittedPrices | src/features/bookings/CreateBookingForm.jsx:79-90 | the submitted prices are the quote for the submitted dates and guests |
| CreateBookingForm.AdmittedTotalNonNegative | src/features/bookings/CreateBookingForm.jsx:63-65 | with a discount not above the price and non-negative settings, the total is not negative |
| CreateBookingForm.BreakfastOnlyChangesTotal | src/features/bookings/CreateBookingForm.jsx:54-65 | ticking breakfast changes only the total and the flag; the submitted extras stay the same |
| CreateBookingForm.CheckInRulesOnlyWhenCheckingIn | src/features/bookings/CreateBookingForm.jsx:279-300 | payment and start day are checked exactly when the guest is checking in |
| CreateBookingForm.EndDatePickerRange | src/features/bookings/CreateBookingForm.jsx:228-229 | the end-date picker spans from the minimum to the maximum stay after the start |
| CreateBookingForm.EndDatePickerOffersAllowedStays | src/features/bookings/CreateBookingForm.jsx:228-229 | the picker offers an end date exactly when the stay lasts from the minimum to the maximum nights |
| CreateBookingForm.MaxLengthIsNotARule | src/features/bookings/CreateBookingForm.jsx:228-238 | the maximum stay length has no effect on what is admitted |
| CreateBookingForm.OnGuestsBlur | src/features/bookings/CreateBookingForm.jsx:146-149 | leaving the guests field clears the cabin when there are no guests or more than the loaded cabin holds, and keeps it otherwise, also when no cabin data is loaded |
| CreateBookingForm.ScenarioAdmitted | src/features/bookings/CreateBookingForm.jsx:63-98 | three nights for two with breakfast at 15 and price 100: cabin 300, extras 90, total 390, unconfirmed |
| CreateBookingForm.ScenarioConflict | src/features/bookings/CreateBookingForm.jsx:202-208 | a booked stay inside the requested dates yields exactly the start-date error |
| CreateBookingForm.ScenarioTouchingConflict | src/features/bookings/CreateBookingForm.jsx:204-207 | a booked stay ending on the requested start day is a conflict |
| CreateBookingForm.ScenarioTooManyGuests | src/features/bookings/CreateBookingForm.jsx:141-144 | five guests against a maximum of four yields exactly the maximum-guests error |
| CreateBookingForm.ScenarioUnpaidCheckIn | src/features/bookings/CreateBookingForm.jsx:279-300 | checking in unpaid on another day yields both check-in errors |
| CreateCabinForm.NameRule | src/features/cabins/CreateCabinForm.jsx:94 | broken exactly when the name is empty |
| CreateCabinForm.MaxCapacityRule | src/features/cabins/CreateCabinForm.jsx:103-109 | passes exactly for a capacity of at least 1 |
| CreateCabinForm.RegularPriceRule | src/features/cabins/CreateCabinForm.jsx:118-124 | passes exactly for a price of at least 1 |
| CreateCabinForm.DiscountRule | src/features/cabins/CreateCabinForm.jsx:133-138 | passes exactly for a discount not above the regular price |
| CreateCabinForm.DescriptionRule | src/features/cabins/CreateCabinForm.jsx:148-150 | broken exactly when the description is empty |
| CreateCabinForm.Errors | src/features/cabins/CreateCabinForm.jsx:89-164 | a field is in the errors exactly when its rule is broken, with that rule's message |
| CreateCabinForm.ChosenImage | src/features/cabins/CreateCabinForm.jsx:53 | a list of files gives its first file; a stored path is passed on unchanged |
| CreateCabinForm.Submit | src/features/cabins/CreateCabinForm.jsx:51-82 | fails exactly when a rule is broken; an update exactly in an edit session, with its id and stored image; the payload carries the form's values and the chosen image |
| CreateCabinForm.ImageRuleSameInBothModes | src/features/cabins/CreateCabinForm.jsx:158-162 | the image rule is the same when creating and editing, and fires exactly for an empty image |
| CreateCabinForm.ImageRule | src/features/cabins/CreateCabinForm.jsx:158-162 | "Image is required" exactly when no image is given |
| CreateCabinForm.AdmittedCabin | src/features/cabins/CreateCabinForm.jsx:94-150 | a submitted cabin has a name, a description, capacity and price of at least 1, and a discount not above the price |
| ApiCabins.ImageName | src/services/apiCabins.js:33-35 | the stored image name contains no '/' |
| ApiCabins.Message | src/services/apiCabins.js:57-135 | the message each error is thrown with; which one a failed create or update throws is stated in `CreateUpdateFailure` |
| ApiCabins.ImagePath | src/services/apiCabins.js:31-39 | a stored path is kept; a new file goes under the bucket's public folder |
| ApiCabins.ImagePathRoundTrip | src/services/apiCabins.js:113-121 | the last segment of a built path is the uploaded name, so the image delete finds it |
| ApiCabins.RowOf | src/services/apiCabins.js:41-51 | the written row stays a duplicate exactly when it was one and keeps its stored image path |
| ApiCabins.OpenBookings | src/services/apiCabins.js:126-131 | exactly the cabin's bookings that are not checked out |
| ApiCabins.Snapshot | src/services/apiCabins.js:126-131 | the booking form sees one stay per looked-up booking, with its dates |
| ApiCabins.CabinStore.GetCabin | src/services/apiCabins.js:123-139 | nothing for a falsy id, an error exactly for an unknown id, otherwise the row and its open bookings |
| ApiCabins.CabinStore.DeleteCabinImage | src/services/apiCabins.js:113-121 | removes the path's last segment from the bucket and changes nothing else |
| ApiCabins.CabinStore.CreateUpdateCabin | src/services/apiCabins.js:27-81 | the result and the new table, bucket and next id are those of `CreateUpdate` on the old state |
| ApiCabins.CabinStore.DeleteCabin | src/services/apiCabins.js:91-105 | the result and the new state are those of `Delete` on the old state |
| ApiCabins.CreateUpdate | src/services/apiCabins.js:27-81 | on success the returned row is stored under the returned id; a failure leaves the bucket alone; the next id grows by at most one |
| ApiCabins.Delete | src/services/apiCabins.js:91-105 | fails exactly when the row delete fails, and then the table is unchanged; on success the id is gone; every other row stays; the image name leaves the bucket unless the cabin is a duplicate, and no other image leaves |
| ApiCabins.CreateUpdateKeepsValid | src/services/apiCabins.js:44-51 | creating or updating keeps ids positive and below the next id |
| ApiCabins.DeleteKeepsValid | src/services/apiCabins.js:91-96 | deleting keeps ids positive and below the next id |
| ApiCabins.CreateUpdateFailure | src/services/apiCabins.js:54-75 | fails exactly on a failed write, an unknown id or a failed upload, with "Cabin could not be created" for the first two and the upload message for the last; a failure never changes the bucket, and a failed creation leaves the table as it was |
| ApiCabins.FailedUploadOnEditDeletesCabin | src/services/apiCabins.js:70-75 | a failed upload while editing removes the edited cabin's row |
| ApiCabins.CreateUpdateWritesRow | src/services/apiCabins.js:44-58 | success writes the row under a fresh id or the given id, and nothing else in the table changes |
| ApiCabins.CreateUpdateImages | src/services/apiCabins.js:60-78 | on success a new file's name is in the bucket (unless the old image shares it) and no other name is added; a creation removes nothing; only the old image's name can leave, and it leaves whenever the old image is deleted |
| ApiCabins.DuplicateImageIsKept | src/services/apiCabins.js:77-97 | no call about a duplicated cabin removes anything from the bucket |
| ApiCabins.KeptPathTouchesNoImage | src/services/apiCabins.js:60-78 | a cabin keeping its stored path uploads and deletes nothing, and its row keeps the path |
| ApiCabins.CreateThenDeleteRoundTrip | src/services/apiCabins.js:97-118 | creating a cabin with a new image and deleting it restores the table and the bucket |
| ApiCabins.SnapshotExcludesCheckedOut | src/services/apiCabins.js:128-129 | every stay the booking form sees belongs to the cabin and is not checked out |
| CabinRow.Duplicate | src/features/cabins/CabinRow.jsx:67-77 | the copy is "Copy of" the name, with the same values and image path, marked as a duplicate |
| CabinRow.DuplicateSharesImage | src/features/cabins/CabinRow.jsx:67-77 | creating the copy adds a new row that shares the image, leaves the original row alone and uploads nothing |
| CabinRow.DiscountShown | src/features/cabins/CabinRow.jsx:94 | a dash exactly for a zero discount, otherwise the amount |
| UseCabins.FilterValue | src/features/cabins/useCabins.js:19 | the parameter when non-empty, otherwise "all" |
| UseCabins.Filtered | src/features/cabins/useCabins.js:22-27 | "all" keeps every cabin; "no-discount" keeps exactly those with discount 0 and "with-discount" exactly those with a positive discount; any other value gives no cabins |
| UseCabins.WithDiscount | src/features/cabins/useCabins.js:24-27 | keeps exactly the cabins with a zero (or a positive) discount |
| UseCabins.DiscountFiltersPartition | src/features/cabins/useCabins.js:22-27 | no cabin is in both filters, and every cabin without a negative discount is in one |
| UseCabins.Modifier | src/features/cabins/useCabins.js:32 | 1 exactly for "asc", -1 otherwise |
| UseCabins.DefaultSortIsNameAscending | src/features/cabins/useCabins.js:30-32 | without a parameter the list is sorted by name, ascending |
| UseCabins.Order | src/features/cabins/useCabins.js:34-38 | a cabin compares equal to itself |
| UseCabins.OrderAntisymmetric | src/features/cabins/useCabins.js:34-38 | swapping two cabins negates the comparator |
| UseCabins.BeforeTotal | src/features/cabins/useCabins.js:34-38 | any two cabins can be put in order one way or the other |
| UseCabins.BeforeTransitive | src/features/cabins/useCabins.js:34-38 | the order is transitive |
| UseCabins.Swap | src/features/cabins/useCabins.js:34-38 | exchanges two cells and keeps the array a permutation of itself |
| UseCabins.Insert | src/features/cabins/useCabins.js:34-38 | extends the sorted prefix by one cell and keeps the array a permutation |
| UseCabins.SortCabins | src/features/cabins/useCabins.js:34-38 | the array ends sorted by the comparator and a permutation of what it held |
| UseCabins.ToArray | src/features/cabins/useCabins.js:25-27 | a fresh array holding the filtered list |
| UseCabins.UseCabinList | src/features/cabins/useCabins.js:19-40 | "all" sorts the fetched array itself; another filter sorts a new array and leaves the fetched one as it was; an unknown filter gives an empty list; the result is sorted and a permutation of the filtered cabins |
| CreateGuestForm.IndexOfIsFirst | src/features/guests/CreateGuestForm.jsx:98 | an occurrence with none before it is the first index |
| CreateGuestForm.LastIndexOfIsLast | src/features/guests/CreateGuestForm.jsx:98 | an occurrence with none after it is the last index |
| CreateGuestForm.EmailSplitIsUnique | src/features/guests/CreateGuestForm.jsx:98 | any way an address matches the pattern splits at its first '@' and its last dot |
| CreateGuestForm.IsValidEmail | src/features/guests/CreateGuestForm.jsx:98 | the scan accepts exactly the addresses the email pattern matches |
| CreateGuestForm.FlagUrl | src/features/guests/CreateGuestForm.jsx:56 | the flag URL of the lower-cased code, or of "undefined" without a code |
| CreateGuestForm.SliceBeforeSuffix | src/features/guests/CreateGuestForm.jsx:40 | `slice(-6, -4)` returns the two characters before a four-character suffix |
| CreateGuestForm.CodeOfFlag | src/features/guests/CreateGuestForm.jsx:40 | two characters for a URL of at least six, and no lower-case letter |
| CreateGuestForm.FlagRoundTrip | src/features/guests/CreateGuestForm.jsx:40-56 | a two-letter uppercase code is read back from the flag URL built from it |
| CreateGuestForm.DefaultNationality | src/features/guests/CreateGuestForm.jsx:37-42 | a country is preselected exactly for a non-empty nationality, with the code read from the flag |
| CreateGuestForm.EditStartsOnStoredCountry | src/features/guests/CreateGuestForm.jsx:37-42 | editing a guest starts the select on the stored country and code |
| CreateGuestForm.FullNameRule | src/features/guests/CreateGuestForm.jsx:84-86 | broken exactly when the name is empty |
| CreateGuestForm.EmailRule | src/features/guests/CreateGuestForm.jsx:95-101 | passes exactly for a non-empty address matching the pattern |
| CreateGuestForm.NationalityRule | src/features/guests/CreateGuestForm.jsx:109 | broken exactly when no country is chosen |
| CreateGuestForm.NationalIdRule | src/features/guests/CreateGuestForm.jsx:132-138 | passes exactly for 9 to 16 ASCII letters and digits |
| CreateGuestForm.Errors | src/features/guests/CreateGuestForm.jsx:80-139 | a field is in the errors exactly when its rule is broken, with that rule's message |
| CreateGuestForm.NationalityOf | src/features/guests/CreateGuestForm.jsx:46 | null exactly when no country or an empty name is chosen |
| CreateGuestForm.CountryCodeOf | src/features/guests/CreateGuestForm.jsx:47 | defined exactly when a country with a non-empty code is chosen |
| CreateGuestForm.FormData.DeleteBookings | src/features/guests/CreateGuestForm.jsx:50 | removes the bookings entry from the form data and nothing else |
| CreateGuestForm.OnSubmit | src/features/guests/CreateGuestForm.jsx:49-73 | removes bookings from the data in place; an update exactly in an edit session, carrying the data with the nationality and flag URL |
| CreateGuestForm.PayloadHasNoBookings | src/features/guests/CreateGuestForm.jsx:50-57 | the request never carries bookings and always carries nationality and flag |
| UseGuests.ToNumber | src/features/guests/useGuests.js:28 | the empty string is 0, digits read as their decimal value, and a negative number starts with '-' |
| UseGuests.PageOf | src/features/guests/useGuests.js:28 | the page is never 0 |
| UseGuests.PageOfDecimal | src/features/guests/useGuests.js:28 | a page written in decimal reads back as itself; no parameter or 0 is page 1 |
| UseGuests.PageIsPositiveUnlessSigned | src/features/guests/useGuests.js:28 | without a minus sign the page is at least 1 |
| UseGuests.SortByRoundTrip | src/features/guests/useGuests.js:23-26 | a field and direction joined with '-' split back into themselves |
| UseGuests.ParseSortBy | src/features/guests/useGuests.js:23-26 | the field has no '-'; a value without '-' is the field with no direction |
| UseGuests.ParseSearchParams | src/features/guests/useGuests.js:12-29 | nothing is set off the guests page; on it, no filter exactly for a missing, empty or "all" value, the order and page from their parameters or defaults |
| UseGuests.DefaultSortIsFullNameAscending | src/features/guests/useGuests.js:23-24 | the default order is by full name, ascending |
| UseGuests.PageCount | src/features/guests/useGuests.js:36 | known exactly when the count is, and the fewest pages that hold the count |
| UseGuests.PageCountIsCeiling | src/features/guests/useGuests.js:36 | no pages for no guests, and the last page is not empty |
| UseGuests.NeighboursInRange | src/features/guests/useGuests.js:38-50 | from a page in the list, the prefetched neighbours are in the list; none after the last page or before the first |
| UseGuests.QueryClient.PrefetchQuery | src/features/guests/useGuests.js:39-42 | appends the query to the prefetched ones |
| UseGuests.UseGuests | src/features/guests/useGuests.js:6-53 | the page count, and the next then the previous page prefetched exactly when they exist |
| GuestDetail.TotalSpentIsSumOfBookings | src/features/guests/GuestDetail.jsx:65-73 | the extras total plus the cabin total is the sum of what each booking cost |
| GuestDetail.TotalsGrow | src/features/guests/GuestDetail.jsx:65-73 | each added booking adds its own prices to the totals |
| GuestDetail.TotalExtrasPrice | src/features/guests/GuestDetail.jsx:65-68 | not negative when no booking's extras are |
| GuestDetail.TotalCabinPrice | src/features/guests/GuestDetail.jsx:70-73 | not negative when no booking's cabin price is |
| GuestDetail.TagColorOf | src/features/guests/GuestDetail.jsx:82-86 | silver, yellow, blue, indigo for 0 to 3 bookings, green exactly above 3 |
| GuestDetail.TagLabelCases | src/features/guests/GuestDetail.jsx:88-92 | "No bookings", "n bookings" up to three, "(n - 1)+ bookings" above |
| GuestDetail.TagLabel | src/features/guests/GuestDetail.jsx:88-92 | the tag text; its three cases are proved in `TagLabelCases` |
| GuestDetail.NoBookingsSpendNothing | src/features/guests/GuestDetail.jsx:121 | when the money section is hidden both totals are zero |
| DurationChart.StartData | src/features/dashboard/DurationChart.jsx:146 | eight buckets at zero with the light table's labels, in either mode |
| DurationChart.IncArrayValue | src/features/dashboard/DurationChart.jsx:124-134 | a bucket counts one more exactly when its range contains the nights, and keeps its label |
| DurationChart.TallyCounts | src/features/dashboard/DurationChart.jsx:136-137 | each bucket's count grows by the number of stays in its range |
| DurationChart.NonEmptyKeepsPositive | src/features/dashboard/DurationChart.jsx:138 | the filter keeps exactly the buckets with a positive count |
| DurationChart.NonEmptyAppend | src/features/dashboard/DurationChart.jsx:138 | the filter keeps the order |
| DurationChart.SingleNumberLabel | src/features/dashboard/DurationChart.jsx:126-128 | a label with one number reads as that number at both ends |
| DurationChart.TwoNumberLabel | src/features/dashboard/DurationChart.jsx:126-128 | a label "a-b ..." reads as the range a to b |
| DurationChart.ParseRange | src/features/dashboard/DurationChart.jsx:126-128 | the two ends a label reads as; proved in `SingleNumberLabel`, `TwoNumberLabel` and the label lemmas |
| DurationChart.SingleNightLabels | src/features/dashboard/DurationChart.jsx:33-43 | "1 night", "2 nights", "3 nights" read as single numbers |
| DurationChart.ShortRangeLabels | src/features/dashboard/DurationChart.jsx:48-53 | "4-5 nights" and "6-7 nights" read as their ends |
| DurationChart.LongRangeLabels | src/features/dashboard/DurationChart.jsx:58-63 | "8-14 nights" and "15-21 nights" read as their ends |
| DurationChart.OpenEndedLabel | src/features/dashboard/DurationChart.jsx:68 | "21+ nights" reads as 21 alone |
| DurationChart.StartRange | src/features/dashboard/DurationChart.jsx:31-72 | the range each label of the table reads as |
| DurationChart.StartRangesOrdered | src/features/dashboard/DurationChart.jsx:31-72 | up to the last label, each range ends before the next begins |
| DurationChart.LongStayUncounted | src/features/dashboard/DurationChart.jsx:120-128 | a stay of more than 21 nights falls in no bucket |
| DurationChart.TwentyOneNightsCountedTwice | src/features/dashboard/DurationChart.jsx:63-70 | a stay of 21 nights falls in two buckets |
| DurationChart.ShortStayCountedOnce | src/features/dashboard/DurationChart.jsx:120-132 | a stay of 1 to 20 nights falls in exactly one bucket |
| DurationChart.PrepareDataContents | src/features/dashboard/DurationChart.jsx:117-141 | the chart holds exactly the counted buckets with a positive count |
| DurationChart.PrepareData | src/features/dashboard/DurationChart.jsx:117-141 | no more buckets than the start table, each with a positive count |
| SignupForm.FullNameRule | src/features/authentication/SignupForm.jsx:34-36 | broken exactly when the name is empty |
| SignupForm.EmailRule | src/features/authentication/SignupForm.jsx:45-51 | passes exactly when the address contains non-space, '@', non-space, '.', non-space |
| SignupForm.GuestEmailPassesSignup | src/features/authentication/SignupForm.jsx:47-50 | every address the guest form accepts passes the sign-up pattern |
| SignupForm.WithoutAtSignNoMatch | src/features/authentication/SignupForm.jsx:47-50 | an address without '@' does not pass |
| SignupForm.PasswordRule | src/features/authentication/SignupForm.jsx:63-69 | passes exactly for at least 8 characters |
| SignupForm.PasswordConfirmRule | src/features/authentication/SignupForm.jsx:78-82 | passes exactly for a non-empty confirmation equal to the password |
| SignupForm.Errors | src/features/authentication/SignupForm.jsx:29-84 | a field is in the errors exactly when its rule is broken, with that rule's message |
| SignupForm.Submit | src/features/authentication/SignupForm.jsx:17-24 | fails exactly when a rule is broken; otherwise signs up name, email and password, without the confirmation |
| SignupForm.AdmittedUser | src/features/authentication/SignupForm.jsx:34-82 | a signed-up user has a name, a plausible email and a confirmed password of at least 8 characters |
| Text.SplitAtSeparator | src/features/cabins/useCabins.js:31 | splitting two parts joined by the separator gives the pieces of the first then those of the second |
| Text.LastSegmentOfJoin | src/services/apiCabins.js:114-118 | the last '/'-segment of a folder joined with a name without '/' is the name |
| Text.ReplaceFirstAt | src/features/bookings/BookingDetail.jsx:38 | `replace` changes the first occurrence of the pattern and nothing else |
| Text.ReplaceFirstChangesOnlyPattern | src/features/bookings/BookingDetail.jsx:38 | every changed position held the pattern and now holds the replacement |
| Text.DecimalRoundTrip | src/services/apiCabins.js:33 | a number printed in decimal reads back as itself |
| Text.CompareAntisymmetric | src/features/cabins/useCabins.js:36 | swapping two strings negates their comparison |
| Text.CompareTransitive | src/features/cabins/useCabins.js:36 | the string order is transitive |

## Left out

- Supabase and react-query are not part of this model: queries, mutations, caching, toasts and their asynchrony. The stored state is a value (`Storage`), or a `CabinStore` object, and each failure is a boolean parameter.
- `getCabins` (src/services/apiCabins.js:8-17) only fetches the table. Its result is the input of the cabin list.
- Rendering, styling and the React components' layout are left out. So are the statistics cards of the dashboard, because they are presentation.
- `formatCurrency` and `formatDistanceFromNow` are left out, because they are locale formatting.
- `Math.random` is the parameter `random`, and the current time and the time-zone offset are parameters of the date helpers.
- Local and UTC time are one clock: a date is a millisecond timestamp and a day is 86 400 000 ms.
- The booking form works on whole day numbers. The date picker yields the start of a day, and date-fns formatting to 'MM-dd-yyyy' is identified with the day number.
- `eachDayOfInterval` is empty for a reversed interval. date-fns throws there instead, which is not modelled. The same holds for the start-date check when there is no end date yet: there `eachDayOfInterval` gets an undefined end, and the model lets the check pass.
- `localeCompare` is modelled as code-point order. Collation is not modelled.
- Case conversion covers only ASCII letters.
- `statusToTagName` (the tag colour) is not part of this model.
- `PAGE_SIZE` and the project URL are parameters. src/utils/constants.js and src/services/supabase.js are not part of this model.
- Prices and numbers are integers. Fractional numbers in inputs and floating-point rounding are not modelled.
- UseGuests.ToNumber: reads only an optional sign followed by decimal digits, and the empty string. Every other string is NaN in the model, even where JavaScript's `+` reads it (surrounding white space, a fraction, an exponent, hexadecimal).
- SignupForm.PasswordRule: counts characters (Unicode scalar values), where `minLength` counts UTF-16 code units. A password of four characters outside the Basic Multilingual Plane passes in the app but not in the model.
- Helpers.GetToday: returns the timestamp that the source's `toISOString()` string denotes. The ISO string itself is not modelled.
- `createUpdateCabin` sets `isDuplicated` on the caller's object as well. The model writes the flag only into the row it returns, because the caller's copy is discarded.
- The image delete in `createUpdateCabin` and `deleteCabin` is not awaited, and its error is ignored. The model applies it at once and lets it always succeed.
- ApiCabins.CreateUpdateFailure: the rollback delete of the row after a failed upload always succeeds in the model. The code ignores that delete's error, so on a failed rollback the row stays although "not created" is thrown. The promise that a failed creation leaves the table as it was rests on this.
- A null or undefined image path passed to `deleteCabinImage` would throw in `split`. The model takes an absent path as no delete (`currentImage` is an `Option`).
- The guest form's email input is disabled in an edit session. react-hook-form then skips its rules, which the model does not capture: the email rule always applies.
- `SortCabins` stands for `Array.prototype.sort` with the code's comparator, as an insertion sort. It promises a sorted permutation. Stability and the engine's algorithm are not modelled.
- An update of an unknown cabin id is modelled as a failed write. A failed upload of a new name that the bucket already holds is modelled as an upload failure.
