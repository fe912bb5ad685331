# Gym management backend — a Dafny model of the booking core

This project models the core of a gym management system built on Express
and MongoDB. Members book seats in scheduled classes. Payments renew
memberships. Administrators, trainers and members each see their own
dashboard. The model covers the following:

- **Schemas.** The four Mongoose schemas (Member, Class, Booking, Payment),
  with their defaults, enums, required fields and the unique booking index.
- **Booking controller.** Booking with its ordered guards, cancelling, and
  the booking queries.
- **Payment controller.** Payments, with the calendar arithmetic of the
  renewal date and the payment queries.
- **Class controller.** The weekly schedule, plus class lookup, edit and
  delete.
- **Dashboards.** The admin summary, the trainer dashboard and the member
  dashboard.
- **Frontend helpers.** The status and difficulty colour helpers and the
  date formatters' empty-input guard.

Layout, one module per component:

- `common.dfy` (Common): timestamps, `Option`, the handlers' error results
  and their HTTP status codes.
- `queries.dfy` (Queries): find-one, filter, count, a stable sort under a
  total preorder, limit, and string order for "HH:MM" times.
- `calendar.dfy` (Calendar): local calendar dates and times of day. Day
  counts follow ECMA-262 (DayFromYear, MakeDay), so `setMonth`,
  `setFullYear` and `new Date(y, m, d)` normalise as JavaScript does.
- `models.dfy` (Models): the schemas as datatypes. Document creation is a
  validation function. The unique index is a predicate.
- `store.dfy` (Store): the collections as one `Store` object that the
  handlers update, and its value snapshot `State`.
- `booking_controller.dfy`, `payment_controller.dfy`,
  `class_controller.dfy`, `dashboard_controller.dfy`: one module per
  controller.
- `helpers.dfy` (Helpers): the frontend helpers.

Each handler that writes to the database is modelled twice:

- a pure step function from the old `State` to the response and the new
  `State`, about which the lemmas are proved;
- a method on the `Store` object, proved to leave exactly that new state.

getClassSchedule builds its day-keyed lists with loops, so it is modelled as
methods with loop invariants. Those methods are proved equal to a
declarative schedule function.

Conventions:

- **Ids.** Members, trainers, bookings and payments are identified by their
  position in their collection. Classes carry an id because they can be
  deleted. All ids are naturals, so a user id can equal a Trainer profile's
  position. In the source, ObjectIds of different collections never
  coincide, so that case does not arise there. The trainer-scope finding's
  counterexample uses a user id that differs from the profile's.
- **Time.** "Now" is a parameter. A timestamp is an integer count of
  milliseconds, and the calendar is local time without daylight saving.
- **Money.** Amounts are integers in minor units.
- **Errors.** Every handler failure is a `Result` error. `HttpStatus` maps
  each error to the status the handler sends.

## Model

| member | source | states |
|---|---|---|
| Common.HttpStatus | backend/controllers/bookingController.js:85-140 | 500 exactly for a server error; 403 exactly for an inactive membership or a foreign booking; 400 exactly for a full class or a duplicate; everything else is 404 |
| Models.EnumNamesRoundTrip | backend/models/Member.js:22-36 | every membership type, member status, payment status, payment method and difficulty reads back from its schema string as itself |
| Models.MemberDocument | backend/models/Member.js:4-36 | creation succeeds iff userId is given, name and phone are non-empty and any given enum string is listed; rejection is a server error; the member carries the given userId, name, phone and any given membershipType, status and joinDate, and otherwise Monthly, Active and the creation time |
| Models.ClassDocument | backend/models/Class.js:4-36 | creation succeeds iff name, trainerId and durationMinutes are given and any given difficulty is listed; the class carries the given name, trainerId, duration and schedule and any given maxCapacity, currentBookings and difficulty, and otherwise 10, 0 and Beginner; nothing ties currentBookings to maxCapacity |
| Models.BookingDocument | backend/models/Booking.js:4-26 | creation succeeds iff classId, bookingDate and a non-empty time are given; the new booking is Confirmed and carries exactly the given fields |
| Models.PaymentDocument | backend/models/Payment.js:4-31 | creation succeeds iff amount is given and the method is one of the four listed; the payment is Completed, dated at creation, with the given member, amount, method, transaction id and renewal date |
| Models.AppendUnique | backend/models/Booking.js:29-30 | appending a booking keeps the (memberId, classId, bookingDate, time) index unique iff no stored booking of any status has that key |
| Models.StatusChangeKeepsUnique | backend/models/Booking.js:29-30 | changing a booking's status keeps the index unique |
| Store.FindMemberByUser | backend/controllers/bookingController.js:83 | finds the first member whose userId matches, or reports that none does |
| Store.FindTrainerByUser | backend/controllers/dashboardController.js:151 | finds the first trainer profile whose userId matches, or reports that none does |
| Store.FindClass | backend/controllers/bookingController.js:101 | finds the class with the given id, or reports that no class has it |
| Queries.SortBySorted | backend/controllers/bookingController.js:29 | a sort by a total preorder returns its input, as a multiset, in order |
| Queries.Take | backend/controllers/dashboardController.js:205 | `.limit(n)` keeps the first n elements, or all of them when there are fewer |
| Queries.ClockStringOrder | backend/controllers/classController.js:61-63 | on zero-padded "HH:MM" strings, string order is clock order |
| Calendar.MakeDateIsMakeDay | backend/controllers/paymentController.js:86-92 | the date normalised after a month or year change lies exactly day - 1 days after the first of the target month, including days that roll over |
| Calendar.AddMonthsDay | backend/controllers/paymentController.js:86-92 | `setMonth` lands day - 1 days after the first of the target month (ECMA-262 MakeDay); the day of the month survives exactly when the target month has that day |
| Calendar.AddMonthsLater | backend/controllers/paymentController.js:86-89 | moving a date forward by one or more months gives a later day |
| Calendar.AddYearsLater | backend/controllers/paymentController.js:92 | moving a date forward by one or more years gives a later day |
| Calendar.YearsAreTwelveMonths | backend/controllers/paymentController.js:92 | `setFullYear(y + k)` on a valid date lands where `setMonth(m + 12k)` does, 29 February included |
| Calendar.LastDayOfMonth | backend/controllers/dashboardController.js:22 | `new Date(y, m + 1, 0)` is 00:00 (msOfDay 0) of a day in the same month, the day just before the first of the next month |
| BookingController.Book | backend/controllers/bookingController.js:78-146 | a refused booking leaves the store unchanged; a successful one appends exactly one Confirmed booking after the stored ones and changes no member, trainer or payment |
| BookingController.BookRejectionOrder | backend/controllers/bookingController.js:83-144 | the guards run in order: no member profile → 404; then membership not Active → 403; then class absent → 404; then class full → 400, even when the request is also a duplicate; then a rejected document → 500; then a stored key → 400 duplicate; the last two change nothing |
| BookingController.BookSuccess | backend/controllers/bookingController.js:119-128 | a booking succeeds exactly when the member is Active, the class exists with a free seat, date and a non-empty time are given and the key is not yet stored; the one booking appended is the caller's, for the requested class, date and time, Confirmed; only that class changes, gaining one seat taken |
| BookingController.CancelledBookingBlocksRebooking | backend/models/Booking.js:30 | a member whose own booking was cancelled cannot book the same class, date and time again, because the index ignores status |
| BookingController.BookKeepsValid | backend/controllers/bookingController.js:119-140 | booking keeps class ids distinct and the booking index unique |
| BookingController.BookKeepsCapacity | backend/controllers/bookingController.js:111-128 | a class within 0..maxCapacity before a booking stays within it after |
| BookingController.BookKeepsCounters | backend/controllers/bookingController.js:119-128 | if every seat count equals its class's Confirmed bookings, booking preserves that |
| BookingController.CreateBooking | backend/controllers/bookingController.js:78-146 | the handler's response and the new store are those of `Book` |
| BookingController.Cancel | backend/controllers/bookingController.js:151-194 | a refused cancel leaves the store unchanged; a successful one marks exactly that booking Cancelled, whatever its status was, gives back one seat in the first class with the booking's class id when its counter is above 0 and leaves every other class as it was, and changes no member, trainer or payment |
| BookingController.CancelAuthorization | backend/controllers/bookingController.js:153-171 | an unknown booking is 404; admins and trainers are never refused; a member with no profile gets 500 exactly; a member with a profile succeeds exactly on their own booking and is refused with 403 exactly when it is someone else's |
| BookingController.CancelKeepsCapacity | backend/controllers/bookingController.js:177-182 | at most one class changes; it has the booking's class id and loses exactly one seat from a positive counter, so every class within 0..maxCapacity stays within it |
| BookingController.CancelKeepsValid | backend/controllers/bookingController.js:174-182 | cancelling keeps class ids distinct and the booking index unique |
| BookingController.FirstCancelKeepsCounters | backend/controllers/bookingController.js:174-182 | cancelling a Confirmed booking keeps every seat count equal to its Confirmed bookings |
| BookingController.RepeatCancelBreaksCounters | backend/controllers/bookingController.js:174-182 | cancelling an already cancelled booking still gives a seat back, so that class's count drops below its Confirmed bookings |
| BookingController.CancelBooking | backend/controllers/bookingController.js:151-194 | the handler's response and the new store are those of `Cancel` |
| BookingController.OneSeatScenario | backend/controllers/bookingController.js:111-182 | in a one-seat class, a first member books, a second is turned away as full, the first cancels, then the second books, and the counter matches the Confirmed bookings |
| BookingController.FindBookings | backend/controllers/bookingController.js:27-29 | returns exactly the stored bookings the query matches, each as often as stored, newest bookingDate first |
| BookingController.GetBookingsScope | backend/controllers/bookingController.js:8-42 | a member without a profile gets 500; a member sees exactly their own bookings; a trainer sees bookings of classes whose trainerId equals their user id; an admin sees all; always newest first |
| BookingController.UpcomingOf | backend/controllers/bookingController.js:203-212 | returns exactly the member's Confirmed bookings dated now or later, each as often as stored, earliest first |
| BookingController.GetMyUpcomingBookings | backend/controllers/bookingController.js:199-225 | fails with 500 exactly when the caller has no member profile; otherwise lists that member's upcoming bookings |
| BookingController.TrainerSeesNoBookingsAsWritten | backend/controllers/bookingController.js:17-19 | a trainer whose profile id differs from their user id sees no bookings, even for a Confirmed booking of their own class |
| BookingController.TrainerProfileScopeCorrect | backend/controllers/bookingController.js:17-19 | scoped by the trainer's profile, a trainer sees exactly the bookings of classes whose trainerId is their profile; other roles are unaffected |
| BookingController.TrainerSeesBookingsByProfile | backend/controllers/bookingController.js:17-19 | with the profile scope, the trainer of that same store sees the booking of their class |
| PaymentController.Renewal | backend/controllers/paymentController.js:81-94 | the renewal is a valid moment with the payment's time of day |
| PaymentController.RenewalLater | backend/controllers/paymentController.js:81-94 | the renewal is strictly later than the payment for every membership type |
| PaymentController.RenewalDayOfMonth | backend/controllers/paymentController.js:84-93 | every plan moves the date by whole months: Monthly by 1, Quarterly by 3 and Annual by 12 |
| PaymentController.RenewalExamples | backend/controllers/paymentController.js:84-93 | 2024-01-31 Monthly → 2024-03-02; 2024-01-15 Quarterly → 2024-04-15; 2024-02-29 Annual → 2025-03-01 |
| PaymentController.Pay | backend/controllers/paymentController.js:66-119 | 404 exactly for an unknown member; 500 exactly for a known member whose request lacks the amount or a listed method; success in every other case; failures change nothing; success appends one payment and sets that member Active |
| PaymentController.PaySuccess | backend/controllers/paymentController.js:97-107 | the new payment is Completed, dated now, renewing at `Renewal` of the member's type; no other member or payment changes |
| PaymentController.PaymentReopensBooking | backend/controllers/paymentController.js:106-107 | after a successful payment the member's next booking is never refused as inactive |
| PaymentController.PayKeepsBookings | backend/controllers/paymentController.js:97-107 | a payment keeps the store's uniqueness and the seat counters |
| PaymentController.CreatePayment | backend/controllers/paymentController.js:66-119 | the handler's response and the new store are those of `Pay` |
| PaymentController.BuildPaymentQuery | backend/controllers/paymentController.js:12-18 | the status filter is set only for a non-empty status; the date range only when both ends are given |
| PaymentController.GetPayments | backend/controllers/paymentController.js:7-35 | returns exactly the matching payments, each as often as stored, newest paymentDate first |
| PaymentController.GetPaymentsUnfiltered | backend/controllers/paymentController.js:12-18 | with no status and at most one date bound, every payment is returned |
| PaymentController.GetMemberPayments | backend/controllers/paymentController.js:126 | returns exactly the member's payments, each as often as stored, newest first |
| PaymentController.ExpiryDays | backend/controllers/paymentController.js:146 | the window is 7 days when none or 0 is given, otherwise the given number |
| PaymentController.GetExpiringMemberships | backend/controllers/paymentController.js:144-171 | returns exactly the Completed payments renewing from now to now + days, earliest renewal first |
| PaymentController.NegativeDaysFindNothing | backend/controllers/paymentController.js:146-158 | a negative day count finds nothing |
| ClassController.EntrySeats | backend/controllers/classController.js:45-55 | an entry's available spots plus its taken seats equal the capacity; its id and times come from the class and the slot; for a class within its bounds the free spots lie in 0..maxCapacity |
| ClassController.PushSlots | backend/controllers/classController.js:45-56 | fails exactly when a slot's day is not a key; otherwise appends the class's entries to each day's list |
| ClassController.GroupByDay | backend/controllers/classController.js:43-58 | succeeds exactly when every slot names one of the keys; each day's list holds every class's entries for it, in stored order |
| ClassController.SortDays | backend/controllers/classController.js:61-63 | keeps the days and sorts each list by start time |
| ClassController.EmptySchedule | backend/controllers/classController.js:33-41 | exactly the seven weekday keys, each with an empty list |
| ClassController.GetClassSchedule | backend/controllers/classController.js:26-75 | with every slot's times present, succeeds exactly when every slot day is a weekday name (otherwise 500), returning the declarative schedule |
| ClassController.ScheduleShape | backend/controllers/classController.js:33-63 | the schedule has exactly the seven weekday keys, each list sorted by start time |
| ClassController.ScheduleMembers | backend/controllers/classController.js:43-58 | an entry is listed under a day exactly when some class has a slot that day producing it |
| ClassController.ScheduleTotal | backend/controllers/classController.js:43-58 | the lists of the week together hold exactly as many entries as there are slots over all classes |
| ClassController.GetClass | backend/controllers/classController.js:80-101 | returns the stored class with that id, or 404 when none has it |
| ClassController.ApplyPatch | backend/controllers/classController.js:136-139 | an edit fails exactly on an empty name or an unlisted difficulty; the id is kept, and name, trainerId, schedule, maxCapacity, currentBookings, durationMinutes and difficulty each take the given value or keep the stored one |
| ClassController.Update | backend/controllers/classController.js:125-151 | 404 exactly for an unknown id, changing nothing; for a found class, success exactly when ApplyPatch accepts the patch, and then only that class is replaced by the edited one |
| ClassController.UpdateKeepsValid | backend/controllers/classController.js:136-139 | an edit keeps ids distinct, and keeps the seat counters when it does not set currentBookings |
| ClassController.UpdateCanBreakCapacity | backend/controllers/classController.js:136-139 | an edit setting maxCapacity below the seats taken succeeds and leaves the class over capacity |
| ClassController.UpdateClass | backend/controllers/classController.js:125-151 | the handler's response and the new store are those of `Update` |
| ClassController.Delete | backend/controllers/classController.js:156-180 | 404 exactly for an unknown id, changing nothing; otherwise removes that class from the collection and changes nothing else |
| ClassController.DeleteRemovesClass | backend/controllers/classController.js:167 | after deletion no class has that id, every other class remains, ids stay distinct, and the class's bookings stay behind untouched |
| ClassController.DeleteClass | backend/controllers/classController.js:156-180 | the handler's response and the new store are those of `Delete` |
| DashboardController.TotalActiveMembers | backend/controllers/dashboardController.js:12 | counts members, 0 exactly when none is Active |
| DashboardController.ClassesToday | backend/controllers/dashboardController.js:16-18 | counts classes, 0 exactly when none has a slot on today's weekday |
| DashboardController.ClassesTodayCountsClasses | backend/controllers/dashboardController.js:16-18 | a class with two slots today counts once |
| DashboardController.AvailableSlotsProperties | backend/controllers/dashboardController.js:42-45 | free seats are summed over exactly the classes classesToday counts; 0 when there are none; never negative while every class keeps its bound |
| DashboardController.FreeSeatsBounds | backend/controllers/dashboardController.js:43-45 | over classes within their bounds, the free seats lie between 0 and the total capacity |
| DashboardController.RevenueMissesLastDayPayment | backend/controllers/dashboardController.js:21-39 | a Completed payment at noon on the month's last day is missing from the revenue as written and counted by the corrected window |
| DashboardController.WrittenWindowMissesLastDay | backend/controllers/dashboardController.js:22-27 | any moment of the month's last day after midnight is past the written end of the window, yet within the month |
| DashboardController.CorrectedWindowIsWholeMonth | backend/controllers/dashboardController.js:21-27 | the corrected window holds a moment exactly when it falls in the current calendar month |
| DashboardController.RevenueAddsMonthPayments | backend/controllers/dashboardController.js:24-39 | the corrected revenue grows by a payment's amount exactly when it is Completed and made this month; none gives 0 |
| DashboardController.GroupByClass | backend/controllers/dashboardController.js:72-83 | one group per class with a Confirmed booking, its count being that class's Confirmed bookings (at least one) |
| DashboardController.LookupClasses | backend/controllers/dashboardController.js:90-106 | each row names an existing class with its group's count; a group whose class is gone is dropped |
| DashboardController.MostBookedRanking | backend/controllers/dashboardController.js:72-107 | the top five groups (all of them when fewer classes have a Confirmed booking) are kept, most-booked first, with at least as many bookings as any group left out; every kept group whose class exists becomes a row with its class's name and true Confirmed count; at most five rows |
| DashboardController.ExpiringCountMatchesList | backend/controllers/dashboardController.js:110-119 | the summary's count equals the length of getExpiringMemberships with the default 7 days |
| DashboardController.DashboardSummary | backend/controllers/dashboardController.js:9-143 | class and member counts are bounded by the collections, and at most five most-booked classes |
| DashboardController.TrainerDashboard | backend/controllers/dashboardController.js:148-185 | 500 exactly when the caller has no trainer profile; the classes are exactly the profile's, each as often as stored; totals equal the list lengths |
| DashboardController.TrainerWindowIsToday | backend/controllers/dashboardController.js:157-164 | today 00:00 ≤ t < tomorrow 00:00 exactly when t falls on today's day number |
| DashboardController.TrainerTodayBookings | backend/controllers/dashboardController.js:157-166 | the listed bookings are exactly the Confirmed bookings dated today of a class the trainer's profile teaches, each as often as stored |
| DashboardController.NextRenewal | backend/controllers/dashboardController.js:213-216 | none exactly when the member has no payment renewing now or later; otherwise a payment of the member, of any status, with the earliest such renewal |
| DashboardController.MemberDashboard | backend/controllers/dashboardController.js:190-233 | 500 exactly when the caller has no member profile; otherwise the caller's own member record, the earliest next renewal, five upcoming bookings (fewer only when fewer exist) and three payments (likewise) |
| DashboardController.MemberDashboardLists | backend/controllers/dashboardController.js:195-210 | the upcoming bookings are the first five of getMyUpcomingBookings' list (all when fewer), none left out is earlier; the payments are the member's three newest (all when fewer) |
| Helpers.GetStatusColor | frontend/src/services/utils/helpers.js:38-50 | green exactly for Active and Completed, yellow for Suspended and Pending, red for Expired and Failed, blue for Confirmed, gray for every other string |
| Helpers.MemberStatusColor | frontend/src/services/utils/helpers.js:40-42 | the member statuses Active, Suspended and Expired are drawn green, yellow and red |
| Helpers.PaymentStatusColor | frontend/src/services/utils/helpers.js:45-47 | the payment statuses Completed, Pending and Failed are drawn green, yellow and red, the same colours as the member statuses |
| Helpers.BookingStatusColor | frontend/src/services/utils/helpers.js:43-45 | a Confirmed booking is blue, a Completed one green and a Cancelled one gray, the colour an unknown status also gets |
| Helpers.GetDifficultyColor | frontend/src/services/utils/helpers.js:52-59 | green exactly for Beginner, yellow for Intermediate, red for Advanced, gray otherwise |
| Helpers.DifficultyColorsDistinct | frontend/src/services/utils/helpers.js:52-59 | the three difficulties have three different, non-gray colours |
| Helpers.FalsyIgnoresFormatter | frontend/src/services/utils/helpers.js:3-19 | on a falsy argument (missing, empty string, 0) formatDate and formatDateTime both give '' whatever the formatter |

## Left out

- Concurrency and atomicity are not modelled. Handlers run one at a time, so
  the races between the capacity check and the seat increment, and between
  finding and saving a cancelled booking, are not captured.
- Partial failures between two writes are not modelled. Examples are a
  booking stored but its class not saved, or a payment stored but its
  member not saved. Database errors other than the duplicate key are not
  modelled either.
- Time zones, daylight saving and locale are not modelled:
  - the local calendar is a day of exactly 86 400 000 ms, so "tomorrow" and
    "next week" add whole days;
  - the weekday name from `toLocaleDateString` is a parameter;
  - `localeCompare` is modelled as code-unit order, which agrees with it on
    "HH:MM" strings.
- Date formatting (date-fns `format`, `parseISO`) and `Intl` currency
  formatting are not modelled. The formatter is a parameter, so only the
  empty-input guard is modelled; `formatCurrency` is left out.
- Each handler reads the clock once in the model. The source reads it
  several times per request: createPayment at
  backend/controllers/paymentController.js:81 and again through the
  schema default at backend/models/Payment.js:15; getExpiringMemberships
  at backend/controllers/paymentController.js:147 and 152; the summary at
  backend/controllers/dashboardController.js:15, 21-22, 110 and 115. The
  model takes all reads of one request as the same `now`, so PaySuccess's
  renewal is exactly the plan's length after the stored paymentDate only
  in the model; in the source the two can differ by the milliseconds
  between the reads.
- Amounts are integers in minor units, not floating-point numbers.
- Sorts are modelled by value with a stable insertion sort. The order
  MongoDB gives to equal keys is not modelled.
- The monthly sign-up statistics of the admin summary
  (backend/controllers/dashboardController.js:48-69) are not modelled.
  This is a `$group` by year and month with no property stated about it.
- Populate, select and the response envelope are not modelled. Results are
  plain records.
- Casting failures are not modelled: a malformed ObjectId and unparsable
  date strings in getPayments' query. Ids are naturals and dates are
  timestamps. `parseInt` of the days parameter is an optional integer.
- Explicit `null` values in a request body are not modelled. A field is
  either given or absent. Two examples:
  - `{durationMinutes: null}` in an update fails the required validator
    and answers 500;
  - `{currentBookings: null}` is stored as null.
- A payment's transactionId is optional (backend/models/Payment.js:22).
  The model stores it as a string, and the empty string stands for an
  absent transactionId. A request that sends an empty string and one that
  omits the field are therefore not told apart.
- ClassController.GetClassSchedule: slot times are always present in the
  model. The schema makes a slot's day, startTime and endTime optional
  (backend/models/Class.js:13-17). For a missing startTime, the sort at
  backend/controllers/classController.js:62 throws when the slot is the
  left operand, which gives a 500. When it is the right operand, it
  compares against the string "undefined". Neither outcome is captured.
- getStatusColor is modelled on the object's own keys. Inherited
  `Object.prototype` names such as "constructor" would return a function,
  and that is not modelled.
- memberController.js, trainerController.js, the routes, the
  authentication middleware, the database connection, the seed script and
  the rest of the frontend are not part of this model.
- DashboardController.DashboardSummary: its own contract states only
  bounds. Each figure's properties are proved by the lemmas beside the
  function that computes it. Its revenue uses the corrected month window
  (see Findings). The window as written is RevenueThisMonth.

## Findings

| source | as written | input that shows it | evidently intended | confidence | as-written member | corrected member |
|---|---|---|---|---|---|---|
| backend/controllers/bookingController.js:17-19 | a trainer's bookings are scoped by classes whose trainerId equals the trainer's user id, but trainerId holds the Trainer profile id (the trainer dashboard, dashboardController.js:154, uses the profile) | a trainer with user id 5 and profile 0 teaching class 7, which has one Confirmed booking: getBookings returns an empty list | scope by the classes of the caller's Trainer profile | not executed | BookingController.TrainerSeesNoBookingsAsWritten | BookingController.TrainerProfileScopeCorrect |
| backend/controllers/dashboardController.js:22-27 | the revenue window ends at `new Date(y, m + 1, 0)`, which is midnight at the start of the month's last day, and is compared with `$lte` | a Completed payment of 5000 at noon on 31 January 2024, with today in January 2024: revenue 0 | all of the month's Completed payments, up to the next month's first midnight | not executed | DashboardController.RevenueMissesLastDayPayment | DashboardController.CorrectedWindowIsWholeMonth |
