/** The dashboard handlers: the admin summary (active members, today's
    classes and free seats, this month's revenue, the five most-booked
    classes, memberships about to renew) and the trainer and member
    dashboards. All of them only read the store; "now" and today's weekday
    name are parameters. */
module DashboardController {
  import opened Common
  import opened Models
  import opened Queries
  import opened Calendar
  import opened Store
  import BookingController
  import PaymentController

  // ---------------------------------------------------------------------
  // totalActiveMembers and classesToday

  /** `Member.countDocuments({ status: 'Active' })`. */
  function TotalActiveMembers(members: seq<Member>): (n: nat)
    ensures n <= |members|
    ensures n == 0 <==> forall i :: 0 <= i < |members| ==> members[i].status != Active
  {
    Count(members, (m: Member) => m.status == Active)
  }

  /** `{ 'schedule.day': today }` matches a class having at least one slot on that day. */
  predicate HasSlotOn(c: GymClass, day: string) {
    exists j :: 0 <= j < |c.schedule| && c.schedule[j].day == day
  }

  /** `Class.countDocuments({ 'schedule.day': today })`: classes, not slots. */
  function ClassesToday(classes: seq<GymClass>, today: string): (n: nat)
    ensures n <= |classes|
    ensures n == 0 <==> forall i :: 0 <= i < |classes| ==> !HasSlotOn(classes[i], today)
  {
    Count(classes, (c: GymClass) => HasSlotOn(c, today))
  }

  /** A class with two slots today counts once. */
  lemma ClassesTodayCountsClasses()
    ensures ClassesToday([GymClass(1, "Spin", 0, [Slot("Monday", "07:00", "08:00"), Slot("Monday", "18:00", "19:00")],
                                   10, 0, 60, Beginner)], "Monday") == 1
  {
    var c := GymClass(1, "Spin", 0, [Slot("Monday", "07:00", "08:00"), Slot("Monday", "18:00", "19:00")], 10, 0, 60, Beginner);
    assert c.schedule[0].day == "Monday";
    assert HasSlotOn(c, "Monday");
    assert [c][1..] == [];
  }

  // ---------------------------------------------------------------------
  // availableSlots

  /** `reduce((sum, cls) => sum + (cls.maxCapacity - cls.currentBookings), 0)`. */
  function FreeSeats(classes: seq<GymClass>): int {
    if classes == [] then 0
    else
      var last := classes[|classes| - 1];
      FreeSeats(classes[..|classes| - 1]) + (last.maxCapacity - last.currentBookings)
  }

  /** Free seats over the classes that have a slot today. */
  function AvailableSlots(classes: seq<GymClass>, today: string): int {
    FreeSeats(Filter(classes, (c: GymClass) => HasSlotOn(c, today)))
  }

  /** Classes within their bounds have between none and all of their seats
      free in total. */
  lemma {:induction false} FreeSeatsBounds(classes: seq<GymClass>)
    requires forall i :: 0 <= i < |classes| ==> WithinCapacity(classes[i])
    ensures 0 <= FreeSeats(classes) <= TotalCapacity(classes)
  {
    if classes != [] {
      FreeSeatsBounds(classes[..|classes| - 1]);
    }
  }

  function TotalCapacity(classes: seq<GymClass>): int {
    if classes == [] then 0
    else TotalCapacity(classes[..|classes| - 1]) + classes[|classes| - 1].maxCapacity
  }

  /** availableSlots is 0 when no class meets today, and never negative
      while every class keeps its capacity bound; it sums over exactly the
      classes classesToday counts. */
  lemma AvailableSlotsProperties(classes: seq<GymClass>, today: string)
    ensures ClassesToday(classes, today) == |Filter(classes, (c: GymClass) => HasSlotOn(c, today))|
    ensures ClassesToday(classes, today) == 0 ==> AvailableSlots(classes, today) == 0
    ensures (forall i :: 0 <= i < |classes| ==> WithinCapacity(classes[i])) ==> AvailableSlots(classes, today) >= 0
  {
    var f := (c: GymClass) => HasSlotOn(c, today);
    CountIsFilterLength(classes, f);
    var today_ := Filter(classes, f);
    if forall i :: 0 <= i < |classes| ==> WithinCapacity(classes[i]) {
      forall i | 0 <= i < |today_| ensures WithinCapacity(today_[i]) {
        assert today_[i] in classes;
      }
      FreeSeatsBounds(today_);
    }
  }

  // ---------------------------------------------------------------------
  // revenueThisMonth

  /** Sum of the amounts, `$sum: '$amount'`. */
  function SumAmounts(payments: seq<Payment>): int {
    if payments == [] then 0 else payments[0].amount + SumAmounts(payments[1..])
  }

  predicate PaidBetween(p: Payment, lo: Timestamp, hi: Timestamp) {
    p.status == PaymentStatus.Completed && lo <= p.paymentDate <= hi
  }

  /** As written: Completed payments from the first of the month at 00:00 up
      to `new Date(y, m + 1, 0)`, which is 00:00 of the month's last day;
      no matching payment gives no group and a revenue of 0. */
  function RevenueThisMonth(payments: seq<Payment>, today: Date): int
    requires 1 <= today.month <= 12
  {
    var lo, hi := TimeValue(FirstOfMonth(today)), TimeValue(LastDayOfMonth(today));
    var matched := Filter(payments, (p: Payment) => PaidBetween(p, lo, hi));
    if |matched| > 0 then SumAmounts(matched) else 0
  }

  predicate PaidWithinMonth(p: Payment, lo: Timestamp, next: Timestamp) {
    p.status == PaymentStatus.Completed && lo <= p.paymentDate < next
  }

  /** Corrected: every Completed payment made before midnight that starts
      the next month. */
  function RevenueThisMonthCorrected(payments: seq<Payment>, today: Date): int
    requires 1 <= today.month <= 12
  {
    var lo, next := TimeValue(FirstOfMonth(today)), TimeValue(StartOfNextMonth(today));
    var matched := Filter(payments, (p: Payment) => PaidWithinMonth(p, lo, next));
    if |matched| > 0 then SumAmounts(matched) else 0
  }

  /** The corrected revenue, payment by payment: no payment gives 0, and a
      payment adds its amount exactly when it is Completed and made in the
      current calendar month. */
  lemma RevenueAddsMonthPayments(p: Payment, payments: seq<Payment>, today: Date, t: Moment)
    requires 1 <= today.month <= 12 && ValidMoment(t) && p.paymentDate == TimeValue(t)
    ensures RevenueThisMonthCorrected([p] + payments, today)
         == (if p.status == PaymentStatus.Completed && t.date.year == today.year && t.date.month == today.month
             then p.amount else 0)
            + RevenueThisMonthCorrected(payments, today)
    ensures RevenueThisMonthCorrected([], today) == 0
  {
    var lo, next := TimeValue(FirstOfMonth(today)), TimeValue(StartOfNextMonth(today));
    var f := (x: Payment) => PaidWithinMonth(x, lo, next);
    assert Filter([], f) == [];
    CorrectedWindowIsWholeMonth(today, t);
    assert ([p] + payments)[0] == p && ([p] + payments)[1..] == payments;
    if f(p) {
      assert Filter([p] + payments, f) == [p] + Filter(payments, f);
      assert ([p] + Filter(payments, f))[1..] == Filter(payments, f);
      assert SumAmounts([p] + Filter(payments, f)) == p.amount + SumAmounts(Filter(payments, f));
    } else {
      assert Filter([p] + payments, f) == Filter(payments, f);
    }
  }

  /** The corrected window holds exactly the moments of the calendar month. */
  lemma CorrectedWindowIsWholeMonth(today: Date, t: Moment)
    requires 1 <= today.month <= 12 && ValidMoment(t)
    ensures TimeValue(FirstOfMonth(today)) <= TimeValue(t) < TimeValue(StartOfNextMonth(today))
            <==> t.date.year == today.year && t.date.month == today.month
  {
    var y, m := today.year, today.month;
    MonthStartStep(y, m);
    var first := MonthStart(y, m);
    var next := first + DaysInMonth(y, m);
    assert TimeValue(FirstOfMonth(today)) == first * DayMs;
    assert TimeValue(StartOfNextMonth(today)) == next * DayMs;
    var dn := DayNumber(t.date);
    if MonthOrdinal(t.date.year, t.date.month) < MonthOrdinal(y, m) {
      MonthStartIncreasing(t.date.year, t.date.month, y, m);
      assert dn < first;
      assert TimeValue(t) < first * DayMs;
    } else if MonthOrdinal(t.date.year, t.date.month) > MonthOrdinal(y, m) {
      MonthStartIncreasing(y, m, t.date.year, t.date.month);
      assert dn >= next;
      assert TimeValue(t) >= next * DayMs;
    } else {
      assert t.date.year == y && t.date.month == m;
      assert first <= dn < next;
      assert first * DayMs <= TimeValue(t) < next * DayMs;
    }
  }

  /** What the written window loses: a moment on the month's last day after
      midnight is outside it, though inside the corrected window. */
  lemma WrittenWindowMissesLastDay(today: Date, t: Moment)
    requires 1 <= today.month <= 12 && ValidMoment(t)
    requires t.date == Date(today.year, today.month, DaysInMonth(today.year, today.month)) && t.msOfDay > 0
    ensures TimeValue(t) > TimeValue(LastDayOfMonth(today))
    ensures TimeValue(FirstOfMonth(today)) <= TimeValue(t) < TimeValue(StartOfNextMonth(today))
  {
    CorrectedWindowIsWholeMonth(today, t);
  }

  /** A 50.00 payment at noon on 31 January 2024 is missing from January's
      revenue as written, and counted once the window is corrected. */
  lemma RevenueMissesLastDayPayment()
    ensures var noon := TimeValue(Moment(Date(2024, 1, 31), 12 * 3_600_000));
      var payments := [Payment(0, 5000, noon, Cash, "t1", PaymentStatus.Completed, noon + 30 * DayMs)];
      && RevenueThisMonth(payments, Date(2024, 1, 15)) == 0
      && RevenueThisMonthCorrected(payments, Date(2024, 1, 15)) == 5000
  {
    var today := Date(2024, 1, 15);
    var t := Moment(Date(2024, 1, 31), 12 * 3_600_000);
    var noon := TimeValue(t);
    var p := Payment(0, 5000, noon, Cash, "t1", PaymentStatus.Completed, noon + 30 * DayMs);
    WrittenWindowMissesLastDay(today, t);
    var lo, hi := TimeValue(FirstOfMonth(today)), TimeValue(LastDayOfMonth(today));
    var next := TimeValue(StartOfNextMonth(today));
    assert !PaidBetween(p, lo, hi);
    assert PaidWithinMonth(p, lo, next);
    FilterNone([p], (x: Payment) => PaidBetween(x, lo, hi));
    FilterAll([p], (x: Payment) => PaidWithinMonth(x, lo, next));
    assert SumAmounts([p]) == 5000;
  }

  // ---------------------------------------------------------------------
  // mostBookedClasses

  /** One `$group` output: a class id and its number of Confirmed bookings. */
  datatype Group = Group(classId: ClassId, bookingCount: nat)

  /** One output row after `$lookup`, `$unwind` and `$project`. */
  datatype RankedClass = RankedClass(classId: ClassId, className: string, bookingCount: nat)

  /** The class ids having a Confirmed booking, each once, in order of first occurrence. */
  function ConfirmedClassIds(bookings: seq<Booking>): (ids: seq<ClassId>)
    ensures forall i, j :: 0 <= i < j < |ids| ==> ids[i] != ids[j]
    ensures forall id :: id in ids <==> exists k :: 0 <= k < |bookings| && IsConfirmedFor(bookings[k], id)
  {
    if bookings == [] then []
    else
      var init, last := bookings[..|bookings| - 1], bookings[|bookings| - 1];
      var ids := ConfirmedClassIds(init);
      assert forall k :: 0 <= k < |init| ==> init[k] == bookings[k];
      if last.status == Confirmed && last.classId !in ids then ids + [last.classId] else ids
  }

  /** `$match: { status: 'Confirmed' }` then `$group` by classId. */
  function GroupByClass(bookings: seq<Booking>): (groups: seq<Group>)
    ensures |groups| == |ConfirmedClassIds(bookings)|
    ensures forall i :: 0 <= i < |groups| ==>
      groups[i].classId == ConfirmedClassIds(bookings)[i]
      && groups[i].bookingCount == CountConfirmed(bookings, groups[i].classId)
      && groups[i].bookingCount > 0
  {
    var ids := ConfirmedClassIds(bookings);
    forall i | 0 <= i < |ids| ensures CountConfirmed(bookings, ids[i]) > 0 {
      assert ids[i] in ids;
    }
    seq(|ids|, i requires 0 <= i < |ids| => Group(ids[i], CountConfirmed(bookings, ids[i])))
  }

  /** `$sort: { bookingCount: -1 }`. */
  predicate MoreBooked(a: Group, b: Group) {
    a.bookingCount >= b.bookingCount
  }

  predicate RankedMoreBooked(a: RankedClass, b: RankedClass) {
    a.bookingCount >= b.bookingCount
  }

  /** `$lookup` + `$unwind`: a group whose class no longer exists is dropped. */
  function LookupClasses(groups: seq<Group>, classes: seq<GymClass>): (r: seq<RankedClass>)
    ensures |r| <= |groups|
    ensures forall x :: x in r ==>
      (exists g :: g in groups && g.classId == x.classId && g.bookingCount == x.bookingCount)
      && FindClass(classes, x.classId).Some?
      && x.className == classes[FindClass(classes, x.classId).value].name
    ensures forall g :: g in groups && FindClass(classes, g.classId).Some? ==>
      RankedClass(g.classId, classes[FindClass(classes, g.classId).value].name, g.bookingCount) in r
  {
    if groups == [] then []
    else
      var rest := LookupClasses(groups[1..], classes);
      assert forall g :: g in groups[1..] ==> g in groups;
      match FindClass(classes, groups[0].classId)
      case None => rest
      case Some(k) => [RankedClass(groups[0].classId, classes[k].name, groups[0].bookingCount)] + rest
  }

  lemma {:induction false} LookupKeepsOrder(groups: seq<Group>, classes: seq<GymClass>)
    requires SortedBy(groups, MoreBooked)
    ensures SortedBy(LookupClasses(groups, classes), RankedMoreBooked)
  {
    if groups != [] {
      LookupKeepsOrder(groups[1..], classes);
      var rest := LookupClasses(groups[1..], classes);
      forall x | x in rest ensures groups[0].bookingCount >= x.bookingCount {
        var g :| g in groups[1..] && g.classId == x.classId && g.bookingCount == x.bookingCount;
        var j :| 0 <= j < |groups[1..]| && groups[1..][j] == g;
        assert MoreBooked(groups[0], groups[j + 1]);
      }
    }
  }

  /** The mostBookedClasses pipeline: group, sort by count descending, keep
      five, then look up each class. */
  function MostBookedClasses(bookings: seq<Booking>, classes: seq<GymClass>): seq<RankedClass> {
    LookupClasses(Take(SortBy(GroupByClass(bookings), MoreBooked), 5), classes)
  }

  lemma MoreBookedIsTotalPreorder()
    ensures TotalPreorder(MoreBooked)
  {
  }

  /** `$group` then `$sort`: the same groups, most-booked first, each
      holding its class's Confirmed count. */
  lemma RankedGroups(bookings: seq<Booking>)
    ensures var ranked := SortBy(GroupByClass(bookings), MoreBooked);
      && SortedBy(ranked, MoreBooked)
      && multiset(ranked) == multiset(GroupByClass(bookings))
      && (forall g :: g in ranked ==> g.bookingCount == CountConfirmed(bookings, g.classId) && g.bookingCount > 0)
  {
    var groups := GroupByClass(bookings);
    MoreBookedIsTotalPreorder();
    SortBySorted(groups, MoreBooked);
    var ranked := SortBy(groups, MoreBooked);
    forall g | g in ranked
      ensures g.bookingCount == CountConfirmed(bookings, g.classId) && g.bookingCount > 0
    {
      assert g in multiset(groups);
      var i :| 0 <= i < |groups| && groups[i] == g;
    }
  }

  /** At most five rows, most-booked first, each naming an existing class
      with its true Confirmed count; the five groups kept have at least as
      many bookings as every group left out. A kept group whose class has
      been deleted still takes one of the five places. */
  lemma MostBookedRanking(bookings: seq<Booking>, classes: seq<GymClass>)
    ensures var r := MostBookedClasses(bookings, classes);
      && |r| <= 5
      && SortedBy(r, RankedMoreBooked)
      && (forall x :: x in r ==>
            && x.bookingCount == CountConfirmed(bookings, x.classId) && x.bookingCount > 0
            && FindClass(classes, x.classId).Some?
            && x.className == classes[FindClass(classes, x.classId).value].name)
    ensures var ranked := SortBy(GroupByClass(bookings), MoreBooked);
      var top := Take(ranked, 5);
      && |ranked| == |ConfirmedClassIds(bookings)|
      && |top| == (if |ranked| <= 5 then |ranked| else 5)
      && top == ranked[..|top|]
      && (forall g :: g in top && FindClass(classes, g.classId).Some? ==>
            RankedClass(g.classId, classes[FindClass(classes, g.classId).value].name, g.bookingCount)
              in MostBookedClasses(bookings, classes))
      && (forall i, j :: 0 <= i < |top| <= j < |ranked| ==> ranked[i].bookingCount >= ranked[j].bookingCount)
      && multiset(ranked) == multiset(GroupByClass(bookings))
  {
    RankedGroups(bookings);
    var ranked := SortBy(GroupByClass(bookings), MoreBooked);
    var top := Take(ranked, 5);
    TakeSorted(ranked, 5, MoreBooked);
    LookupKeepsOrder(top, classes);
    forall x | x in MostBookedClasses(bookings, classes)
      ensures x.bookingCount == CountConfirmed(bookings, x.classId) && x.bookingCount > 0
    {
      var g :| g in top && g.classId == x.classId && g.bookingCount == x.bookingCount;
      assert g in ranked;
    }
  }

  // ---------------------------------------------------------------------
  // expiringMemberships

  /** `Payment.countDocuments(...)` over the next seven days. */
  function ExpiringCount(payments: seq<Payment>, now: Timestamp): nat {
    Count(payments, (p: Payment) => PaymentController.RenewsWithin(p, now, now + 7 * DayMs))
  }

  /** The summary's count agrees with the list getExpiringMemberships
      returns for the default seven days. */
  lemma ExpiringCountMatchesList(payments: seq<Payment>, now: Timestamp)
    ensures ExpiringCount(payments, now) == |PaymentController.GetExpiringMemberships(payments, now, None)|
  {
    var f := (p: Payment) => PaymentController.RenewsWithin(p, now, now + 7 * DayMs);
    CountIsFilterLength(payments, f);
    var r := PaymentController.GetExpiringMemberships(payments, now, None);
    assert |multiset(r)| == |multiset(Filter(payments, f))|;
  }

  // ---------------------------------------------------------------------
  // The summary

  datatype Summary = Summary(
    totalActiveMembers: nat,
    classesToday: nat,
    revenueThisMonth: int,
    availableSlots: int,
    expiringMemberships: nat,
    mostBookedClasses: seq<RankedClass>)

  /** getDashboardSummary, every clock read taken as the one moment `now`,
      whose weekday name is `weekday`. Revenue uses the corrected month
      window. */
  function DashboardSummary(s: State, now: Moment, weekday: string): (r: Summary)
    requires 1 <= now.date.month <= 12
    ensures r.classesToday <= |s.classes| && r.totalActiveMembers <= |s.members|
    ensures |r.mostBookedClasses| <= 5
  {
    MostBookedRanking(s.bookings, s.classes);
    Summary(TotalActiveMembers(s.members), ClassesToday(s.classes, weekday),
            RevenueThisMonthCorrected(s.payments, now.date), AvailableSlots(s.classes, weekday),
            ExpiringCount(s.payments, TimeValue(now)), MostBookedClasses(s.bookings, s.classes))
  }

  // ---------------------------------------------------------------------
  // getTrainerDashboard

  datatype TrainerView = TrainerView(totalClasses: nat, todayBookings: nat, classes: seq<GymClass>, bookings: seq<Booking>)

  /** A Confirmed booking of one of `ids` dated from today's midnight to
      before tomorrow's. */
  predicate BookedToday(b: Booking, ids: seq<ClassId>, midnight: Timestamp) {
    b.classId in ids && midnight <= b.bookingDate < midnight + DayMs && b.status == Confirmed
  }

  /** getTrainerDashboard (dashboardController.js:148-185): the caller's
      Trainer profile (none: `trainer._id` throws), its classes, and today's
      Confirmed bookings of them. */
  function TrainerDashboard(s: State, user: UserId, now: Moment): (r: Result<TrainerView>)
    requires 1 <= now.date.month <= 12
    ensures r.Err? <==> FindTrainerByUser(s.trainers, user).None?
    ensures r.Err? ==> r.error == ServerError
    ensures r.Ok? ==> r.value.totalClasses == |r.value.classes| && r.value.todayBookings == |r.value.bookings|
    ensures r.Ok? ==> var t := FindTrainerByUser(s.trainers, user).value;
      forall c :: c in r.value.classes <==> c in s.classes && c.trainerId == t
    ensures r.Ok? ==> var t := FindTrainerByUser(s.trainers, user).value;
      forall c :: multiset(r.value.classes)[c] == if c.trainerId == t then multiset(s.classes)[c] else 0
  {
    match FindTrainerByUser(s.trainers, user)
    case None => Err(ServerError)
    case Some(t) =>
      var mine := Filter(s.classes, (c: GymClass) => c.trainerId == t);
      var midnight := TimeValue(Moment(now.date, 0));
      var todays := Filter(s.bookings, (b: Booking) => BookedToday(b, BookingController.IdsOf(mine), midnight));
      Ok(TrainerView(|mine|, |todays|, mine, todays))
  }

  /** The trainer's "today" is exactly the calendar day of `now`: a booking
      is in the window when its date falls on that day number. */
  lemma TrainerWindowIsToday(now: Moment, t: Timestamp)
    requires 1 <= now.date.month <= 12
    ensures var midnight := TimeValue(Moment(now.date, 0));
      midnight <= t < midnight + DayMs <==> t / DayMs == DayNumber(now.date)
  {
    var dn := DayNumber(now.date);
    var midnight := TimeValue(Moment(now.date, 0));
    assert midnight == dn * DayMs;
    if dn * DayMs <= t < dn * DayMs + DayMs {
      assert t - dn * DayMs < DayMs;
      assert t == dn * DayMs + (t - dn * DayMs);
    }
  }

  /** A Confirmed booking dated on the calendar day of `now` of a class
      that Trainer profile `t` teaches. */
  predicate TaughtToday(s: State, t: TrainerId, now: Moment, b: Booking)
    requires 1 <= now.date.month <= 12
  {
    && b.status == Confirmed
    && b.bookingDate / DayMs == DayNumber(now.date)
    && exists c :: c in s.classes && c.trainerId == t && c.id == b.classId
  }

  /** Today's bookings are the Confirmed bookings of the trainer's classes
      dated on today's calendar day, each as often as it is stored. */
  lemma TrainerTodayBookings(s: State, user: UserId, now: Moment)
    requires 1 <= now.date.month <= 12
    requires TrainerDashboard(s, user, now).Ok?
    ensures var t := FindTrainerByUser(s.trainers, user).value;
      forall b :: b in TrainerDashboard(s, user, now).value.bookings <==> b in s.bookings && TaughtToday(s, t, now, b)
    ensures var t := FindTrainerByUser(s.trainers, user).value;
      forall b :: multiset(TrainerDashboard(s, user, now).value.bookings)[b]
                  == if TaughtToday(s, t, now, b) then multiset(s.bookings)[b] else 0
  {
    var t := FindTrainerByUser(s.trainers, user).value;
    forall b: Booking
      ensures b.classId in BookingController.TaughtIds(s.classes, t)
              <==> exists c :: c in s.classes && c.id == b.classId && c.trainerId == t
    {
      BookingController.TaughtIdsMembers(s.classes, t, b.classId);
    }
    forall b: Booking ensures
      var midnight := TimeValue(Moment(now.date, 0));
      midnight <= b.bookingDate < midnight + DayMs <==> b.bookingDate / DayMs == DayNumber(now.date)
    {
      TrainerWindowIsToday(now, b.bookingDate);
    }
  }

  // ---------------------------------------------------------------------
  // getMemberDashboard

  datatype MemberView = MemberView(
    memberInfo: Member,
    upcomingBookings: seq<Booking>,
    recentPayments: seq<Payment>,
    nextRenewal: Option<Payment>)

  /** `Payment.findOne({ memberId, renewalDate: { $gte: now } }).sort('renewalDate')`:
      any status, the earliest renewal first. */
  function NextRenewal(payments: seq<Payment>, m: MemberId, now: Timestamp): (r: Option<Payment>)
    ensures r.None? <==> forall p :: p in payments ==> !(p.memberId == m && p.renewalDate >= now)
    ensures r.Some? ==> r.value in payments && r.value.memberId == m && r.value.renewalDate >= now
    ensures r.Some? ==> forall p :: p in payments && p.memberId == m && p.renewalDate >= now
                                    ==> r.value.renewalDate <= p.renewalDate
  {
    var found := Filter(payments, (p: Payment) => p.memberId == m && p.renewalDate >= now);
    PaymentController.PaymentOrdersArePreorders();
    SortBySorted(found, PaymentController.EarliestRenewalFirst);
    var sorted := SortBy(found, PaymentController.EarliestRenewalFirst);
    assert forall p :: p in sorted <==> p in found by {
      assert forall p :: p in sorted <==> p in multiset(sorted);
      assert forall p :: p in found <==> p in multiset(found);
    }
    if sorted == [] then None
    else
      assert sorted[0] in sorted;
      Some(sorted[0])
  }

  /** getMemberDashboard (dashboardController.js:190-233): the caller's
      profile (none: `member._id` throws), their next five upcoming bookings,
      last three payments and next renewal. */
  function MemberDashboard(s: State, user: UserId, now: Timestamp): (r: Result<MemberView>)
    ensures r.Err? <==> FindMemberByUser(s.members, user).None?
    ensures r.Err? ==> r.error == ServerError
    ensures r.Ok? ==> var m := FindMemberByUser(s.members, user).value;
      && r.value.memberInfo == s.members[m]
      && r.value.nextRenewal == NextRenewal(s.payments, m, now)
      && (var upcoming := BookingController.UpcomingOf(s.bookings, m, now);
          |r.value.upcomingBookings| == if |upcoming| <= 5 then |upcoming| else 5)
      && (var mine := PaymentController.GetMemberPayments(s.payments, m);
          |r.value.recentPayments| == if |mine| <= 3 then |mine| else 3)
  {
    match FindMemberByUser(s.members, user)
    case None => Err(ServerError)
    case Some(m) =>
      Ok(MemberView(s.members[m],
                    Take(BookingController.UpcomingOf(s.bookings, m, now), 5),
                    Take(PaymentController.GetMemberPayments(s.payments, m), 3),
                    NextRenewal(s.payments, m, now)))
  }

  /** The member dashboard's upcoming list is the first five of what
      getMyUpcomingBookings lists, and no booking left out comes earlier; its
      payments are the three newest of the member's payments. */
  lemma MemberDashboardLists(s: State, user: UserId, now: Timestamp)
    requires MemberDashboard(s, user, now).Ok?
    ensures var v := MemberDashboard(s, user, now).value;
      var all := BookingController.GetMyUpcomingBookings(s, user, now).value;
      && |v.upcomingBookings| == (if |all| <= 5 then |all| else 5)
      && v.upcomingBookings == all[..|v.upcomingBookings|]
      && (forall i, j :: 0 <= i < |v.upcomingBookings| <= j < |all| ==> all[i].bookingDate <= all[j].bookingDate)
    ensures var v := MemberDashboard(s, user, now).value;
      var m := FindMemberByUser(s.members, user).value;
      var mine := PaymentController.GetMemberPayments(s.payments, m);
      && |v.recentPayments| == (if |mine| <= 3 then |mine| else 3)
      && v.recentPayments == mine[..|v.recentPayments|]
      && (forall i, j :: 0 <= i < |v.recentPayments| <= j < |mine| ==> mine[i].paymentDate >= mine[j].paymentDate)
  {
  }
}
