/** The payment handlers: createPayment's renewal arithmetic and member
    reactivation, and the three read-side payment queries. */
module PaymentController {
  import opened Common
  import opened Models
  import opened Queries
  import opened Calendar
  import opened Store
  import BookingController

  /** Payments are addressed by their position in the store. */
  type PaymentId = nat

  // ---------------------------------------------------------------------
  // Renewal arithmetic

  /** The renewal moment createPayment computes from the payment moment:
      `setMonth(+1)` for Monthly, `setMonth(+3)` for Quarterly and
      `setFullYear(+1)` for Annual, each keeping the time of day. */
  function Renewal(now: Moment, t: MembershipType): (r: Moment)
    requires ValidMoment(now)
    ensures ValidMoment(r) && r.msOfDay == now.msOfDay
  {
    match t
    case Monthly => Moment(AddMonths(now.date, 1), now.msOfDay)
    case Quarterly => Moment(AddMonths(now.date, 3), now.msOfDay)
    case Annual => Moment(AddYears(now.date, 1), now.msOfDay)
  }

  /** The renewal is strictly later than the payment for every membership type. */
  lemma RenewalLater(now: Moment, t: MembershipType)
    requires ValidMoment(now)
    ensures TimeValue(Renewal(now, t)) > TimeValue(now)
  {
    match t
    case Monthly => AddMonthsLater(now.date, 1);
    case Quarterly => AddMonthsLater(now.date, 3);
    case Annual => AddYearsLater(now.date, 1);
    TimeValueLater(now, Renewal(now, t));
  }

  /** Months each membership type buys. */
  function PlanMonths(t: MembershipType): nat {
    match t
    case Monthly => 1
    case Quarterly => 3
    case Annual => 12
  }

  /** Every plan moves the date by whole months (a year is twelve), so the
      day of the month is kept when the target month has it and otherwise
      spills into the month after (Calendar.AddMonthsDay). */
  lemma RenewalDayOfMonth(now: Moment, t: MembershipType)
    requires ValidMoment(now)
    ensures Renewal(now, t).date == AddMonths(now.date, PlanMonths(t))
  {
    if t == Annual {
      YearsAreTwelveMonths(now.date, 1);
    }
  }

  /** Monthly from 31 January 2024 lands on 2 March (February 2024 has 29
      days); Quarterly from 15 January lands on 15 April; Annual from
      29 February 2024 lands on 1 March 2025. */
  lemma RenewalExamples(ms: int)
    requires 0 <= ms < DayMs
    ensures Renewal(Moment(Date(2024, 1, 31), ms), Monthly) == Moment(Date(2024, 3, 2), ms)
    ensures Renewal(Moment(Date(2024, 1, 15), ms), Quarterly) == Moment(Date(2024, 4, 15), ms)
    ensures Renewal(Moment(Date(2024, 2, 29), ms), Annual) == Moment(Date(2025, 3, 1), ms)
  {
    assert DaysInMonth(2024, 2) == 29;
    assert AddMonths(Date(2024, 1, 31), 1) == MakeDate(2024, 1, 31) == Date(2024, 3, 2);
    assert AddMonths(Date(2024, 1, 15), 3) == MakeDate(2024, 3, 15) == Date(2024, 4, 15);
    assert DaysInMonth(2025, 2) == 28;
    assert AddYears(Date(2024, 2, 29), 1) == MakeDate(2025, 1, 29) == Date(2025, 3, 1);
  }

  // ---------------------------------------------------------------------
  // createPayment

  /** createPayment as a function of the store and the clock: an unknown
      member is 404 and changes nothing; a request the schema rejects is 500
      and changes nothing; otherwise a Completed payment dated now and
      renewing by the member's plan is stored, and the member becomes Active. */
  function Pay(s: State, req: PaymentInput, now: Moment): (out: Step<PaymentId>)
    requires ValidMoment(now)
    ensures out.result.Err? ==> out.state == s
    ensures out.result.Err? ==> out.result.error in {MemberNotFound, ServerError}
    ensures out.result == Err(MemberNotFound) <==> req.memberId >= |s.members|
    ensures out.result == Err(ServerError) <==>
      req.memberId < |s.members|
      && (req.amount.None? || req.paymentMethod.None? || ParsePaymentMethod(req.paymentMethod.value).None?)
    ensures out.result.Ok? <==>
      req.memberId < |s.members|
      && req.amount.Some? && req.paymentMethod.Some? && ParsePaymentMethod(req.paymentMethod.value).Some?
    ensures out.result.Ok? ==>
      && req.memberId < |s.members|
      && out.result.value == |s.payments|
      && |out.state.payments| == |s.payments| + 1
      && out.state.payments[..|s.payments|] == s.payments
      && out.state.members == s.members[req.memberId := s.members[req.memberId].(status := Active)]
      && out.state.classes == s.classes && out.state.bookings == s.bookings
      && out.state.trainers == s.trainers
  {
    if req.memberId >= |s.members| then Step(Err(MemberNotFound), s)
    else
      var m := s.members[req.memberId];
      var renewal := Renewal(now, m.membershipType);
      match PaymentDocument(req, TimeValue(now), TimeValue(renewal))
      case Err(e) => Step(Err(e), s)
      case Ok(p) =>
        Step(Ok(|s.payments|),
             s.(payments := s.payments + [p], members := s.members[req.memberId := m.(status := Active)]))
  }

  /** The stored payment: Completed, for the member and amount requested,
      paid now, renewing strictly later by the member's plan. */
  lemma PaySuccess(s: State, req: PaymentInput, now: Moment)
    requires ValidMoment(now)
    requires Pay(s, req, now).result.Ok?
    ensures var p := Pay(s, req, now).state.payments[|s.payments|];
      && req.amount.Some? && req.paymentMethod.Some?
      && p.memberId == req.memberId && p.amount == req.amount.value
      && PaymentMethodName(p.paymentMethod) == req.paymentMethod.value
      && p.transactionId == req.transactionId
      && p.status == PaymentStatus.Completed
      && p.paymentDate == TimeValue(now)
      && p.renewalDate == TimeValue(Renewal(now, s.members[req.memberId].membershipType))
      && p.renewalDate > p.paymentDate
  {
    RenewalLater(now, s.members[req.memberId].membershipType);
  }

  /** A payment reopens the booking gate: whatever the member's status was,
      their next booking is no longer refused as inactive. */
  lemma PaymentReopensBooking(s: State, req: PaymentInput, now: Moment, user: UserId, breq: BookingInput)
    requires ValidMoment(now)
    requires Pay(s, req, now).result.Ok?
    requires FindMemberByUser(s.members, user) == Some(req.memberId)
    ensures BookingController.Book(Pay(s, req, now).state, user, breq).result != Err(MembershipInactive)
  {
    var after := Pay(s, req, now).state;
    assert forall j :: 0 <= j < |s.members| ==> after.members[j].userId == s.members[j].userId;
  }

  /** Paying leaves the booking side of the store as it was. */
  lemma PayKeepsBookings(s: State, req: PaymentInput, now: Moment)
    requires ValidMoment(now)
    requires Valid(s) && CountersMatch(s.classes, s.bookings)
    ensures Valid(Pay(s, req, now).state)
    ensures CountersMatch(Pay(s, req, now).state.classes, Pay(s, req, now).state.bookings)
  {
  }

  /** createPayment (paymentController.js:66-119) on the live store, with
      the clock read once as `now`. */
  method CreatePayment(db: Store, req: PaymentInput, now: Moment) returns (r: Result<PaymentId>)
    requires ValidMoment(now)
    modifies db
    ensures r == Pay(old(db.Snapshot()), req, now).result
    ensures db.Snapshot() == Pay(old(db.Snapshot()), req, now).state
  {
    if req.memberId >= |db.members| {
      return Err(MemberNotFound);
    }
    var member := db.members[req.memberId];
    var renewalDate := now;
    match member.membershipType {
      case Monthly => renewalDate := Moment(AddMonths(renewalDate.date, 1), renewalDate.msOfDay);
      case Quarterly => renewalDate := Moment(AddMonths(renewalDate.date, 3), renewalDate.msOfDay);
      case Annual => renewalDate := Moment(AddYears(renewalDate.date, 1), renewalDate.msOfDay);
    }
    var payment := PaymentDocument(req, TimeValue(now), TimeValue(renewalDate));
    if payment.Err? {
      return Err(payment.error);
    }
    r := Ok(|db.payments|);
    db.payments := db.payments + [payment.value];
    member := member.(status := Active);
    db.members := db.members[req.memberId := member];
  }

  // ---------------------------------------------------------------------
  // getPayments

  /** `.sort('-paymentDate')`. */
  predicate NewestPaymentFirst(a: Payment, b: Payment) {
    a.paymentDate >= b.paymentDate
  }

  /** `.sort('renewalDate')`. */
  predicate EarliestRenewalFirst(a: Payment, b: Payment) {
    a.renewalDate <= b.renewalDate
  }

  lemma PaymentOrdersArePreorders()
    ensures TotalPreorder(NewestPaymentFirst) && TotalPreorder(EarliestRenewalFirst)
  {
  }

  /** The `query` object of getPayments: a status to match, and an
      inclusive paymentDate range. */
  datatype PaymentQuery = PaymentQuery(status: Option<string>, range: Option<(Timestamp, Timestamp)>)

  /** `if (status)` and `if (startDate && endDate)`: an empty or missing
      status sets no filter, and the range is set only when both ends are. */
  function BuildPaymentQuery(status: Option<string>, startDate: Option<Timestamp>, endDate: Option<Timestamp>): (q: PaymentQuery)
    ensures q.status.Some? <==> status.Some? && status.value != ""
    ensures q.status.Some? ==> q.status == status
    ensures q.range.Some? <==> startDate.Some? && endDate.Some?
    ensures q.range.Some? ==> q.range.value == (startDate.value, endDate.value)
  {
    var byStatus := if status.Some? && status.value != "" then PaymentQuery(status, None) else PaymentQuery(None, None);
    if startDate.Some? && endDate.Some? then byStatus.(range := Some((startDate.value, endDate.value)))
    else byStatus
  }

  /** A status string that names no enum value matches no payment. */
  predicate PaymentMatches(q: PaymentQuery, p: Payment) {
    && (q.status.Some? ==> PaymentStatusName(p.status) == q.status.value)
    && (q.range.Some? ==> q.range.value.0 <= p.paymentDate <= q.range.value.1)
  }

  /** getPayments (paymentController.js:7-35), the date strings already parsed. */
  function GetPayments(payments: seq<Payment>, status: Option<string>, startDate: Option<Timestamp>, endDate: Option<Timestamp>): (r: seq<Payment>)
    ensures SortedBy(r, NewestPaymentFirst)
    ensures forall p :: p in r <==>
      && p in payments
      && (status.Some? && status.value != "" ==> PaymentStatusName(p.status) == status.value)
      && (startDate.Some? && endDate.Some? ==> startDate.value <= p.paymentDate <= endDate.value)
    ensures forall p :: multiset(r)[p] == if p in r then multiset(payments)[p] else 0
  {
    var q := BuildPaymentQuery(status, startDate, endDate);
    PaymentOrdersArePreorders();
    SortedFilter(payments, (p: Payment) => PaymentMatches(q, p), NewestPaymentFirst);
    SortBy(Filter(payments, (p: Payment) => PaymentMatches(q, p)), NewestPaymentFirst)
  }

  /** With no status and no complete range, getPayments returns every
      payment. */
  lemma GetPaymentsUnfiltered(payments: seq<Payment>, status: Option<string>, startDate: Option<Timestamp>, endDate: Option<Timestamp>)
    requires status.None? || status == Some("")
    requires startDate.None? || endDate.None?
    ensures multiset(GetPayments(payments, status, startDate, endDate)) == multiset(payments)
  {
    var q := BuildPaymentQuery(status, startDate, endDate);
    FilterAll(payments, (p: Payment) => PaymentMatches(q, p));
  }

  /** getMemberPayments (paymentController.js:124-139): exactly that
      member's payments, newest first. */
  function GetMemberPayments(payments: seq<Payment>, memberId: MemberId): (r: seq<Payment>)
    ensures SortedBy(r, NewestPaymentFirst)
    ensures forall p :: p in r <==> p in payments && p.memberId == memberId
    ensures multiset(r) == multiset(Filter(payments, (p: Payment) => p.memberId == memberId))
  {
    PaymentOrdersArePreorders();
    SortedFilter(payments, (p: Payment) => p.memberId == memberId, NewestPaymentFirst);
    SortBy(Filter(payments, (p: Payment) => p.memberId == memberId), NewestPaymentFirst)
  }

  // ---------------------------------------------------------------------
  // getExpiringMemberships

  /** `parseInt(req.query.days) || 7`: a missing or unparsable value (NaN)
      and 0 are both falsy and give 7. */
  function ExpiryDays(days: Option<int>): (d: int)
    ensures d != 0
    ensures days.None? || days.value == 0 ==> d == 7
    ensures days.Some? && days.value != 0 ==> d == days.value
  {
    if days.None? || days.value == 0 then 7 else days.value
  }

  /** A Completed payment whose renewal falls between now and the horizon,
      both inclusive. */
  predicate RenewsWithin(p: Payment, now: Timestamp, horizon: Timestamp) {
    p.status == PaymentStatus.Completed && now <= p.renewalDate <= horizon
  }

  /** getExpiringMemberships (paymentController.js:144-171): Completed
      payments renewing from now to `days` days ahead, earliest first. */
  function GetExpiringMemberships(payments: seq<Payment>, now: Timestamp, days: Option<int>): (r: seq<Payment>)
    ensures SortedBy(r, EarliestRenewalFirst)
    ensures forall p :: p in r <==> p in payments && RenewsWithin(p, now, now + ExpiryDays(days) * DayMs)
    ensures multiset(r) == multiset(Filter(payments, (p: Payment) => RenewsWithin(p, now, now + ExpiryDays(days) * DayMs)))
  {
    PaymentOrdersArePreorders();
    SortedFilter(payments, (p: Payment) => RenewsWithin(p, now, now + ExpiryDays(days) * DayMs), EarliestRenewalFirst);
    SortBy(Filter(payments, (p: Payment) => RenewsWithin(p, now, now + ExpiryDays(days) * DayMs)), EarliestRenewalFirst)
  }

  /** A negative day count is taken as given and leaves an empty window. */
  lemma NegativeDaysFindNothing(payments: seq<Payment>, now: Timestamp, days: int)
    requires days < 0
    ensures GetExpiringMemberships(payments, now, Some(days)) == []
  {
    var r := GetExpiringMemberships(payments, now, Some(days));
    assert now + ExpiryDays(Some(days)) * DayMs < now;
    HeadIsMember(r);
  }
}
