/** The booking handlers: createBooking's admission chain, cancelBooking's
    seat release, and the two booking queries. Each state-changing handler is
    a method on the `Store` object, proved equal to a step function on
    `State` about which the seat-accounting lemmas are stated. */
module BookingController {
  import opened Common
  import opened Models
  import opened Queries
  import opened Store

  // ---------------------------------------------------------------------
  // createBooking

  /** `Class.findById(classId)` for the class named in the request body. */
  function RequestedClass(s: State, req: BookingInput): (r: Option<nat>)
    ensures r.Some? ==> req.classId.Some? && r.value < |s.classes| && s.classes[r.value].id == req.classId.value
    ensures r.None? && req.classId.Some? ==> forall j :: 0 <= j < |s.classes| ==> s.classes[j].id != req.classId.value
  {
    match req.classId
    case None => None
    case Some(id) => FindClass(s.classes, id)
  }

  /** createBooking as a function of the store: member profile, membership
      status, class, capacity, schema validation and the unique index, in
      that order; only a request passing all six is stored, together with
      one more seat taken in its class. */
  function Book(s: State, user: UserId, req: BookingInput): (out: Step<BookingId>)
    ensures out.result.Err? ==> out.state == s
    ensures out.result.Ok? ==>
      && out.result.value == |s.bookings|
      && |out.state.bookings| == |s.bookings| + 1
      && out.state.bookings[..|s.bookings|] == s.bookings
      && out.state.bookings[|s.bookings|].status == Confirmed
      && |out.state.classes| == |s.classes|
      && out.state.members == s.members && out.state.trainers == s.trainers
      && out.state.payments == s.payments
  {
    match FindMemberByUser(s.members, user)
    case None => Step(Err(MemberNotFound), s)
    case Some(m) =>
      if s.members[m].status != Active then Step(Err(MembershipInactive), s)
      else match RequestedClass(s, req)
        case None => Step(Err(ClassNotFound), s)
        case Some(k) =>
          var c := s.classes[k];
          if c.currentBookings >= c.maxCapacity then Step(Err(ClassFull), s)
          else match BookingDocument(m, req)
            case Err(e) => Step(Err(e), s)
            case Ok(b) =>
              if HasKey(s.bookings, KeyOf(b)) then Step(Err(Duplicate), s)
              else
                var taken := c.(currentBookings := c.currentBookings + 1);
                Step(Ok(|s.bookings|), s.(bookings := s.bookings + [b], classes := s.classes[k := taken]))
  }

  /** The rejections come in a fixed order, each decided by its own check
      alone; a full class is reported as full even when the request is also
      a duplicate, because the capacity check runs before the insert. */
  lemma BookRejectionOrder(s: State, user: UserId, req: BookingInput)
    ensures FindMemberByUser(s.members, user).None? ==> Book(s, user, req).result == Err(MemberNotFound)
    ensures var m := FindMemberByUser(s.members, user);
      (m.Some? && s.members[m.value].status != Active) ==> Book(s, user, req).result == Err(MembershipInactive)
    ensures var m := FindMemberByUser(s.members, user);
      (m.Some? && s.members[m.value].status == Active && RequestedClass(s, req).None?)
      ==> Book(s, user, req).result == Err(ClassNotFound)
    ensures var m, k := FindMemberByUser(s.members, user), RequestedClass(s, req);
      (m.Some? && s.members[m.value].status == Active && k.Some?
       && s.classes[k.value].currentBookings >= s.classes[k.value].maxCapacity)
      ==> Book(s, user, req).result == Err(ClassFull)
    ensures var m, k := FindMemberByUser(s.members, user), RequestedClass(s, req);
      (m.Some? && s.members[m.value].status == Active && k.Some?
       && s.classes[k.value].currentBookings < s.classes[k.value].maxCapacity
       && BookingDocument(m.value, req).Err?)
      ==> Book(s, user, req) == Step(Err(ServerError), s)
    ensures var m, k := FindMemberByUser(s.members, user), RequestedClass(s, req);
      (m.Some? && s.members[m.value].status == Active && k.Some?
       && s.classes[k.value].currentBookings < s.classes[k.value].maxCapacity
       && BookingDocument(m.value, req).Ok? && HasKey(s.bookings, KeyOf(BookingDocument(m.value, req).value)))
      ==> Book(s, user, req) == Step(Err(Duplicate), s)
  {
  }

  /** A booking succeeds exactly when the caller has a profile with an
      Active membership, the class exists and has a free seat, the date and
      a non-empty time are given, and that (member, class, date, time) is
      not stored yet; it then stores exactly that booking as Confirmed and
      takes one seat in that class only. */
  lemma BookSuccess(s: State, user: UserId, req: BookingInput)
    ensures var m, k := FindMemberByUser(s.members, user), RequestedClass(s, req);
      Book(s, user, req).result.Ok? <==>
        && m.Some? && s.members[m.value].status == Active
        && k.Some? && s.classes[k.value].currentBookings < s.classes[k.value].maxCapacity
        && req.bookingDate.Some? && req.time.Some? && req.time.value != ""
        && !HasKey(s.bookings, KeyOf(Booking(m.value, req.classId.value, req.bookingDate.value, req.time.value, Confirmed)))
    ensures var m, k := FindMemberByUser(s.members, user), RequestedClass(s, req);
      Book(s, user, req).result.Ok? ==>
      && m.Some? && s.members[m.value].status == Active
      && k.Some? && s.classes[k.value].currentBookings < s.classes[k.value].maxCapacity
      && req.bookingDate.Some? && req.time.Some?
      && var b := Booking(m.value, req.classId.value, req.bookingDate.value, req.time.value, Confirmed);
         && !HasKey(s.bookings, KeyOf(b))
         && Book(s, user, req).state.bookings == s.bookings + [b]
         && Book(s, user, req).state.classes
            == s.classes[k.value := s.classes[k.value].(currentBookings := s.classes[k.value].currentBookings + 1)]
  {
  }

  /** The unique index has no status condition: a cancelled booking still
      holds its (member, class, date, time), so the member cannot book that
      slot again. */
  lemma CancelledBookingBlocksRebooking(s: State, user: UserId, req: BookingInput, i: nat)
    requires i < |s.bookings| && s.bookings[i].status == Cancelled
    requires FindMemberByUser(s.members, user) == Some(s.bookings[i].memberId)
    requires req == BookingInput(Some(s.bookings[i].classId), Some(s.bookings[i].bookingDate), Some(s.bookings[i].time))
    requires s.bookings[i].time != ""
    ensures Book(s, user, req).result.Err?
    ensures Book(s, user, req).result.error !in {ClassNotFound, ClassFull, MemberNotFound, MembershipInactive}
            ==> Book(s, user, req).result == Err(Duplicate)
  {
    var b := s.bookings[i];
    var doc := Booking(b.memberId, b.classId, b.bookingDate, b.time, Confirmed);
    assert KeyOf(doc) == KeyOf(s.bookings[i]);
    assert HasKey(s.bookings, KeyOf(doc));
  }

  /** The store's own guarantees survive a booking: the insert is refused
      exactly when it would break the unique index. */
  lemma BookKeepsValid(s: State, user: UserId, req: BookingInput)
    requires Valid(s)
    ensures Valid(Book(s, user, req).state)
  {
    var out := Book(s, user, req);
    if out.result.Ok? {
      BookSuccess(s, user, req);
      var b := out.state.bookings[|s.bookings|];
      assert out.state.bookings == s.bookings + [b];
      AppendUnique(s.bookings, b);
      var k := RequestedClass(s, req).value;
      assert forall i :: 0 <= i < |s.classes| ==> out.state.classes[i].id == s.classes[i].id;
    }
  }

  /** A class within its bounds stays within them: the capacity check comes
      before the increment. */
  lemma BookKeepsCapacity(s: State, user: UserId, req: BookingInput)
    ensures var after := Book(s, user, req).state;
      forall i :: 0 <= i < |s.classes| && WithinCapacity(s.classes[i]) ==> WithinCapacity(after.classes[i])
  {
    if Book(s, user, req).result.Ok? {
      BookSuccess(s, user, req);
    }
  }

  /** Booking keeps every seat counter equal to its class's Confirmed bookings. */
  lemma BookKeepsCounters(s: State, user: UserId, req: BookingInput)
    requires Valid(s) && CountersMatch(s.classes, s.bookings)
    ensures var after := Book(s, user, req).state;
      CountersMatch(after.classes, after.bookings)
  {
    var out := Book(s, user, req);
    if out.result.Ok? {
      BookSuccess(s, user, req);
      var k := RequestedClass(s, req).value;
      var b := out.state.bookings[|s.bookings|];
      forall i | 0 <= i < |out.state.classes|
        ensures out.state.classes[i].currentBookings == CountConfirmed(out.state.bookings, out.state.classes[i].id)
      {
        CountConfirmedAppend(s.bookings, b, s.classes[i].id);
        if i != k {
          assert s.classes[i].id != s.classes[k].id;
        }
      }
    }
  }

  /** createBooking (bookingController.js:78-146) on the live store. */
  method CreateBooking(db: Store, user: UserId, req: BookingInput) returns (r: Result<BookingId>)
    modifies db
    ensures r == Book(old(db.Snapshot()), user, req).result
    ensures db.Snapshot() == Book(old(db.Snapshot()), user, req).state
  {
    var member := FindMemberByUser(db.members, user);
    if member.None? {
      return Err(MemberNotFound);
    }
    if db.members[member.value].status != Active {
      return Err(MembershipInactive);
    }
    var found := RequestedClass(db.Snapshot(), req);
    if found.None? {
      return Err(ClassNotFound);
    }
    var k := found.value;
    var classData := db.classes[k];
    if classData.currentBookings >= classData.maxCapacity {
      return Err(ClassFull);
    }
    var doc := BookingDocument(member.value, req);
    if doc.Err? {
      return Err(doc.error);
    }
    if HasKey(db.bookings, KeyOf(doc.value)) {
      return Err(Duplicate);
    }
    r := Ok(|db.bookings|);
    db.bookings := db.bookings + [doc.value];
    classData := classData.(currentBookings := classData.currentBookings + 1);
    db.classes := db.classes[k := classData];
  }

  // ---------------------------------------------------------------------
  // cancelBooking

  /** cancelBooking as a function of the store: a Member principal may only
      cancel a booking of their own profile (with no profile, `member._id`
      throws); the booking becomes Cancelled whatever its status was, and its
      class, if it still exists, gives back one seat unless the counter is
      already 0. */
  function Cancel(s: State, p: Principal, id: BookingId): (out: Step<()>)
    ensures out.result.Err? ==> out.state == s
    ensures out.result.Ok? ==>
      && id < |s.bookings|
      && out.state.bookings == s.bookings[id := s.bookings[id].(status := Cancelled)]
      && (var k := FindClass(s.classes, s.bookings[id].classId);
          out.state.classes ==
            if k.Some? && s.classes[k.value].currentBookings > 0
            then s.classes[k.value := s.classes[k.value].(currentBookings := s.classes[k.value].currentBookings - 1)]
            else s.classes)
      && out.state.members == s.members && out.state.trainers == s.trainers
      && out.state.payments == s.payments
  {
    if id >= |s.bookings| then Step(Err(NotFound), s)
    else
      var b := s.bookings[id];
      var caller := FindMemberByUser(s.members, p.userId);
      if p.role == MemberRole && caller.None? then Step(Err(ServerError), s)
      else if p.role == MemberRole && caller.value != b.memberId then Step(Err(Forbidden), s)
      else
        var marked := s.bookings[id := b.(status := Cancelled)];
        var released := match FindClass(s.classes, b.classId)
          case Some(k) =>
            if s.classes[k].currentBookings > 0
            then s.classes[k := s.classes[k].(currentBookings := s.classes[k].currentBookings - 1)]
            else s.classes
          case None => s.classes;
        Step(Ok(()), s.(bookings := marked, classes := released))
  }

  /** Only a Member principal is checked for ownership: a member cancels
      exactly their own bookings, and one with no profile gets a server
      error; Admin and Trainer principals cancel any existing booking. */
  lemma CancelAuthorization(s: State, p: Principal, id: BookingId)
    ensures id >= |s.bookings| ==> Cancel(s, p, id).result == Err(NotFound)
    ensures id < |s.bookings| && p.role != MemberRole ==> Cancel(s, p, id).result.Ok?
    ensures Cancel(s, p, id).result == Err(Forbidden) <==>
      && id < |s.bookings| && p.role == MemberRole
      && FindMemberByUser(s.members, p.userId).Some?
      && FindMemberByUser(s.members, p.userId).value != s.bookings[id].memberId
    ensures Cancel(s, p, id).result == Err(ServerError) <==>
      id < |s.bookings| && p.role == MemberRole && FindMemberByUser(s.members, p.userId).None?
    ensures id < |s.bookings| && p.role == MemberRole ==>
      (Cancel(s, p, id).result.Ok? <==> FindMemberByUser(s.members, p.userId) == Some(s.bookings[id].memberId))
  {
  }

  /** At most one class changes: a class with the booking's class id whose
      counter was positive, and only by one seat given back; so a counter
      that was within its bounds stays within them. */
  lemma CancelKeepsCapacity(s: State, p: Principal, id: BookingId)
    ensures var out := Cancel(s, p, id);
      forall i :: 0 <= i < |s.classes| ==>
        && (out.state.classes[i] == s.classes[i]
            || (out.result.Ok? && s.classes[i].id == s.bookings[id].classId
                && s.classes[i].currentBookings > 0
                && out.state.classes[i] == s.classes[i].(currentBookings := s.classes[i].currentBookings - 1)))
        && (WithinCapacity(s.classes[i]) ==> WithinCapacity(out.state.classes[i]))
    ensures var after := Cancel(s, p, id).state;
      forall i, j :: 0 <= i < j < |s.classes| && after.classes[i] != s.classes[i] ==> after.classes[j] == s.classes[j]
  {
  }

  lemma CancelKeepsValid(s: State, p: Principal, id: BookingId)
    requires Valid(s)
    ensures Valid(Cancel(s, p, id).state)
  {
    var out := Cancel(s, p, id);
    if out.result.Ok? {
      StatusChangeKeepsUnique(s.bookings, id, Cancelled);
      assert forall i :: 0 <= i < |s.classes| ==> out.state.classes[i].id == s.classes[i].id;
    }
  }

  /** Cancelling a Confirmed booking keeps every counter equal to its
      class's Confirmed bookings: the one seat given back is the one the
      booking held. */
  lemma FirstCancelKeepsCounters(s: State, p: Principal, id: BookingId)
    requires Valid(s) && CountersMatch(s.classes, s.bookings)
    requires id < |s.bookings| && s.bookings[id].status == Confirmed
    ensures var after := Cancel(s, p, id).state;
      CountersMatch(after.classes, after.bookings)
  {
    var out := Cancel(s, p, id);
    if out.result.Ok? {
      var b := s.bookings[id];
      var nb := b.(status := Cancelled);
      forall i | 0 <= i < |out.state.classes|
        ensures out.state.classes[i].currentBookings == CountConfirmed(out.state.bookings, out.state.classes[i].id)
      {
        CountConfirmedUpdate(s.bookings, id, nb, s.classes[i].id);
        if s.classes[i].id == b.classId {
          FindClassUnique(s.classes, b.classId, i);
          assert IsConfirmedFor(s.bookings[id], s.classes[i].id);
        } else {
          assert out.state.classes[i] == s.classes[i] by {
            match FindClass(s.classes, b.classId)
            case None =>
            case Some(k) => assert k != i;
          }
        }
      }
    }
  }

  /** There is no prior-status check: cancelling a booking that is no
      longer Confirmed gives back a seat nobody held, so the counter falls
      below the number of Confirmed bookings. */
  lemma RepeatCancelBreaksCounters(s: State, p: Principal, id: BookingId, k: nat)
    requires Valid(s) && CountersMatch(s.classes, s.bookings)
    requires id < |s.bookings| && s.bookings[id].status != Confirmed
    requires k < |s.classes| && s.classes[k].id == s.bookings[id].classId
    requires s.classes[k].currentBookings > 0
    requires Cancel(s, p, id).result.Ok?
    ensures var after := Cancel(s, p, id).state;
      && after.classes[k].currentBookings == s.classes[k].currentBookings - 1
      && after.classes[k].currentBookings == CountConfirmed(after.bookings, after.classes[k].id) - 1
      && !CountersMatch(after.classes, after.bookings)
  {
    var out := Cancel(s, p, id);
    var b := s.bookings[id];
    FindClassUnique(s.classes, b.classId, k);
    CountConfirmedUpdate(s.bookings, id, b.(status := Cancelled), b.classId);
    assert out.state.classes[k].id == b.classId;
  }

  /** cancelBooking (bookingController.js:151-194) on the live store. */
  method CancelBooking(db: Store, p: Principal, id: BookingId) returns (r: Result<()>)
    modifies db
    ensures r == Cancel(old(db.Snapshot()), p, id).result
    ensures db.Snapshot() == Cancel(old(db.Snapshot()), p, id).state
  {
    if id >= |db.bookings| {
      return Err(NotFound);
    }
    var booking := db.bookings[id];
    if p.role == MemberRole {
      var member := FindMemberByUser(db.members, p.userId);
      if member.None? {
        return Err(ServerError);
      }
      if booking.memberId != member.value {
        return Err(Forbidden);
      }
    }
    booking := booking.(status := Cancelled);
    db.bookings := db.bookings[id := booking];
    var found := FindClass(db.classes, booking.classId);
    if found.Some? && db.classes[found.value].currentBookings > 0 {
      var classData := db.classes[found.value];
      classData := classData.(currentBookings := classData.currentBookings - 1);
      db.classes := db.classes[found.value := classData];
    }
    r := Ok(());
  }

  // ---------------------------------------------------------------------
  // The seat-accounting scenario of a one-seat class.

  /** A one-seat class with two Active members and no bookings yet. */
  const Yoga := GymClass(7, "Yoga", 0, [], 1, 0, 60, Beginner)
  const MemberA := Member(1, "A", "555", Monthly, 0, Active)
  const MemberB := Member(2, "B", "556", Monthly, 0, Active)
  const YogaRequest := BookingInput(Some(7), Some(1000), Some("07:00"))
  const BookingA := Booking(0, 7, 1000, "07:00", Confirmed)
  const BookingB := Booking(1, 7, 1000, "07:00", Confirmed)
  const Opening := State([MemberA, MemberB], [], [Yoga], [], [])

  lemma ScenarioFirstBooking()
    ensures Book(Opening, 1, YogaRequest)
         == Step(Ok(0), Opening.(bookings := [BookingA], classes := [Yoga.(currentBookings := 1)]))
  {
    assert FindMemberByUser(Opening.members, 1) == Some(0);
    assert FindClass(Opening.classes, 7) == Some(0);
    assert !HasKey([], KeyOf(BookingA));
  }

  lemma ScenarioSecondTurnedAway(s: State)
    requires s == Opening.(bookings := [BookingA], classes := [Yoga.(currentBookings := 1)])
    ensures Book(s, 2, YogaRequest) == Step(Err(ClassFull), s)
  {
    assert s.members == [MemberA, MemberB];
    assert s.members[0].userId == 1 && s.members[1].userId == 2;
    assert FindMemberByUser(s.members, 2) == Some(1);
    assert FindClass(s.classes, 7) == Some(0);
  }

  lemma ScenarioCancel(s: State)
    requires s == Opening.(bookings := [BookingA], classes := [Yoga.(currentBookings := 1)])
    ensures Cancel(s, Principal(1, MemberRole), 0)
         == Step(Ok(()), Opening.(bookings := [BookingA.(status := Cancelled)], classes := [Yoga]))
  {
    assert FindMemberByUser(s.members, 1) == Some(0);
    assert FindClass(s.classes, 7) == Some(0);
  }

  lemma ScenarioSecondBooks(s: State)
    requires s == Opening.(bookings := [BookingA.(status := Cancelled)], classes := [Yoga])
    ensures Book(s, 2, YogaRequest)
         == Step(Ok(1), Opening.(bookings := [BookingA.(status := Cancelled), BookingB],
                                 classes := [Yoga.(currentBookings := 1)]))
  {
    assert s.members == [MemberA, MemberB];
    assert s.members[0].userId == 1 && s.members[1].userId == 2;
    assert FindMemberByUser(s.members, 2) == Some(1);
    assert FindClass(s.classes, 7) == Some(0);
    assert KeyOf(BookingB) != KeyOf(s.bookings[0]);
    assert !HasKey(s.bookings, KeyOf(BookingB));
  }

  lemma ScenarioCountersAgree(s: State)
    requires s == Opening.(bookings := [BookingA.(status := Cancelled), BookingB],
                           classes := [Yoga.(currentBookings := 1)])
    ensures CountersMatch(s.classes, s.bookings)
  {
    var cancelled := BookingA.(status := Cancelled);
    CountConfirmedAppend([], cancelled, 7);
    assert [cancelled] == [] + [cancelled];
    CountConfirmedAppend([cancelled], BookingB, 7);
    assert s.bookings == [cancelled] + [BookingB];
  }

  /** A one-seat class: A books it, B is turned away, A cancels and the seat
      is free again, B books it; the counter then matches the one Confirmed
      booking. */
  lemma OneSeatScenario()
    ensures
      var s1 := Book(Opening, 1, YogaRequest);
      var s2 := Book(s1.state, 2, YogaRequest);
      var s3 := Cancel(s2.state, Principal(1, MemberRole), 0);
      var s4 := Book(s3.state, 2, YogaRequest);
      && s1.result == Ok(0) && s1.state.classes[0].currentBookings == 1
      && s2.result == Err(ClassFull) && s2.state == s1.state
      && s3.result == Ok(()) && s3.state.classes[0].currentBookings == 0
      && s3.state.bookings[0].status == Cancelled
      && s4.result == Ok(1) && s4.state.classes[0].currentBookings == 1
      && CountersMatch(s4.state.classes, s4.state.bookings)
  {
    ScenarioFirstBooking();
    var s1 := Book(Opening, 1, YogaRequest);
    ScenarioSecondTurnedAway(s1.state);
    ScenarioCancel(s1.state);
    var s3 := Cancel(s1.state, Principal(1, MemberRole), 0);
    ScenarioSecondBooks(s3.state);
    ScenarioCountersAgree(Book(s3.state, 2, YogaRequest).state);
  }

  // ---------------------------------------------------------------------
  // Queries

  /** The `query` object getBookings builds before `Booking.find(query)`. */
  datatype BookingQuery = BookingQuery(memberId: Option<MemberId>, classIds: Option<seq<ClassId>>)

  predicate Matches(q: BookingQuery, b: Booking) {
    && (q.memberId.Some? ==> b.memberId == q.memberId.value)
    && (q.classIds.Some? ==> b.classId in q.classIds.value)
  }

  /** `classes.map(c => c._id)`. */
  function IdsOf(classes: seq<GymClass>): (ids: seq<ClassId>)
    ensures |ids| == |classes|
    ensures forall i :: 0 <= i < |classes| ==> ids[i] == classes[i].id
  {
    seq(|classes|, i requires 0 <= i < |classes| => classes[i].id)
  }

  /** `Class.find({ trainerId: t })` mapped to the class ids. */
  function TaughtIds(classes: seq<GymClass>, t: TrainerId): seq<ClassId> {
    IdsOf(Filter(classes, (c: GymClass) => c.trainerId == t))
  }

  lemma TaughtIdsMembers(classes: seq<GymClass>, t: TrainerId, id: ClassId)
    ensures id in TaughtIds(classes, t) <==> exists c :: c in classes && c.id == id && c.trainerId == t
  {
    var mine := Filter(classes, (c: GymClass) => c.trainerId == t);
    var ids := IdsOf(mine);
    if id in ids {
      var i :| 0 <= i < |ids| && ids[i] == id;
      assert mine[i] in classes;
    }
    if exists c :: c in classes && c.id == id && c.trainerId == t {
      var c :| c in classes && c.id == id && c.trainerId == t;
      assert c in mine;
      var i :| 0 <= i < |mine| && mine[i] == c;
      assert ids[i] == id;
    }
  }

  /** `.sort('-bookingDate')`. */
  predicate NewestFirst(a: Booking, b: Booking) {
    a.bookingDate >= b.bookingDate
  }

  /** `.sort('bookingDate')`. */
  predicate OldestFirst(a: Booking, b: Booking) {
    a.bookingDate <= b.bookingDate
  }

  lemma BookingOrdersArePreorders()
    ensures TotalPreorder(NewestFirst) && TotalPreorder(OldestFirst)
  {
  }

  /** `Booking.find(query).sort('-bookingDate')`. */
  function FindBookings(bookings: seq<Booking>, q: BookingQuery): (r: seq<Booking>)
    ensures SortedBy(r, NewestFirst)
    ensures forall b :: b in r <==> b in bookings && Matches(q, b)
    ensures multiset(r) == multiset(Filter(bookings, (b: Booking) => Matches(q, b)))
  {
    BookingOrdersArePreorders();
    SortedFilter(bookings, (b: Booking) => Matches(q, b), NewestFirst);
    SortBy(Filter(bookings, (b: Booking) => Matches(q, b)), NewestFirst)
  }

  /** getBookings' role scoping as written: a Member is scoped to their own
      profile (none: `member._id` throws), a Trainer to the classes whose
      `trainerId` equals the caller's user id, anyone else sees everything. */
  function ScopeQuery(s: State, p: Principal): Result<BookingQuery> {
    match p.role
    case MemberRole =>
      (match FindMemberByUser(s.members, p.userId)
       case None => Err(ServerError)
       case Some(m) => Ok(BookingQuery(Some(m), None)))
    case TrainerRole =>
      Ok(BookingQuery(None, Some(TaughtIds(s.classes, p.userId))))
    case AdminRole => Ok(BookingQuery(None, None))
  }

  /** getBookings (bookingController.js:8-42). */
  function GetBookings(s: State, p: Principal): Result<seq<Booking>> {
    match ScopeQuery(s, p)
    case Err(e) => Err(e)
    case Ok(q) => Ok(FindBookings(s.bookings, q))
  }

  /** What each role sees, newest booking date first. */
  lemma GetBookingsScope(s: State, p: Principal)
    ensures GetBookings(s, p).Err? <==> p.role == MemberRole && FindMemberByUser(s.members, p.userId).None?
    ensures GetBookings(s, p).Err? ==> GetBookings(s, p).error == ServerError
    ensures GetBookings(s, p).Ok? ==> SortedBy(GetBookings(s, p).value, NewestFirst)
    ensures p.role == MemberRole && GetBookings(s, p).Ok? ==>
      var m := FindMemberByUser(s.members, p.userId).value;
      forall b :: b in GetBookings(s, p).value <==> b in s.bookings && b.memberId == m
    ensures p.role == TrainerRole ==>
      forall b :: b in GetBookings(s, p).value <==>
        b in s.bookings && exists c :: c in s.classes && c.id == b.classId && c.trainerId == p.userId
    ensures p.role == AdminRole ==>
      forall b :: b in GetBookings(s, p).value <==> b in s.bookings
  {
    if p.role == TrainerRole {
      forall b: Booking
        ensures b.classId in TaughtIds(s.classes, p.userId)
                <==> exists c :: c in s.classes && c.id == b.classId && c.trainerId == p.userId
      {
        TaughtIdsMembers(s.classes, p.userId, b.classId);
      }
    }
  }

  /** The Confirmed bookings of member `m` dated at or after `now`. */
  predicate UpcomingFor(b: Booking, m: MemberId, now: Timestamp) {
    b.memberId == m && b.bookingDate >= now && b.status == Confirmed
  }

  /** `Booking.find({ memberId, bookingDate: { $gte: now }, status:
      'Confirmed' }).sort('bookingDate')`. */
  function UpcomingOf(bookings: seq<Booking>, m: MemberId, now: Timestamp): (r: seq<Booking>)
    ensures SortedBy(r, OldestFirst)
    ensures forall b :: b in r <==> b in bookings && UpcomingFor(b, m, now)
    ensures multiset(r) == multiset(Filter(bookings, (b: Booking) => UpcomingFor(b, m, now)))
  {
    BookingOrdersArePreorders();
    SortedFilter(bookings, (b: Booking) => UpcomingFor(b, m, now), OldestFirst);
    SortBy(Filter(bookings, (b: Booking) => UpcomingFor(b, m, now)), OldestFirst)
  }

  /** getMyUpcomingBookings (bookingController.js:199-225): the caller's
      Confirmed bookings from now on, earliest first (no profile:
      `member._id` throws). */
  function GetMyUpcomingBookings(s: State, user: UserId, now: Timestamp): (r: Result<seq<Booking>>)
    ensures r.Err? <==> FindMemberByUser(s.members, user).None?
    ensures r.Err? ==> r.error == ServerError
    ensures r.Ok? ==> r.value == UpcomingOf(s.bookings, FindMemberByUser(s.members, user).value, now)
  {
    match FindMemberByUser(s.members, user)
    case None => Err(ServerError)
    case Some(m) => Ok(UpcomingOf(s.bookings, m, now))
  }

  // ---------------------------------------------------------------------
  // The trainer scope as evidently intended.

  /** The scope getTrainerDashboard uses: the caller's Trainer profile (none:
      `trainer._id` throws), then the classes whose `trainerId` is that profile. */
  function TrainerProfileScope(s: State, p: Principal): Result<BookingQuery> {
    match p.role
    case TrainerRole =>
      (match FindTrainerByUser(s.trainers, p.userId)
       case None => Err(ServerError)
       case Some(t) => Ok(BookingQuery(None, Some(TaughtIds(s.classes, t)))))
    case _ => ScopeQuery(s, p)
  }

  /** getBookings with the trainer branch keyed by the Trainer profile. */
  function GetBookingsByTrainerProfile(s: State, p: Principal): Result<seq<Booking>> {
    match TrainerProfileScope(s, p)
    case Err(e) => Err(e)
    case Ok(q) => Ok(FindBookings(s.bookings, q))
  }

  /** A trainer with a profile sees exactly the bookings of the classes that
      profile teaches; other roles see what getBookings shows them. */
  lemma TrainerProfileScopeCorrect(s: State, p: Principal)
    ensures p.role != TrainerRole ==> GetBookingsByTrainerProfile(s, p) == GetBookings(s, p)
    ensures p.role == TrainerRole ==>
      (GetBookingsByTrainerProfile(s, p).Ok? <==> FindTrainerByUser(s.trainers, p.userId).Some?)
    ensures p.role == TrainerRole && GetBookingsByTrainerProfile(s, p).Ok? ==>
      var t := FindTrainerByUser(s.trainers, p.userId).value;
      forall b :: b in GetBookingsByTrainerProfile(s, p).value <==>
        b in s.bookings && exists c :: c in s.classes && c.id == b.classId && c.trainerId == t
  {
    if p.role == TrainerRole && FindTrainerByUser(s.trainers, p.userId).Some? {
      var t := FindTrainerByUser(s.trainers, p.userId).value;
      forall b: Booking
        ensures b.classId in TaughtIds(s.classes, t)
                <==> exists c :: c in s.classes && c.id == b.classId && c.trainerId == t
      {
        TaughtIdsMembers(s.classes, t, b.classId);
      }
    }
  }

  /** One trainer (user 5, profile 0) teaching class 7, which has one booking. */
  const TrainerWorld := State([Member(9, "M", "555", Monthly, 0, Active)], [Trainer(5, "T")],
                              [GymClass(7, "Yoga", 0, [], 10, 1, 60, Beginner)],
                              [Booking(0, 7, 1000, "07:00", Confirmed)], [])

  /** As written, the trainer's user id is matched against the classes'
      Trainer profile ids, finds no class, and the trainer sees nothing. */
  lemma TrainerSeesNoBookingsAsWritten()
    ensures GetBookings(TrainerWorld, Principal(5, TrainerRole)) == Ok([])
  {
    var p := Principal(5, TrainerRole);
    GetBookingsScope(TrainerWorld, p);
  }

  /** Keyed by the Trainer profile, the same trainer sees the booking. */
  lemma TrainerSeesBookingsByProfile()
    ensures GetBookingsByTrainerProfile(TrainerWorld, Principal(5, TrainerRole))
         == Ok([TrainerWorld.bookings[0]])
  {
    var p := Principal(5, TrainerRole);
    var b := TrainerWorld.bookings[0];
    assert FindTrainerByUser(TrainerWorld.trainers, 5) == Some(0);
    TrainerProfileScopeCorrect(TrainerWorld, p);
    var r := GetBookingsByTrainerProfile(TrainerWorld, p).value;
    assert TrainerWorld.classes[0] in TrainerWorld.classes;
    assert b in r;
    var q := TrainerProfileScope(TrainerWorld, p).value;
    assert |r| <= 1 by {
      assert r == FindBookings(TrainerWorld.bookings, q);
      assert |Filter(TrainerWorld.bookings, (x: Booking) => Matches(q, x))| <= 1;
    }
    assert r == [b];
  }
}
