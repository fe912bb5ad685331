/** The MongoDB collections the controllers read and write, held as one
    object whose fields the handlers update in place. Each collection is a
    sequence in stored (natural) order. */
module Store {
  import opened Common
  import opened Models
  import opened Queries

  /** A snapshot of every collection. */
  datatype State = State(
    members: seq<Member>,
    trainers: seq<Trainer>,
    classes: seq<GymClass>,
    bookings: seq<Booking>,
    payments: seq<Payment>)

  /** A handler's response together with the store it leaves behind. */
  datatype Step<T> = Step(result: Result<T>, state: State)

  predicate DistinctClassIds(classes: seq<GymClass>) {
    forall i, j :: 0 <= i < j < |classes| ==> classes[i].id != classes[j].id
  }

  /** What the database itself guarantees: `_id` is unique, and so is the
      booking index on (memberId, classId, bookingDate, time). */
  predicate Valid(s: State) {
    DistinctClassIds(s.classes) && UniqueKeys(s.bookings)
  }

  /** `Member.findOne({ userId })`. */
  function FindMemberByUser(members: seq<Member>, u: UserId): (r: Option<MemberId>)
    ensures r.Some? ==> r.value < |members| && members[r.value].userId == u
    ensures r.Some? ==> forall j :: 0 <= j < r.value ==> members[j].userId != u
    ensures r.None? ==> forall j :: 0 <= j < |members| ==> members[j].userId != u
  {
    FirstIndex(members, (m: Member) => m.userId == u)
  }

  /** `Trainer.findOne({ userId })`. */
  function FindTrainerByUser(trainers: seq<Trainer>, u: UserId): (r: Option<TrainerId>)
    ensures r.Some? ==> r.value < |trainers| && trainers[r.value].userId == u
    ensures r.Some? ==> forall j :: 0 <= j < r.value ==> trainers[j].userId != u
    ensures r.None? ==> forall j :: 0 <= j < |trainers| ==> trainers[j].userId != u
  {
    FirstIndex(trainers, (t: Trainer) => t.userId == u)
  }

  /** `Class.findById(id)`: the position of the class with that id. */
  function FindClass(classes: seq<GymClass>, id: ClassId): (r: Option<nat>)
    ensures r.Some? ==> r.value < |classes| && classes[r.value].id == id
    ensures r.None? ==> forall j :: 0 <= j < |classes| ==> classes[j].id != id
  {
    FirstIndex(classes, (c: GymClass) => c.id == id)
  }

  /** With unique ids, the class found is the only one with that id. */
  lemma FindClassUnique(classes: seq<GymClass>, id: ClassId, j: nat)
    requires DistinctClassIds(classes)
    requires j < |classes| && classes[j].id == id
    ensures FindClass(classes, id) == Some(j)
  {
  }

  predicate IsConfirmedFor(b: Booking, classId: ClassId) {
    b.classId == classId && b.status == Confirmed
  }

  /** The Confirmed bookings of one class. */
  function CountConfirmed(bookings: seq<Booking>, classId: ClassId): nat {
    Count(bookings, (b: Booking) => IsConfirmedFor(b, classId))
  }

  lemma CountConfirmedAppend(bookings: seq<Booking>, b: Booking, classId: ClassId)
    ensures CountConfirmed(bookings + [b], classId)
         == CountConfirmed(bookings, classId) + (if IsConfirmedFor(b, classId) then 1 else 0)
  {
    CountAppend(bookings, b, (x: Booking) => IsConfirmedFor(x, classId));
  }

  lemma CountConfirmedUpdate(bookings: seq<Booking>, i: nat, b: Booking, classId: ClassId)
    requires i < |bookings|
    ensures CountConfirmed(bookings[i := b], classId) + (if IsConfirmedFor(bookings[i], classId) then 1 else 0)
         == CountConfirmed(bookings, classId) + (if IsConfirmedFor(b, classId) then 1 else 0)
  {
    CountUpdate(bookings, i, b, (x: Booking) => IsConfirmedFor(x, classId));
  }

  /** The capacity bound a class should keep. */
  predicate WithinCapacity(c: GymClass) {
    0 <= c.currentBookings <= c.maxCapacity
  }

  /** Every class's seat counter agrees with its Confirmed bookings. */
  predicate CountersMatch(classes: seq<GymClass>, bookings: seq<Booking>) {
    forall i :: 0 <= i < |classes| ==> classes[i].currentBookings == CountConfirmed(bookings, classes[i].id)
  }

  class Store {
    var members: seq<Member>
    var trainers: seq<Trainer>
    var classes: seq<GymClass>
    var bookings: seq<Booking>
    var payments: seq<Payment>

    function Snapshot(): (s: State)
      reads this
      ensures s.members == members && s.trainers == trainers && s.classes == classes
      ensures s.bookings == bookings && s.payments == payments
    {
      State(members, trainers, classes, bookings, payments)
    }

    constructor (init: State)
      ensures Snapshot() == init
    {
      members, trainers, classes := init.members, init.trainers, init.classes;
      bookings, payments := init.bookings, init.payments;
    }
  }
}
