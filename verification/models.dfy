/** The four Mongoose schemas of the booking core (Member, Class, Booking,
    Payment) and the Trainer profile that classes point at. A stored document
    is a datatype value whose enum fields can only hold a listed value; the
    `...Document` functions model schema validation on create: a missing
    required field or a string outside an enum is a validation error (the
    handlers answer it with 500), and an absent optional field takes the
    schema default. A required String also rejects the empty string, as
    Mongoose's `required` validator does. */
module Models {
  import opened Common

  /** Members, trainers, bookings and payments are addressed by their position
      in the store; classes carry an id because they can be deleted. */
  type MemberId = nat
  type TrainerId = nat
  type BookingId = nat
  type ClassId = nat
  type UserId = nat

  /** The authenticated user that the `protect` middleware leaves in `req.user`. */
  datatype Role = AdminRole | TrainerRole | MemberRole
  datatype Principal = Principal(userId: UserId, role: Role)

  datatype MembershipType = Monthly | Quarterly | Annual
  datatype MemberStatus = Active | Suspended | Expired
  datatype BookingStatus = Confirmed | Cancelled | Completed
  datatype PaymentStatus = Completed | Pending | Failed
  datatype PaymentMethod = Cash | Card | Upi | BankTransfer
  datatype Difficulty = Beginner | Intermediate | Advanced

  /** One weekly recurrence of a class; the schema validates none of its strings. */
  datatype Slot = Slot(day: string, startTime: string, endTime: string)

  datatype Member = Member(
    userId: UserId,
    name: string,
    phone: string,
    membershipType: MembershipType,
    joinDate: Timestamp,
    status: MemberStatus)

  datatype Trainer = Trainer(userId: UserId, name: string)

  datatype GymClass = GymClass(
    id: ClassId,
    name: string,
    trainerId: TrainerId,
    schedule: seq<Slot>,
    maxCapacity: int,
    currentBookings: int,
    durationMinutes: int,
    difficulty: Difficulty)

  datatype Booking = Booking(
    memberId: MemberId,
    classId: ClassId,
    bookingDate: Timestamp,
    time: string,
    status: BookingStatus)

  datatype Payment = Payment(
    memberId: MemberId,
    amount: int,  // minor currency units
    paymentDate: Timestamp,
    paymentMethod: PaymentMethod,  // `method` in the schema
    transactionId: string,
    status: PaymentStatus,
    renewalDate: Timestamp)

  // ---------------------------------------------------------------------
  // Enum names as the schemas spell them, and parsing them back.

  function MembershipTypeName(t: MembershipType): string {
    match t
    case Monthly => "Monthly"
    case Quarterly => "Quarterly"
    case Annual => "Annual"
  }

  function ParseMembershipType(s: string): (r: Option<MembershipType>)
    ensures r.Some? ==> MembershipTypeName(r.value) == s
    ensures r.None? ==> forall t :: MembershipTypeName(t) != s
  {
    if s == "Monthly" then Some(Monthly)
    else if s == "Quarterly" then Some(Quarterly)
    else if s == "Annual" then Some(Annual)
    else None
  }

  function MemberStatusName(st: MemberStatus): string {
    match st
    case Active => "Active"
    case Suspended => "Suspended"
    case Expired => "Expired"
  }

  function ParseMemberStatus(s: string): (r: Option<MemberStatus>)
    ensures r.Some? ==> MemberStatusName(r.value) == s
    ensures r.None? ==> forall t :: MemberStatusName(t) != s
  {
    if s == "Active" then Some(Active)
    else if s == "Suspended" then Some(Suspended)
    else if s == "Expired" then Some(Expired)
    else None
  }

  function BookingStatusName(st: BookingStatus): string {
    match st
    case Confirmed => "Confirmed"
    case Cancelled => "Cancelled"
    case Completed => "Completed"
  }

  function PaymentStatusName(st: PaymentStatus): string {
    match st
    case Completed => "Completed"
    case Pending => "Pending"
    case Failed => "Failed"
  }

  function ParsePaymentStatus(s: string): (r: Option<PaymentStatus>)
    ensures r.Some? ==> PaymentStatusName(r.value) == s
    ensures r.None? ==> forall t :: PaymentStatusName(t) != s
  {
    if s == "Completed" then Some(PaymentStatus.Completed)
    else if s == "Pending" then Some(Pending)
    else if s == "Failed" then Some(Failed)
    else None
  }

  function PaymentMethodName(m: PaymentMethod): string {
    match m
    case Cash => "Cash"
    case Card => "Card"
    case Upi => "UPI"
    case BankTransfer => "Bank Transfer"
  }

  function ParsePaymentMethod(s: string): (r: Option<PaymentMethod>)
    ensures r.Some? ==> PaymentMethodName(r.value) == s
    ensures r.None? ==> forall t :: PaymentMethodName(t) != s
  {
    if s == "Cash" then Some(Cash)
    else if s == "Card" then Some(Card)
    else if s == "UPI" then Some(Upi)
    else if s == "Bank Transfer" then Some(BankTransfer)
    else None
  }

  function DifficultyName(d: Difficulty): string {
    match d
    case Beginner => "Beginner"
    case Intermediate => "Intermediate"
    case Advanced => "Advanced"
  }

  function ParseDifficulty(s: string): (r: Option<Difficulty>)
    ensures r.Some? ==> DifficultyName(r.value) == s
    ensures r.None? ==> forall t :: DifficultyName(t) != s
  {
    if s == "Beginner" then Some(Beginner)
    else if s == "Intermediate" then Some(Intermediate)
    else if s == "Advanced" then Some(Advanced)
    else None
  }

  /** Every enum value survives being written as its schema string and read back. */
  lemma EnumNamesRoundTrip(t: MembershipType, st: MemberStatus, ps: PaymentStatus, m: PaymentMethod, d: Difficulty)
    ensures ParseMembershipType(MembershipTypeName(t)) == Some(t)
    ensures ParseMemberStatus(MemberStatusName(st)) == Some(st)
    ensures ParsePaymentStatus(PaymentStatusName(ps)) == Some(ps)
    ensures ParsePaymentMethod(PaymentMethodName(m)) == Some(m)
    ensures ParseDifficulty(DifficultyName(d)) == Some(d)
  {
  }

  // ---------------------------------------------------------------------
  // Schema validation and defaults.

  predicate RequiredString(s: Option<string>) {
    s.Some? && s.value != ""
  }

  /** An enum field: absent takes the default, present must name a value. */
  function EnumField<T>(given: Option<string>, parse: string -> Option<T>, default: T): (r: Option<T>)
    ensures given.None? ==> r == Some(default)
    ensures given.Some? ==> r == parse(given.value)
  {
    match given
    case None => Some(default)
    case Some(s) => parse(s)
  }

  /** Fields of a new member as they arrive in a request body. */
  datatype MemberInput = MemberInput(
    userId: Option<UserId>,
    name: Option<string>,
    phone: Option<string>,
    membershipType: Option<string>,
    joinDate: Option<Timestamp>,
    status: Option<string>)

  /** Member.create: userId, name and phone are required; membershipType
      defaults to Monthly, status to Active and joinDate to the creation time. */
  function MemberDocument(input: MemberInput, now: Timestamp): (r: Result<Member>)
    ensures r.Ok? <==>
      && input.userId.Some? && RequiredString(input.name) && RequiredString(input.phone)
      && (input.membershipType.Some? ==> ParseMembershipType(input.membershipType.value).Some?)
      && (input.status.Some? ==> ParseMemberStatus(input.status.value).Some?)
    ensures r.Err? ==> r.error == ServerError
    ensures r.Ok? && input.membershipType.None? ==> r.value.membershipType == Monthly
    ensures r.Ok? && input.status.None? ==> r.value.status == Active
    ensures r.Ok? && input.joinDate.None? ==> r.value.joinDate == now
    ensures r.Ok? ==> r.value.userId == input.userId.value && r.value.name == input.name.value
                      && r.value.phone == input.phone.value
    ensures r.Ok? && input.membershipType.Some? ==> MembershipTypeName(r.value.membershipType) == input.membershipType.value
    ensures r.Ok? && input.status.Some? ==> MemberStatusName(r.value.status) == input.status.value
    ensures r.Ok? && input.joinDate.Some? ==> r.value.joinDate == input.joinDate.value
  {
    var mt := EnumField(input.membershipType, ParseMembershipType, Monthly);
    var st := EnumField(input.status, ParseMemberStatus, Active);
    if input.userId.None? || !RequiredString(input.name) || !RequiredString(input.phone)
       || mt.None? || st.None?
    then Err(ServerError)
    else
      var joined := match input.joinDate case Some(t) => t case None => now;
      Ok(Member(input.userId.value, input.name.value, input.phone.value, mt.value, joined, st.value))
  }

  /** Fields of a new or edited class as they arrive in a request body. */
  datatype ClassInput = ClassInput(
    name: Option<string>,
    trainerId: Option<TrainerId>,
    schedule: seq<Slot>,
    maxCapacity: Option<int>,
    currentBookings: Option<int>,
    durationMinutes: Option<int>,
    difficulty: Option<string>)

  /** Class.create: name, trainerId and durationMinutes are required;
      maxCapacity defaults to 10, currentBookings to 0, difficulty to Beginner.
      Nothing relates currentBookings to maxCapacity. */
  function ClassDocument(id: ClassId, input: ClassInput): (r: Result<GymClass>)
    ensures r.Ok? <==>
      && RequiredString(input.name) && input.trainerId.Some? && input.durationMinutes.Some?
      && (input.difficulty.Some? ==> ParseDifficulty(input.difficulty.value).Some?)
    ensures r.Err? ==> r.error == ServerError
    ensures r.Ok? ==> r.value.id == id && r.value.schedule == input.schedule
    ensures r.Ok? && input.maxCapacity.None? ==> r.value.maxCapacity == 10
    ensures r.Ok? && input.currentBookings.None? ==> r.value.currentBookings == 0
    ensures r.Ok? && input.difficulty.None? ==> r.value.difficulty == Beginner
    ensures r.Ok? ==> r.value.name == input.name.value && r.value.trainerId == input.trainerId.value
                      && r.value.durationMinutes == input.durationMinutes.value
    ensures r.Ok? && input.maxCapacity.Some? ==> r.value.maxCapacity == input.maxCapacity.value
    ensures r.Ok? && input.currentBookings.Some? ==> r.value.currentBookings == input.currentBookings.value
    ensures r.Ok? && input.difficulty.Some? ==> DifficultyName(r.value.difficulty) == input.difficulty.value
  {
    var diff := EnumField(input.difficulty, ParseDifficulty, Beginner);
    if !RequiredString(input.name) || input.trainerId.None? || input.durationMinutes.None? || diff.None?
    then Err(ServerError)
    else
      var cap := match input.maxCapacity case Some(n) => n case None => 10;
      var taken := match input.currentBookings case Some(n) => n case None => 0;
      Ok(GymClass(id, input.name.value, input.trainerId.value, input.schedule,
                  cap, taken, input.durationMinutes.value, diff.value))
  }

  /** The fields of a booking request. */
  datatype BookingInput = BookingInput(
    classId: Option<ClassId>,
    bookingDate: Option<Timestamp>,
    time: Option<string>)

  /** Booking.create: memberId, classId, bookingDate and time are required;
      status defaults to Confirmed. */
  function BookingDocument(memberId: MemberId, input: BookingInput): (r: Result<Booking>)
    ensures r.Ok? <==> input.classId.Some? && input.bookingDate.Some? && RequiredString(input.time)
    ensures r.Err? ==> r.error == ServerError
    ensures r.Ok? ==> r.value.status == Confirmed && r.value.memberId == memberId
    ensures r.Ok? ==> r.value.classId == input.classId.value && r.value.bookingDate == input.bookingDate.value
                      && r.value.time == input.time.value
  {
    if input.classId.None? || input.bookingDate.None? || !RequiredString(input.time) then Err(ServerError)
    else Ok(Booking(memberId, input.classId.value, input.bookingDate.value, input.time.value, Confirmed))
  }

  /** The fields of a payment request. */
  datatype PaymentInput = PaymentInput(
    memberId: MemberId,
    amount: Option<int>,
    paymentMethod: Option<string>,  // `method` in the request
    transactionId: string)

  /** Payment.create: memberId, amount, method and renewalDate are required
      (the handler always supplies renewalDate); method must be one of the four
      listed; status defaults to Completed and paymentDate to the creation time. */
  function PaymentDocument(input: PaymentInput, paymentDate: Timestamp, renewalDate: Timestamp): (r: Result<Payment>)
    ensures r.Ok? <==>
      input.amount.Some? && input.paymentMethod.Some? && ParsePaymentMethod(input.paymentMethod.value).Some?
    ensures r.Err? ==> r.error == ServerError
    ensures r.Ok? ==> r.value.status == PaymentStatus.Completed && r.value.memberId == input.memberId
    ensures r.Ok? ==> r.value.paymentDate == paymentDate && r.value.renewalDate == renewalDate
    ensures r.Ok? ==> PaymentMethodName(r.value.paymentMethod) == input.paymentMethod.value
    ensures r.Ok? ==> r.value.amount == input.amount.value && r.value.transactionId == input.transactionId
  {
    if input.amount.None? || input.paymentMethod.None? then Err(ServerError)
    else match ParsePaymentMethod(input.paymentMethod.value)
      case None => Err(ServerError)
      case Some(m) =>
        Ok(Payment(input.memberId, input.amount.value, paymentDate, m, input.transactionId, PaymentStatus.Completed, renewalDate))
  }

  // ---------------------------------------------------------------------
  // The unique index on (memberId, classId, bookingDate, time).

  datatype BookingKey = BookingKey(memberId: MemberId, classId: ClassId, bookingDate: Timestamp, time: string)

  function KeyOf(b: Booking): BookingKey {
    BookingKey(b.memberId, b.classId, b.bookingDate, b.time)
  }

  /** The index covers every stored booking whatever its status. */
  predicate HasKey(bookings: seq<Booking>, k: BookingKey) {
    exists i :: 0 <= i < |bookings| && KeyOf(bookings[i]) == k
  }

  predicate UniqueKeys(bookings: seq<Booking>) {
    forall i, j :: 0 <= i < j < |bookings| ==> KeyOf(bookings[i]) != KeyOf(bookings[j])
  }

  /** Appending a booking keeps the index unique exactly when its key is new. */
  lemma AppendUnique(bookings: seq<Booking>, b: Booking)
    requires UniqueKeys(bookings)
    ensures UniqueKeys(bookings + [b]) <==> !HasKey(bookings, KeyOf(b))
  {
    var s := bookings + [b];
    if !HasKey(bookings, KeyOf(b)) {
      forall i, j | 0 <= i < j < |s| ensures KeyOf(s[i]) != KeyOf(s[j]) {
        if j == |bookings| {
          assert KeyOf(bookings[i]) != KeyOf(b);
        }
      }
    } else {
      var i :| 0 <= i < |bookings| && KeyOf(bookings[i]) == KeyOf(b);
      assert KeyOf(s[i]) == KeyOf(s[|bookings|]);
    }
  }

  /** Changing a booking's status leaves its key, so the index stays unique. */
  lemma StatusChangeKeepsUnique(bookings: seq<Booking>, i: nat, st: BookingStatus)
    requires i < |bookings| && UniqueKeys(bookings)
    ensures UniqueKeys(bookings[i := bookings[i].(status := st)])
  {
    var s := bookings[i := bookings[i].(status := st)];
    assert forall k :: 0 <= k < |s| ==> KeyOf(s[k]) == KeyOf(bookings[k]);
  }
}
