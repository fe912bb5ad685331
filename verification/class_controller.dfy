/** The class handlers: the weekly schedule built by getClassSchedule, and
    the lookup-or-404 handlers getClass, updateClass and deleteClass. */
module ClassController {
  import opened Common
  import opened Models
  import opened Queries
  import opened Store

  // ---------------------------------------------------------------------
  // getClassSchedule

  /** The seven keys of the schedule object. */
  const WeekDaySet: set<string> := {"Monday", "Tuesday", "Wednesday", "Thursday", "Friday", "Saturday", "Sunday"}

  predicate IsWeekDay(d: string) {
    d in WeekDaySet
  }

  /** One (class, slot) pair as it appears in a day's list. */
  datatype ScheduleEntry = ScheduleEntry(
    classId: ClassId,
    className: string,
    trainer: TrainerId,
    startTime: string,
    endTime: string,
    duration: int,
    maxCapacity: int,
    currentBookings: int,
    availableSpots: int,
    difficulty: Difficulty)

  /** The entry pushed for slot `s` of class `c`. */
  function Entry(c: GymClass, s: Slot): ScheduleEntry {
    ScheduleEntry(c.id, c.name, c.trainerId, s.startTime, s.endTime, c.durationMinutes,
                  c.maxCapacity, c.currentBookings, c.maxCapacity - c.currentBookings, c.difficulty)
  }

  /** An entry's free seats and its taken seats add up to the capacity, and
      a class within its bounds shows no negative and no excess free seats. */
  lemma EntrySeats(c: GymClass, s: Slot)
    ensures var e := Entry(c, s);
      && e.availableSpots + e.currentBookings == e.maxCapacity
      && e.classId == c.id && e.startTime == s.startTime && e.endTime == s.endTime
      && (WithinCapacity(c) ==> 0 <= e.availableSpots <= c.maxCapacity)
  {
  }

  /** The entries of class `c`'s slots that fall on `day`, in slot order. */
  function SlotEntries(c: GymClass, slots: seq<Slot>, day: string): (r: seq<ScheduleEntry>)
    ensures |r| <= |slots|
  {
    if slots == [] then []
    else
      var last := slots[|slots| - 1];
      SlotEntries(c, slots[..|slots| - 1], day) + (if last.day == day then [Entry(c, last)] else [])
  }

  /** The entries pushed onto `day`'s list, in the order the nested loops
      push them: class by class, slot by slot. */
  function DayEntries(classes: seq<GymClass>, day: string): seq<ScheduleEntry> {
    if classes == [] then []
    else
      var last := classes[|classes| - 1];
      DayEntries(classes[..|classes| - 1], day) + SlotEntries(last, last.schedule, day)
  }

  /** Every slot of every class names a key of `keys`. */
  predicate SlotsIn(classes: seq<GymClass>, keys: set<string>) {
    forall i, j :: 0 <= i < |classes| && 0 <= j < |classes[i].schedule| ==> classes[i].schedule[j].day in keys
  }

  /** Every slot names one of the seven days; any other name (a misspelling,
      a lower-case day) finds no list to push onto and the handler fails. */
  predicate SlotDaysValid(classes: seq<GymClass>) {
    SlotsIn(classes, WeekDaySet)
  }

  /** `a.startTime.localeCompare(b.startTime) <= 0`. */
  predicate StartsNoLater(a: ScheduleEntry, b: ScheduleEntry) {
    StrLe(a.startTime, b.startTime)
  }

  lemma StartsNoLaterIsTotalPreorder()
    ensures TotalPreorder(StartsNoLater)
  {
    forall a, b ensures StartsNoLater(a, b) || StartsNoLater(b, a) {
      StrLeTotal(a.startTime, b.startTime);
    }
    forall a, b, c | StartsNoLater(a, b) && StartsNoLater(b, c) ensures StartsNoLater(a, c) {
      StrLeTransitive(a.startTime, b.startTime, c.startTime);
    }
  }

  /** The schedule getClassSchedule answers with: each day's entries in
      start-time order (the sort is stable, so equal start times keep push
      order). */
  function Schedule(classes: seq<GymClass>): map<string, seq<ScheduleEntry>> {
    map d | d in WeekDaySet :: SortBy(DayEntries(classes, d), StartsNoLater)
  }

  /** The inner `cls.schedule.forEach`: push one entry per slot onto its
      day's list; a slot on a day with no list stops the handler. */
  method PushSlots(lists: map<string, seq<ScheduleEntry>>, cls: GymClass)
    returns (r: Option<map<string, seq<ScheduleEntry>>>)
    ensures r.Some? <==> forall j :: 0 <= j < |cls.schedule| ==> cls.schedule[j].day in lists
    ensures r.Some? ==> r.value.Keys == lists.Keys
    ensures r.Some? ==> forall d :: d in lists ==> r.value[d] == lists[d] + SlotEntries(cls, cls.schedule, d)
  {
    var pushed := lists;
    var j := 0;
    while j < |cls.schedule|
      invariant 0 <= j <= |cls.schedule|
      invariant pushed.Keys == lists.Keys
      invariant forall k :: 0 <= k < j ==> cls.schedule[k].day in lists
      invariant forall d :: d in lists ==> pushed[d] == lists[d] + SlotEntries(cls, cls.schedule[..j], d)
    {
      var slot := cls.schedule[j];
      if slot.day !in pushed {
        return None;
      }
      PushStep(lists, pushed, cls, j);
      pushed := pushed[slot.day := pushed[slot.day] + [Entry(cls, slot)]];
      j := j + 1;
    }
    assert cls.schedule[..j] == cls.schedule;
    r := Some(pushed);
  }

  /** One turn of the inner loop keeps its invariant. */
  lemma PushStep(lists: map<string, seq<ScheduleEntry>>, pushed: map<string, seq<ScheduleEntry>>, cls: GymClass, j: nat)
    requires j < |cls.schedule| && cls.schedule[j].day in pushed && pushed.Keys == lists.Keys
    requires forall d :: d in lists ==> pushed[d] == lists[d] + SlotEntries(cls, cls.schedule[..j], d)
    ensures var slot := cls.schedule[j];
      var after := pushed[slot.day := pushed[slot.day] + [Entry(cls, slot)]];
      forall d :: d in lists ==> after[d] == lists[d] + SlotEntries(cls, cls.schedule[..j + 1], d)
  {
    var slot := cls.schedule[j];
    var after := pushed[slot.day := pushed[slot.day] + [Entry(cls, slot)]];
    assert cls.schedule[..j + 1][..j] == cls.schedule[..j];
    assert cls.schedule[..j + 1][j] == slot;
    forall d | d in lists
      ensures after[d] == lists[d] + SlotEntries(cls, cls.schedule[..j + 1], d)
    {
      var tail := if slot.day == d then [Entry(cls, slot)] else [];
      var done := SlotEntries(cls, cls.schedule[..j], d);
      assert SlotEntries(cls, cls.schedule[..j + 1], d) == done + tail;
      assert after[d] == pushed[d] + tail;
      assert (lists[d] + done) + tail == lists[d] + (done + tail);
    }
  }

  /** The outer `classes.forEach`, pushing onto the lists of `empty`. */
  method GroupByDay(empty: map<string, seq<ScheduleEntry>>, classes: seq<GymClass>)
    returns (r: Option<map<string, seq<ScheduleEntry>>>)
    requires forall d :: d in empty ==> empty[d] == []
    ensures r.Some? <==> SlotsIn(classes, empty.Keys)
    ensures r.Some? ==> r.value.Keys == empty.Keys
    ensures r.Some? ==> forall d :: d in empty ==> r.value[d] == DayEntries(classes, d)
  {
    var schedule := empty;
    var i := 0;
    while i < |classes|
      invariant 0 <= i <= |classes|
      invariant SlotsIn(classes[..i], empty.Keys)
      invariant schedule.Keys == empty.Keys
      invariant forall d :: d in empty ==> schedule[d] == DayEntries(classes[..i], d)
    {
      var pushed := PushSlots(schedule, classes[i]);
      if pushed.None? {
        return None;
      }
      assert classes[..i + 1][..i] == classes[..i];
      assert classes[..i + 1][i] == classes[i];
      schedule := pushed.value;
      i := i + 1;
    }
    assert classes[..i] == classes;
    r := Some(schedule);
  }

  /** `Object.keys(schedule).forEach(day => schedule[day].sort(...))`:
      each list is sorted once, and the order of the keys does not matter. */
  method SortDays(schedule: map<string, seq<ScheduleEntry>>) returns (r: map<string, seq<ScheduleEntry>>)
    ensures r.Keys == schedule.Keys
    ensures forall d :: d in schedule ==> r[d] == SortBy(schedule[d], StartsNoLater)
  {
    r := schedule;
    var pending := schedule.Keys;
    while pending != {}
      invariant pending <= schedule.Keys
      invariant r.Keys == schedule.Keys
      invariant forall d :: d in schedule ==>
        r[d] == if d in pending then schedule[d] else SortBy(schedule[d], StartsNoLater)
      decreases |pending|
    {
      var day :| day in pending;
      r := r[day := SortBy(r[day], StartsNoLater)];
      pending := pending - {day};
    }
  }

  /** The schedule object before any push: the seven days, each with an
      empty list. */
  function EmptySchedule(): (m: map<string, seq<ScheduleEntry>>)
    ensures m.Keys == WeekDaySet
    ensures forall d :: d in m ==> m[d] == []
  {
    map d | d in WeekDaySet :: []
  }

  /** getClassSchedule (classController.js:26-75): push every (class, slot)
      pair onto its day's list, then sort each list by start time. */
  method GetClassSchedule(classes: seq<GymClass>) returns (r: Result<map<string, seq<ScheduleEntry>>>)
    ensures r.Ok? <==> SlotDaysValid(classes)
    ensures r.Err? ==> r.error == ServerError
    ensures r.Ok? ==> r.value == Schedule(classes)
  {
    var empty := EmptySchedule();
    var grouped := GroupByDay(empty, classes);
    if grouped.None? {
      return Err(ServerError);
    }
    var sorted := SortDays(grouped.value);
    ghost var expected := Schedule(classes);
    assert sorted.Keys == expected.Keys;
    assert forall d :: d in sorted ==> sorted[d] == expected[d];
    r := Ok(sorted);
  }

  /** The schedule has exactly the seven day keys, and each day's list is in
      start-time order. */
  lemma ScheduleShape(classes: seq<GymClass>)
    ensures Schedule(classes).Keys == WeekDaySet
    ensures forall d :: d in WeekDaySet ==> SortedBy(Schedule(classes)[d], StartsNoLater)
  {
    StartsNoLaterIsTotalPreorder();
    forall d | d in WeekDaySet ensures SortedBy(Schedule(classes)[d], StartsNoLater) {
      SortBySorted(DayEntries(classes, d), StartsNoLater);
    }
  }

  /** Some slot of some class falls on `day` and yields `e`. */
  predicate FromSomeSlot(classes: seq<GymClass>, day: string, e: ScheduleEntry) {
    exists i, j :: 0 <= i < |classes| && 0 <= j < |classes[i].schedule|
      && classes[i].schedule[j].day == day && e == Entry(classes[i], classes[i].schedule[j])
  }

  predicate FromClassSlot(c: GymClass, slots: seq<Slot>, day: string, e: ScheduleEntry) {
    exists j :: 0 <= j < |slots| && slots[j].day == day && e == Entry(c, slots[j])
  }

  /** A slot of `classes` is a slot of its prefix or of its last class. */
  lemma FromSomeSlotSplit(classes: seq<GymClass>, day: string, e: ScheduleEntry)
    requires classes != []
    ensures var last := classes[|classes| - 1];
      FromSomeSlot(classes, day, e)
      <==> FromSomeSlot(classes[..|classes| - 1], day, e) || FromClassSlot(last, last.schedule, day, e)
  {
    var init, last := classes[..|classes| - 1], classes[|classes| - 1];
    if FromSomeSlot(classes, day, e) {
      var i, j :| 0 <= i < |classes| && 0 <= j < |classes[i].schedule|
        && classes[i].schedule[j].day == day && e == Entry(classes[i], classes[i].schedule[j]);
      if i < |init| {
        assert init[i] == classes[i];
        assert FromSomeSlot(init, day, e);
      } else {
        assert FromClassSlot(last, last.schedule, day, e);
      }
    }
    if FromSomeSlot(init, day, e) {
      var i, j :| 0 <= i < |init| && 0 <= j < |init[i].schedule|
        && init[i].schedule[j].day == day && e == Entry(init[i], init[i].schedule[j]);
      assert classes[i] == init[i];
    }
    if FromClassSlot(last, last.schedule, day, e) {
      var j :| 0 <= j < |last.schedule| && last.schedule[j].day == day && e == Entry(last, last.schedule[j]);
      assert classes[|classes| - 1] == last;
    }
  }

  /** Each day's list holds exactly the entries of the slots on that day:
      every entry comes from a slot of some class filed under its own day,
      and every such slot yields an entry. */
  lemma {:induction false} DayEntriesMembers(classes: seq<GymClass>, day: string, e: ScheduleEntry)
    ensures e in DayEntries(classes, day) <==> FromSomeSlot(classes, day, e)
  {
    if classes != [] {
      var init, last := classes[..|classes| - 1], classes[|classes| - 1];
      DayEntriesMembers(init, day, e);
      SlotEntriesMembers(last, last.schedule, day, e);
      FromSomeSlotSplit(classes, day, e);
      assert DayEntries(classes, day) == DayEntries(init, day) + SlotEntries(last, last.schedule, day);
    }
  }

  lemma {:induction false} SlotEntriesMembers(c: GymClass, slots: seq<Slot>, day: string, e: ScheduleEntry)
    ensures e in SlotEntries(c, slots, day) <==> FromClassSlot(c, slots, day, e)
  {
    if slots != [] {
      var init := slots[..|slots| - 1];
      SlotEntriesMembers(c, init, day, e);
      if FromClassSlot(c, slots, day, e) {
        var j :| 0 <= j < |slots| && slots[j].day == day && e == Entry(c, slots[j]);
        if j < |init| {
          assert init[j] == slots[j];
          assert FromClassSlot(c, init, day, e);
        }
      }
      if FromClassSlot(c, init, day, e) {
        var j :| 0 <= j < |init| && init[j].day == day && e == Entry(c, init[j]);
        assert slots[j] == init[j];
      }
    }
  }

  /** The schedule lists, for each day, every entry of a slot on that day
      and nothing else. */
  lemma ScheduleMembers(classes: seq<GymClass>, day: string, e: ScheduleEntry)
    requires day in WeekDaySet
    ensures e in Schedule(classes)[day] <==>
      exists i, j :: 0 <= i < |classes| && 0 <= j < |classes[i].schedule|
        && classes[i].schedule[j].day == day && e == Entry(classes[i], classes[i].schedule[j])
  {
    DayEntriesMembers(classes, day, e);
    assert e in Schedule(classes)[day] <==> e in multiset(Schedule(classes)[day]);
    assert e in DayEntries(classes, day) <==> e in multiset(DayEntries(classes, day));
  }

  /** Number of slots over all classes. */
  function TotalSlots(classes: seq<GymClass>): nat {
    if classes == [] then 0 else TotalSlots(classes[..|classes| - 1]) + |classes[|classes| - 1].schedule|
  }

  /** Number of entries filed over the seven days. */
  function WeekCount(f: string -> nat): nat {
    f("Monday") + f("Tuesday") + f("Wednesday") + f("Thursday") + f("Friday") + f("Saturday") + f("Sunday")
  }

  lemma {:induction false} SlotEntriesWeek(c: GymClass, slots: seq<Slot>)
    requires forall j :: 0 <= j < |slots| ==> IsWeekDay(slots[j].day)
    ensures WeekCount(d => |SlotEntries(c, slots, d)|) == |slots|
  {
    if slots != [] {
      SlotEntriesWeek(c, slots[..|slots| - 1]);
    }
  }

  lemma {:induction false} DayEntriesWeek(classes: seq<GymClass>)
    requires SlotDaysValid(classes)
    ensures WeekCount(d => |DayEntries(classes, d)|) == TotalSlots(classes)
  {
    if classes != [] {
      var init, last := classes[..|classes| - 1], classes[|classes| - 1];
      assert SlotDaysValid(init) by {
        forall i, j | 0 <= i < |init| && 0 <= j < |init[i].schedule| ensures IsWeekDay(init[i].schedule[j].day) {
          assert init[i] == classes[i];
        }
      }
      DayEntriesWeek(init);
      forall j | 0 <= j < |last.schedule| ensures IsWeekDay(last.schedule[j].day) {
        assert classes[|classes| - 1].schedule[j] == last.schedule[j];
      }
      SlotEntriesWeek(last, last.schedule);
    }
  }

  /** Each (class, slot) pair yields exactly one entry, so the seven lists
      together hold as many entries as there are slots. */
  lemma ScheduleTotal(classes: seq<GymClass>)
    requires SlotDaysValid(classes)
    ensures WeekCount(d => if d in WeekDaySet then |Schedule(classes)[d]| else 0) == TotalSlots(classes)
  {
    DayEntriesWeek(classes);
  }

  // ---------------------------------------------------------------------
  // getClass

  /** getClass (classController.js:80-101). */
  function GetClass(classes: seq<GymClass>, id: ClassId): (r: Result<GymClass>)
    ensures r.Ok? ==> r.value in classes && r.value.id == id
    ensures r.Err? ==> r.error == ClassNotFound && forall c :: c in classes ==> c.id != id
  {
    match FindClass(classes, id)
    case None => Err(ClassNotFound)
    case Some(k) => Ok(classes[k])
  }

  // ---------------------------------------------------------------------
  // updateClass

  /** The fields of an update request body; an absent field is left as it is. */
  datatype ClassPatch = ClassPatch(
    name: Option<string>,
    trainerId: Option<TrainerId>,
    schedule: Option<seq<Slot>>,
    maxCapacity: Option<int>,
    currentBookings: Option<int>,
    durationMinutes: Option<int>,
    difficulty: Option<string>)

  function Override<T>(given: Option<T>, current: T): T {
    match given case Some(v) => v case None => current
  }

  /** `findByIdAndUpdate(id, body, { runValidators: true })`: the update
      validators check only the fields present, so an empty name or an
      unknown difficulty fails and nothing relates maxCapacity to
      currentBookings. */
  function ApplyPatch(c: GymClass, patch: ClassPatch): (r: Result<GymClass>)
    ensures r.Ok? <==> (patch.name.Some? ==> patch.name.value != "")
                       && (patch.difficulty.Some? ==> ParseDifficulty(patch.difficulty.value).Some?)
    ensures r.Ok? ==> r.value.id == c.id
    ensures r.Ok? && patch.maxCapacity.None? ==> r.value.maxCapacity == c.maxCapacity
    ensures r.Ok? && patch.maxCapacity.Some? ==> r.value.maxCapacity == patch.maxCapacity.value
    ensures r.Ok? && patch.currentBookings.None? ==> r.value.currentBookings == c.currentBookings
    ensures r.Ok? && patch.currentBookings.Some? ==> r.value.currentBookings == patch.currentBookings.value
    ensures r.Ok? ==> r.value.name == if patch.name.Some? then patch.name.value else c.name
    ensures r.Ok? ==> r.value.trainerId == if patch.trainerId.Some? then patch.trainerId.value else c.trainerId
    ensures r.Ok? ==> r.value.schedule == if patch.schedule.Some? then patch.schedule.value else c.schedule
    ensures r.Ok? ==> r.value.durationMinutes
                      == if patch.durationMinutes.Some? then patch.durationMinutes.value else c.durationMinutes
    ensures r.Ok? && patch.difficulty.None? ==> r.value.difficulty == c.difficulty
    ensures r.Ok? && patch.difficulty.Some? ==> DifficultyName(r.value.difficulty) == patch.difficulty.value
  {
    if patch.name.Some? && patch.name.value == "" then Err(ServerError)
    else match EnumField(patch.difficulty, ParseDifficulty, c.difficulty)
      case None => Err(ServerError)
      case Some(diff) =>
        Ok(GymClass(c.id, Override(patch.name, c.name), Override(patch.trainerId, c.trainerId),
                    Override(patch.schedule, c.schedule), Override(patch.maxCapacity, c.maxCapacity),
                    Override(patch.currentBookings, c.currentBookings),
                    Override(patch.durationMinutes, c.durationMinutes), diff))
  }

  /** updateClass as a function of the store. */
  function Update(s: State, id: ClassId, patch: ClassPatch): (out: Step<GymClass>)
    ensures out.result.Err? ==> out.state == s
    ensures out.result == Err(ClassNotFound) <==> FindClass(s.classes, id).None?
    ensures FindClass(s.classes, id).Some? ==>
      (out.result.Ok? <==> ApplyPatch(s.classes[FindClass(s.classes, id).value], patch).Ok?)
    ensures out.result.Ok? ==>
      && var k := FindClass(s.classes, id).value;
      && ApplyPatch(s.classes[k], patch) == Ok(out.result.value)
      && out.state == s.(classes := s.classes[k := out.result.value])
  {
    match FindClass(s.classes, id)
    case None => Step(Err(ClassNotFound), s)
    case Some(k) =>
      match ApplyPatch(s.classes[k], patch)
      case Err(e) => Step(Err(e), s)
      case Ok(c) => Step(Ok(c), s.(classes := s.classes[k := c]))
  }

  /** An edit keeps class ids distinct and leaves the bookings alone; one
      that does not set currentBookings keeps every counter matching. */
  lemma UpdateKeepsValid(s: State, id: ClassId, patch: ClassPatch)
    requires Valid(s)
    ensures Valid(Update(s, id, patch).state)
    ensures CountersMatch(s.classes, s.bookings) && patch.currentBookings.None?
            ==> CountersMatch(Update(s, id, patch).state.classes, Update(s, id, patch).state.bookings)
  {
    var out := Update(s, id, patch);
    if out.result.Ok? {
      var k := FindClass(s.classes, id).value;
      assert forall i :: 0 <= i < |s.classes| ==> out.state.classes[i].id == s.classes[i].id;
    }
  }

  /** Nothing stops an edit from lowering maxCapacity below the seats
      already taken. */
  lemma UpdateCanBreakCapacity(s: State, id: ClassId, patch: ClassPatch)
    requires FindClass(s.classes, id).Some?
    requires patch.name.None? && patch.difficulty.None? && patch.currentBookings.None?
    requires patch.maxCapacity.Some?
    requires patch.maxCapacity.value < s.classes[FindClass(s.classes, id).value].currentBookings
    ensures Update(s, id, patch).result.Ok?
    ensures !WithinCapacity(Update(s, id, patch).result.value)
  {
  }

  /** updateClass (classController.js:125-151) on the live store. */
  method UpdateClass(db: Store, id: ClassId, patch: ClassPatch) returns (r: Result<GymClass>)
    modifies db
    ensures r == Update(old(db.Snapshot()), id, patch).result
    ensures db.Snapshot() == Update(old(db.Snapshot()), id, patch).state
  {
    var found := FindClass(db.classes, id);
    if found.None? {
      return Err(ClassNotFound);
    }
    var classData := ApplyPatch(db.classes[found.value], patch);
    if classData.Err? {
      return Err(classData.error);
    }
    db.classes := db.classes[found.value := classData.value];
    r := classData;
  }

  // ---------------------------------------------------------------------
  // deleteClass

  /** deleteClass as a function of the store: the class document goes, its
      bookings stay. */
  function Delete(s: State, id: ClassId): (out: Step<()>)
    ensures out.result.Err? ==> out.state == s && out.result.error == ClassNotFound
    ensures out.result.Err? <==> FindClass(s.classes, id).None?
    ensures out.result.Ok? ==>
      && var k := FindClass(s.classes, id).value;
      && out.state == s.(classes := s.classes[..k] + s.classes[k + 1..])
  {
    match FindClass(s.classes, id)
    case None => Step(Err(ClassNotFound), s)
    case Some(k) => Step(Ok(()), s.(classes := s.classes[..k] + s.classes[k + 1..]))
  }

  /** After a delete no class has that id, every other class is still
      there, and the class's bookings are left pointing at nothing. */
  lemma DeleteRemovesClass(s: State, id: ClassId)
    requires Valid(s) && FindClass(s.classes, id).Some?
    ensures var after := Delete(s, id).state;
      && Valid(after)
      && FindClass(after.classes, id).None?
      && (forall c :: c in s.classes && c.id != id ==> c in after.classes)
      && after.bookings == s.bookings
  {
    var k := FindClass(s.classes, id).value;
    var after := Delete(s, id).state;
    assert forall i :: 0 <= i < |after.classes| ==> after.classes[i] == s.classes[if i < k then i else i + 1];
    forall c | c in s.classes && c.id != id ensures c in after.classes {
      var i :| 0 <= i < |s.classes| && s.classes[i] == c;
      assert after.classes[if i < k then i else i - 1] == c;
    }
  }

  /** deleteClass (classController.js:156-180) on the live store. */
  method DeleteClass(db: Store, id: ClassId) returns (r: Result<()>)
    modifies db
    ensures r == Delete(old(db.Snapshot()), id).result
    ensures db.Snapshot() == Delete(old(db.Snapshot()), id).state
  {
    var found := FindClass(db.classes, id);
    if found.None? {
      return Err(ClassNotFound);
    }
    db.classes := db.classes[..found.value] + db.classes[found.value + 1..];
    r := Ok(());
  }
}
