/** Every step keeps the invariant, and what one state says of the past every later state remembers. */
module EngineRuns {
  import opened Options
  import opened Ids
  import opened Rooms
  import opened EngineTables
  import opened EngineSteps
  import opened EngineSystem
  import opened EngineInvariant
  import opened EngineRevisions
  import opened EngineRequests
  import opened EngineSubmissions
  import opened EngineBooking
  import opened EngineBookingKeeps
  import opened EngineXp
  import opened EngineErasure
  import R = Register

  lemma StepKeepsInv(cfg: Config, s: System, e: Event)
    requires Inv(cfg, s)
    ensures Inv(cfg, Step(cfg, s, e))
  {
    match e
    case ClaimEvent(worker, user, id, now) => ClaimKeepsInv(cfg, s, worker, user, id, now);
    case ReadEvent(worker, up) => ReadKeepsInv(cfg, s, worker, up);
    case BookEvent(worker, w, now) => BookKeepsInv(cfg, s, worker, w, now);
    case TombstoneEvent(user) => TombstoneKeepsInv(cfg, s, user);
    case EraseEvent(user) => EraseKeepsInv(cfg, s, user);
    case SkillDeletedEvent(skill) => SkillDeletedKeepsInv(cfg, s, skill);
    case _ => RequestKeepsInv(cfg, s, e);
  }

  lemma RequestKeepsInv(cfg: Config, s: System, e: Event)
    requires Inv(cfg, s) && IsRequest(e)
    ensures Inv(cfg, Step(cfg, s, e))
  {
    match e
    case PublishEvent(ask) => PublishKeepsInv(cfg, s, ask);
    case StartEvent(user, unit, goal, ask, w) => StartKeepsInv(cfg, s, user, unit, goal, ask, w);
    case SubmitEvent(user, unit, goal, ask, w) => SubmitKeepsInv(cfg, s, user, unit, goal, ask, w);
    case XpEvent(operation, request, w) => XpKeepsInv(cfg, s, operation, request, w);
    case RoomEvent(user, unit, ask, out) => RoomKeepsInv(cfg, s, user, unit, ask, out);
  }

  predicate IsRequest(e: Event) {
    e.PublishEvent? || e.StartEvent? || e.SubmitEvent? || e.RoomEvent? || e.XpEvent?
  }

  lemma {:induction false} RunKeepsInv(cfg: Config, s: System, events: seq<Event>)
    requires Inv(cfg, s)
    ensures Inv(cfg, Run(cfg, s, events))
    decreases events
  {
    if events != [] {
      StepKeepsInv(cfg, s, events[0]);
      RunKeepsInv(cfg, Step(cfg, s, events[0]), events[1..]);
    }
  }

  /** The invariant holds in every reachable state. */
  lemma ReachableInv(cfg: Config, events: seq<Event>)
    ensures Inv(cfg, Run(cfg, EMPTY, events))
  {
    EmptyInv(cfg);
    RunKeepsInv(cfg, EMPTY, events);
  }

  // ----- What later states remember -----------------------------------------------------------------------------

  /** What an accepted submission froze stays, and a booked one stays as it is. */
  ghost predicate SubmissionKept(a: Submission, b: Submission) {
    && b.key == a.key && b.revision == a.revision && b.startId == a.startId && b.inputHash == a.inputHash
    && b.input == a.input && b.job == a.job && b.acceptedAt == a.acceptedAt
    && (a.state == Booked ==> b == a)
    && (b.state == Accepted ==> LeaseGrows(a, b))
  }

  /** The first pass and its award stay. */
  ghost predicate PassKept(a: TaskState, b: TaskState) {
    a.passedAt.Some? ==> b.passedAt == a.passedAt && b.award == a.award && b.xpApplied == a.xpApplied
  }

  ghost predicate KeepsSubmission(subs: Submissions, subs': Submissions, gone: set<UserId>, id: Uuid)
    requires id in subs
  {
    subs[id].key.user in gone || (id in subs' && SubmissionKept(subs[id], subs'[id]))
  }

  ghost predicate KeepsState(states: States, states': States, gone: set<UserId>, k: TaskKey)
    requires k in states
  {
    k.user in gone || (k in states' && PassKept(states[k], states'[k]))
  }

  ghost predicate KeepsRoom(rooms: Rows, rooms': Rows, gone: set<UserId>, d: RoomKey)
    requires d in rooms
  {
    d.user in gone || (d in rooms' && KeepsAchievement(Some(rooms[d]), Some(rooms'[d])))
  }

  ghost predicate KeepsLog(bookings: map<TaskKey, seq<Booking>>, bookings': map<TaskKey, seq<Booking>>,
                           gone: set<UserId>, k: TaskKey)
  {
    k.user in gone || LogOf(bookings, k) <= LogOf(bookings', k)
  }

  ghost predicate KeepsSubmissions(subs: Submissions, subs': Submissions, gone: set<UserId>) {
    forall id {:trigger KeepsSubmission(subs, subs', gone, id)} | id in subs :: KeepsSubmission(subs, subs', gone, id)
  }

  ghost predicate KeepsStates(states: States, states': States, gone: set<UserId>) {
    forall k {:trigger KeepsState(states, states', gone, k)} | k in states :: KeepsState(states, states', gone, k)
  }

  ghost predicate KeepsRooms(rooms: Rows, rooms': Rows, gone: set<UserId>) {
    forall d {:trigger KeepsRoom(rooms, rooms', gone, d)} | d in rooms :: KeepsRoom(rooms, rooms', gone, d)
  }

  ghost predicate KeepsLogs(bookings: map<TaskKey, seq<Booking>>, bookings': map<TaskKey, seq<Booking>>,
                            gone: set<UserId>)
  {
    forall k {:trigger KeepsLog(bookings, bookings', gone, k)} :: KeepsLog(bookings, bookings', gone, k)
  }

  /** Unless its account's data was deleted, all of this stays. */
  ghost predicate Remembers(s: System, s': System) {
    && s.wiped <= s'.wiped && s.db.erased <= s'.db.erased && s.paid <= s'.paid
    && Extends(s.db.revisions, s'.db.revisions)
    && KeepsSubmissions(s.db.submissions, s'.db.submissions, s'.wiped)
    && KeepsStates(s.db.states, s'.db.states, s'.wiped)
    && KeepsRooms(s.db.rooms, s'.db.rooms, s'.wiped)
    && KeepsLogs(s.bookings, s'.bookings, s'.wiped)
  }

  lemma RemembersTransitively(a: System, b: System, c: System)
    requires Remembers(a, b) && Remembers(b, c)
    ensures Remembers(a, c)
  {
    RemembersTables(a, b, c);
    forall id | id in a.db.revisions ensures Alike(a.db.revisions, c.db.revisions, id) {
      assert Alike(a.db.revisions, b.db.revisions, id) && Alike(b.db.revisions, c.db.revisions, id);
    }
    forall k ensures KeepsLog(a.bookings, c.bookings, c.wiped, k) {
      assert KeepsLog(a.bookings, b.bookings, b.wiped, k) && KeepsLog(b.bookings, c.bookings, c.wiped, k);
    }
  }

  lemma RemembersTables(a: System, b: System, c: System)
    requires Remembers(a, b) && Remembers(b, c)
    ensures KeepsSubmissions(a.db.submissions, c.db.submissions, c.wiped)
    ensures KeepsStates(a.db.states, c.db.states, c.wiped)
    ensures KeepsRooms(a.db.rooms, c.db.rooms, c.wiped)
  {
    forall id | id in a.db.submissions ensures KeepsSubmission(a.db.submissions, c.db.submissions, c.wiped, id) {
      assert KeepsSubmission(a.db.submissions, b.db.submissions, b.wiped, id);
      if id in b.db.submissions { assert KeepsSubmission(b.db.submissions, c.db.submissions, c.wiped, id); }
    }
    forall k | k in a.db.states ensures KeepsState(a.db.states, c.db.states, c.wiped, k) {
      assert KeepsState(a.db.states, b.db.states, b.wiped, k);
      if k in b.db.states { assert KeepsState(b.db.states, c.db.states, c.wiped, k); }
    }
    forall d | d in a.db.rooms ensures KeepsRoom(a.db.rooms, c.db.rooms, c.wiped, d) {
      assert KeepsRoom(a.db.rooms, b.db.rooms, b.wiped, d);
      if d in b.db.rooms { assert KeepsRoom(b.db.rooms, c.db.rooms, c.wiped, d); }
    }
  }

  // ----- Each step remembers --------------------------------------------------------------------------------------

  lemma SameTablesKept(s: System, gone: set<UserId>)
    ensures KeepsSubmissions(s.db.submissions, s.db.submissions, gone)
    ensures KeepsStates(s.db.states, s.db.states, gone)
    ensures KeepsRooms(s.db.rooms, s.db.rooms, gone)
    ensures KeepsLogs(s.bookings, s.bookings, gone)
    ensures Extends(s.db.revisions, s.db.revisions)
  {}

  lemma PublishRemembers(cfg: Config, s: System, ask: PublishAsk)
    requires Inv(cfg, s)
    ensures Remembers(s, s.(db := Publish(cfg, s.db, ask).0))
  {
    SameTablesKept(s, s.wiped);
    if PublishRefusal(cfg, s.db, ask).None? {
      ActivateFrame(s.db, ask);
      PublishKeepsRevisions(cfg, s.db, ask);
    }
  }

  lemma StatesOnlyRemembers(s: System, s': System)
    requires s' == s.(db := s.db.(uuids := s'.db.uuids, states := s'.db.states), born := s'.born)
    requires KeepsStates(s.db.states, s'.db.states, s.wiped)
    ensures Remembers(s, s')
  {
    SameTablesKept(s, s.wiped);
  }

  /** A start changes one state at most, and keeps its passes. */
  lemma StartKeepsPasses(cfg: Config, db: Db, key: TaskKey, active: Uuid, ask: StartAsk, w: World, gone: set<UserId>)
    requires StatesInv(db.uuids, db.revisions, db.states) && active in db.revisions
    requires SubmissionsInv(cfg, db.uuids, db.revisions, db.states, db.submissions)
    requires StartTask(db, key, active, ask, w).1.Started?
    ensures var db' := StartTask(db, key, active, ask, w).0;
            db' == db.(uuids := db'.uuids, states := db'.states) && KeepsStates(db.states, db'.states, gone)
  {
    StartShape(cfg, db, key, active, ask, w);
    var states := StartTask(db, key, active, ask, w).0.states;
    assert key in db.states ==> PassKept(db.states[key], states[key]);
    assert forall k | k in db.states && k != key :: states[k] == db.states[k];
  }

  lemma StartRemembers(cfg: Config, s: System, user: UserId, unit: UnitId, goal: GoalId, ask: StartAsk, w: World)
    requires Inv(cfg, s)
    ensures Remembers(s, StepStart(cfg, s, user, unit, goal, ask, w))
  {
    var s' := StepStart(cfg, s, user, unit, goal, ask, w);
    if Start(cfg, s.db, user, unit, goal, ask, w).1.Started? {
      StartKeepsPasses(cfg, s.db, TaskKey(user, unit, goal), ActiveRevision(s.db, unit).value, ask, w, s.wiped);
    } else {
      RefusedStart(cfg, s.db, user, unit, goal, ask, w);
      SameTablesKept(s, s.wiped);
    }
    StatesOnlyRemembers(s, s');
  }

  lemma RefusedStart(cfg: Config, db: Db, user: UserId, unit: UnitId, goal: GoalId, ask: StartAsk, w: World)
    requires !Start(cfg, db, user, unit, goal, ask, w).1.Started?
    ensures Start(cfg, db, user, unit, goal, ask, w).0 == db
  {}

  lemma SubmitRemembers(cfg: Config, s: System, user: UserId, unit: UnitId, goal: GoalId, ask: SubmitAsk, w: World)
    requires Inv(cfg, s)
    ensures Remembers(s, s.(db := Submit(cfg, s.db, user, unit, goal, ask, w).0))
  {
    SameTablesKept(s, s.wiped);
    var (db, reply) := Submit(cfg, s.db, user, unit, goal, ask, w);
    if reply.Created? {
      FreshIsNew(cfg, s.db);
      SubmitShape(s.db, TaskKey(user, unit, goal), ask, w);
      forall id | id in s.db.submissions ensures KeepsSubmission(s.db.submissions, db.submissions, s.wiped, id) {}
    } else {
      assert db == s.db;
    }
  }

  lemma ClaimRemembers(s: System, worker: nat, user: UserId, id: Uuid, now: Time)
    ensures Remembers(s, StepClaim(s, worker, user, id, now))
  {
    SameTablesKept(s, s.wiped);
    StepClaimShape(s, worker, user, id, now);
    ClaimShape(s.db, id, now);
    var subs := Claim(s.db, id, now).0.submissions;
    forall o | o in s.db.submissions ensures KeepsSubmission(s.db.submissions, subs, s.wiped, o) {
      assert Leased(s.db.submissions[o], subs[o]);
    }
  }

  lemma StepClaimShape(s: System, worker: nat, user: UserId, id: Uuid, now: Time)
    ensures var s' := StepClaim(s, worker, user, id, now);
            && s' == s.(db := s'.db, workers := s'.workers)
            && (s'.db == s.db || s'.db == Claim(s.db, id, now).0)
  {}

  lemma BookedRemembers(cfg: Config, s: System, n: nat, r: Reading, task: Task, award: Award, level: Level, now: Time)
    requires StatesInv(s.db.uuids, s.db.revisions, s.db.states) && Finds(cfg, s.db, r)
    requires CompletionInv(cfg.catalogue, s.db.revisions, s.db.states, s.db.rooms)
    requires RoomsInv(cfg.catalogue, s.db.rooms) && RevisionsInv(cfg.catalogue, s.db.uuids, s.db.revisions)
    ensures Remembers(s, AfterBooking(s, n, r, task, award, level, now))
  {
    var s' := AfterBooking(s, n, r, task, award, level, now);
    SameTablesKept(s, s.wiped);
    AfterBookTables(s.db, r, task, award, level, now);
    assert StateOk(s.db.revisions, s.db.uuids, s.db.states[r.key], r.key);
    forall k | k in s.db.states ensures KeepsState(s.db.states, s'.db.states, s.wiped, k) {}
    forall id | id in s.db.submissions ensures KeepsSubmission(s.db.submissions, s'.db.submissions, s.wiped, id) {}
    forall k ensures KeepsLog(s.bookings, s'.bookings, s.wiped, k) {}
    BookKeepsAchievements(cfg, s.db, r, task, award, level, now, s.wiped);
  }

  /** A booking completes only a room of the engine, which is neither completed nor skipped before. */
  lemma BookKeepsAchievements(cfg: Config, db: Db, r: Reading, task: Task, award: Award, level: Level, now: Time,
                              gone: set<UserId>)
    requires Finds(cfg, db, r) && RevisionsInv(cfg.catalogue, db.uuids, db.revisions) && RoomsInv(cfg.catalogue, db.rooms)
    ensures KeepsRooms(db.rooms, AfterBook(db, r, task, award, level, now).rooms, gone)
  {
    var rooms, d := AfterBook(db, r, task, award, level, now).rooms, R.Doc(r.key.user, r.key.unit);
    OnlyCompletes(db, r, task, award, level, now);
    if d in db.rooms { EngineRoomIsOpen(cfg, db, db.submissions[r.id].revision, d); }
    forall o | o in db.rooms ensures KeepsRoom(db.rooms, rooms, gone, o) {}
  }

  /** A booking changes no room but that of its unit, and completes that at most. */
  lemma OnlyCompletes(db: Db, r: Reading, task: Task, award: Award, level: Level, now: Time)
    requires r.key in db.states && r.id in db.submissions
    ensures var rooms, d := AfterBook(db, r, task, award, level, now).rooms, R.Doc(r.key.user, r.key.unit);
            rooms == db.rooms || CompletesRoom(db.rooms, rooms, d)
  {
    CompleteUnitShape(PaidFor(db, r, award).(states := StatesAfter(db, r, award, level, now),
                                             submissions := SubmissionsAfter(db, r, task, now)),
                      r.key.user, r.key.unit, r.revision.terms);
  }

  predicate CompletesRoom(rooms: Rows, rooms': Rows, d: RoomKey) {
    && d in rooms && rooms[d].status != Completed
    && rooms' == rooms[d := rooms[d].(status := Completed, result := Some(Passed))]
  }

  lemma CompleteUnitShape(db: Db, user: UserId, unit: UnitId, terms: seq<Terms>)
    ensures var rooms := CompleteUnit(db, user, unit, terms).rooms;
            rooms == db.rooms || CompletesRoom(db.rooms, rooms, R.Doc(user, unit))
  {}

  /** A room of an engine unit is completed, or neither completed nor skipped. */
  lemma EngineRoomIsOpen(cfg: Config, db: Db, id: Uuid, d: RoomKey)
    requires RevisionsInv(cfg.catalogue, db.uuids, db.revisions) && RoomsInv(cfg.catalogue, db.rooms)
    requires id in db.revisions && db.revisions[id].unit == d.name && d in db.rooms
    ensures db.rooms[d].status == Completed || !IsFinished(db.rooms[d].status)
  {
    assert RevisionOk(cfg.catalogue, db.uuids, db.revisions[id], id);
    assert RoomRowOk(cfg.catalogue, d, db.rooms[d]);
  }

  lemma BookRemembers(cfg: Config, s: System, n: nat, w: XpWorld, now: Time)
    requires Inv(cfg, s)
    ensures Remembers(s, StepBook(s, n, w, now))
  {
    SameTablesKept(s, s.wiped);
    if n in s.workers && s.workers[n].Deciding? {
      var r := s.workers[n].reading;
      assert WorkOk(cfg, s.db.uuids, s.db.revisions, s.db.submissions, s.wiped, s.workers[n]);
      if r.key.user !in s.db.erased && r.id in s.db.submissions && s.db.submissions[r.id].state == Accepted {
        AcceptedFinds(cfg, s.db, r, s.wiped);
        var task, award, level := BookShape(cfg, s.db, r, w, now);
        if Book(s.db, r, w, now).1.BookedNow? {
          BookedRemembers(cfg, s, n, r, task, award, level, now);
          StepBookIsAfterBooking(s, n, r, task, award, level, w, now);
        }
      } else {
        LateChangesNothing(cfg, s, r, w, now);
      }
    }
  }

  lemma XpRemembers(cfg: Config, s: System, id: string, request: XpRequest, w: XpWorld)
    requires Inv(cfg, s)
    ensures Remembers(s, s.(db := ApplyXp(s.db, OtherOperation(id), request, w).0))
  {
    SameTablesKept(s, s.wiped);
    var op := OtherOperation(id);
    if op in s.db.operations { assert OperationOk(s.db.states, op, s.db.operations[op]); }
    ApplyXpShape(s.db, op, request, w);
  }

  lemma RoomRemembers(cfg: Config, s: System, user: UserId, unit: UnitId, ask: Ask, out: Outside)
    requires Inv(cfg, s)
    ensures Remembers(s, s.(db := MutateRoom(cfg, s.db, user, unit, ask, out).0))
  {
    SameTablesKept(s, s.wiped);
    MutateShape(cfg, s.db, user, unit, ask, out);
    var (db, reply) := MutateRoom(cfg, s.db, user, unit, ask, out);
    if reply.RoomSaved? {
      forall d | d in s.db.rooms ensures KeepsRoom(s.db.rooms, db.rooms, s.wiped, d) {}
    }
  }

  lemma EraseRemembers(s: System, user: UserId)
    ensures Remembers(s, StepErase(s, user))
  {
    var s' := StepErase(s, user);
    SameTablesKept(s, s'.wiped);
    forall id | id in s.db.submissions ensures KeepsSubmission(s.db.submissions, s'.db.submissions, s'.wiped, id) {}
    forall k | k in s.db.states ensures KeepsState(s.db.states, s'.db.states, s'.wiped, k) {}
    forall d | d in s.db.rooms ensures KeepsRoom(s.db.rooms, s'.db.rooms, s'.wiped, d) {}
    forall k ensures KeepsLog(s.bookings, s'.bookings, s'.wiped, k) {}
  }

  lemma ReadRemembers(cfg: Config, s: System, worker: nat, up: bool)
    ensures Remembers(s, StepRead(cfg, s, worker, up))
  {
    SameTablesKept(s, s.wiped);
  }

  lemma TombstoneRemembers(s: System, user: UserId)
    ensures Remembers(s, s.(db := Tombstone(s.db, user)))
  {
    SameTablesKept(s, s.wiped);
  }

  lemma SkillDeletedRemembers(s: System, skill: SkillId)
    ensures Remembers(s, StepSkillDeleted(s, skill))
  {
    SameTablesKept(s, s.wiped);
  }

  lemma RequestRemembers(cfg: Config, s: System, e: Event)
    requires Inv(cfg, s) && IsRequest(e)
    ensures Remembers(s, Step(cfg, s, e))
  {
    match e
    case PublishEvent(ask) => PublishRemembers(cfg, s, ask);
    case StartEvent(user, unit, goal, ask, w) => StartRemembers(cfg, s, user, unit, goal, ask, w);
    case SubmitEvent(user, unit, goal, ask, w) => SubmitRemembers(cfg, s, user, unit, goal, ask, w);
    case XpEvent(operation, request, w) => XpRemembers(cfg, s, operation, request, w);
    case RoomEvent(user, unit, ask, out) => RoomRemembers(cfg, s, user, unit, ask, out);
  }

  lemma StepRemembers(cfg: Config, s: System, e: Event)
    requires Inv(cfg, s)
    ensures Remembers(s, Step(cfg, s, e))
  {
    match e
    case ClaimEvent(worker, user, id, now) => ClaimRemembers(s, worker, user, id, now);
    case ReadEvent(worker, up) => ReadRemembers(cfg, s, worker, up);
    case BookEvent(worker, w, now) => BookRemembers(cfg, s, worker, w, now);
    case TombstoneEvent(user) => TombstoneRemembers(s, user);
    case EraseEvent(user) => EraseRemembers(s, user);
    case SkillDeletedEvent(skill) => SkillDeletedRemembers(s, skill);
    case _ => RequestRemembers(cfg, s, e);
  }

  /** Over any run, with any interleaving, every later state remembers every earlier one. */
  lemma {:induction false} RunRemembers(cfg: Config, s: System, events: seq<Event>)
    requires Inv(cfg, s)
    ensures Remembers(s, Run(cfg, s, events))
    decreases events
  {
    if events == [] {
      SameTablesKept(s, s.wiped);
    } else {
      var next := Step(cfg, s, events[0]);
      StepKeepsInv(cfg, s, events[0]);
      StepRemembers(cfg, s, events[0]);
      RunRemembers(cfg, next, events[1..]);
      RemembersTransitively(s, next, Run(cfg, next, events[1..]));
    }
  }
}
