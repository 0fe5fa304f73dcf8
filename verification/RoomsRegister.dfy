/**
 Rooms refine the exactly-once register with four kept receipts: a room change that is saved or replayed is one
 save of the register, and every other step of the lesson engine leaves the register as it is.
 */
module RoomsRegister {
  import opened Ids
  import opened Rooms
  import opened EngineTables
  import opened EngineSteps
  import opened EngineSystem
  import opened EngineInvariant
  import opened EngineRequests
  import opened EngineBooking
  import opened EngineBookingKeeps
  import opened EngineErasure
  import opened EngineRuns
  import R = Register

  function Revisions(rooms: Rows): map<R.Doc, nat> {
    map d | d in rooms :: rooms[d].revision
  }

  /** The register in the tables: the erased users, the revisions of the rooms, and the kept receipts. */
  function RegisterOf(db: Db): R.Store<Ask, Progress> {
    R.Store(db.erased, Revisions(db.rooms), db.roomRequests)
  }

  /** What a step of the engine does to the register. */
  function RegisterSteps(cfg: Config, s: System, e: Event): seq<R.Event<Ask, Progress>> {
    match e
    case RoomEvent(user, unit, ask, out) =>
      var reply := MutateRoom(cfg, s.db, user, unit, ask, out).1;
      if reply.RoomSaved? then [R.SaveEvent(R.Key(user, ask.id), RoomMark(user, unit, ask), reply.progress)] else []
    case TombstoneEvent(user) => [R.TombstoneEvent(user)]
    case EraseEvent(user) => [R.EraseEvent(user)]
    case _ => []
  }

  function RegisterRun(cfg: Config, s: System, events: seq<Event>): seq<R.Event<Ask, Progress>>
    decreases events
  {
    if events == [] then []
    else RegisterSteps(cfg, s, events[0]) + RegisterRun(cfg, Step(cfg, s, events[0]), events[1..])
  }

  // ----- One room change ------------------------------------------------------------------------------------

  /** A saved room change is an accepted save of the register. */
  lemma SavedIsAccepted(cfg: Config, db: Db, user: UserId, unit: UnitId, ask: Ask, out: Outside)
    requires RoomsInv(cfg.catalogue, db.rooms)
    requires MutateRoom(cfg, db, user, unit, ask, out).1.RoomSaved?
    ensures var (db', reply) := MutateRoom(cfg, db, user, unit, ask, out);
            R.Save(RegisterOf(db), KEPT_ROOM_RECEIPTS, R.Key(user, ask.id), RoomMark(user, unit, ask), reply.progress)
            == (RegisterOf(db'), R.Accepted(reply.progress))
  {
    var found, d := Find(cfg.catalogue, unit).value, R.Doc(user, unit);
    var (db', reply) := MutateRoom(cfg, db, user, unit, ask, out);
    if d in db.rooms { assert RoomRowOk(cfg.catalogue, d, db.rooms[d]); }
    AchievementIsAbsorbing(found, Get(db.rooms, d), ask, out);
    SavedRoomAdvances(db, user, unit, ask, db'.rooms[d], reply.progress);
  }

  lemma SavedRoomAdvances(db: Db, user: UserId, unit: UnitId, ask: Ask, row: Room, answer: Progress)
    requires row.revision == ask.expected + 1
    ensures var d := R.Doc(user, unit);
            RegisterOf(db.(rooms := db.rooms[d := row],
                           roomRequests := R.Prune(db.roomRequests[R.Key(user, ask.id) := R.Receipt(ask.expected + 1, RoomMark(user, unit, ask), answer)],
                                                   d, KEPT_ROOM_RECEIPTS)))
            == R.Advance(RegisterOf(db), KEPT_ROOM_RECEIPTS, R.Key(user, ask.id), RoomMark(user, unit, ask), answer)
  {
    assert Revisions(db.rooms[R.Doc(user, unit) := row]) == Revisions(db.rooms)[R.Doc(user, unit) := ask.expected + 1];
  }

  /** A retry in the register's terms: replayed with the receipt's answer, or refused; saved only if accepted anew. */
  lemma RetryFollowsRegister(cfg: Config, db: Db, user: UserId, unit: UnitId, ask: Ask, out: Outside, other: Progress)
    requires var reply := R.Save(RegisterOf(db), KEPT_ROOM_RECEIPTS, R.Key(user, ask.id), RoomMark(user, unit, ask), other).1;
             reply != R.Accepted(other)
    ensures var retry := R.Save(RegisterOf(db), KEPT_ROOM_RECEIPTS, R.Key(user, ask.id), RoomMark(user, unit, ask), other).1;
            var (db', reply) := MutateRoom(cfg, db, user, unit, ask, out);
            && db' == db && (reply.RoomReplayed? || reply.RoomRefused?)
            && (reply.RoomReplayed? ==> retry == R.Replayed(reply.progress))
            && (retry.Replayed? ==> reply == RoomReplayed(retry.answer) || (reply.RoomRefused? && reply.code in {403, 404}))
  {}

  // ----- Every step ---------------------------------------------------------------------------------------------

  /** Bookings complete rooms without raising their revision. */
  lemma BookKeepsRegister(cfg: Config, s: System, n: nat, w: XpWorld, now: Time)
    requires Inv(cfg, s)
    ensures RegisterOf(StepBook(s, n, w, now).db) == RegisterOf(s.db)
  {
    if n in s.workers && s.workers[n].Deciding? {
      var r := s.workers[n].reading;
      assert WorkOk(cfg, s.db.uuids, s.db.revisions, s.db.submissions, s.wiped, s.workers[n]);
      if r.key.user !in s.db.erased && r.id in s.db.submissions && s.db.submissions[r.id].state == Accepted {
        AcceptedFinds(cfg, s.db, r, s.wiped);
        var task, award, level := BookShape(cfg, s.db, r, w, now);
        if Book(s.db, r, w, now).1.BookedNow? { AfterBookKeepsRegister(s.db, r, task, award, level, now); }
      } else {
        LateChangesNothing(cfg, s, r, w, now);
      }
    }
  }

  lemma CompletingKeepsRevisions(db: Db, user: UserId, unit: UnitId, terms: seq<Terms>)
    ensures Revisions(CompleteUnit(db, user, unit, terms).rooms) == Revisions(db.rooms)
  {}

  lemma AfterBookKeepsRegister(db: Db, r: Reading, task: Task, award: Award, level: Level, now: Time)
    requires r.key in db.states && r.id in db.submissions
    ensures RegisterOf(AfterBook(db, r, task, award, level, now)) == RegisterOf(db)
  {
    AfterBookTables(db, r, task, award, level, now);
    var booked := PaidFor(db, r, award).(states := StatesAfter(db, r, award, level, now),
                                         submissions := SubmissionsAfter(db, r, task, now));
    CompletingKeepsRevisions(booked, r.key.user, r.key.unit, r.revision.terms);
  }

  /** The tables of the register are untouched. */
  predicate SameRegister(db: Db, db': Db) {
    db'.erased == db.erased && db'.rooms == db.rooms && db'.roomRequests == db.roomRequests
  }

  lemma PublishKeepsRegister(cfg: Config, db: Db, ask: PublishAsk)
    ensures SameRegister(db, Publish(cfg, db, ask).0)
  {}

  lemma StartKeepsRegister(cfg: Config, db: Db, user: UserId, unit: UnitId, goal: GoalId, ask: StartAsk, w: World)
    requires StatesInv(db.uuids, db.revisions, db.states)
    requires SubmissionsInv(cfg, db.uuids, db.revisions, db.states, db.submissions)
    ensures SameRegister(db, Start(cfg, db, user, unit, goal, ask, w).0)
  {
    var (db', reply) := Start(cfg, db, user, unit, goal, ask, w);
    if reply.Started? {
      StartShape(cfg, db, TaskKey(user, unit, goal), ActiveRevision(db, unit).value, ask, w);
    } else {
      assert db' == db;
    }
  }

  lemma SubmitKeepsRegister(cfg: Config, db: Db, user: UserId, unit: UnitId, goal: GoalId, ask: SubmitAsk, w: World)
    ensures SameRegister(db, Submit(cfg, db, user, unit, goal, ask, w).0)
  {}

  lemma ClaimKeepsRegister(db: Db, id: Uuid, now: Time)
    ensures SameRegister(db, Claim(db, id, now).0)
  {}

  lemma XpKeepsRegister(db: Db, op: OperationId, request: XpRequest, w: XpWorld)
    ensures SameRegister(db, ApplyXp(db, op, request, w).0)
  {}

  lemma ReadKeepsDb(cfg: Config, s: System, worker: nat, up: bool)
    ensures StepRead(cfg, s, worker, up).db == s.db
  {}

  lemma QuietKeepsRegister(cfg: Config, s: System, e: Event)
    requires e.ClaimEvent? || e.ReadEvent? || e.SkillDeletedEvent?
    ensures SameRegister(s.db, Step(cfg, s, e).db)
  {
    match e
    case ClaimEvent(worker, user, id, now) => ClaimKeepsRegister(s.db, id, now);
    case ReadEvent(worker, up) => ReadKeepsDb(cfg, s, worker, up);
    case SkillDeletedEvent(skill) =>
  }

  /** Requests and operators other than room changes and erasures leave the register alone. */
  lemma OthersKeepRegister(cfg: Config, s: System, e: Event)
    requires e.PublishEvent? || e.StartEvent? || e.SubmitEvent? || e.ClaimEvent? || e.ReadEvent? || e.XpEvent?
             || e.SkillDeletedEvent?
    requires Inv(cfg, s)
    ensures SameRegister(s.db, Step(cfg, s, e).db)
  {
    match e
    case PublishEvent(ask) => PublishKeepsRegister(cfg, s.db, ask);
    case StartEvent(user, unit, goal, ask, w) => StartKeepsRegister(cfg, s.db, user, unit, goal, ask, w);
    case SubmitEvent(user, unit, goal, ask, w) => SubmitKeepsRegister(cfg, s.db, user, unit, goal, ask, w);
    case XpEvent(operation, request, w) => XpKeepsRegister(s.db, OtherOperation(operation), request, w);
    case _ => QuietKeepsRegister(cfg, s, e);
  }

  lemma EraseIsErase(db: Db, user: UserId)
    ensures RegisterOf(Erase(db, user)) == R.Erase(RegisterOf(db), user)
  {
    assert Revisions(Erase(db, user).rooms) == R.Erase(RegisterOf(db), user).revisions;
  }

  /** The register after the step's own saves, tombstones and erasures is that of the tables after the step. */
  ghost predicate Refines(cfg: Config, s: System, e: Event, t: R.Traced<Ask, Progress>) {
    R.Run(t, KEPT_ROOM_RECEIPTS, RegisterSteps(cfg, s, e)).store == RegisterOf(Step(cfg, s, e).db)
  }

  lemma SaveRefines(cfg: Config, s: System, user: UserId, unit: UnitId, ask: Ask, out: Outside,
                    t: R.Traced<Ask, Progress>)
    requires Inv(cfg, s) && t.store == RegisterOf(s.db)
    ensures Refines(cfg, s, RoomEvent(user, unit, ask, out), t)
  {
    MutateShape(cfg, s.db, user, unit, ask, out);
    if MutateRoom(cfg, s.db, user, unit, ask, out).1.RoomSaved? {
      SavedIsAccepted(cfg, s.db, user, unit, ask, out);
      R.OneStep(t, KEPT_ROOM_RECEIPTS, RegisterSteps(cfg, s, RoomEvent(user, unit, ask, out))[0]);
    }
  }

  lemma TombstoneRefines(cfg: Config, s: System, user: UserId, t: R.Traced<Ask, Progress>)
    requires t.store == RegisterOf(s.db)
    ensures Refines(cfg, s, TombstoneEvent(user), t)
  {
    R.OneStep(t, KEPT_ROOM_RECEIPTS, R.TombstoneEvent(user));
  }

  lemma EraseRefines(cfg: Config, s: System, user: UserId, t: R.Traced<Ask, Progress>)
    requires t.store == RegisterOf(s.db)
    ensures Refines(cfg, s, EraseEvent(user), t)
  {
    R.OneStep(t, KEPT_ROOM_RECEIPTS, R.EraseEvent(user));
    EraseIsErase(s.db, user);
  }

  lemma StepRefines(cfg: Config, s: System, e: Event, t: R.Traced<Ask, Progress>)
    requires Inv(cfg, s) && t.store == RegisterOf(s.db)
    ensures Refines(cfg, s, e, t)
  {
    match e
    case RoomEvent(user, unit, ask, out) => SaveRefines(cfg, s, user, unit, ask, out, t);
    case TombstoneEvent(user) => TombstoneRefines(cfg, s, user, t);
    case EraseEvent(user) => EraseRefines(cfg, s, user, t);
    case _ => OthersRefine(cfg, s, e, t);
  }

  lemma OthersRefine(cfg: Config, s: System, e: Event, t: R.Traced<Ask, Progress>)
    requires Inv(cfg, s) && t.store == RegisterOf(s.db)
    requires !e.RoomEvent? && !e.TombstoneEvent? && !e.EraseEvent?
    ensures Refines(cfg, s, e, t)
  {
    if e.BookEvent? { BookKeepsRegister(cfg, s, e.worker, e.xpWorld, e.now); } else { OthersKeepRegister(cfg, s, e); }
  }

  /** Over every run of the engine, the rooms are the register after the run's own saves, tombstones and erasures. */
  lemma {:induction false} RunRefines(cfg: Config, s: System, events: seq<Event>, t: R.Traced<Ask, Progress>)
    requires Inv(cfg, s) && t.store == RegisterOf(s.db)
    ensures R.Run(t, KEPT_ROOM_RECEIPTS, RegisterRun(cfg, s, events)).store == RegisterOf(Run(cfg, s, events).db)
    decreases events
  {
    if events != [] {
      var first, rest := RegisterSteps(cfg, s, events[0]), RegisterRun(cfg, Step(cfg, s, events[0]), events[1..]);
      StepRefines(cfg, s, events[0], t);
      StepKeepsInv(cfg, s, events[0]);
      R.RunAppend(t, KEPT_ROOM_RECEIPTS, first, rest);
      RunRefines(cfg, Step(cfg, s, events[0]), events[1..], R.Run(t, KEPT_ROOM_RECEIPTS, first));
    }
  }

  /** From the empty tables, so that what holds in every reachable register holds of the rooms. */
  lemma RoomsAreARegister(cfg: Config, events: seq<Event>)
    ensures R.Run(R.Empty(), KEPT_ROOM_RECEIPTS, RegisterRun(cfg, EMPTY, events)).store
         == RegisterOf(Run(cfg, EMPTY, events).db)
  {
    EmptyInv(cfg);
    RunRefines(cfg, EMPTY, events, R.Empty());
  }

  /** The receipts of a room are those of its last four revisions, or of all while there are fewer. */
  lemma RoomsKeepFour(cfg: Config, events: seq<Event>, d: RoomKey, r: nat)
    ensures var db := Run(cfg, EMPTY, events).db;
            var n := R.Revision(Revisions(db.rooms), d);
            (exists k :: k in db.roomRequests && db.roomRequests[k].fingerprint.doc == d && db.roomRequests[k].revision == r)
            <==> 1 <= r <= n && r > n - KEPT_ROOM_RECEIPTS
  {
    RoomsAreARegister(cfg, events);
    R.KeptRevisions(KEPT_ROOM_RECEIPTS, RegisterRun(cfg, EMPTY, events), d, r);
  }

  // ----- Exactly once -----------------------------------------------------------------------------------------------

  /**
   A saved room change is never saved again. In every later state its exact retry changes nothing: it gets the original
   answer while the change is one of the room's last four, if the unit still admits the learner, and is refused otherwise.
   */
  lemma RoomRetryIsExactlyOnce(cfg: Config, earlier: seq<Event>, user: UserId, unit: UnitId, ask: Ask, out: Outside,
                               later: seq<Event>, again: Outside)
    requires MutateRoom(cfg, Run(cfg, EMPTY, earlier).db, user, unit, ask, out).1.RoomSaved?
    ensures var s := Run(cfg, EMPTY, earlier);
            var saved := MutateRoom(cfg, s.db, user, unit, ask, out).1.progress;
            var db := Run(cfg, Step(cfg, s, RoomEvent(user, unit, ask, out)), later).db;
            var (db', reply) := MutateRoom(cfg, db, user, unit, ask, again);
            var kept := user !in db.erased && ask.expected >= R.Revision(Revisions(db.rooms), R.Doc(user, unit)) - KEPT_ROOM_RECEIPTS;
            && db' == db
            && (if kept then reply == RoomReplayed(saved) || (reply.RoomRefused? && reply.code in {403, 404})
                else reply.RoomRefused?)
  {
    var s := Run(cfg, EMPTY, earlier);
    var e := RoomEvent(user, unit, ask, out);
    var next := Step(cfg, s, e);
    var saved := MutateRoom(cfg, s.db, user, unit, ask, out).1.progress;
    ReachableInv(cfg, earlier);
    StepKeepsInv(cfg, s, e);
    RoomsAreARegister(cfg, earlier);
    SavedIsAccepted(cfg, s.db, user, unit, ask, out);
    RetryInRegister(cfg, earlier, e, later, R.Key(user, ask.id), RoomMark(user, unit, ask), saved);
    RetryFollowsRegister(cfg, Run(cfg, next, later).db, user, unit, ask, again, saved);
  }

  lemma RetryInRegister(cfg: Config, earlier: seq<Event>, e: Event, later: seq<Event>, key: R.Key,
                        mark: R.Fingerprint<Ask>, saved: Progress)
    requires key.user == mark.doc.user && Inv(cfg, Run(cfg, EMPTY, earlier))
    requires RegisterSteps(cfg, Run(cfg, EMPTY, earlier), e) == [R.SaveEvent(key, mark, saved)]
    requires R.Save(RegisterOf(Run(cfg, EMPTY, earlier).db), KEPT_ROOM_RECEIPTS, key, mark, saved).1.Accepted?
    ensures var store := RegisterOf(Run(cfg, Step(cfg, Run(cfg, EMPTY, earlier), e), later).db);
            var reply := R.Save(store, KEPT_ROOM_RECEIPTS, key, mark, saved).1;
            if mark.doc.user in store.erased then reply == R.Gone
            else if mark.expected >= R.Revision(store.revisions, mark.doc) - KEPT_ROOM_RECEIPTS then reply == R.Replayed(saved)
            else reply == R.Reused || reply == R.Stale
  {
    var s := Run(cfg, EMPTY, earlier);
    var next := Step(cfg, s, e);
    var before, after := RegisterRun(cfg, EMPTY, earlier), RegisterRun(cfg, next, later);
    RoomsAreARegister(cfg, earlier);
    var t := R.Run(R.Empty(), KEPT_ROOM_RECEIPTS, before);
    StepRefines(cfg, s, e, t);
    R.OneStep(t, KEPT_ROOM_RECEIPTS, R.SaveEvent(key, mark, saved));
    StepKeepsInv(cfg, s, e);
    RunRefines(cfg, next, later, R.Step(t, KEPT_ROOM_RECEIPTS, R.SaveEvent(key, mark, saved)));
    R.RetryIsExactlyOnce(KEPT_ROOM_RECEIPTS, before, key, mark, saved, after, saved);
  }
}
