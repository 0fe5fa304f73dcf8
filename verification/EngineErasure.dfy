/** Room changes, the tombstone and the erasure keep the invariant. */
module EngineErasure {
  import opened Options
  import opened Ids
  import opened Canonical
  import opened Rooms
  import opened EngineTables
  import opened EngineSteps
  import opened EngineSystem
  import opened EngineInvariant
  import opened EngineRevisions
  import opened EngineXp
  import R = Register

  // ----- Room changes -----------------------------------------------------------------------------------------

  /** A passed task was booked for a submission, and that was saved in the room first. */
  lemma PassedHasRoom(s: System, k: TaskKey)
    requires HistoryInv(s.db.revisions, s.db.states, s.db.submissions, s.bookings, s.born)
    requires PlacesInv(s.db.submissions, s.db.rooms)
    requires k in s.db.states && s.db.states[k].passedAt.Some?
    ensures R.Doc(k.user, k.unit) in s.db.rooms
  {
    var log := LogOf(s.bookings, k);
    assert TaskHistoryOk(s.db.revisions, s.db.submissions, s.db.states[k], log, s.born[k], k);
    var i :| 0 <= i < |log| && log[i].passed;
    assert BookingOk(s.db.revisions, s.db.submissions, k, log[i]);
    assert R.Doc(s.db.submissions[log[i].id].key.user, s.db.submissions[log[i].id].key.unit) in s.db.rooms;
  }

  lemma AllPassedHasRoom(cfg: Config, s: System, user: UserId, unit: UnitId)
    requires RevisionsInv(cfg.catalogue, s.db.uuids, s.db.revisions)
    requires HistoryInv(s.db.revisions, s.db.states, s.db.submissions, s.bookings, s.born)
    requires PlacesInv(s.db.submissions, s.db.rooms)
    requires AllPassed(s.db.revisions, s.db.states, user, unit)
    ensures R.Doc(user, unit) in s.db.rooms
  {
    var id :| id in s.db.revisions && s.db.revisions[id].unit == unit && PassedOn(s.db.revisions[id], s.db.states, user);
    assert RevisionOk(cfg.catalogue, s.db.uuids, s.db.revisions[id], id);
    RequiredAreBound(cfg.catalogue, s.db.uuids, s.db.revisions[id], id);
    var g :| g in RequiredGoals(s.db.revisions[id].terms);
    PassedHasRoom(s, TaskKey(user, unit, g));
  }

  /** A row that a client may write: it keeps the achievement, and finishes no room of the engine. */
  ghost predicate MayWrite(unit: Unit, row: Option<Room>, row': Room) {
    && RoomOk(unit, row') && KeepsAchievement(row, Some(row'))
    && (IsEngine(unit) ==> (row'.status == Completed <==> row.Some? && row.value.status == Completed))
  }

  lemma DecidedMayWrite(unit: Unit, row: Option<Room>, ask: Ask, out: Outside)
    requires row.Some? ==> RoomOk(unit, row.value)
    requires Decide(unit, row, ask, out).Write?
    ensures MayWrite(unit, row, Decide(unit, row, ask, out).room)
  {
    AchievementIsAbsorbing(unit, row, ask, out);
    if IsEngine(unit) { ClientNeverFinishesEngine(unit, row, ask, out); }
  }

  lemma WriteKeepsCompletion(cfg: Config, s: System, d: RoomKey, row: Room)
    requires RevisionsInv(cfg.catalogue, s.db.uuids, s.db.revisions)
    requires HistoryInv(s.db.revisions, s.db.states, s.db.submissions, s.bookings, s.born)
    requires PlacesInv(s.db.submissions, s.db.rooms)
    requires CompletionInv(cfg.catalogue, s.db.revisions, s.db.states, s.db.rooms)
    requires Find(cfg.catalogue, d.name).Some? && MayWrite(Find(cfg.catalogue, d.name).value, Get(s.db.rooms, d), row)
    ensures CompletionInv(cfg.catalogue, s.db.revisions, s.db.states, s.db.rooms[d := row])
  {
    var rooms := s.db.rooms[d := row];
    if AllPassed(s.db.revisions, s.db.states, d.user, d.name) { AllPassedHasRoom(cfg, s, d.user, d.name); }
    forall o | o in rooms ensures CompletionOk(cfg.catalogue, s.db.revisions, s.db.states, o, rooms[o]) {
      if o in s.db.rooms { assert CompletionOk(cfg.catalogue, s.db.revisions, s.db.states, o, s.db.rooms[o]); }
    }
  }

  lemma WriteKeepsWiped(db: Db, wiped: set<UserId>, d: RoomKey, row: Room, requests: map<RoomRequestKey, RoomReceipt>)
    requires WipedInv(db, wiped) && d.user !in db.erased
    requires forall k | k in requests :: k in db.roomRequests || k.user == d.user
    ensures WipedInv(db.(rooms := db.rooms[d := row], roomRequests := requests), wiped)
  {
    var db' := db.(rooms := db.rooms[d := row], roomRequests := requests);
    forall user | user in wiped ensures IsWiped(db', user) { assert IsWiped(db, user); }
  }

  lemma WriteKeepsInv(cfg: Config, s: System, d: RoomKey, row: Room, requests: map<RoomRequestKey, RoomReceipt>)
    requires Inv(cfg, s) && d.user !in s.db.erased
    requires Find(cfg.catalogue, d.name).Some? && MayWrite(Find(cfg.catalogue, d.name).value, Get(s.db.rooms, d), row)
    requires forall k | k in requests :: k in s.db.roomRequests || k.user == d.user
    ensures Inv(cfg, s.(db := s.db.(rooms := s.db.rooms[d := row], roomRequests := requests)))
  {
    WriteKeepsCompletion(cfg, s, d, row);
    WriteKeepsWiped(s.db, s.wiped, d, row, requests);
    var rooms := s.db.rooms[d := row];
    forall o | o in rooms ensures RoomRowOk(cfg.catalogue, o, rooms[o]) {
      if o in s.db.rooms { assert RoomRowOk(cfg.catalogue, o, s.db.rooms[o]); }
    }
  }

  lemma MutateShape(cfg: Config, db: Db, user: UserId, unit: UnitId, ask: Ask, out: Outside)
    requires RoomsInv(cfg.catalogue, db.rooms)
    ensures var (db', reply) := MutateRoom(cfg, db, user, unit, ask, out);
            if reply.RoomSaved? then
              && user !in db.erased && R.Doc(user, unit) in db'.rooms && Find(cfg.catalogue, unit).Some?
              && MayWrite(Find(cfg.catalogue, unit).value, Get(db.rooms, R.Doc(user, unit)), db'.rooms[R.Doc(user, unit)])
              && db' == db.(rooms := db.rooms[R.Doc(user, unit) := db'.rooms[R.Doc(user, unit)]],
                            roomRequests := db'.roomRequests)
              && (forall k | k in db'.roomRequests :: k in db.roomRequests || k.user == user)
            else db' == db
  {
    var found, d := Find(cfg.catalogue, unit), R.Doc(user, unit);
    if found.Some? {
      if d in db.rooms { assert RoomRowOk(cfg.catalogue, d, db.rooms[d]); }
      if Decide(found.value, Get(db.rooms, d), ask, out).Write? {
        DecidedMayWrite(found.value, Get(db.rooms, d), ask, out);
      }
    }
  }

  lemma RoomKeepsInv(cfg: Config, s: System, user: UserId, unit: UnitId, ask: Ask, out: Outside)
    requires Inv(cfg, s)
    ensures Inv(cfg, s.(db := MutateRoom(cfg, s.db, user, unit, ask, out).0))
  {
    MutateShape(cfg, s.db, user, unit, ask, out);
    var (db, reply) := MutateRoom(cfg, s.db, user, unit, ask, out);
    if reply.RoomSaved? {
      WriteKeepsInv(cfg, s, R.Doc(user, unit), db.rooms[R.Doc(user, unit)], db.roomRequests);
    }
  }

  // ----- Tombstone and erasure ----------------------------------------------------------------------------------

  lemma TombstoneKeepsInv(cfg: Config, s: System, user: UserId)
    requires Inv(cfg, s)
    ensures Inv(cfg, s.(db := Tombstone(s.db, user)))
  {
    forall other | other in s.wiped ensures IsWiped(Tombstone(s.db, user), other) { assert IsWiped(s.db, other); }
  }

  function StatesWithout(states: States, user: UserId): States {
    map k | k in states && k.user != user :: states[k]
  }

  function SubmissionsWithout(subs: Submissions, user: UserId): Submissions {
    map id | id in subs && subs[id].key.user != user :: subs[id]
  }

  function RoomsWithout(rooms: Rows, user: UserId): Rows {
    map d | d in rooms && d.user != user :: rooms[d]
  }

  function OperationsWithout(operations: Operations, user: UserId): Operations {
    map op | op in operations && operations[op].user != user :: operations[op]
  }

  lemma EraseKeepsStates(uuids: Uuid, revisions: Revisions, states: States, user: UserId)
    requires StatesInv(uuids, revisions, states)
    ensures StatesInv(uuids, revisions, StatesWithout(states, user))
  {
    forall k | k in StatesWithout(states, user) ensures StateOk(revisions, uuids, StatesWithout(states, user)[k], k) {
      assert StateOk(revisions, uuids, states[k], k);
    }
  }

  lemma EraseKeepsSubmissions(cfg: Config, uuids: Uuid, revisions: Revisions, states: States, subs: Submissions,
                              user: UserId)
    requires SubmissionsInv(cfg, uuids, revisions, states, subs)
    ensures SubmissionsInv(cfg, uuids, revisions, StatesWithout(states, user), SubmissionsWithout(subs, user))
  {
    var states', subs' := StatesWithout(states, user), SubmissionsWithout(subs, user);
    forall id | id in subs' ensures SubmissionOk(cfg, uuids, revisions, states', subs'[id], id) {
      assert SubmissionOk(cfg, uuids, revisions, states, subs[id], id);
    }
    forall a, b | a in subs' && b in subs' ensures OneStart(subs', a, b) { assert OneStart(subs, a, b); }
  }

  lemma ErasedLog(revisions: Revisions, subs: Submissions, k: TaskKey, log: seq<Booking>, user: UserId)
    requires forall i {:trigger BookingOk(revisions, subs, k, log[i])} | 0 <= i < |log| :: BookingOk(revisions, subs, k, log[i])
    requires k.user != user
    ensures forall i {:trigger BookingOk(revisions, SubmissionsWithout(subs, user), k, log[i])} | 0 <= i < |log| ::
              BookingOk(revisions, SubmissionsWithout(subs, user), k, log[i])
  {
    forall i | 0 <= i < |log| ensures BookingOk(revisions, SubmissionsWithout(subs, user), k, log[i]) {
      assert BookingOk(revisions, subs, k, log[i]);
    }
  }

  lemma EraseKeepsHistory(revisions: Revisions, states: States, subs: Submissions, bookings: map<TaskKey, seq<Booking>>,
                          born: map<TaskKey, Band>, user: UserId)
    requires HistoryInv(revisions, states, subs, bookings, born)
    ensures HistoryInv(revisions, StatesWithout(states, user), SubmissionsWithout(subs, user),
                       map k | k in bookings && k.user != user :: bookings[k],
                       map k | k in born && k.user != user :: born[k])
  {
    var states', subs' := StatesWithout(states, user), SubmissionsWithout(subs, user);
    var bookings' := map k | k in bookings && k.user != user :: bookings[k];
    var born' := map k | k in born && k.user != user :: born[k];
    forall k | k in states' ensures TaskHistoryOk(revisions, subs', states'[k], LogOf(bookings', k), born'[k], k) {
      assert TaskHistoryOk(revisions, subs, states[k], LogOf(bookings, k), born[k], k);
      ErasedLog(revisions, subs, k, LogOf(bookings, k), user);
    }
    forall id | id in subs' && subs'[id].state == Booked ensures IsLogged(LogOf(bookings', subs'[id].key), id) {
      assert IsLogged(LogOf(bookings, subs[id].key), id);
    }
  }

  lemma EraseKeepsRooms(units: Catalogue, revisions: Revisions, states: States, subs: Submissions, rooms: Rows, user: UserId)
    requires RoomsInv(units, rooms) && PlacesInv(subs, rooms) && CompletionInv(units, revisions, states, rooms)
    ensures RoomsInv(units, RoomsWithout(rooms, user))
    ensures PlacesInv(SubmissionsWithout(subs, user), RoomsWithout(rooms, user))
    ensures CompletionInv(units, revisions, StatesWithout(states, user), RoomsWithout(rooms, user))
  {
    var rooms', states' := RoomsWithout(rooms, user), StatesWithout(states, user);
    forall d | d in rooms'
      ensures RoomRowOk(units, d, rooms'[d]) && CompletionOk(units, revisions, states', d, rooms'[d])
    {
      assert RoomRowOk(units, d, rooms[d]) && CompletionOk(units, revisions, states, d, rooms[d]);
      forall id | id in revisions ensures PassedOn(revisions[id], states, d.user) <==> PassedOn(revisions[id], states', d.user) {}
    }
    forall id | id in SubmissionsWithout(subs, user)
      ensures R.Doc(SubmissionsWithout(subs, user)[id].key.user, SubmissionsWithout(subs, user)[id].key.unit) in rooms'
    {
      assert R.Doc(subs[id].key.user, subs[id].key.unit) in rooms;
    }
  }

  lemma EraseKeepsReceipts(states: States, operations: Operations, user: UserId)
    requires ReceiptsInv(states, operations)
    ensures ReceiptsInv(StatesWithout(states, user), OperationsWithout(operations, user))
  {
    var states', operations' := StatesWithout(states, user), OperationsWithout(operations, user);
    forall op | op in operations' ensures OperationOk(states', op, operations'[op]) {
      assert OperationOk(states, op, operations[op]);
    }
    forall k | k in states' && states'[k].xpApplied ensures TaskOperation(k) in operations' {
      assert OperationOk(states, TaskOperation(k), operations[TaskOperation(k)]);
    }
  }

  lemma EraseKeepsPaid(states: States, operations: Operations, paid: multiset<OperationId>, wiped: set<UserId>,
                       user: UserId)
    requires ReceiptsInv(states, operations) && PaidInv(operations, paid, wiped)
    ensures PaidInv(OperationsWithout(operations, user), paid, wiped + {user})
  {
    var operations' := OperationsWithout(operations, user);
    forall op ensures PaidOk(operations', paid, wiped + {user}, op) {
      assert PaidOk(operations, paid, wiped, op);
      if op in operations { assert OperationOk(states, op, operations[op]); }
    }
  }

  lemma EraseKeepsWorkers(cfg: Config, uuids: Uuid, revisions: Revisions, subs: Submissions, wiped: set<UserId>,
                          workers: map<nat, Work>, user: UserId)
    requires WorkersInv(cfg, uuids, revisions, subs, wiped, workers)
    ensures WorkersInv(cfg, uuids, revisions, SubmissionsWithout(subs, user), wiped + {user}, workers)
  {
    forall n | n in workers
      ensures WorkOk(cfg, uuids, revisions, SubmissionsWithout(subs, user), wiped + {user}, workers[n])
    {
      assert WorkOk(cfg, uuids, revisions, subs, wiped, workers[n]);
    }
  }

  lemma EraseKeepsWiped(db: Db, wiped: set<UserId>, user: UserId)
    requires WipedInv(db, wiped)
    ensures WipedInv(Erase(db, user), wiped + {user})
  {
    forall other | other in wiped + {user} ensures IsWiped(Erase(db, user), other) {
      if other != user { assert IsWiped(db, other); }
    }
  }

  lemma EraseKeepsInv(cfg: Config, s: System, user: UserId)
    requires Inv(cfg, s)
    ensures Inv(cfg, StepErase(s, user))
  {
    var db := s.db;
    EraseKeepsStates(db.uuids, db.revisions, db.states, user);
    EraseKeepsSubmissions(cfg, db.uuids, db.revisions, db.states, db.submissions, user);
    EraseKeepsHistory(db.revisions, db.states, db.submissions, s.bookings, s.born, user);
    EraseKeepsRooms(cfg.catalogue, db.revisions, db.states, db.submissions, db.rooms, user);
    EraseKeepsReceipts(db.states, db.operations, user);
    ErasureKeepsTotals(db.states, db.operations, db.xp, s.lost, user);
    EraseKeepsPaid(db.states, db.operations, s.paid, s.wiped, user);
    EraseKeepsWorkers(cfg, db.uuids, db.revisions, db.submissions, s.wiped, s.workers, user);
    EraseKeepsWiped(db, s.wiped, user);
  }
}
