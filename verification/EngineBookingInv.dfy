/** Every part of the invariant survives a booking. */
module EngineBookingInv {
  import opened Options
  import opened Ids
  import opened Rooms
  import opened EngineTables
  import opened EngineSteps
  import opened EngineSystem
  import opened EngineInvariant
  import opened EngineRevisions
  import opened EngineRequests
  import opened EngineBooking
  import R = Register

  // ----- States and submissions ----------------------------------------------------------------------------

  lemma BookKeepsStates(cfg: Config, db: Db, r: Reading, task: Task, award: Award, level: Level, now: Time)
    requires StatesInv(db.uuids, db.revisions, db.states) && Finds(cfg, db, r)
    requires Counts(r, db.states[r.key], task, award, level)
    ensures StatesInv(db.uuids, db.revisions, StatesAfter(db, r, award, level, now))
  {
    var st, states := db.states[r.key], StatesAfter(db, r, award, level, now);
    assert StateOk(db.revisions, db.uuids, st, r.key);
    CountedOk(r.revision.document.rule, Level(st.band, st.fails, st.passes), r.result.verdict == Pass);
    assert StateOk(db.revisions, db.uuids, states[r.key], r.key);
    forall k | k in states ensures StateOk(db.revisions, db.uuids, states[k], k) {
      if k != r.key { assert StateOk(db.revisions, db.uuids, db.states[k], k); }
    }
  }

  /** A task has one open submission at most, and its state keeps none of the others' starts. */
  lemma OnlyOpen(cfg: Config, db: Db, a: Uuid, b: Uuid)
    requires SubmissionsInv(cfg, db.uuids, db.revisions, db.states, db.submissions)
    requires a in db.submissions && b in db.submissions && db.submissions[a].key == db.submissions[b].key
    requires db.submissions[a].state == Accepted && db.submissions[b].state == Accepted
    ensures a == b
  {
    assert SubmissionOk(cfg, db.uuids, db.revisions, db.states, db.submissions[a], a);
    assert SubmissionOk(cfg, db.uuids, db.revisions, db.states, db.submissions[b], b);
    assert OneStart(db.submissions, a, b);
  }

  lemma BookKeepsSubmissions(cfg: Config, db: Db, r: Reading, task: Task, award: Award, level: Level, now: Time)
    requires SubmissionsInv(cfg, db.uuids, db.revisions, db.states, db.submissions) && Finds(cfg, db, r)
    requires Counts(r, db.states[r.key], task, award, level)
    ensures SubmissionsInv(cfg, db.uuids, db.revisions, StatesAfter(db, r, award, level, now),
                           SubmissionsAfter(db, r, task, now))
  {
    var states, subs := StatesAfter(db, r, award, level, now), SubmissionsAfter(db, r, task, now);
    forall id | id in subs ensures SubmissionOk(cfg, db.uuids, db.revisions, states, subs[id], id) {
      assert SubmissionOk(cfg, db.uuids, db.revisions, db.states, db.submissions[id], id);
      if id != r.id && db.submissions[id].key == r.key && db.submissions[id].state == Accepted {
        OnlyOpen(cfg, db, id, r.id);
      }
    }
    forall a, b | a in subs && b in subs ensures OneStart(subs, a, b) {
      assert OneStart(db.submissions, a, b);
    }
  }

  lemma BookKeepsWorkers(cfg: Config, db: Db, r: Reading, task: Task, now: Time, wiped: set<UserId>,
                         workers: map<nat, Work>, n: nat)
    requires WorkersInv(cfg, db.uuids, db.revisions, db.submissions, wiped, workers) && r.id in db.submissions
    ensures WorkersInv(cfg, db.uuids, db.revisions, SubmissionsAfter(db, r, task, now), wiped, workers - {n})
  {
    var left := workers - {n};
    forall m | m in left ensures WorkOk(cfg, db.uuids, db.revisions, SubmissionsAfter(db, r, task, now), wiped, left[m]) {
      assert WorkOk(cfg, db.uuids, db.revisions, db.submissions, wiped, workers[m]);
    }
  }

  // ----- Histories -----------------------------------------------------------------------------------------

  function BookingOf(r: Reading): Booking {
    Booking(r.id, r.revision.document.rule, r.result.verdict == Pass)
  }

  lemma FoldAppend(born: Band, log: seq<Booking>, b: Booking)
    ensures Fold(born, log + [b]) == if Fold(born, log).None? then None
                                     else Counted(b.rule, Fold(born, log).value, b.passed)
  {
    assert (log + [b])[..|log|] == log;
  }

  lemma SomePassAppend(log: seq<Booking>, b: Booking)
    ensures SomePass(log + [b]) <==> SomePass(log) || b.passed
  {
    if SomePass(log) {
      var i :| 0 <= i < |log| && log[i].passed;
      assert (log + [b])[i].passed;
    }
    if b.passed { assert (log + [b])[|log|].passed; }
  }

  lemma IsLoggedAppend(log: seq<Booking>, b: Booking, id: Uuid)
    requires IsLogged(log, id) || id == b.id
    ensures IsLogged(log + [b], id)
  {
    if IsLogged(log, id) {
      var i :| 0 <= i < |log| && log[i].id == id;
      assert (log + [b])[i].id == id;
    } else {
      assert (log + [b])[|log|].id == id;
    }
  }

  /** The bookings of other submissions read the same after this one. */
  lemma BookingsStay(revisions: Revisions, subs: Submissions, subs': Submissions, k: TaskKey, log: seq<Booking>, id: Uuid)
    requires forall i {:trigger BookingOk(revisions, subs, k, log[i])} | 0 <= i < |log| :: BookingOk(revisions, subs, k, log[i])
    requires id in subs && subs[id].state == Accepted && id in subs' && subs' == subs[id := subs'[id]]
    ensures forall i {:trigger BookingOk(revisions, subs', k, log[i])} | 0 <= i < |log| :: BookingOk(revisions, subs', k, log[i])
    ensures forall i | 0 <= i < |log| :: log[i].id != id
  {
    forall i | 0 <= i < |log| ensures BookingOk(revisions, subs', k, log[i]) && log[i].id != id {
      assert BookingOk(revisions, subs, k, log[i]);
    }
  }

  lemma BookedTaskHistory(cfg: Config, s: System, r: Reading, task: Task, award: Award, level: Level, now: Time)
    requires HistoryInv(s.db.revisions, s.db.states, s.db.submissions, s.bookings, s.born) && Finds(cfg, s.db, r)
    requires Counts(r, s.db.states[r.key], task, award, level)
    ensures TaskHistoryOk(s.db.revisions, SubmissionsAfter(s.db, r, task, now),
                          StatesAfter(s.db, r, award, level, now)[r.key],
                          LogOf(s.bookings, r.key) + [BookingOf(r)], s.born[r.key], r.key)
  {
    var db, log := s.db, LogOf(s.bookings, r.key);
    var subs := SubmissionsAfter(db, r, task, now);
    assert TaskHistoryOk(db.revisions, db.submissions, db.states[r.key], log, s.born[r.key], r.key);
    FoldAppend(s.born[r.key], log, BookingOf(r));
    SomePassAppend(log, BookingOf(r));
    BookingsStay(db.revisions, db.submissions, subs, r.key, log, r.id);
    assert BookingOk(db.revisions, subs, r.key, BookingOf(r));
    forall i | 0 <= i < |log| + 1 ensures BookingOk(db.revisions, subs, r.key, (log + [BookingOf(r)])[i]) {
      if i < |log| { assert BookingOk(db.revisions, subs, r.key, log[i]); }
    }
  }

  lemma OtherTaskHistory(revisions: Revisions, subs: Submissions, subs': Submissions, st: TaskState,
                         log: seq<Booking>, born: Band, k: TaskKey, id: Uuid)
    requires TaskHistoryOk(revisions, subs, st, log, born, k)
    requires id in subs && subs[id].state == Accepted && id in subs' && subs' == subs[id := subs'[id]]
    ensures TaskHistoryOk(revisions, subs', st, log, born, k)
  {
    BookingsStay(revisions, subs, subs', k, log, id);
  }

  lemma BookKeepsLogged(s: System, r: Reading, task: Task, now: Time)
    requires HistoryInv(s.db.revisions, s.db.states, s.db.submissions, s.bookings, s.born)
    requires r.id in s.db.submissions && s.db.submissions[r.id].key == r.key
    ensures var bookings := s.bookings[r.key := LogOf(s.bookings, r.key) + [BookingOf(r)]];
            var subs := SubmissionsAfter(s.db, r, task, now);
            forall id {:trigger IsLogged(LogOf(bookings, subs[id].key), id)} | id in subs && subs[id].state == Booked ::
              IsLogged(LogOf(bookings, subs[id].key), id)
  {
    var bookings := s.bookings[r.key := LogOf(s.bookings, r.key) + [BookingOf(r)]];
    var subs := SubmissionsAfter(s.db, r, task, now);
    forall id | id in subs && subs[id].state == Booked ensures IsLogged(LogOf(bookings, subs[id].key), id) {
      if id != r.id { assert IsLogged(LogOf(s.bookings, s.db.submissions[id].key), id); }
      if subs[id].key == r.key { IsLoggedAppend(LogOf(s.bookings, r.key), BookingOf(r), id); }
    }
  }

  /** One task gets a new state, log and submission; every other history stays. */
  lemma TaskHistories(revisions: Revisions, states: States, subs: Submissions, bookings: map<TaskKey, seq<Booking>>,
                      born: map<TaskKey, Band>, key: TaskKey, st: TaskState, log: seq<Booking>, id: Uuid, row: Submission)
    requires HistoryInv(revisions, states, subs, bookings, born) && key in states
    requires id in subs && subs[id].state == Accepted
    requires TaskHistoryOk(revisions, subs[id := row], st, log, born[key], key)
    requires forall o {:trigger IsLogged(LogOf(bookings[key := log], subs[id := row][o].key), o)}
               | o in subs[id := row] && subs[id := row][o].state == Booked ::
               IsLogged(LogOf(bookings[key := log], subs[id := row][o].key), o)
    ensures HistoryInv(revisions, states[key := st], subs[id := row], bookings[key := log], born)
  {
    var states', subs', bookings' := states[key := st], subs[id := row], bookings[key := log];
    forall k | k in states' ensures TaskHistoryOk(revisions, subs', states'[k], LogOf(bookings', k), born[k], k) {
      if k != key {
        assert TaskHistoryOk(revisions, subs, states[k], LogOf(bookings, k), born[k], k);
        OtherTaskHistory(revisions, subs, subs', states[k], LogOf(bookings, k), born[k], k, id);
      }
    }
  }

  lemma BookKeepsHistory(cfg: Config, s: System, r: Reading, task: Task, award: Award, level: Level, now: Time)
    requires HistoryInv(s.db.revisions, s.db.states, s.db.submissions, s.bookings, s.born) && Finds(cfg, s.db, r)
    requires Counts(r, s.db.states[r.key], task, award, level)
    ensures HistoryInv(s.db.revisions, StatesAfter(s.db, r, award, level, now), SubmissionsAfter(s.db, r, task, now),
                       s.bookings[r.key := LogOf(s.bookings, r.key) + [BookingOf(r)]], s.born)
  {
    BookedTaskHistory(cfg, s, r, task, award, level, now);
    BookKeepsLogged(s, r, task, now);
    TaskHistories(s.db.revisions, s.db.states, s.db.submissions, s.bookings, s.born, r.key,
                  StatesAfter(s.db, r, award, level, now)[r.key], LogOf(s.bookings, r.key) + [BookingOf(r)], r.id,
                  SubmissionsAfter(s.db, r, task, now)[r.id]);
  }

  // ----- The room --------------------------------------------------------------------------------------------

  /** The query of `_complete_unit` asks whether the required tasks of the revision are all passed. */
  lemma PassedGoalsMeansPassedOn(db: Db, rev: EngineRevision, user: UserId)
    ensures RequiredGoals(rev.terms) <= PassedGoals(db, user, rev.unit) <==> PassedOn(rev, db.states, user)
  {
    forall g | g in PassedGoals(db, user, rev.unit)
      ensures TaskKey(user, rev.unit, g) in db.states && db.states[TaskKey(user, rev.unit, g)].passedAt.Some?
    {
      var k :| k in db.states && k.user == user && k.unit == rev.unit && db.states[k].passedAt.Some? && k.goal == g;
      assert k == TaskKey(user, rev.unit, g);
    }
    if PassedOn(rev, db.states, user) {
      forall g | g in RequiredGoals(rev.terms) ensures g in PassedGoals(db, user, rev.unit) {
        assert TaskKey(user, rev.unit, g) in db.states;
      }
    }
  }

  /** Passes of one task change nothing in other units or for other learners. */
  lemma OtherUnitsStay(revisions: Revisions, states: States, states': States, user: UserId, unit: UnitId, key: TaskKey)
    requires key in states && key in states' && states' == states[key := states'[key]]
    requires user != key.user || unit != key.unit || (states[key].passedAt.Some? <==> states'[key].passedAt.Some?)
    ensures AllPassed(revisions, states, user, unit) <==> AllPassed(revisions, states', user, unit)
  {
    forall id | id in revisions && revisions[id].unit == unit
      ensures PassedOn(revisions[id], states, user) <==> PassedOn(revisions[id], states', user)
    {}
  }

  /** What was passed stays passed. */
  lemma PassesGrow(revisions: Revisions, states: States, states': States, user: UserId, unit: UnitId, key: TaskKey)
    requires key in states && key in states' && states' == states[key := states'[key]]
    requires states[key].passedAt.Some? ==> states'[key].passedAt.Some?
    ensures AllPassed(revisions, states, user, unit) ==> AllPassed(revisions, states', user, unit)
  {
    if AllPassed(revisions, states, user, unit) {
      var id :| id in revisions && revisions[id].unit == unit && PassedOn(revisions[id], states, user);
      assert PassedOn(revisions[id], states', user);
    }
  }

  /** The rooms after one task of `key` changed to a passed state. */
  ghost predicate Completes(revisions: Revisions, states: States, rooms: Rows, rooms': Rows, key: TaskKey) {
    var doc := R.Doc(key.user, key.unit);
    && doc in rooms
    && rooms' == if AllPassed(revisions, states, key.user, key.unit) && rooms[doc].status != Completed
                 then rooms[doc := rooms[doc].(status := Completed, result := Some(Passed))] else rooms
  }

  lemma CompletingKeepsCompletion(units: Catalogue, revisions: Revisions, states: States, states': States, rooms: Rows,
                                  rooms': Rows, key: TaskKey)
    requires CompletionInv(units, revisions, states, rooms)
    requires key in states && key in states' && states' == states[key := states'[key]]
    requires states[key].passedAt.Some? ==> states'[key].passedAt.Some?
    requires Completes(revisions, states', rooms, rooms', key)
    ensures CompletionInv(units, revisions, states', rooms')
  {
    forall d | d in rooms' ensures CompletionOk(units, revisions, states', d, rooms'[d]) {
      assert CompletionOk(units, revisions, states, d, rooms[d]);
      if d == R.Doc(key.user, key.unit) {
        PassesGrow(revisions, states, states', key.user, key.unit, key);
      } else {
        OtherUnitsStay(revisions, states, states', d.user, d.name, key);
      }
    }
  }

  lemma CompletingKeepsRooms(units: Catalogue, revisions: Revisions, states: States, rooms: Rows, rooms': Rows,
                             key: TaskKey)
    requires RoomsInv(units, rooms) && Completes(revisions, states, rooms, rooms', key)
    ensures RoomsInv(units, rooms')
  {
    forall d | d in rooms' ensures RoomRowOk(units, d, rooms'[d]) {
      assert RoomRowOk(units, d, rooms[d]);
    }
  }

  lemma CompleteUnitCompletes(units: Catalogue, uuids: Uuid, db: Db, key: TaskKey, rev: Uuid)
    requires RevisionsInv(units, uuids, db.revisions) && rev in db.revisions && db.revisions[rev].unit == key.unit
    requires R.Doc(key.user, key.unit) in db.rooms
    ensures Completes(db.revisions, db.states, db.rooms,
                      CompleteUnit(db, key.user, key.unit, db.revisions[rev].terms).rooms, key)
  {
    PassedGoalsMeansPassedOn(db, db.revisions[rev], key.user);
    AllPassedOnAny(units, uuids, db.revisions, db.states, key.user, rev);
  }

  lemma BookKeepsRooms(cfg: Config, db: Db, r: Reading, task: Task, award: Award, level: Level, now: Time)
    requires RevisionsInv(cfg.catalogue, db.uuids, db.revisions) && Finds(cfg, db, r)
    requires RoomsInv(cfg.catalogue, db.rooms) && CompletionInv(cfg.catalogue, db.revisions, db.states, db.rooms)
    requires R.Doc(r.key.user, r.key.unit) in db.rooms
    ensures var rooms := AfterBook(db, r, task, award, level, now).rooms;
            && RoomsInv(cfg.catalogue, rooms) && rooms.Keys == db.rooms.Keys
            && CompletionInv(cfg.catalogue, db.revisions, StatesAfter(db, r, award, level, now), rooms)
  {
    var states, rooms := StatesAfter(db, r, award, level, now), AfterBook(db, r, task, award, level, now).rooms;
    if r.result.verdict == Pass {
      var booked := PaidFor(db, r, award).(states := states, submissions := SubmissionsAfter(db, r, task, now));
      CompleteUnitCompletes(cfg.catalogue, db.uuids, booked, r.key, db.submissions[r.id].revision);
      CompletingKeepsCompletion(cfg.catalogue, db.revisions, db.states, states, db.rooms, rooms, r.key);
      CompletingKeepsRooms(cfg.catalogue, db.revisions, states, db.rooms, rooms, r.key);
    } else {
      SamePassesComplete(cfg.catalogue, db.revisions, db.states, states, db.rooms);
    }
  }
}
