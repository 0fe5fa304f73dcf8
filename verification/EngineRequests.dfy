/** Starting, submitting, the lease and the first read of a booking keep the invariant. */
module EngineRequests {
  import opened Options
  import opened Ids
  import opened Rooms
  import opened EngineTables
  import opened EngineSteps
  import opened EngineSystem
  import opened EngineInvariant
  import opened EngineRevisions

  // ----- Frames -------------------------------------------------------------------------------------------

  lemma LaterStates(uuids: Uuid, uuids': Uuid, revisions: Revisions, states: States)
    requires StatesInv(uuids, revisions, states) && uuids <= uuids'
    ensures StatesInv(uuids', revisions, states)
  {
    forall k | k in states ensures StateOk(revisions, uuids', states[k], k) {
      assert StateOk(revisions, uuids, states[k], k);
    }
  }

  lemma LaterRevisions(units: Catalogue, uuids: Uuid, uuids': Uuid, revisions: Revisions)
    requires RevisionsInv(units, uuids, revisions) && uuids <= uuids'
    ensures RevisionsInv(units, uuids', revisions)
  {
    forall id | id in revisions ensures RevisionOk(units, uuids', revisions[id], id) {
      assert RevisionOk(units, uuids, revisions[id], id);
    }
  }

  lemma LaterWorkers(cfg: Config, uuids: Uuid, uuids': Uuid, revisions: Revisions, subs: Submissions,
                     wiped: set<UserId>, workers: map<nat, Work>)
    requires WorkersInv(cfg, uuids, revisions, subs, wiped, workers) && uuids <= uuids'
    ensures WorkersInv(cfg, uuids', revisions, subs, wiped, workers)
  {
    forall n | n in workers ensures WorkOk(cfg, uuids', revisions, subs, wiped, workers[n]) {
      assert WorkOk(cfg, uuids, revisions, subs, wiped, workers[n]);
    }
  }

  predicate IsPassed(states: States, k: TaskKey) {
    k in states && states[k].passedAt.Some?
  }

  lemma SamePassesComplete(units: Catalogue, revisions: Revisions, states: States, states': States, rooms: Rows)
    requires forall k {:trigger IsPassed(states', k)} :: IsPassed(states, k) <==> IsPassed(states', k)
    requires CompletionInv(units, revisions, states, rooms)
    ensures CompletionInv(units, revisions, states', rooms)
  {
    forall d | d in rooms ensures CompletionOk(units, revisions, states', d, rooms[d]) {
      assert CompletionOk(units, revisions, states, d, rooms[d]);
      forall id | id in revisions ensures PassedOn(revisions[id], states, d.user) <==> PassedOn(revisions[id], states', d.user) {
        forall g | g in RequiredGoals(revisions[id].terms)
          ensures IsPassed(states, TaskKey(d.user, revisions[id].unit, g))
             <==> IsPassed(states', TaskKey(d.user, revisions[id].unit, g))
        {}
      }
    }
  }

  // ----- Starting -------------------------------------------------------------------------------------------

  /** The state before a start: the stored row, or the one the start creates. */
  function StateBefore(db: Db, key: TaskKey, active: Uuid): TaskState
    requires active in db.revisions
  {
    if key in db.states then db.states[key] else NewState(active, db.revisions[active].document.rule.initial)
  }

  /** What a start leaves in the row: all but revision and start is kept, and a pending submission keeps all. */
  ghost predicate StartedState(db: Db, key: TaskKey, active: Uuid, st: TaskState, uuids: Uuid)
    requires active in db.revisions
  {
    var before := StateBefore(db, key, active);
    && st == before.(revision := st.revision, start := st.start, startRequest := st.startRequest)
    && (key in db.states && OpenSubmission(db, key).Some? ==> st == before)
    && db.uuids <= uuids && st.start.Some?
    && if st.start == before.start then st.revision == before.revision
       else
         && st.revision == active && uuids == db.uuids + 1
         && st.start.value.public.id == db.uuids && st.start.value.public.revision == active
         && st.start.value.public.goal == key.goal && st.start.value.band == st.band
  }

  /** An accepted submission is open, and its state holds its start. */
  lemma OpenIsHeld(cfg: Config, db: Db, key: TaskKey, id: Uuid)
    requires SubmissionsInv(cfg, db.uuids, db.revisions, db.states, db.submissions)
    requires id in db.submissions && db.submissions[id].key == key && db.submissions[id].state == Accepted
    ensures OpenSubmission(db, key).Some?
    ensures key in db.states && db.states[key].start.Some?
    ensures db.states[key].start.value.public.id == db.submissions[id].startId
    ensures db.states[key].revision == db.submissions[id].revision
  {
    assert SubmissionOk(cfg, db.uuids, db.revisions, db.states, db.submissions[id], id);
  }

  lemma PendingHasStart(cfg: Config, db: Db, key: TaskKey)
    requires SubmissionsInv(cfg, db.uuids, db.revisions, db.states, db.submissions)
    requires OpenSubmission(db, key).Some?
    ensures key in db.states && db.states[key].start.Some?
  {
    OpenIsHeld(cfg, db, key, OpenSubmission(db, key).value);
  }

  /** The bands of a stored state are those of every revision of its unit. */
  lemma BandIsShared(cfg: Config, db: Db, key: TaskKey, active: Uuid)
    requires RevisionsInv(cfg.catalogue, db.uuids, db.revisions) && StatesInv(db.uuids, db.revisions, db.states)
    requires active in db.revisions && db.revisions[active].unit == key.unit
    ensures StateBefore(db, key, active).band in db.revisions[active].document.rule.bands
  {
    assert RevisionOk(cfg.catalogue, db.uuids, db.revisions[active], active);
    if key in db.states {
      assert StateOk(db.revisions, db.uuids, db.states[key], key);
      assert Agree(db.revisions, db.states[key].revision, active);
    }
  }

  lemma PracticeExists(cfg: Config, db: Db, key: TaskKey, active: Uuid, task: Task)
    requires RevisionsInv(cfg.catalogue, db.uuids, db.revisions) && StatesInv(db.uuids, db.revisions, db.states)
    requires active in db.revisions && db.revisions[active].unit == key.unit
    requires FindTask(db.revisions[active].document.tasks, key.goal) == Some(task)
    ensures StateBefore(db, key, active).band in task.practice
  {
    var r := db.revisions[active];
    BandIsShared(cfg, db, key, active);
    assert RevisionOk(cfg.catalogue, db.uuids, r, active);
    TaskOfRevision(cfg.catalogue, db.uuids, r, active, key.goal);
  }

  /** The band of a state is one of the active revision's, so its practice case exists. */
  lemma StartNeverBreaks(cfg: Config, db: Db, key: TaskKey, active: Uuid, ask: StartAsk, w: World)
    requires RevisionsInv(cfg.catalogue, db.uuids, db.revisions) && StatesInv(db.uuids, db.revisions, db.states)
    requires active in db.revisions && db.revisions[active].unit == key.unit
    ensures StartTask(db, key, active, ask, w).1 != StartRefused(Broken)
  {
    var task := FindTask(db.revisions[active].document.tasks, key.goal);
    if task.Some? { PracticeExists(cfg, db, key, active, task.value); }
  }

  /** A state without a pending submission may be moved to the active revision, and then has no start. */
  lemma PreparedShape(cfg: Config, db: Db, key: TaskKey, active: Uuid, mayMove: bool)
    requires SubmissionsInv(cfg, db.uuids, db.revisions, db.states, db.submissions)
    requires active in db.revisions && (mayMove ==> OpenSubmission(db, key).None?)
    requires key in db.states && OpenSubmission(db, key).None? && !mayMove ==>
               db.states[key].start.Some? || db.states[key].revision == active
    ensures var st := Prepared(Get(db.states, key), active, db.revisions[active].document.rule.initial, mayMove);
            var before := StateBefore(db, key, active);
            && st == before.(revision := st.revision, start := st.start)
            && (OpenSubmission(db, key).Some? ==> st == before && st.start.Some?)
            && (st.start.Some? ==> st == before)
            && (st.start.None? ==> st.revision == active)
  {
    if OpenSubmission(db, key).Some? { PendingHasStart(cfg, db, key); }
  }

  /** A prepared state without a start gets a fresh one of the active revision. */
  lemma DrawnIsStarted(db: Db, key: TaskKey, active: Uuid, st: TaskState, start: OpenStart, ask: StartAsk)
    requires active in db.revisions
    requires var before := StateBefore(db, key, active);
             && st == before.(revision := st.revision, start := st.start)
             && OpenSubmission(db, key).None? && st.start.None? && st.revision == active
    requires start.public.id == db.uuids && start.public.revision == active && start.public.goal == key.goal
    requires start.band == st.band
    requires StatesInv(db.uuids, db.revisions, db.states)
    ensures StartedState(db, key, active, Drawn(st, start, ask), db.uuids + 1)
  {
    if key in db.states { assert StateOk(db.revisions, db.uuids, db.states[key], key); }
  }

  lemma StartShape(cfg: Config, db: Db, key: TaskKey, active: Uuid, ask: StartAsk, w: World)
    requires StatesInv(db.uuids, db.revisions, db.states)
    requires SubmissionsInv(cfg, db.uuids, db.revisions, db.states, db.submissions)
    requires active in db.revisions && StartTask(db, key, active, ask, w).1.Started?
    ensures var db' := StartTask(db, key, active, ask, w).0;
            && key in db'.states
            && db' == db.(uuids := db'.uuids, states := db.states[key := db'.states[key]])
            && StartedState(db, key, active, db'.states[key], db'.uuids)
            && FindTask(db.revisions[active].document.tasks, key.goal).Some?
  {
    var found := Get(db.states, key);
    var mayMove := !IsReplay(found, ask) && OpenSubmission(db, key).None?;
    PreparedShape(cfg, db, key, active, mayMove);
    var task := FindTask(db.revisions[active].document.tasks, key.goal).value;
    var st := Prepared(found, active, db.revisions[active].document.rule.initial, mayMove);
    if st.start.None? {
      var public := PublicStart(db.uuids, active, key.goal, task.practice[st.band], w.seed);
      DrawnIsStarted(db, key, active, st, OpenStart(public, st.band), ask);
    }
  }

  /** A started state is on a revision of its unit, in a band of it, with the award it had. */
  lemma StartedIsOk(cfg: Config, db: Db, key: TaskKey, active: Uuid, st: TaskState, uuids: Uuid)
    requires RevisionsInv(cfg.catalogue, db.uuids, db.revisions) && StatesInv(db.uuids, db.revisions, db.states)
    requires active in db.revisions && db.revisions[active].unit == key.unit
    requires FindTask(db.revisions[active].document.tasks, key.goal).Some?
    requires StartedState(db, key, active, st, uuids)
    ensures StateOk(db.revisions, uuids, st, key)
  {
    assert RevisionOk(cfg.catalogue, db.uuids, db.revisions[active], active);
    TaskOfRevision(cfg.catalogue, db.uuids, db.revisions[active], active, key.goal);
    if key in db.states {
      assert StateOk(db.revisions, db.uuids, db.states[key], key);
      assert Agree(db.revisions, db.states[key].revision, active);
    }
  }

  lemma StartedKeepsSubmissions(cfg: Config, db: Db, key: TaskKey, active: Uuid, st: TaskState, uuids: Uuid)
    requires SubmissionsInv(cfg, db.uuids, db.revisions, db.states, db.submissions)
    requires active in db.revisions && StartedState(db, key, active, st, uuids)
    ensures SubmissionsInv(cfg, uuids, db.revisions, db.states[key := st], db.submissions)
  {
    var states := db.states[key := st];
    forall id | id in db.submissions ensures SubmissionOk(cfg, uuids, db.revisions, states, db.submissions[id], id) {
      var s := db.submissions[id];
      assert SubmissionOk(cfg, db.uuids, db.revisions, db.states, s, id);
      if s.key == key && s.state == Accepted { OpenIsHeld(cfg, db, key, id); }
    }
  }

  lemma StartedKeepsHistory(s: System, key: TaskKey, active: Uuid, st: TaskState, uuids: Uuid, born: map<TaskKey, Band>)
    requires HistoryInv(s.db.revisions, s.db.states, s.db.submissions, s.bookings, s.born)
    requires active in s.db.revisions && StartedState(s.db, key, active, st, uuids)
    requires born == if key in s.db.states then s.born else s.born[key := st.band]
    ensures HistoryInv(s.db.revisions, s.db.states[key := st], s.db.submissions, s.bookings, born)
  {
    var states := s.db.states[key := st];
    forall k | k in states
      ensures TaskHistoryOk(s.db.revisions, s.db.submissions, states[k], LogOf(s.bookings, k), born[k], k)
    {
      if k in s.db.states {
        assert TaskHistoryOk(s.db.revisions, s.db.submissions, s.db.states[k], LogOf(s.bookings, k), s.born[k], k);
      } else {
        assert LogOf(s.bookings, k) == [];
      }
    }
    forall id | id in s.db.submissions && s.db.submissions[id].state == Booked
      ensures IsLogged(LogOf(s.bookings, s.db.submissions[id].key), id)
    {}
  }

  /** The system after a start. */
  function AfterStart(s: System, key: TaskKey, st: TaskState, uuids: Uuid): System {
    s.(db := s.db.(uuids := uuids, states := s.db.states[key := st]),
       born := if key in s.db.states then s.born else s.born[key := st.band])
  }

  lemma StartedKeepsStates(cfg: Config, db: Db, key: TaskKey, active: Uuid, st: TaskState, uuids: Uuid)
    requires RevisionsInv(cfg.catalogue, db.uuids, db.revisions) && StatesInv(db.uuids, db.revisions, db.states)
    requires active in db.revisions && db.revisions[active].unit == key.unit
    requires FindTask(db.revisions[active].document.tasks, key.goal).Some?
    requires StartedState(db, key, active, st, uuids)
    ensures StatesInv(uuids, db.revisions, db.states[key := st])
  {
    var states := db.states[key := st];
    StartedIsOk(cfg, db, key, active, st, uuids);
    LaterStates(db.uuids, uuids, db.revisions, db.states);
    forall k | k in states ensures StateOk(db.revisions, uuids, states[k], k) {
      if k != key { assert StateOk(db.revisions, uuids, db.states[k], k); }
    }
  }

  /** A start passes nothing and awards nothing. */
  lemma StartedKeepsRest(cfg: Config, s: System, key: TaskKey, active: Uuid, st: TaskState, uuids: Uuid)
    requires active in s.db.revisions && StartedState(s.db, key, active, st, uuids) && key.user !in s.db.erased
    requires CompletionInv(cfg.catalogue, s.db.revisions, s.db.states, s.db.rooms)
    requires ReceiptsInv(s.db.states, s.db.operations) && WipedInv(s.db, s.wiped)
    ensures CompletionInv(cfg.catalogue, s.db.revisions, s.db.states[key := st], s.db.rooms)
    ensures ReceiptsInv(s.db.states[key := st], s.db.operations)
    ensures WipedInv(s.db.(uuids := uuids, states := s.db.states[key := st]), s.wiped)
  {
    var db, states := s.db, s.db.states[key := st];
    SamePassesComplete(cfg.catalogue, db.revisions, db.states, states, db.rooms);
    StateChangeKeepsReceipts(db.states, states, db.operations);
    forall user | user in s.wiped ensures IsWiped(db.(uuids := uuids, states := states), user) {
      assert IsWiped(db, user);
    }
  }

  lemma StartedKeepsInv(cfg: Config, s: System, key: TaskKey, active: Uuid, st: TaskState, uuids: Uuid)
    requires Inv(cfg, s) && key.user !in s.db.erased
    requires active in s.db.revisions && s.db.revisions[active].unit == key.unit
    requires FindTask(s.db.revisions[active].document.tasks, key.goal).Some?
    requires StartedState(s.db, key, active, st, uuids)
    ensures Inv(cfg, AfterStart(s, key, st, uuids))
  {
    StartedKeepsStates(cfg, s.db, key, active, st, uuids);
    LaterRevisions(cfg.catalogue, s.db.uuids, uuids, s.db.revisions);
    LaterWorkers(cfg, s.db.uuids, uuids, s.db.revisions, s.db.submissions, s.wiped, s.workers);
    StartedKeepsSubmissions(cfg, s.db, key, active, st, uuids);
    StartedKeepsHistory(s, key, active, st, uuids, AfterStart(s, key, st, uuids).born);
    StartedKeepsRest(cfg, s, key, active, st, uuids);
  }

  lemma StateChangeKeepsReceipts(states: States, states': States, operations: Operations)
    requires ReceiptsInv(states, operations)
    requires forall k | k in states :: k in states' && states'[k].award == states[k].award
    requires forall k | k in states' && states'[k].xpApplied :: k in states && states[k].xpApplied
    ensures ReceiptsInv(states', operations)
  {
    forall op | op in operations ensures OperationOk(states', op, operations[op]) {
      assert OperationOk(states, op, operations[op]);
    }
  }

  lemma StartKeepsInv(cfg: Config, s: System, user: UserId, unit: UnitId, goal: GoalId, ask: StartAsk, w: World)
    requires Inv(cfg, s)
    ensures Inv(cfg, StepStart(cfg, s, user, unit, goal, ask, w))
  {
    var key := TaskKey(user, unit, goal);
    var db := Start(cfg, s.db, user, unit, goal, ask, w).0;
    if Start(cfg, s.db, user, unit, goal, ask, w).1.Started? {
      var active := ActiveRevision(s.db, unit).value;
      ActiveIsUnique(cfg.catalogue, s.db, unit);
      StartShape(cfg, s.db, key, active, ask, w);
      StartedKeepsInv(cfg, s, key, active, db.states[key], db.uuids);
      assert StepStart(cfg, s, user, unit, goal, ask, w) == AfterStart(s, key, db.states[key], db.uuids);
    } else {
      assert db == s.db;
    }
  }
}
