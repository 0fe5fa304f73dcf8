/** Submitting, the lease and the first read of a booking keep the invariant. */
module EngineSubmissions {
  import opened Options
  import opened Ids
  import opened Canonical
  import opened Rooms
  import opened EngineTables
  import opened EngineSteps
  import opened EngineSystem
  import opened EngineInvariant
  import opened EngineRevisions
  import opened EngineRequests
  import R = Register

  // ----- Submitting -----------------------------------------------------------------------------------------

  /** A row that `submit` may add for the open start of the state. */
  ghost predicate MaySubmit(db: Db, key: TaskKey, row: Submission) {
    && key.user !in db.erased && key in db.states && db.states[key].start.Some?
    && db.states[key].revision in db.revisions
    && CanonicalText(row.input) == Some(row.inputHash)
    && row == NewSubmission(key, db.states[key], db.revisions[db.states[key].revision].document, row.inputHash,
                            row.input, row.acceptedAt)
    && SubmissionOfStart(db, key, row.startId).None?
    && R.Doc(key.user, key.unit) in db.rooms
  }

  /** A new submission is the plan saved in the room, for the state's own start, and the first of that start. */
  lemma SubmitShape(db: Db, key: TaskKey, ask: SubmitAsk, w: World)
    requires SubmitTask(db, key, ask, w).1.Created? && key.user !in db.erased
    ensures var db' := SubmitTask(db, key, ask, w).0;
            && db.uuids in db'.submissions && MaySubmit(db, key, db'.submissions[db.uuids])
            && db' == db.(uuids := db.uuids + 1,
                          submissions := db.submissions[db.uuids := db'.submissions[db.uuids]])
  {}

  /** `submit` never meets a missing revision or task, nor the unique constraint of the open submission. */
  lemma SubmitNeverFails(cfg: Config, db: Db, key: TaskKey, ask: SubmitAsk, w: World)
    requires RevisionsInv(cfg.catalogue, db.uuids, db.revisions) && StatesInv(db.uuids, db.revisions, db.states)
    requires SubmissionsInv(cfg, db.uuids, db.revisions, db.states, db.submissions)
    ensures var reply := SubmitTask(db, key, ask, w).1;
            reply.SubmitRefused? ==> reply.why !in {Unavailable, NotFound, CameFirst}
  {
    if key in db.states && db.states[key].start.Some? {
      TaskOfState(cfg, db, key);
      if OpenSubmission(db, key).Some? { OpenIsTaken(cfg, db, key); }
    }
  }

  lemma TaskOfState(cfg: Config, db: Db, key: TaskKey)
    requires RevisionsInv(cfg.catalogue, db.uuids, db.revisions) && StatesInv(db.uuids, db.revisions, db.states)
    requires key in db.states
    ensures db.states[key].revision in db.revisions
    ensures FindTask(db.revisions[db.states[key].revision].document.tasks, key.goal).Some?
  {
    var st := db.states[key];
    assert StateOk(db.revisions, db.uuids, st, key);
    assert RevisionOk(cfg.catalogue, db.uuids, db.revisions[st.revision], st.revision);
    TaskOfRevision(cfg.catalogue, db.uuids, db.revisions[st.revision], st.revision, key.goal);
  }

  lemma OpenIsTaken(cfg: Config, db: Db, key: TaskKey)
    requires SubmissionsInv(cfg, db.uuids, db.revisions, db.states, db.submissions)
    requires key in db.states && db.states[key].start.Some? && OpenSubmission(db, key).Some?
    ensures SubmissionOfStart(db, key, db.states[key].start.value.public.id).Some?
  {
    OpenIsOfStart(cfg, db, key, OpenSubmission(db, key).value);
  }

  /** An open submission carries the start of its state. */
  lemma OpenIsOfStart(cfg: Config, db: Db, key: TaskKey, id: Uuid)
    requires SubmissionsInv(cfg, db.uuids, db.revisions, db.states, db.submissions)
    requires id in db.submissions && db.submissions[id].key == key && db.submissions[id].state == Accepted
    requires key in db.states && db.states[key].start.Some?
    ensures SubmissionOfStart(db, key, db.states[key].start.value.public.id).Some?
  {
    assert SubmissionOk(cfg, db.uuids, db.revisions, db.states, db.submissions[id], id);
  }

  lemma NewIsOk(cfg: Config, db: Db, key: TaskKey, row: Submission)
    requires StatesInv(db.uuids, db.revisions, db.states) && MaySubmit(db, key, row)
    ensures SubmissionOk(cfg, db.uuids + 1, db.revisions, db.states, row, db.uuids)
  {
    assert StateOk(db.revisions, db.uuids, db.states[key], key);
  }

  lemma FreshIsNew(cfg: Config, db: Db)
    requires SubmissionsInv(cfg, db.uuids, db.revisions, db.states, db.submissions)
    ensures forall id | id in db.submissions :: id < db.uuids
  {
    forall id | id in db.submissions ensures id < db.uuids {
      assert SubmissionOk(cfg, db.uuids, db.revisions, db.states, db.submissions[id], id);
    }
  }

  lemma SubmitKeepsSubmissions(cfg: Config, db: Db, key: TaskKey, row: Submission)
    requires StatesInv(db.uuids, db.revisions, db.states) && MaySubmit(db, key, row)
    requires SubmissionsInv(cfg, db.uuids, db.revisions, db.states, db.submissions)
    ensures SubmissionsInv(cfg, db.uuids + 1, db.revisions, db.states, db.submissions[db.uuids := row])
  {
    var subs := db.submissions[db.uuids := row];
    NewIsOk(cfg, db, key, row);
    FreshIsNew(cfg, db);
    forall id | id in subs ensures SubmissionOk(cfg, db.uuids + 1, db.revisions, db.states, subs[id], id) {
      if id != db.uuids { assert SubmissionOk(cfg, db.uuids, db.revisions, db.states, db.submissions[id], id); }
    }
    forall a, b | a in subs && b in subs ensures OneStart(subs, a, b) {
      if a != db.uuids && b != db.uuids { assert OneStart(db.submissions, a, b); }
    }
  }

  lemma SubmitKeepsHistory(revisions: Revisions, states: States, subs: Submissions, bookings: map<TaskKey, seq<Booking>>,
                           born: map<TaskKey, Band>, id: Uuid, row: Submission)
    requires HistoryInv(revisions, states, subs, bookings, born) && id !in subs && row.state == Accepted
    ensures HistoryInv(revisions, states, subs[id := row], bookings, born)
  {
    var subs' := subs[id := row];
    forall k | k in states ensures TaskHistoryOk(revisions, subs', states[k], LogOf(bookings, k), born[k], k) {
      var log := LogOf(bookings, k);
      assert TaskHistoryOk(revisions, subs, states[k], log, born[k], k);
      forall i | 0 <= i < |log| ensures BookingOk(revisions, subs', k, log[i]) {
        assert BookingOk(revisions, subs, k, log[i]);
      }
    }
    forall o | o in subs' && subs'[o].state == Booked ensures IsLogged(LogOf(bookings, subs'[o].key), o) {
      assert IsLogged(LogOf(bookings, subs[o].key), o);
    }
  }

  lemma SubmitKeepsWorkers(cfg: Config, uuids: Uuid, revisions: Revisions, subs: Submissions, wiped: set<UserId>,
                           workers: map<nat, Work>, row: Submission)
    requires WorkersInv(cfg, uuids, revisions, subs, wiped, workers)
    ensures WorkersInv(cfg, uuids + 1, revisions, subs[uuids := row], wiped, workers)
  {
    forall n | n in workers ensures WorkOk(cfg, uuids + 1, revisions, subs[uuids := row], wiped, workers[n]) {
      assert WorkOk(cfg, uuids, revisions, subs, wiped, workers[n]);
    }
  }

  lemma SubmitKeepsWiped(db: Db, wiped: set<UserId>, row: Submission)
    requires WipedInv(db, wiped) && row.key.user !in db.erased
    ensures WipedInv(db.(uuids := db.uuids + 1, submissions := db.submissions[db.uuids := row]), wiped)
  {
    var db' := db.(uuids := db.uuids + 1, submissions := db.submissions[db.uuids := row]);
    forall user | user in wiped ensures IsWiped(db', user) { assert IsWiped(db, user); }
  }

  lemma SubmittedKeepsInv(cfg: Config, s: System, key: TaskKey, row: Submission)
    requires Inv(cfg, s) && MaySubmit(s.db, key, row)
    ensures Inv(cfg, s.(db := s.db.(uuids := s.db.uuids + 1, submissions := s.db.submissions[s.db.uuids := row])))
  {
    var db := s.db;
    FreshIsNew(cfg, db);
    LaterRevisions(cfg.catalogue, db.uuids, db.uuids + 1, db.revisions);
    LaterStates(db.uuids, db.uuids + 1, db.revisions, db.states);
    SubmitKeepsSubmissions(cfg, db, key, row);
    SubmitKeepsHistory(db.revisions, db.states, db.submissions, s.bookings, s.born, db.uuids, row);
    SubmitKeepsWorkers(cfg, db.uuids, db.revisions, db.submissions, s.wiped, s.workers, row);
    SubmitKeepsWiped(db, s.wiped, row);
  }

  lemma SubmitKeepsInv(cfg: Config, s: System, user: UserId, unit: UnitId, goal: GoalId, ask: SubmitAsk, w: World)
    requires Inv(cfg, s)
    ensures Inv(cfg, s.(db := Submit(cfg, s.db, user, unit, goal, ask, w).0))
  {
    OnlyCreatedChanges(cfg, s.db, user, unit, goal, ask, w);
    AddedKeepsInv(cfg, s, Submit(cfg, s.db, user, unit, goal, ask, w).0, TaskKey(user, unit, goal));
  }

  lemma AddedKeepsInv(cfg: Config, s: System, db: Db, key: TaskKey)
    requires Inv(cfg, s) && (db == s.db || AddsSubmission(s.db, db, key))
    ensures Inv(cfg, s.(db := db))
  {
    if db != s.db { SubmittedKeepsInv(cfg, s, key, db.submissions[s.db.uuids]); }
  }

  ghost predicate AddsSubmission(db: Db, db': Db, key: TaskKey) {
    && db.uuids in db'.submissions && MaySubmit(db, key, db'.submissions[db.uuids])
    && db' == db.(uuids := db.uuids + 1, submissions := db.submissions[db.uuids := db'.submissions[db.uuids]])
  }

  /** A submission that is refused, or that was there, changes nothing; any other adds one row. */
  lemma OnlyCreatedChanges(cfg: Config, db: Db, user: UserId, unit: UnitId, goal: GoalId, ask: SubmitAsk, w: World)
    ensures var (db', reply) := Submit(cfg, db, user, unit, goal, ask, w);
            if reply.Created? then AddsSubmission(db, db', TaskKey(user, unit, goal)) else db' == db
  {
    if Submit(cfg, db, user, unit, goal, ask, w).1.Created? { SubmitShape(db, TaskKey(user, unit, goal), ask, w); }
  }

  // ----- The lease -------------------------------------------------------------------------------------------

  /** The lease of a submission is its only column that changes. */
  ghost predicate LeaseOnly(subs: Submissions, subs': Submissions) {
    && subs'.Keys == subs.Keys
    && forall id {:trigger subs'[id]} | id in subs :: Leased(subs[id], subs'[id])
  }

  /** A lease is replaced only by a later one. */
  predicate LeaseGrows(s: Submission, s': Submission) {
    s.evaluatingUntil.Some? ==>
      s'.evaluatingUntil.Some? && s'.evaluatingUntil.value >= s.evaluatingUntil.value
  }

  predicate Leased(s: Submission, s': Submission) {
    && s' == s.(evaluatingUntil := s'.evaluatingUntil)
    && (s.state == Booked ==> s' == s)
    && LeaseGrows(s, s')
  }

  lemma LeaseKeepsSubmissions(cfg: Config, uuids: Uuid, revisions: Revisions, states: States, subs: Submissions,
                              subs': Submissions)
    requires SubmissionsInv(cfg, uuids, revisions, states, subs) && LeaseOnly(subs, subs')
    ensures SubmissionsInv(cfg, uuids, revisions, states, subs')
  {
    forall id | id in subs' ensures SubmissionOk(cfg, uuids, revisions, states, subs'[id], id) {
      assert SubmissionOk(cfg, uuids, revisions, states, subs[id], id);
    }
    forall a, b | a in subs' && b in subs' ensures OneStart(subs', a, b) {
      assert OneStart(subs, a, b);
    }
  }

  lemma LeaseKeepsHistory(revisions: Revisions, states: States, subs: Submissions, subs': Submissions,
                          bookings: map<TaskKey, seq<Booking>>, born: map<TaskKey, Band>)
    requires HistoryInv(revisions, states, subs, bookings, born) && LeaseOnly(subs, subs')
    ensures HistoryInv(revisions, states, subs', bookings, born)
  {
    forall k | k in states ensures TaskHistoryOk(revisions, subs', states[k], LogOf(bookings, k), born[k], k) {
      var log := LogOf(bookings, k);
      assert TaskHistoryOk(revisions, subs, states[k], log, born[k], k);
      forall i | 0 <= i < |log| ensures BookingOk(revisions, subs', k, log[i]) {
        assert BookingOk(revisions, subs, k, log[i]);
      }
    }
    forall o | o in subs' && subs'[o].state == Booked ensures IsLogged(LogOf(bookings, subs'[o].key), o) {
      assert IsLogged(LogOf(bookings, subs[o].key), o);
    }
  }

  lemma LeaseKeepsWorkers(cfg: Config, uuids: Uuid, revisions: Revisions, subs: Submissions, subs': Submissions,
                          wiped: set<UserId>, workers: map<nat, Work>)
    requires WorkersInv(cfg, uuids, revisions, subs, wiped, workers) && LeaseOnly(subs, subs')
    ensures WorkersInv(cfg, uuids, revisions, subs', wiped, workers)
  {
    forall n | n in workers ensures WorkOk(cfg, uuids, revisions, subs', wiped, workers[n]) {
      assert WorkOk(cfg, uuids, revisions, subs, wiped, workers[n]);
    }
  }

  lemma LeaseKeepsInv(cfg: Config, s: System, subs: Submissions)
    requires Inv(cfg, s) && LeaseOnly(s.db.submissions, subs)
    ensures Inv(cfg, s.(db := s.db.(submissions := subs)))
  {
    var db := s.db;
    LeaseKeepsSubmissions(cfg, db.uuids, db.revisions, db.states, db.submissions, subs);
    LeaseKeepsHistory(db.revisions, db.states, db.submissions, subs, s.bookings, s.born);
    LeaseKeepsWorkers(cfg, db.uuids, db.revisions, db.submissions, subs, s.wiped, s.workers);
    forall user | user in s.wiped ensures IsWiped(db.(submissions := subs), user) { assert IsWiped(db, user); }
  }

  /** A worker runs the frozen job of its submission. */
  lemma ClaimedIsOk(cfg: Config, db: Db, id: Uuid, wiped: set<UserId>)
    requires SubmissionsInv(cfg, db.uuids, db.revisions, db.states, db.submissions) && id in db.submissions
    ensures var row := db.submissions[id];
            && row.revision in db.revisions
            && WorkOk(cfg, db.uuids, db.revisions, db.submissions, wiped,
                      Evaluating(id, row.key.user, db.revisions[row.revision].document,
                                 RunnerJobOf(row.job, row.key.goal, row.input)))
  {
    assert SubmissionOk(cfg, db.uuids, db.revisions, db.states, db.submissions[id], id);
  }

  lemma WorkerKeepsInv(cfg: Config, s: System, n: nat, w: Work)
    requires Inv(cfg, s) && WorkOk(cfg, s.db.uuids, s.db.revisions, s.db.submissions, s.wiped, w)
    ensures Inv(cfg, s.(workers := s.workers[n := w]))
  {
    var workers := s.workers[n := w];
    forall m | m in workers ensures WorkOk(cfg, s.db.uuids, s.db.revisions, s.db.submissions, s.wiped, workers[m]) {
      if m != n { assert WorkOk(cfg, s.db.uuids, s.db.revisions, s.db.submissions, s.wiped, s.workers[m]); }
    }
  }

  lemma DropKeepsInv(cfg: Config, s: System, n: nat)
    requires Inv(cfg, s)
    ensures Inv(cfg, s.(workers := s.workers - {n}))
  {
    var workers := s.workers - {n};
    forall m | m in workers ensures WorkOk(cfg, s.db.uuids, s.db.revisions, s.db.submissions, s.wiped, workers[m]) {
      assert WorkOk(cfg, s.db.uuids, s.db.revisions, s.db.submissions, s.wiped, s.workers[m]);
    }
  }

  lemma ClaimShape(db: Db, id: Uuid, now: Time)
    ensures var db' := Claim(db, id, now).0;
            db' == db.(submissions := db'.submissions) && LeaseOnly(db.submissions, db'.submissions)
  {}

  lemma ClaimKeepsInv(cfg: Config, s: System, worker: nat, user: UserId, id: Uuid, now: Time)
    requires Inv(cfg, s)
    ensures Inv(cfg, StepClaim(s, worker, user, id, now))
  {
    if worker !in s.workers && id in s.db.submissions && s.db.submissions[id].key.user == user {
      var (db, taken) := Claim(s.db, id, now);
      ClaimShape(s.db, id, now);
      LeaseKeepsInv(cfg, s, db.submissions);
      ClaimedIsOk(cfg, db, id, s.wiped);
      if taken {
        var row := s.db.submissions[id];
        WorkerKeepsInv(cfg, s.(db := db), worker,
                       Evaluating(id, user, db.revisions[row.revision].document,
                                  RunnerJobOf(row.job, row.key.goal, row.input)));
      }
    }
  }

  // ----- The first read of a booking ----------------------------------------------------------------------------

  /** What the first read returns is the sandbox's result for the frozen job, fitting the task of its revision. */
  lemma ReadIsOk(cfg: Config, db: Db, work: Work, wiped: set<UserId>)
    requires SubmissionsInv(cfg, db.uuids, db.revisions, db.states, db.submissions)
    requires work.Evaluating? && WorkOk(cfg, db.uuids, db.revisions, db.submissions, wiped, work)
    requires cfg.sandbox(work.document, work.job).Some?
    requires Read(db, work.id, work.user, cfg.sandbox(work.document, work.job).value).Some?
    ensures WorkOk(cfg, db.uuids, db.revisions, db.submissions, wiped,
                   Deciding(Read(db, work.id, work.user, cfg.sandbox(work.document, work.job).value).value))
  {
    assert SubmissionOk(cfg, db.uuids, db.revisions, db.states, db.submissions[work.id], work.id);
  }

  lemma ReadKeepsInv(cfg: Config, s: System, worker: nat, up: bool)
    requires Inv(cfg, s)
    ensures Inv(cfg, StepRead(cfg, s, worker, up))
  {
    if worker in s.workers && s.workers[worker].Evaluating? {
      var work := s.workers[worker];
      var result := if up then cfg.sandbox(work.document, work.job) else None;
      var reading := if result.Some? then Read(s.db, work.id, work.user, result.value) else None;
      assert WorkOk(cfg, s.db.uuids, s.db.revisions, s.db.submissions, s.wiped, work);
      if reading.None? {
        DropKeepsInv(cfg, s, worker);
      } else {
        ReadIsOk(cfg, s.db, work, s.wiped);
        WorkerKeepsInv(cfg, s, worker, Deciding(reading.value));
      }
    }
  }
}
