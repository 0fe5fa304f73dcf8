/**
 What the answers of the lesson engine rest on: when a start, a submission, a publication or an XP award is taken, what
 it gives, and that every other one is refused. Each is told from the request and the tables.
 */
module EngineAnswers {
  import opened Options
  import opened Ids
  import opened Canonical
  import opened CanonicalReader
  import opened Rooms
  import opened EngineTables
  import opened EngineSteps
  import opened EngineSystem
  import opened EngineInvariant
  import opened EngineRevisions
  import opened EngineRequests
  import opened EngineSubmissions
  import opened RoomChanges
  import R = Register

  // ----- Admission -----------------------------------------------------------------------------------------------

  /** Nobody starts or submits a task but a live learner with access, in an unlocked unit of the engine. */
  lemma AdmissionIsExact(cfg: Config, db: Db, user: UserId, unit: UnitId, course: Option<CourseId>, open: bool)
    ensures user !in db.erased && UnitRefusal(cfg, db, user, unit, course, open).None? <==>
              && Find(cfg.catalogue, unit).Some? && IsEngine(Find(cfg.catalogue, unit).value)
              && IsAdmitted(cfg, db, user, Find(cfg.catalogue, unit).value, course, open)
  {}

  ghost predicate IsLearner(cfg: Config, db: Db, user: UserId, unit: UnitId, course: Option<CourseId>, open: bool) {
    && Find(cfg.catalogue, unit).Some? && IsEngine(Find(cfg.catalogue, unit).value)
    && IsAdmitted(cfg, db, user, Find(cfg.catalogue, unit).value, course, open)
  }

  // ----- Submitting ----------------------------------------------------------------------------------------------

  /** The learner's room has the revision that the request names, and under "plans" exactly its plan for the goal. */
  predicate HoldsPlan(db: Db, key: TaskKey, ask: SubmitAsk) {
    var d := R.Doc(key.user, key.unit);
    && d in db.rooms && db.rooms[d].revision == ask.stateRevision
    && var state := db.rooms[d].state;
       && state.Object? && PLANS in state.members
       && var plans := state.members[PLANS];
          plans.Object? && key.goal in plans.members && plans.members[key.goal] == ask.plan
  }

  lemma SameMeansEqual(saved: Json, plan: Json)
    ensures Same(saved, plan) <==> saved == plan && Representable(plan)
  {
    if CanonicalText(saved).Some? && CanonicalText(plan).Some? { TextDeterminesValue(saved, plan); }
  }

  lemma HeldIsSaved(db: Db, key: TaskKey, ask: SubmitAsk)
    ensures HoldsPlan(db, key, ask) && Representable(ask.plan) <==>
              var d := R.Doc(key.user, key.unit);
              && d in db.rooms && db.rooms[d].revision == ask.stateRevision
              && SavedPlan(db.rooms[d].state, key.goal).Some?
              && Same(SavedPlan(db.rooms[d].state, key.goal).value, ask.plan)
  {
    var d := R.Doc(key.user, key.unit);
    if d in db.rooms && SavedPlan(db.rooms[d].state, key.goal).Some? {
      SameMeansEqual(SavedPlan(db.rooms[d].state, key.goal).value, ask.plan);
    }
  }

  /** The task state has an open start with the id that the request names, and no submission used it up. */
  predicate HasFreshStart(db: Db, key: TaskKey, ask: SubmitAsk) {
    && key in db.states && db.states[key].start.Some? && db.states[key].start.value.public.id == ask.startId
    && forall id | id in db.submissions && db.submissions[id].key == key :: db.submissions[id].startId != ask.startId
  }

  /** The kind of plan that the task takes. */
  ghost predicate IsOfKind(db: Db, key: TaskKey, plan: Json)
    requires key in db.states && db.states[key].revision in db.revisions
  {
    exists task :: task in db.revisions[db.states[key].revision].document.tasks && task.goal == key.goal
                   && plan.Object? && KIND in plan.members && plan.members[KIND] == Str(task.input)
  }

  /** The row of a new submission, with what decides its verdict frozen. */
  ghost predicate IsFrozen(db: Db, key: TaskKey, ask: SubmitAsk, now: Time, row: Submission)
    requires key in db.states && db.states[key].start.Some? && db.states[key].revision in db.revisions
  {
    var st := db.states[key];
    && row.key == key && row.state == Accepted && row.input == ask.plan && row.startId == ask.startId
    && row.revision == st.revision && row.acceptedAt == now && row.evaluatingUntil == None
    && row.job == Job(st.revision, st.start.value.public, st.start.value.band, db.revisions[st.revision].document)
  }

  /**
   In every reachable state, for a learner with a fresh start, a plan is accepted exactly when it is the one saved in the
   room at the named revision and of the task's kind, and then frozen as one new submission; a plan that differs from the
   saved one is a conflict.
   */
  lemma SubmitIsExact(cfg: Config, s: System, user: UserId, unit: UnitId, goal: GoalId, ask: SubmitAsk, w: World)
    requires Inv(cfg, s) && IsLearner(cfg, s.db, user, unit, ask.course, w.open) && Representable(ask.plan)
    requires HasFreshStart(s.db, TaskKey(user, unit, goal), ask)
    ensures var key, (db', reply) := TaskKey(user, unit, goal), Submit(cfg, s.db, user, unit, goal, ask, w);
            && s.db.states[key].revision in s.db.revisions
            && reply == (if !HoldsPlan(s.db, key, ask) then SubmitRefused(Conflict)
                         else if !IsOfKind(s.db, key, ask.plan) then SubmitRefused(PlanKind) else Created(s.db.uuids))
            && (reply.Created? ==>
                  && s.db.uuids in db'.submissions && IsFrozen(s.db, key, ask, w.now, db'.submissions[s.db.uuids])
                  && db' == s.db.(uuids := s.db.uuids + 1,
                                  submissions := s.db.submissions[s.db.uuids := db'.submissions[s.db.uuids]]))
  {
    var db, key := s.db, TaskKey(user, unit, goal);
    AdmissionIsExact(cfg, db, user, unit, ask.course, w.open);
    HeldIsSaved(db, key, ask);
    TaskOfState(cfg, db, key);
    KindIsMember(cfg, db, key, ask.plan);
    if OpenSubmission(db, key).Some? { OpenIsTaken(cfg, db, key); }
    SubmitTaskAnswers(db, key, ask, w);
  }

  /** A valid document has each goal once. */
  lemma KindIsMember(cfg: Config, db: Db, key: TaskKey, plan: Json)
    requires RevisionsInv(cfg.catalogue, db.uuids, db.revisions) && StatesInv(db.uuids, db.revisions, db.states)
    requires key in db.states
    ensures db.states[key].revision in db.revisions
    ensures var task := FindTask(db.revisions[db.states[key].revision].document.tasks, key.goal);
            task.Some? && (IsOfKind(db, key, plan) <==> Member(plan, KIND) == Some(Str(task.value.input)))
  {
    TaskOfState(cfg, db, key);
    var id := db.states[key].revision;
    assert RevisionOk(cfg.catalogue, db.uuids, db.revisions[id], id);
    var tasks := db.revisions[id].document.tasks;
    var task := FindTask(tasks, key.goal).value;
    forall other | other in tasks && other.goal == key.goal ensures other == task {
      var i :| 0 <= i < |tasks| && tasks[i] == task;
      var j :| 0 <= j < |tasks| && tasks[j] == other;
    }
  }

  lemma SubmitTaskAnswers(db: Db, key: TaskKey, ask: SubmitAsk, w: World)
    requires Representable(ask.plan) && HasFreshStart(db, key, ask) && db.states[key].revision in db.revisions
    requires OpenSubmission(db, key).None?
    requires FindTask(db.revisions[db.states[key].revision].document.tasks, key.goal).Some?
    ensures var (db', reply) := SubmitTask(db, key, ask, w);
            var task := FindTask(db.revisions[db.states[key].revision].document.tasks, key.goal).value;
            && reply == (if !HoldsPlan(db, key, ask) then SubmitRefused(Conflict)
                         else if Member(ask.plan, KIND) != Some(Str(task.input)) then SubmitRefused(PlanKind)
                         else Created(db.uuids))
            && (reply.Created? ==>
                  && db.uuids in db'.submissions && IsFrozen(db, key, ask, w.now, db'.submissions[db.uuids])
                  && db' == db.(uuids := db.uuids + 1,
                                submissions := db.submissions[db.uuids := db'.submissions[db.uuids]]))
  {
    HeldIsSaved(db, key, ask);
  }

  /** Whatever the state, a submission is created only from the plan that is saved, for an open start. */
  lemma CreatedIsSaved(cfg: Config, db: Db, user: UserId, unit: UnitId, goal: GoalId, ask: SubmitAsk, w: World)
    requires Submit(cfg, db, user, unit, goal, ask, w).1.Created?
    ensures HoldsPlan(db, TaskKey(user, unit, goal), ask) && IsLearner(cfg, db, user, unit, ask.course, w.open)
    ensures var key := TaskKey(user, unit, goal);
            key in db.states && db.states[key].start.Some? && db.states[key].start.value.public.id == ask.startId
  {
    AdmissionIsExact(cfg, db, user, unit, ask.course, w.open);
    HeldIsSaved(db, TaskKey(user, unit, goal), ask);
  }

  // ----- Starting --------------------------------------------------------------------------------------------------

  /** The open start that a request gets again: its own, that of a pending submission, or that of the active revision. */
  predicate KeepsStart(db: Db, key: TaskKey, active: Uuid, ask: StartAsk) {
    && key in db.states && db.states[key].start.Some?
    && (db.states[key].startRequest == Some(ask.request) || OpenSubmission(db, key).Some?
        || db.states[key].revision == active)
  }

  /** A pending submission of an older revision holds up a new request. */
  predicate IsHeldUp(db: Db, key: TaskKey, active: Uuid, ask: StartAsk) {
    && OpenSubmission(db, key).Some? && key in db.states && db.states[key].revision != active
    && !(db.states[key].start.Some? && db.states[key].startRequest == Some(ask.request))
  }

  /** A fresh start of the active revision: the practice case of the task's band, at first the initial one. */
  ghost predicate IsFresh(db: Db, key: TaskKey, active: Uuid, w: World, start: OpenStart)
    requires active in db.revisions
  {
    var document := db.revisions[active].document;
    && start.band == (if key in db.states then db.states[key].band else document.rule.initial)
    && exists task :: task in document.tasks && task.goal == key.goal && start.band in task.practice
                      && start.public == PublicStart(db.uuids, active, key.goal, task.practice[start.band], w.seed)
  }

  ghost predicate HasTask(db: Db, revision: Uuid, goal: GoalId)
    requires revision in db.revisions
  {
    exists task :: task in db.revisions[revision].document.tasks && task.goal == goal
  }

  /**
   In every reachable state a learner's start is taken exactly for a task of the active revision, which the request
   must name, unless a pending submission of an older revision holds it up or the daily limit is reached. It gives the
   open start there is and changes nothing, or draws a fresh one.
   */
  lemma StartIsExact(cfg: Config, s: System, user: UserId, unit: UnitId, goal: GoalId, ask: StartAsk, w: World)
    requires Inv(cfg, s)
    ensures var key, (db', reply) := TaskKey(user, unit, goal), Start(cfg, s.db, user, unit, goal, ask, w);
            var active := ask.revision;
            && (reply.Started? <==>
                  && IsLearner(cfg, s.db, user, unit, ask.course, w.open)
                  && active in s.db.revisions && s.db.revisions[active].activeFor == Some(unit)
                  && HasTask(s.db, active, goal) && !IsHeldUp(s.db, key, active, ask) && w.mayStart)
            && (reply.Started? && KeepsStart(s.db, key, active, ask) ==>
                  reply.start == s.db.states[key].start.value && db' == s.db)
            && (reply.Started? && !KeepsStart(s.db, key, active, ask) ==>
                  && active in s.db.revisions && IsFresh(s.db, key, active, w, reply.start)
                  && key in db'.states && db'.states[key].start == Some(reply.start)
                  && db'.states[key].startRequest == Some(ask.request) && db'.states[key].revision == active
                  && db'.states[key].band == reply.start.band
                  && db' == s.db.(uuids := s.db.uuids + 1, states := s.db.states[key := db'.states[key]]))
  {
    var db, key := s.db, TaskKey(user, unit, goal);
    AdmissionIsExact(cfg, db, user, unit, ask.course, w.open);
    ActiveIsUnique(cfg.catalogue, db, unit);
    ActiveIsNamed(cfg, db, unit, ask.revision);
    var active := ActiveRevision(db, unit);
    if active == Some(ask.revision) { StartTaskAnswers(cfg, db, key, ask.revision, ask, w); }
  }

  lemma ActiveIsNamed(cfg: Config, db: Db, unit: UnitId, id: Uuid)
    requires RevisionsInv(cfg.catalogue, db.uuids, db.revisions)
    ensures ActiveRevision(db, unit) == Some(id) <==> id in db.revisions && db.revisions[id].activeFor == Some(unit)
  {
    if id in db.revisions && db.revisions[id].activeFor == Some(unit) {
      assert RevisionOk(cfg.catalogue, db.uuids, db.revisions[id], id);
      var first := ActiveRevision(db, unit).value;
      assert RevisionOk(cfg.catalogue, db.uuids, db.revisions[first], first);
      assert Agree(db.revisions, first, id);
    }
  }

  lemma StartTaskAnswers(cfg: Config, db: Db, key: TaskKey, active: Uuid, ask: StartAsk, w: World)
    requires RevisionsInv(cfg.catalogue, db.uuids, db.revisions) && StatesInv(db.uuids, db.revisions, db.states)
    requires SubmissionsInv(cfg, db.uuids, db.revisions, db.states, db.submissions)
    requires active in db.revisions && db.revisions[active].unit == key.unit
    ensures var (db', reply) := StartTask(db, key, active, ask, w);
            && (reply.Started? <==> HasTask(db, active, key.goal) && !IsHeldUp(db, key, active, ask) && w.mayStart)
            && (reply.Started? && KeepsStart(db, key, active, ask) ==>
                  reply.start == db.states[key].start.value && db' == db)
            && (reply.Started? && !KeepsStart(db, key, active, ask) ==>
                  && IsFresh(db, key, active, w, reply.start)
                  && key in db'.states && db'.states[key].start == Some(reply.start)
                  && db'.states[key].startRequest == Some(ask.request) && db'.states[key].revision == active
                  && db'.states[key].band == reply.start.band
                  && db' == db.(uuids := db.uuids + 1, states := db.states[key := db'.states[key]]))
  {
    var document := db.revisions[active].document;
    var task := FindTask(document.tasks, key.goal);
    if task.Some? {
      PracticeExists(cfg, db, key, active, task.value);
      if OpenSubmission(db, key).Some? { PendingHasStart(cfg, db, key); }
      var found := Get(db.states, key);
      var state := Prepared(found, active, document.rule.initial, !IsReplay(found, ask) && OpenSubmission(db, key).None?);
      if !IsHeldUp(db, key, active, ask) {
        PreparedIs(db, key, active, ask, document.rule.initial);
        BeginGives(db, key, active, task.value, state, ask, w);
      }
    }
  }

  /** The state before a start is drawn: it has the start that is kept, or none, and is then on the active revision. */
  lemma PreparedIs(db: Db, key: TaskKey, active: Uuid, ask: StartAsk, initial: Band)
    requires active in db.revisions && !IsHeldUp(db, key, active, ask)
    requires OpenSubmission(db, key).Some? ==> key in db.states && db.states[key].start.Some?
    ensures var found := Get(db.states, key);
            var st := Prepared(found, active, initial, !IsReplay(found, ask) && OpenSubmission(db, key).None?);
            && (KeepsStart(db, key, active, ask) ==> st == db.states[key])
            && (!KeepsStart(db, key, active, ask) ==>
                  && st.start.None? && st.revision == active
                  && st.band == if key in db.states then db.states[key].band else initial)
  {}

  lemma BeginGives(db: Db, key: TaskKey, active: Uuid, task: Task, st: TaskState, ask: StartAsk, w: World)
    requires active in db.revisions && (st.start.None? ==> st.band in task.practice)
    requires st.start.Some? ==> key in db.states && st == db.states[key]
    ensures var (db', reply) := Begin(db, key, active, task, st, ask, w);
            && (reply.Started? <==> w.mayStart)
            && (reply.Started? && st.start.Some? ==> reply.start == st.start.value && db' == db)
            && (reply.Started? && st.start.None? ==>
                  && reply.start.band == st.band
                  && reply.start.public == PublicStart(db.uuids, active, key.goal, task.practice[st.band], w.seed)
                  && key in db'.states && db'.states[key] == Drawn(st, reply.start, ask)
                  && db' == db.(uuids := db.uuids + 1, states := db.states[key := db'.states[key]]))
  {
    if st.start.Some? { assert db.states[key := st] == db.states; }
  }
}
