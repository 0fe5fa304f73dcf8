/**
 What one committed transaction of each operation of the lesson engine does to the tables, as functions:
 publish (api/services/engine.py), start and submit (api/services/engine_tasks.py), the lease and the booking
 (api/services/engine_verdicts.py), XP receipts (api/services/benefits.py), room changes (api/services/rooms.py)
 and erasure (api/services/user_deletion.py). A refused or failed transaction leaves the tables as they were.
 */
module EngineSteps {
  import opened Options
  import opened Ids
  import opened Canonical
  import opened Rooms
  import opened EngineTables
  import R = Register

  datatype Refusal =
    | AccountGone | NotFound | Locked | NoAccess | Unavailable | RevisionChanged | PendingSubmission | LimitReached
    | PlanInvalid | PlanKind | StartRequired | Conflict | CameFirst | Broken

  // ----- Publishing ---------------------------------------------------------------------------------------

  /** `known`: every sub-skill of the document exists; `registered`: so does the registry row of the module. */
  datatype PublishAsk = PublishAsk(unit: UnitId, package: Package, document: Document, known: bool, registered: bool)
  datatype PublishReply = PublishRefused(code: nat) | Published(id: Uuid, number: nat, created: bool)

  /** The later revision keeps the task terms and the bands of the active one. */
  predicate Compatible(active: EngineRevision, document: Document) {
    && BondsOf(active.terms) == BondsOf(TermsOf(document.tasks))
    && active.document.rule.bands == document.rule.bands
  }

  function SameContent(db: Db, ask: PublishAsk): Option<Uuid> {
    First(db.revisions, db.uuids, (r: EngineRevision) =>
            r.unit == ask.unit && r.document == ask.document && r.package.packageHash == ask.package.packageHash)
  }

  function Deactivate(revisions: map<Uuid, EngineRevision>, id: Option<Uuid>): map<Uuid, EngineRevision> {
    if id.Some? && id.value in revisions then revisions[id.value := revisions[id.value].(activeFor := None)]
    else revisions
  }

  /** The refusal of `publish`, or None. */
  function PublishRefusal(cfg: Config, db: Db, ask: PublishAsk): Option<nat> {
    var unit := Find(cfg.catalogue, ask.unit);
    if unit.None? || !IsEngine(unit.value) then Some(404)
    else if !ValidDocument(ask.document) || ask.document.unit != ask.unit || !ask.known then Some(422)
    else if !ask.registered then Some(409)
    else
      var active := ActiveRevision(db, ask.unit);
      var same := SameContent(db, ask);
      if active.Some? && !Compatible(db.revisions[active.value], ask.document) then Some(409)
      else if same.Some? && db.revisions[same.value].package != ask.package then Some(409)
      else None
  }

  function NewRevision(db: Db, ask: PublishAsk): EngineRevision {
    EngineRevision(ask.unit, MaxNumber(db.revisions, db.uuids, ask.unit) + 1, Some(ask.unit), ask.package, ask.document,
                   TermsOf(ask.document.tasks))
  }

  /** Switches the active revision of the unit to the row of the same content, or to a new row. */
  function Activate(db: Db, ask: PublishAsk): (Db, PublishReply) {
    var active := ActiveRevision(db, ask.unit);
    var same := SameContent(db, ask);
    var rows := if active == same then db.revisions else Deactivate(db.revisions, active);
    if same.Some? then
      (db.(revisions := rows[same.value := db.revisions[same.value].(activeFor := Some(ask.unit))]),
       Published(same.value, db.revisions[same.value].number, false))
    else
      var row := NewRevision(db, ask);
      (db.(uuids := db.uuids + 1, revisions := rows[db.uuids := row]), Published(db.uuids, row.number, true))
  }

  function Publish(cfg: Config, db: Db, ask: PublishAsk): (Db, PublishReply) {
    var refusal := PublishRefusal(cfg, db, ask);
    if refusal.Some? then (db, PublishRefused(refusal.value)) else Activate(db, ask)
  }

  // ----- Admission -------------------------------------------------------------------------------------------

  /** What the rest of the world answers: whether the unit is offered and access granted, and the daily limit. */
  datatype World = World(open: bool, mayStart: bool, seed: string, now: Time)

  /** `_unit`: the refusal of the unit, or None. A lesson opened in a course skips the prerequisites. */
  function UnitRefusal(cfg: Config, db: Db, user: UserId, unit: UnitId, course: Option<CourseId>, open: bool)
    : Option<Refusal>
  {
    var found := Find(cfg.catalogue, unit);
    if found.None? || (found.value.completion.None? && !found.value.exercise) then Some(NotFound)
    else if course.None? && !IsUnlocked(cfg.catalogue, found.value, RoomsOf(db, user)) then Some(Locked)
    else if !IsEngine(found.value) then Some(NotFound)
    else if !open then Some(NoAccess)
    else None
  }

  // ----- Starting ----------------------------------------------------------------------------------------------

  datatype StartAsk = StartAsk(request: RequestId, revision: Uuid, course: Option<CourseId>)
  datatype StartReply = StartRefused(why: Refusal) | Started(start: OpenStart)

  function NewState(revision: Uuid, band: Band): TaskState {
    TaskState(revision, band, 0, 0, None, None, None, false, None)
  }

  function Start(cfg: Config, db: Db, user: UserId, unit: UnitId, goal: GoalId, ask: StartAsk, w: World)
    : (Db, StartReply)
  {
    if user in db.erased then (db, StartRefused(AccountGone))
    else
      var refusal := UnitRefusal(cfg, db, user, unit, ask.course, w.open);
      if refusal.Some? then (db, StartRefused(refusal.value))
      else
        var active := ActiveRevision(db, unit);
        if active.None? then (db, StartRefused(Unavailable))
        else if ask.revision != active.value then (db, StartRefused(RevisionChanged))
        else StartTask(db, TaskKey(user, unit, goal), active.value, ask, w)
  }

  /** The part of `start` under the row lock of the task state. */
  function StartTask(db: Db, key: TaskKey, active: Uuid, ask: StartAsk, w: World): (Db, StartReply)
    requires active in db.revisions
  {
    var document := db.revisions[active].document;
    var task := FindTask(document.tasks, key.goal);
    if task.None? then (db, StartRefused(NotFound))
    else
      var found := Get(db.states, key);
      var pending := OpenSubmission(db, key);
      var replay := IsReplay(found, ask);
      if pending.Some? && !replay && found.Some? && found.value.revision != active
      then (db, StartRefused(PendingSubmission))
      else
        Begin(db, key, active, task.value,
              Prepared(found, active, document.rule.initial, !replay && pending.None?), ask, w)
  }

  /** Draws a start for the prepared row unless it has one, and spends it on the daily limit. */
  function Begin(db: Db, key: TaskKey, active: Uuid, task: Task, state: TaskState, ask: StartAsk, w: World)
    : (Db, StartReply)
  {
    if state.start.Some? then
      if !w.mayStart then (db, StartRefused(LimitReached))
      else (db.(states := db.states[key := state]), Started(state.start.value))
    else if state.band !in task.practice then (db, StartRefused(Broken))
    else if !w.mayStart then (db, StartRefused(LimitReached))
    else
      var start := OpenStart(PublicStart(db.uuids, active, key.goal, task.practice[state.band], w.seed), state.band);
      (db.(uuids := db.uuids + 1, states := db.states[key := Drawn(state, start, ask)]), Started(start))
  }

  /** The same request again while its start is open. */
  predicate IsReplay(found: Option<TaskState>, ask: StartAsk) {
    found.Some? && found.value.start.Some? && found.value.startRequest == Some(ask.request)
  }

  /** The row before a start is drawn: a new row, or one that moves to the active revision and loses its start. */
  function Prepared(found: Option<TaskState>, active: Uuid, initial: Band, mayMove: bool): TaskState {
    if found.None? then NewState(active, initial)
    else if mayMove && found.value.revision != active then found.value.(revision := active, start := None)
    else found.value
  }

  function Drawn(state: TaskState, start: OpenStart, ask: StartAsk): TaskState {
    state.(start := Some(start), startRequest := Some(ask.request))
  }

  // ----- Submitting ----------------------------------------------------------------------------------------------

  datatype SubmitAsk = SubmitAsk(stateRevision: nat, startId: Uuid, plan: Json, course: Option<CourseId>)
  datatype SubmitReply = SubmitRefused(why: Refusal) | Existing(id: Uuid) | Created(id: Uuid)

  function Submit(cfg: Config, db: Db, user: UserId, unit: UnitId, goal: GoalId, ask: SubmitAsk, w: World)
    : (Db, SubmitReply)
  {
    if user in db.erased then (db, SubmitRefused(AccountGone))
    else
      var refusal := UnitRefusal(cfg, db, user, unit, ask.course, w.open);
      if refusal.Some? then (db, SubmitRefused(refusal.value))
      else SubmitTask(db, TaskKey(user, unit, goal), ask, w)
  }

  /** The part of `submit` under the row lock of the task state. */
  function SubmitTask(db: Db, key: TaskKey, ask: SubmitAsk, w: World): (Db, SubmitReply) {
    var hash := CanonicalText(ask.plan);
    if hash.None? then (db, SubmitRefused(PlanInvalid))
    else if key !in db.states || db.states[key].start.None? then (db, SubmitRefused(StartRequired))
    else
      var state := db.states[key];
      var same := SameSubmission(db, key, ask.startId, hash.value);
      if same.Some? then (db, Existing(same.value))
      else if state.start.value.public.id != ask.startId then (db, SubmitRefused(StartRequired))
      else if SubmissionOfStart(db, key, ask.startId).Some? then (db, SubmitRefused(StartRequired))
      else
        var room := Get(db.rooms, R.Doc(key.user, key.unit));
        if room.None? || room.value.revision != ask.stateRevision then (db, SubmitRefused(Conflict))
        else
          var saved := SavedPlan(room.value.state, key.goal);
          if saved.None? || !Same(saved.value, ask.plan) then (db, SubmitRefused(Conflict))
          else if state.revision !in db.revisions then (db, SubmitRefused(Unavailable))
          else
            var document := db.revisions[state.revision].document;
            var task := FindTask(document.tasks, key.goal);
            if task.None? then (db, SubmitRefused(NotFound))
            else if Member(ask.plan, KIND) != Some(Str(task.value.input)) then (db, SubmitRefused(PlanKind))
            // The IntegrityError of the unique open submission; see `OneOpenSubmission`.
            else if OpenSubmission(db, key).Some? then (db, SubmitRefused(CameFirst))
            else
              var row := NewSubmission(key, state, document, hash.value, ask.plan, w.now);
              (db.(uuids := db.uuids + 1, submissions := db.submissions[db.uuids := row]), Created(db.uuids))
  }

  function NewSubmission(key: TaskKey, state: TaskState, document: Document, hash: Text, plan: Json, now: Time)
    : Submission
    requires state.start.Some?
  {
    var start := state.start.value;
    Submission(key, Some(key.goal), state.revision, start.public.id, hash, plan,
               Job(state.revision, start.public, start.band, document), Accepted, None, None, None, now, None, None)
  }

  // ----- The lease -------------------------------------------------------------------------------------------------

  const LEASE_SECONDS: Time := 30

  function Claim(db: Db, id: Uuid, now: Time): (Db, bool) {
    if id in db.submissions && db.submissions[id].state == Accepted
       && (db.submissions[id].evaluatingUntil.None? || db.submissions[id].evaluatingUntil.value <= now)
    then
      (db.(submissions := db.submissions[id := db.submissions[id].(evaluatingUntil := Some(now + LEASE_SECONDS))]), true)
    else (db, false)
  }

  // ----- XP ------------------------------------------------------------------------------------------------------------

  /** `live`: the account service knows the recipient; `skillKnown`: the sub-skill exists. */
  datatype XpWorld = XpWorld(live: bool, skillKnown: bool)
  datatype XpReply = XpDone | XpErased | XpFailed(code: nat)

  function AddXp(xp: map<XpKey, int>, key: XpKey, amount: int): map<XpKey, int> {
    xp[key := (if key in xp then xp[key] else 0) + amount]
  }

  function Counter(xp: map<XpKey, int>, key: XpKey): int {
    if key in xp then xp[key] else 0
  }

  /** The cascade of a deleted sub-skill. */
  function DeleteCounters(db: Db, skill: SkillId): Db {
    db.(xp := map k | k in db.xp && k.skill != skill :: db.xp[k])
  }

  /** `apply_xp`: an exact completed receipt answers before the guard; an erased account gets nothing and keeps no row. */
  function ApplyXp(db: Db, operation: OperationId, request: XpRequest, w: XpWorld): (Db, XpReply) {
    var row := if operation in db.operations then db.operations[operation] else XpOperation(request.user, request, None);
    if row.request != request then (db, XpFailed(409))
    else if row.result.Some? then (db, XpDone)
    else if request.user in db.erased then (db.(operations := db.operations - {operation}), XpErased)
    else if !w.live then (db, XpFailed(503))
    else if !w.skillKnown then (db, XpFailed(404))
    else
      (db.(operations := db.operations[operation := row.(result := Some(Applied))],
           xp := AddXp(db.xp, XpKey(request.user, request.skill), request.xp)),
       XpDone)
  }

  // ----- Booking -------------------------------------------------------------------------------------------------------

  /** What `book` has read before it takes any lock. */
  datatype Reading = Reading(id: Uuid, key: TaskKey, result: RunResult, revision: EngineRevision)

  /** The unlocked first read of `book`, with the result of the runner; None when there is nothing to book. */
  function Read(db: Db, id: Uuid, user: UserId, result: RunResult): Option<Reading> {
    if id !in db.submissions || db.submissions[id].key.user != user || db.submissions[id].state != Accepted then None
    else
      var row := db.submissions[id];
      if row.revision !in db.revisions then None
      else
        var revision := db.revisions[row.revision];
        var task := FindTask(revision.document.tasks, row.key.goal);
        if task.None? || !Fits(result, task.value) then None
        else Some(Reading(id, row.key, result, revision))
  }

  datatype BookReply =
    | BookErased
    | NoVerdict
    | BookBroken
    | AlreadyBooked(view: View)
    | BookedNow(view: View, xp: Option<int>)

  function BookedState(state: TaskState, level: Level, startId: Uuid, passed: bool, award: Award, now: Time): TaskState {
    state.(band := level.band, fails := level.fails, passes := level.passes,
           start := if state.start.Some? && state.start.value.public.id == startId then None else state.start,
           passedAt := if passed && state.passedAt.None? then Some(now) else state.passedAt,
           xpApplied := state.xpApplied || passed,
           award := if passed && !state.xpApplied then Some(award) else state.award)
  }

  function BookedSubmission(row: Submission, result: RunResult, task: Task, now: Time): Submission {
    row.(state := Booked, openGoal := None, verdict := Some(result.verdict), feedback := Some(FeedbackOf(result, task)),
         counts := Some(result.verdict == Pass), bookedAt := Some(now), evaluatingUntil := None)
  }

  /** `_complete_unit`: completes the room once every required task has a booked pass. */
  function CompleteUnit(db: Db, user: UserId, unit: UnitId, terms: seq<Terms>): Db {
    var key := R.Doc(user, unit);
    if RequiredGoals(terms) <= PassedGoals(db, user, unit) && key in db.rooms && db.rooms[key].status != Completed
    then db.(rooms := db.rooms[key := db.rooms[key].(status := Completed, result := Some(Passed))])
    else db
  }

  /** The transaction of `book` after its first read. */
  function Book(db: Db, r: Reading, w: XpWorld, now: Time): (Db, BookReply) {
    var task := FindTask(r.revision.document.tasks, r.key.goal);
    var terms := FindTerms(r.revision.terms, r.key.goal);
    if task.None? || terms.None? then (db, BookBroken)
    else
      var passed := r.result.verdict == Pass;
      var operation := TaskOperation(r.key);
      var award := Award(operation, terms.value.xp, terms.value.skill);
      var (paid, reply) :=
        if passed
        then ApplyXp(db, operation, XpRequest(r.key.user, award.skill, award.xp, operation), w)
        else (db, XpDone);
      if reply.XpErased? then (db, BookErased)
      else if reply.XpFailed? then (db, NoVerdict)
      else if r.key.user in paid.erased then (db, BookErased)
      else if r.key !in paid.states || r.id !in paid.submissions || paid.submissions[r.id].key.user != r.key.user
      then (db, BookErased)
      else
        var row, state := paid.submissions[r.id], paid.states[r.key];
        if row.state != Accepted
        then (paid, AlreadyBooked(ViewOf(r.id, row, RoomCompleted(paid, r.key.user, r.key.unit))))
        else
          var level := Counted(r.revision.document.rule, Level(state.band, state.fails, state.passes), passed);
          if level.None? then (db, BookBroken)
          else
            var booked := paid.(
              states := paid.states[r.key := BookedState(state, level.value, row.startId, passed, award, now)],
              submissions := paid.submissions[r.id := BookedSubmission(row, r.result, task.value, now)]);
            var done := if passed then CompleteUnit(booked, r.key.user, r.key.unit, r.revision.terms) else booked;
            var completed := passed && RequiredGoals(r.revision.terms) <= PassedGoals(booked, r.key.user, r.key.unit)
                             && RoomCompleted(done, r.key.user, r.key.unit);
            (done, BookedNow(ViewOf(r.id, done.submissions[r.id], completed),
                             if passed && !state.xpApplied then Some(award.xp) else None))
  }

  // ----- Room changes ------------------------------------------------------------------------------------------------------

  const KEPT_ROOM_RECEIPTS := 4

  datatype RoomReply =
    | RoomRefused(code: nat)
    | RoomReplayed(progress: Progress)
    | RoomConfirmed(progress: Progress)
    | RoomSaved(progress: Progress)

  function RoomMark(user: UserId, unit: UnitId, ask: Ask): R.Fingerprint<Ask> {
    R.Fingerprint(R.Doc(user, unit), ask.expected, ask)
  }

  function MutateRoom(cfg: Config, db: Db, user: UserId, unit: UnitId, ask: Ask, out: Outside): (Db, RoomReply) {
    if user in db.erased then (db, RoomRefused(401))
    else
      var found := Find(cfg.catalogue, unit);
      if found.None? || (found.value.completion.None? && !found.value.exercise) then (db, RoomRefused(404))
      else if ask.course.None? && !IsUnlocked(cfg.catalogue, found.value, RoomsOf(db, user)) then (db, RoomRefused(403))
      else if !out.open then (db, RoomRefused(403))
      else
        ChangeRoom(db, found.value, R.Doc(user, unit), ask, out)
  }

  /** The receipt lookup, the decision and the write, once the room is open to the learner. */
  function ChangeRoom(db: Db, unit: Unit, doc: RoomKey, ask: Ask, out: Outside): (Db, RoomReply) {
    var key, mark := R.Key(doc.user, ask.id), RoomMark(doc.user, doc.name, ask);
    if key in db.roomRequests then
      (db, if db.roomRequests[key].fingerprint != mark then RoomRefused(409)
           else RoomReplayed(db.roomRequests[key].answer))
    else
      match Decide(unit, Get(db.rooms, doc), ask, out)
      case Refuse(code) => (db, RoomRefused(code))
      case Confirm(progress) => (db, RoomConfirmed(progress))
      case Write(room, progress) =>
        (db.(rooms := db.rooms[doc := room],
             roomRequests := R.Prune(db.roomRequests[key := R.Receipt(ask.expected + 1, mark, progress)], doc,
                                     KEPT_ROOM_RECEIPTS)),
         RoomSaved(progress))
  }

  // ----- Erasure ---------------------------------------------------------------------------------------------------------------

  function Tombstone(db: Db, user: UserId): Db {
    db.(erased := db.erased + {user})
  }

  /** `delete_user_data`, as far as these tables go. */
  function Erase(db: Db, user: UserId): Db {
    db.(erased := db.erased + {user},
        states := map k | k in db.states && k.user != user :: db.states[k],
        submissions := map k | k in db.submissions && db.submissions[k].key.user != user :: db.submissions[k],
        rooms := map k | k in db.rooms && k.user != user :: db.rooms[k],
        roomRequests := map k | k in db.roomRequests && k.user != user :: db.roomRequests[k],
        operations := map k | k in db.operations && db.operations[k].user != user :: db.operations[k],
        xp := map k | k in db.xp && k.user != user :: db.xp[k])
  }
}
