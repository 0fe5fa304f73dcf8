/**
 What holds in every reachable state of the lesson engine, table by table. Each predicate names only the tables
 it speaks of, so that a step which leaves those tables alone keeps it at once.
 */
module EngineInvariant {
  import opened Options
  import opened Ids
  import opened Canonical
  import opened Rooms
  import opened EngineTables
  import opened EngineSteps
  import opened EngineSystem
  import R = Register

  type Revisions = map<Uuid, EngineRevision>
  type States = map<TaskKey, TaskState>
  type Submissions = map<Uuid, Submission>
  type Rows = map<RoomKey, Room>
  type Operations = map<OperationId, XpOperation>

  // ----- Revisions -------------------------------------------------------------------------------------

  ghost predicate RevisionOk(units: Catalogue, uuids: Uuid, r: EngineRevision, id: Uuid) {
    && id < uuids && r.number >= 1
    && (r.activeFor == None || r.activeFor == Some(r.unit))
    && ValidDocument(r.document) && r.document.unit == r.unit
    && r.terms == TermsOf(r.document.tasks)
    && Find(units, r.unit).Some? && IsEngine(Find(units, r.unit).value)
  }

  /** Two rows of one unit bind the same terms and bands, and share neither number, content nor activity. */
  ghost predicate Siblings(a: EngineRevision, b: EngineRevision) {
    a.unit == b.unit ==>
      && BondsOf(a.terms) == BondsOf(b.terms)
      && a.document.rule.bands == b.document.rule.bands
      && a.number != b.number
      && !(a.activeFor.Some? && b.activeFor.Some?)
      && !(a.document == b.document && a.package.packageHash == b.package.packageHash)
  }

  ghost predicate Agree(revisions: Revisions, a: Uuid, b: Uuid)
    requires a in revisions && b in revisions
  {
    a != b ==> Siblings(revisions[a], revisions[b])
  }

  ghost predicate HasActive(revisions: Revisions, unit: UnitId) {
    exists id :: id in revisions && revisions[id].activeFor == Some(unit)
  }

  ghost predicate HasNumber(revisions: Revisions, unit: UnitId, number: nat) {
    exists id :: id in revisions && revisions[id].unit == unit && revisions[id].number == number
  }

  ghost predicate EachOk(units: Catalogue, uuids: Uuid, revisions: Revisions) {
    forall id {:trigger RevisionOk(units, uuids, revisions[id], id)} | id in revisions ::
      RevisionOk(units, uuids, revisions[id], id)
  }

  ghost predicate EachAgrees(revisions: Revisions) {
    forall a, b {:trigger Agree(revisions, a, b)} | a in revisions && b in revisions :: Agree(revisions, a, b)
  }

  /** Every published unit has an active revision; it has only one, because its revisions agree. */
  ghost predicate EachActive(revisions: Revisions) {
    forall id {:trigger HasActive(revisions, revisions[id].unit)} | id in revisions ::
      HasActive(revisions, revisions[id].unit)
  }

  /** The numbers of a unit's revisions start at 1 and have no gap. */
  ghost predicate EachNumbered(revisions: Revisions) {
    forall id, n: nat {:trigger HasNumber(revisions, revisions[id].unit, n)}
      | id in revisions && 1 <= n <= revisions[id].number :: HasNumber(revisions, revisions[id].unit, n)
  }

  ghost predicate RevisionsInv(units: Catalogue, uuids: Uuid, revisions: Revisions) {
    EachOk(units, uuids, revisions) && EachAgrees(revisions) && EachActive(revisions) && EachNumbered(revisions)
  }

  // ----- Task states --------------------------------------------------------------------------------------

  /** The revision exists, belongs to the unit and has the task. */
  ghost predicate OnRevision(revisions: Revisions, revision: Uuid, unit: UnitId, goal: GoalId) {
    revision in revisions && revisions[revision].unit == unit && goal in BondsOf(revisions[revision].terms)
  }

  ghost predicate StartOk(revisions: Revisions, uuids: Uuid, st: TaskState, k: TaskKey)
    requires st.revision in revisions
  {
    st.start.Some? ==>
      var start := st.start.value;
      && start.public.revision == st.revision && start.public.goal == k.goal && start.public.id < uuids
      && start.band in revisions[st.revision].document.rule.bands
  }

  ghost predicate StateOk(revisions: Revisions, uuids: Uuid, st: TaskState, k: TaskKey) {
    && OnRevision(revisions, st.revision, k.unit, k.goal)
    && st.band in revisions[st.revision].document.rule.bands
    && st.fails >= 0 && st.passes >= 0 && (st.fails == 0 || st.passes == 0)
    && StartOk(revisions, uuids, st, k)
    && (st.xpApplied <==> st.passedAt.Some?) && (st.xpApplied <==> st.award.Some?)
    && (st.award.Some? ==>
          var bond := BondsOf(revisions[st.revision].terms)[k.goal];
          st.award.value == Award(TaskOperation(k), bond.xp, bond.skill))
  }

  ghost predicate StatesInv(uuids: Uuid, revisions: Revisions, states: States) {
    forall k {:trigger StateOk(revisions, uuids, states[k], k)} | k in states :: StateOk(revisions, uuids, states[k], k)
  }

  // ----- Submissions ------------------------------------------------------------------------------------------

  /** The check constraint of the table: an accepted row has nothing of a verdict, a booked one all of it. */
  ghost predicate ColumnsOk(s: Submission) {
    match s.state
    case Accepted => s.openGoal == Some(s.key.goal) && s.verdict == None && s.bookedAt == None && s.counts == None
                     && s.feedback == None
    case Booked => s.openGoal == None && s.verdict.Some? && s.bookedAt.Some? && s.feedback.Some?
                   && s.evaluatingUntil == None && s.counts == Some(s.verdict == Some(Pass))
  }

  /** The result of the sandbox for the frozen job of a submission. */
  function ResultOf(cfg: Config, s: Submission): Option<RunResult> {
    cfg.sandbox(s.job.document, RunnerJobOf(s.job, s.key.goal, s.input))
  }

  /** A booked row holds what the sandbox gives for its frozen job, and no more than the feedback a learner may see. */
  ghost predicate VerdictOk(cfg: Config, s: Submission) {
    s.state == Booked ==>
      var result := ResultOf(cfg, s);
      var task := FindTask(s.job.document.tasks, s.key.goal);
      && result.Some? && task.Some? && Fits(result.value, task.value)
      && s.verdict == Some(result.value.verdict) && s.feedback == Some(FeedbackOf(result.value, task.value))
  }

  /** The task state holds the start and the revision of an accepted submission, and no used-up start. */
  ghost predicate HeldByState(st: TaskState, s: Submission) {
    match s.state
    case Accepted => st.start == Some(OpenStart(s.job.start, s.job.band)) && st.revision == s.revision
    case Booked => st.start.Some? ==> st.start.value.public.id != s.startId
  }

  ghost predicate SubmissionOk(cfg: Config, uuids: Uuid, revisions: Revisions, states: States, s: Submission, id: Uuid) {
    && id < uuids && s.startId < uuids
    && OnRevision(revisions, s.revision, s.key.unit, s.key.goal)
    && s.job.revision == s.revision && s.job.start.id == s.startId
    && s.job.document == revisions[s.revision].document
    && CanonicalText(s.input) == Some(s.inputHash)
    && ColumnsOk(s) && VerdictOk(cfg, s)
    && s.key in states && HeldByState(states[s.key], s)
  }

  /** A start carries one plan. */
  ghost predicate OneStart(subs: Submissions, a: Uuid, b: Uuid)
    requires a in subs && b in subs
  {
    subs[a].key == subs[b].key && subs[a].startId == subs[b].startId ==> a == b
  }

  ghost predicate SubmissionsInv(cfg: Config, uuids: Uuid, revisions: Revisions, states: States, subs: Submissions) {
    && (forall id {:trigger SubmissionOk(cfg, uuids, revisions, states, subs[id], id)} | id in subs ::
          SubmissionOk(cfg, uuids, revisions, states, subs[id], id))
    && (forall a, b {:trigger OneStart(subs, a, b)} | a in subs && b in subs :: OneStart(subs, a, b))
  }

  // ----- Histories ------------------------------------------------------------------------------------------------

  ghost predicate BookingOk(revisions: Revisions, subs: Submissions, k: TaskKey, b: Booking) {
    && b.id in subs && subs[b.id].key == k && subs[b.id].state == Booked
    && (b.passed <==> subs[b.id].verdict == Some(Pass))
    && subs[b.id].revision in revisions && b.rule == revisions[subs[b.id].revision].document.rule
  }

  ghost predicate IsLogged(bookings: seq<Booking>, id: Uuid) {
    exists i :: 0 <= i < |bookings| && bookings[i].id == id
  }

  ghost predicate SomePass(log: seq<Booking>) {
    exists i :: 0 <= i < |log| && log[i].passed
  }

  /** The level of a task is the fold of its bookings, and it was passed when some booking passed. */
  ghost predicate TaskHistoryOk(revisions: Revisions, subs: Submissions, st: TaskState, log: seq<Booking>, born: Band,
                                k: TaskKey)
  {
    && Fold(born, log) == Some(Level(st.band, st.fails, st.passes))
    && (st.passedAt.Some? <==> SomePass(log))
    && (forall i {:trigger BookingOk(revisions, subs, k, log[i])} | 0 <= i < |log| :: BookingOk(revisions, subs, k, log[i]))
    && (forall i, j | 0 <= i < j < |log| :: log[i].id != log[j].id)
  }

  ghost predicate HistoryInv(revisions: Revisions, states: States, subs: Submissions,
                             bookings: map<TaskKey, seq<Booking>>, born: map<TaskKey, Band>)
  {
    && born.Keys == states.Keys && bookings.Keys <= states.Keys
    && (forall k {:trigger TaskHistoryOk(revisions, subs, states[k], LogOf(bookings, k), born[k], k)} | k in states ::
          TaskHistoryOk(revisions, subs, states[k], LogOf(bookings, k), born[k], k))
    && (forall id {:trigger IsLogged(LogOf(bookings, subs[id].key), id)} | id in subs && subs[id].state == Booked ::
          IsLogged(LogOf(bookings, subs[id].key), id))
  }

  // ----- Rooms -------------------------------------------------------------------------------------------------------

  ghost predicate RoomRowOk(units: Catalogue, d: RoomKey, row: Room) {
    Find(units, d.name).Some? && RoomOk(Find(units, d.name).value, row)
  }

  ghost predicate RoomsInv(units: Catalogue, rooms: Rows) {
    forall d {:trigger RoomRowOk(units, d, rooms[d])} | d in rooms :: RoomRowOk(units, d, rooms[d])
  }

  /** Every submission was saved in a room first. */
  ghost predicate PlacesInv(subs: Submissions, rooms: Rows) {
    forall id {:trigger subs[id]} | id in subs :: R.Doc(subs[id].key.user, subs[id].key.unit) in rooms
  }

  /** The required tasks of this revision are all passed. */
  ghost predicate PassedOn(r: EngineRevision, states: States, user: UserId) {
    forall g | g in RequiredGoals(r.terms) ::
      TaskKey(user, r.unit, g) in states && states[TaskKey(user, r.unit, g)].passedAt.Some?
  }

  /** Every required task of the unit is passed; a unit without a revision has no tasks yet. */
  ghost predicate AllPassed(revisions: Revisions, states: States, user: UserId, unit: UnitId) {
    exists id {:trigger PassedOn(revisions[id], states, user)} ::
      id in revisions && revisions[id].unit == unit && PassedOn(revisions[id], states, user)
  }

  /** A room of the engine is completed exactly when every required task has passed. */
  ghost predicate CompletionOk(units: Catalogue, revisions: Revisions, states: States, d: RoomKey, row: Room) {
    Find(units, d.name).Some? && IsEngine(Find(units, d.name).value) ==>
      && (row.status == Completed <==> AllPassed(revisions, states, d.user, d.name))
      && (row.status == Completed ==> row.result == Some(Passed))
  }

  ghost predicate CompletionInv(units: Catalogue, revisions: Revisions, states: States, rooms: Rows) {
    forall d {:trigger CompletionOk(units, revisions, states, d, rooms[d])} | d in rooms ::
      CompletionOk(units, revisions, states, d, rooms[d])
  }

  // ----- XP -----------------------------------------------------------------------------------------------------------

  /** A receipt that is committed has its result; that of a task carries the terms of the task's award. */
  ghost predicate OperationOk(states: States, op: OperationId, row: XpOperation) {
    && row.result == Some(Applied) && row.user == row.request.user
    && (op.TaskOperation? ==>
          && op.key in states && states[op.key].award.Some?
          && row.request == XpRequest(op.key.user, states[op.key].award.value.skill, states[op.key].award.value.xp, op))
  }

  ghost predicate ReceiptsInv(states: States, operations: Operations) {
    && (forall op {:trigger OperationOk(states, op, operations[op])} | op in operations ::
          OperationOk(states, op, operations[op]))
    && (forall k {:trigger TaskOperation(k)} | k in states && states[k].xpApplied :: TaskOperation(k) in operations)
  }

  ghost predicate Pays(row: XpOperation, key: XpKey) {
    row.request.user == key.user && row.request.skill == key.skill
  }

  ghost function Payers(operations: Operations, key: XpKey): set<OperationId> {
    set op | op in operations && Pays(operations[op], key)
  }

  ghost function Sum(operations: Operations, ids: set<OperationId>): int
    requires ids <= operations.Keys
    decreases |ids|
  {
    if ids == {} then 0
    else
      var op :| op in ids;
      operations[op].request.xp + Sum(operations, ids - {op})
  }

  /** The XP of all committed receipts of a learner for a sub-skill. */
  ghost function Total(operations: Operations, key: XpKey): int {
    Sum(operations, Payers(operations, key))
  }

  /** A counter and what was deleted with its sub-skill make up the receipts. */
  ghost predicate TotalsInv(operations: Operations, xp: map<XpKey, int>, lost: map<XpKey, int>) {
    forall key {:trigger Total(operations, key)} :: Counter(xp, key) + Counter(lost, key) == Total(operations, key)
  }

  /** A task's receipt exists exactly while some answer carried its XP and its learner's data was not deleted. */
  ghost predicate PaidOk(operations: Operations, paid: multiset<OperationId>, wiped: set<UserId>, op: OperationId) {
    && paid[op] <= 1
    && (op in operations && op.TaskOperation? ==> paid[op] == 1)
    && (op in paid ==> op.TaskOperation? && (op in operations || op.key.user in wiped))
  }

  ghost predicate PaidInv(operations: Operations, paid: multiset<OperationId>, wiped: set<UserId>) {
    forall op {:trigger PaidOk(operations, paid, wiped, op)} :: PaidOk(operations, paid, wiped, op)
  }

  // ----- Erasure --------------------------------------------------------------------------------------------------------

  /** The tombstone stands and no row is left. */
  ghost predicate IsWiped(db: Db, user: UserId) {
    && user in db.erased
    && (forall k | k in db.states :: k.user != user)
    && (forall id | id in db.submissions :: db.submissions[id].key.user != user)
    && (forall d | d in db.rooms :: d.user != user)
    && (forall k | k in db.roomRequests :: k.user != user)
    && (forall op | op in db.operations :: db.operations[op].user != user)
    && (forall k | k in db.xp :: k.user != user)
  }

  ghost predicate WipedInv(db: Db, wiped: set<UserId>) {
    forall user {:trigger IsWiped(db, user)} | user in wiped :: IsWiped(db, user)
  }

  // ----- Evaluations in flight --------------------------------------------------------------------------------------------

  /** What an evaluation read is still what its submission says, unless the account was erased in between. */
  ghost predicate WorkOk(cfg: Config, uuids: Uuid, revisions: Revisions, subs: Submissions, wiped: set<UserId>,
                         w: Work)
  {
    match w
    case Evaluating(id, user, document, job) =>
      && id < uuids
      && if id in subs then
           && subs[id].key.user == user && document == subs[id].job.document
           && job == RunnerJobOf(subs[id].job, subs[id].key.goal, subs[id].input)
         else user in wiped
    case Deciding(r) =>
      && r.id < uuids
      && if r.id in subs then
           && subs[r.id].key == r.key && ResultOf(cfg, subs[r.id]) == Some(r.result)
           && subs[r.id].revision in revisions
           && r.revision.document == revisions[subs[r.id].revision].document
           && r.revision.terms == revisions[subs[r.id].revision].terms
           && FindTask(r.revision.document.tasks, r.key.goal).Some?
           && Fits(r.result, FindTask(r.revision.document.tasks, r.key.goal).value)
         else r.key.user in wiped
  }

  ghost predicate WorkersInv(cfg: Config, uuids: Uuid, revisions: Revisions, subs: Submissions, wiped: set<UserId>,
                             workers: map<nat, Work>)
  {
    forall n {:trigger WorkOk(cfg, uuids, revisions, subs, wiped, workers[n])} | n in workers ::
      WorkOk(cfg, uuids, revisions, subs, wiped, workers[n])
  }

  // ----- All of it ---------------------------------------------------------------------------------------------------------

  ghost predicate Inv(cfg: Config, s: System) {
    && RevisionsInv(cfg.catalogue, s.db.uuids, s.db.revisions)
    && StatesInv(s.db.uuids, s.db.revisions, s.db.states)
    && SubmissionsInv(cfg, s.db.uuids, s.db.revisions, s.db.states, s.db.submissions)
    && HistoryInv(s.db.revisions, s.db.states, s.db.submissions, s.bookings, s.born)
    && RoomsInv(cfg.catalogue, s.db.rooms)
    && PlacesInv(s.db.submissions, s.db.rooms)
    && CompletionInv(cfg.catalogue, s.db.revisions, s.db.states, s.db.rooms)
    && ReceiptsInv(s.db.states, s.db.operations)
    && TotalsInv(s.db.operations, s.db.xp, s.lost)
    && PaidInv(s.db.operations, s.paid, s.wiped)
    && WipedInv(s.db, s.wiped)
    && WorkersInv(cfg, s.db.uuids, s.db.revisions, s.db.submissions, s.wiped, s.workers)
  }

  lemma EmptyInv(cfg: Config)
    ensures Inv(cfg, EMPTY)
  {}
}
