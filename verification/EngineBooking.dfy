/** The booking transaction keeps the invariant, and its reply says what it did. */
module EngineBooking {
  import opened Options
  import opened Ids
  import opened Rooms
  import opened EngineTables
  import opened EngineSteps
  import opened EngineSystem
  import opened EngineInvariant
  import opened EngineRevisions

  // ----- The band automaton -------------------------------------------------------------------------------

  /** Counting stays in the bands of its rule and in the counters' range, and one counter is always 0. */
  lemma CountedOk(rule: BandRule, level: Level, passed: bool)
    requires level.fails >= 0 && level.passes >= 0
    ensures Counted(rule, level, passed).Some? <==> level.band in rule.bands
    ensures Counted(rule, level, passed).Some? ==>
              var next := Counted(rule, level, passed).value;
              && next.band in rule.bands && next.fails >= 0 && next.passes >= 0
              && (next.fails == 0 || next.passes == 0)
  {}

  // ----- What a booking finds --------------------------------------------------------------------------------

  /** What the transaction finds when it books: its submission still open, and its state holding its start. */
  ghost predicate Finds(cfg: Config, db: Db, r: Reading) {
    && r.key.user !in db.erased && r.key in db.states && r.id in db.submissions
    && var st, row := db.states[r.key], db.submissions[r.id];
    && row.key == r.key && row.state == Accepted && ResultOf(cfg, row) == Some(r.result)
    && st.start.Some? && st.start.value.public.id == row.startId && st.revision == row.revision
    && row.revision in db.revisions && row.job.document == db.revisions[row.revision].document
    && r.revision.document == db.revisions[row.revision].document
    && r.revision.terms == db.revisions[row.revision].terms
    && r.key.unit == db.revisions[row.revision].unit
  }

  /** The terms the booking awards, and the level it counts to. */
  ghost predicate Counts(r: Reading, st: TaskState, task: Task, award: Award, level: Level) {
    && FindTask(r.revision.document.tasks, r.key.goal) == Some(task) && Fits(r.result, task)
    && r.key.goal in BondsOf(r.revision.terms)
    && award == Award(TaskOperation(r.key), BondsOf(r.revision.terms)[r.key.goal].xp, BondsOf(r.revision.terms)[r.key.goal].skill)
    && Counted(r.revision.document.rule, Level(st.band, st.fails, st.passes), r.result.verdict == Pass) == Some(level)
  }

  /** The reading of a worker is one its revision can count: it has the task, its terms and the state's band. */
  lemma ReadingHasTask(cfg: Config, db: Db, r: Reading, wiped: set<UserId>)
    requires RevisionsInv(cfg.catalogue, db.uuids, db.revisions)
    requires WorkOk(cfg, db.uuids, db.revisions, db.submissions, wiped, Deciding(r)) && r.id in db.submissions
    ensures FindTask(r.revision.document.tasks, r.key.goal).Some?
    ensures Fits(r.result, FindTask(r.revision.document.tasks, r.key.goal).value)
    ensures FindTerms(r.revision.terms, r.key.goal).Some? && r.key.goal in BondsOf(r.revision.terms)
    ensures BondOf(FindTerms(r.revision.terms, r.key.goal).value) == BondsOf(r.revision.terms)[r.key.goal]
  {
    var id := db.submissions[r.id].revision;
    assert RevisionOk(cfg.catalogue, db.uuids, db.revisions[id], id);
    TaskOfRevision(cfg.catalogue, db.uuids, db.revisions[id], id, r.key.goal);
  }

  lemma AcceptedFinds(cfg: Config, db: Db, r: Reading, wiped: set<UserId>)
    requires SubmissionsInv(cfg, db.uuids, db.revisions, db.states, db.submissions)
    requires WorkOk(cfg, db.uuids, db.revisions, db.submissions, wiped, Deciding(r))
    requires r.key.user !in db.erased && r.id in db.submissions && db.submissions[r.id].state == Accepted
    ensures Finds(cfg, db, r)
  {
    assert SubmissionOk(cfg, db.uuids, db.revisions, db.states, db.submissions[r.id], r.id);
  }

  /** The band of the state is one of the reading's rule, so `bands.index` finds it. */
  lemma FoundIsCounted(cfg: Config, db: Db, r: Reading)
    requires StatesInv(db.uuids, db.revisions, db.states) && Finds(cfg, db, r)
    ensures var st := db.states[r.key];
            Counted(r.revision.document.rule, Level(st.band, st.fails, st.passes), r.result.verdict == Pass).Some?
  {
    assert StateOk(db.revisions, db.uuids, db.states[r.key], r.key);
  }

  // ----- The XP of a booking -------------------------------------------------------------------------------------

  function AwardOf(r: Reading, terms: Terms): Award {
    Award(TaskOperation(r.key), terms.xp, terms.skill)
  }

  function RequestOf(r: Reading, award: Award): XpRequest {
    XpRequest(r.key.user, award.skill, award.xp, award.operation)
  }

  /** A task that was passed has the receipt of this award already, and any other has no receipt. */
  lemma ReceiptOfTask(cfg: Config, db: Db, r: Reading, award: Award)
    requires StatesInv(db.uuids, db.revisions, db.states) && ReceiptsInv(db.states, db.operations)
    requires r.key in db.states && db.states[r.key].revision in db.revisions
    requires var terms := db.revisions[db.states[r.key].revision].terms;
             && r.key.goal in BondsOf(terms)
             && award == Award(TaskOperation(r.key), BondsOf(terms)[r.key.goal].xp, BondsOf(terms)[r.key.goal].skill)
    ensures TaskOperation(r.key) in db.operations <==> db.states[r.key].xpApplied
    ensures TaskOperation(r.key) in db.operations ==>
              db.operations[TaskOperation(r.key)] == XpOperation(r.key.user, RequestOf(r, award), Some(Applied))
  {
    assert StateOk(db.revisions, db.uuids, db.states[r.key], r.key);
    if TaskOperation(r.key) in db.operations {
      assert OperationOk(db.states, TaskOperation(r.key), db.operations[TaskOperation(r.key)]);
    }
  }

  /** The tables with a new receipt and its XP. */
  function Paid(db: Db, op: OperationId, request: XpRequest): Db {
    db.(operations := db.operations[op := XpOperation(request.user, request, Some(Applied))],
        xp := AddXp(db.xp, XpKey(request.user, request.skill), request.xp))
  }

  /** Without a receipt `apply_xp` adds one with its XP or nothing at all; with it, nothing. */
  lemma ApplyXpShape(db: Db, op: OperationId, request: XpRequest, w: XpWorld)
    requires op in db.operations ==> db.operations[op].result.Some?
    ensures var (db', reply) := ApplyXp(db, op, request, w);
            && (op in db.operations || !reply.XpDone? ==> db' == db)
            && (op !in db.operations && reply.XpDone? ==>
                  && request.user !in db.erased
                  && db' == Paid(db, op, request))
            && (op in db.operations && reply.XpDone? ==> db.operations[op].request == request)
  {
    if op !in db.operations { assert db.operations - {op} == db.operations; }
  }

  // ----- What a booking writes -----------------------------------------------------------------------------------

  predicate PaysFirst(r: Reading, st: TaskState) {
    r.result.verdict == Pass && !st.xpApplied
  }

  function PaidFor(db: Db, r: Reading, award: Award): Db
    requires r.key in db.states
  {
    if PaysFirst(r, db.states[r.key]) then Paid(db, award.operation, RequestOf(r, award)) else db
  }

  function StatesAfter(db: Db, r: Reading, award: Award, level: Level, now: Time): States
    requires r.key in db.states && r.id in db.submissions
  {
    db.states[r.key := BookedState(db.states[r.key], level, db.submissions[r.id].startId, r.result.verdict == Pass,
                                   award, now)]
  }

  function SubmissionsAfter(db: Db, r: Reading, task: Task, now: Time): Submissions
    requires r.id in db.submissions
  {
    db.submissions[r.id := BookedSubmission(db.submissions[r.id], r.result, task, now)]
  }

  /** The tables after a booking: XP for the first pass, the counted state, the verdict, and the completed room. */
  function AfterBook(db: Db, r: Reading, task: Task, award: Award, level: Level, now: Time): Db
    requires r.key in db.states && r.id in db.submissions
  {
    var booked := PaidFor(db, r, award).(states := StatesAfter(db, r, award, level, now),
                                         submissions := SubmissionsAfter(db, r, task, now));
    if r.result.verdict == Pass then CompleteUnit(booked, r.key.user, r.key.unit, r.revision.terms) else booked
  }

  /** `apply_xp` inside a booking that finds its submission open: it succeeds only as a first payment or a replay. */
  lemma PaymentShape(cfg: Config, db: Db, r: Reading, award: Award, w: XpWorld)
    requires StatesInv(db.uuids, db.revisions, db.states) && ReceiptsInv(db.states, db.operations)
    requires Finds(cfg, db, r) && r.result.verdict == Pass && r.key.goal in BondsOf(r.revision.terms)
    requires award == Award(TaskOperation(r.key), BondsOf(r.revision.terms)[r.key.goal].xp, BondsOf(r.revision.terms)[r.key.goal].skill)
    ensures var (db', reply) := ApplyXp(db, award.operation, RequestOf(r, award), w);
            reply.XpDone? ==> db' == PaidFor(db, r, award)
  {
    ReceiptOfTask(cfg, db, r, award);
    ApplyXpShape(db, award.operation, RequestOf(r, award), w);
  }

  /** A booking that finds its submission open writes exactly `AfterBook`, or nothing. */
  lemma BookShape(cfg: Config, db: Db, r: Reading, w: XpWorld, now: Time)
    returns (task: Task, award: Award, level: Level)
    requires RevisionsInv(cfg.catalogue, db.uuids, db.revisions) && StatesInv(db.uuids, db.revisions, db.states)
    requires ReceiptsInv(db.states, db.operations)
    requires WorkOk(cfg, db.uuids, db.revisions, db.submissions, {}, Deciding(r)) && Finds(cfg, db, r)
    ensures Counts(r, db.states[r.key], task, award, level)
    ensures var (db', reply) := Book(db, r, w, now);
            if reply.BookedNow?
            then db' == AfterBook(db, r, task, award, level, now)
                 && reply.xp == (if PaysFirst(r, db.states[r.key]) then Some(award.xp) else None)
            else db' == db && reply == NoVerdict
  {
    ReadingHasTask(cfg, db, r, {});
    FoundIsCounted(cfg, db, r);
    var st := db.states[r.key];
    task := FindTask(r.revision.document.tasks, r.key.goal).value;
    award := AwardOf(r, FindTerms(r.revision.terms, r.key.goal).value);
    level := Counted(r.revision.document.rule, Level(st.band, st.fails, st.passes), r.result.verdict == Pass).value;
    if r.result.verdict == Pass {
      PaymentShape(cfg, db, r, award, w);
      ReceiptOfTask(cfg, db, r, award);
      ApplyXpShape(db, award.operation, RequestOf(r, award), w);
    }
  }
}
