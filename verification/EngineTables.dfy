/**
 The tables of the lesson engine (api/models/engine.py), the XP receipts and counters, and the pure
 functions over them: document checks, the band automaton, queries and views.
 */
module EngineTables {
  import opened Options
  import opened Ids
  import opened Canonical
  import opened Rooms
  import R = Register

  type GoalId = Text
  type Band = string

  // ----- Published revisions ------------------------------------------------------------------------

  datatype BandRule = BandRule(bands: seq<Band>, initial: Band, lowerAfter: int, raiseAfter: int)
  datatype Practice = Practice(caseId: string, config: Json, initial: Json)

  /** A task of a server document; `feedback` maps a code to its public text. */
  datatype Task = Task(goal: GoalId, skill: SkillId, xp: int, required: bool, input: Text,
                       criteria: seq<string>, feedback: map<string, string>, practice: map<Band, Practice>)

  /** A server document; `runner` is the program of the sandbox. */
  datatype Document = Document(unit: UnitId, runner: string, rule: BandRule, tasks: seq<Task>)

  /** What a revision keeps of each task. */
  datatype Terms = Terms(goal: GoalId, required: bool, xp: int, skill: SkillId, input: Text)

  datatype Package = Package(packageHash: string, manifestHash: string, entryPath: string, evidence: string)

  /** A row of skills_engine_revisions. SHA-256 is taken to be injective: the document stands for its hash. */
  datatype EngineRevision = EngineRevision(unit: UnitId, number: nat, activeFor: Option<UnitId>, package: Package,
                                           document: Document, terms: seq<Terms>)

  predicate Distinct<T(==)>(s: seq<T>) {
    forall i, j | 0 <= i < j < |s| :: s[i] != s[j]
  }

  function SetOf<T>(s: seq<T>): set<T> {
    set x | x in s
  }

  /** The checks of `BandRule` and `ServerDocument`. */
  predicate ValidRule(rule: BandRule) {
    && Distinct(rule.bands) && rule.initial in rule.bands
    && rule.lowerAfter >= 2 && rule.raiseAfter >= 2
  }

  predicate ValidDocument(d: Document) {
    && ValidRule(d.rule)
    && (forall i, j | 0 <= i < j < |d.tasks| :: d.tasks[i].goal != d.tasks[j].goal)
    && (exists i :: 0 <= i < |d.tasks| && d.tasks[i].required)
    && (forall i | 0 <= i < |d.tasks| :: d.tasks[i].xp >= 0 && d.tasks[i].practice.Keys == SetOf(d.rule.bands))
  }

  /** `task_terms` */
  function TermsOf(tasks: seq<Task>): (terms: seq<Terms>)
    ensures |terms| == |tasks|
    ensures forall i | 0 <= i < |tasks| ::
              terms[i] == Terms(tasks[i].goal, tasks[i].required, tasks[i].xp, tasks[i].skill, tasks[i].input)
  {
    if tasks == [] then []
    else
      var t := tasks[0];
      [Terms(t.goal, t.required, t.xp, t.skill, t.input)] + TermsOf(tasks[1..])
  }

  datatype Bond = Bond(required: bool, xp: int, skill: SkillId, input: Text)

  /** `_bound`: what later revisions must keep of each task, by goal. */
  function BondsOf(terms: seq<Terms>): map<GoalId, Bond> {
    if terms == [] then map[]
    else
      var t := terms[|terms| - 1];
      BondsOf(terms[..|terms| - 1])[t.goal := Bond(t.required, t.xp, t.skill, t.input)]
  }

  function FindTask(tasks: seq<Task>, goal: GoalId): (r: Option<Task>)
    ensures r.Some? ==> r.value in tasks && r.value.goal == goal
    ensures r.None? ==> forall t | t in tasks :: t.goal != goal
  {
    if tasks == [] then None else if tasks[0].goal == goal then Some(tasks[0]) else FindTask(tasks[1..], goal)
  }

  function FindTerms(terms: seq<Terms>, goal: GoalId): (r: Option<Terms>)
    ensures r.Some? ==> r.value in terms && r.value.goal == goal
    ensures r.None? ==> forall t | t in terms :: t.goal != goal
  {
    if terms == [] then None else if terms[0].goal == goal then Some(terms[0]) else FindTerms(terms[1..], goal)
  }

  function RequiredGoals(terms: seq<Terms>): set<GoalId> {
    set i | 0 <= i < |terms| && terms[i].required :: terms[i].goal
  }

  // ----- Task states and submissions ------------------------------------------------------------------

  datatype TaskKey = TaskKey(user: UserId, unit: UnitId, goal: GoalId)

  datatype PublicStart = PublicStart(id: Uuid, revision: Uuid, goal: GoalId, practice: Practice, seed: string)

  /** The columns start_id, start and start_band, which the schema keeps all set or all NULL. */
  datatype OpenStart = OpenStart(public: PublicStart, band: Band)

  datatype OperationId = TaskOperation(key: TaskKey) | OtherOperation(id: string)
  datatype Award = Award(operation: OperationId, xp: int, skill: SkillId)

  datatype TaskState = TaskState(revision: Uuid, band: Band, fails: int, passes: int, start: Option<OpenStart>,
                                 startRequest: Option<RequestId>, passedAt: Option<Time>, xpApplied: bool,
                                 award: Option<Award>)

  /** Frozen at acceptance; only these and the plan decide the verdict. */
  datatype Job = Job(revision: Uuid, start: PublicStart, band: Band, document: Document)

  datatype SubmissionState = Accepted | Booked
  datatype Verdict = Pass | Fail
  datatype Feedback = Feedback(summary: string, reasons: seq<string>)

  datatype Submission = Submission(key: TaskKey, openGoal: Option<GoalId>, revision: Uuid, startId: Uuid,
                                   inputHash: Text, input: Json, job: Job, state: SubmissionState,
                                   verdict: Option<Verdict>, feedback: Option<Feedback>, counts: Option<bool>,
                                   acceptedAt: Time, bookedAt: Option<Time>, evaluatingUntil: Option<Time>)

  // ----- XP --------------------------------------------------------------------------------------------

  datatype XpRequest = XpRequest(user: UserId, skill: SkillId, xp: int, earning: OperationId)
  datatype XpResult = Applied
  datatype XpOperation = XpOperation(user: UserId, request: XpRequest, result: Option<XpResult>)
  datatype XpKey = XpKey(user: UserId, skill: SkillId)

  // ----- The database -------------------------------------------------------------------------------------

  type RoomKey = R.Doc
  type RoomRequestKey = R.Key
  type RoomReceipt = R.Receipt<Ask, Progress>

  /** `uuids` is the supply of fresh UUIDs; `erased` are the users whose guard row carries the tombstone. */
  datatype Db = Db(uuids: Uuid, erased: set<UserId>, revisions: map<Uuid, EngineRevision>,
                   states: map<TaskKey, TaskState>, submissions: map<Uuid, Submission>,
                   rooms: map<RoomKey, Room>, roomRequests: map<RoomRequestKey, RoomReceipt>,
                   operations: map<OperationId, XpOperation>, xp: map<XpKey, int>)

  function Get<K, V>(table: map<K, V>, key: K): Option<V> {
    if key in table then Some(table[key]) else None
  }

  /** The first row that satisfies `p`, of those with an id below `below`. */
  function First<T>(table: map<Uuid, T>, below: Uuid, p: T -> bool): (r: Option<Uuid>)
    ensures r.Some? ==> r.value in table && r.value < below && p(table[r.value])
    ensures r.None? ==> forall id | id in table && id < below :: !p(table[id])
  {
    if below == 0 then None
    else
      var r := First(table, below - 1, p);
      if r.Some? then r else if below - 1 in table && p(table[below - 1]) then Some(below - 1) else None
  }

  function ActiveRevision(db: Db, unit: UnitId): Option<Uuid> {
    First(db.revisions, db.uuids, (r: EngineRevision) => r.activeFor == Some(unit))
  }

  function OpenSubmission(db: Db, key: TaskKey): Option<Uuid> {
    First(db.submissions, db.uuids, (s: Submission) => s.key == key && s.state == Accepted)
  }

  /** The submission of exactly this plan for this start. */
  function SameSubmission(db: Db, key: TaskKey, startId: Uuid, inputHash: Text): Option<Uuid> {
    First(db.submissions, db.uuids,
          (s: Submission) => s.key == key && s.startId == startId && s.inputHash == inputHash)
  }

  function SubmissionOfStart(db: Db, key: TaskKey, startId: Uuid): Option<Uuid> {
    First(db.submissions, db.uuids, (s: Submission) => s.key == key && s.startId == startId)
  }

  /** The highest revision number of a unit, or 0. */
  function MaxNumber(revisions: map<Uuid, EngineRevision>, below: Uuid, unit: UnitId): (n: nat)
    ensures forall id | id in revisions && id < below && revisions[id].unit == unit :: revisions[id].number <= n
    ensures n > 0 ==> exists id :: id in revisions && id < below && revisions[id].unit == unit && revisions[id].number == n
  {
    if below == 0 then 0
    else
      var n := MaxNumber(revisions, below - 1, unit);
      if below - 1 in revisions && revisions[below - 1].unit == unit && revisions[below - 1].number > n
      then revisions[below - 1].number else n
  }

  function RoomsOf(db: Db, user: UserId): map<UnitId, Room> {
    map k | k in db.rooms && k.user == user :: k.name := db.rooms[k]
  }

  function PassedGoals(db: Db, user: UserId, unit: UnitId): set<GoalId> {
    set k | k in db.states && k.user == user && k.unit == unit && db.states[k].passedAt.Some? :: k.goal
  }

  // ----- Room plans -----------------------------------------------------------------------------------------

  const PLANS: Text := [0x70, 0x6C, 0x61, 0x6E, 0x73]
  const KIND: Text := [0x6B, 0x69, 0x6E, 0x64]

  function Member(value: Json, name: Text): Option<Json> {
    if value.Object? && name in value.members then Some(value.members[name]) else None
  }

  function SavedPlan(state: Json, goal: GoalId): Option<Json> {
    var plans := Member(state, PLANS);
    if plans.Some? then Member(plans.value, goal) else None
  }

  /** `_same`: equal canonical texts; a value without one is the same as nothing. */
  predicate Same(saved: Json, plan: Json) {
    CanonicalText(saved).Some? && CanonicalText(plan).Some? && CanonicalText(saved) == CanonicalText(plan)
  }

  // ----- The sandbox -------------------------------------------------------------------------------------------

  datatype RunnerJob = RunnerJob(goal: GoalId, band: Band, caseId: string, seed: string, input: Json)
  datatype Criterion = Criterion(id: string, passed: bool)
  datatype RunResult = RunResult(verdict: Verdict, criteria: seq<Criterion>, feedbackCodes: seq<string>)

  /** The fixed catalogue, and the sandbox: a function of the document and the job, where it gives a result. */
  datatype Config = Config(catalogue: Catalogue, sandbox: (Document, RunnerJob) -> Option<RunResult>)

  /** `sandbox.job_of` */
  function RunnerJobOf(job: Job, goal: GoalId, plan: Json): RunnerJob {
    RunnerJob(goal, job.band, job.start.practice.caseId, job.start.seed, plan)
  }

  function CriterionIds(criteria: seq<Criterion>): seq<string> {
    seq(|criteria|, i requires 0 <= i < |criteria| => criteria[i].id)
  }

  /** `bound`: whether a result fits the task it was evaluated for. */
  predicate Fits(result: RunResult, task: Task) {
    && Distinct(CriterionIds(result.criteria))
    && SetOf(CriterionIds(result.criteria)) == SetOf(task.criteria)
    && SetOf(result.feedbackCodes) <= task.feedback.Keys
    && (result.verdict == Fail || forall i | 0 <= i < |result.criteria| :: result.criteria[i].passed)
  }

  /** Each code once, in order, with its text, leaving out empty texts. */
  function Reasons(codes: seq<string>, texts: map<string, string>): seq<string>
    decreases |codes|
  {
    if codes == [] then []
    else
      var last := codes[|codes| - 1];
      var before := Reasons(codes[..|codes| - 1], texts);
      if last in codes[..|codes| - 1] || last !in texts || texts[last] == "" then before else before + [texts[last]]
  }

  /** `feedback`: nothing of the evaluation but general texts for the codes of a fail. */
  function FeedbackOf(result: RunResult, task: Task): Feedback {
    if result.verdict == Pass then Feedback("", [])
    else Feedback("Probier es noch einmal.", Reasons(result.feedbackCodes, task.feedback))
  }

  // ----- The band automaton ----------------------------------------------------------------------------------------

  datatype Level = Level(band: Band, fails: int, passes: int)

  function IndexOf(bands: seq<Band>, band: Band): (i: nat)
    requires band in bands
    ensures i < |bands| && bands[i] == band && band !in bands[..i]
  {
    if bands[0] == band then 0
    else
      assert bands == [bands[0]] + bands[1..];
      var i := IndexOf(bands[1..], band);
      assert bands[..i + 1] == [bands[0]] + bands[1..][..i];
      i + 1
  }

  /** `counted`; None is the ValueError of a band the rule does not have. */
  function Counted(rule: BandRule, level: Level, passed: bool): Option<Level> {
    if level.band !in rule.bands then None
    else
      var at := IndexOf(rule.bands, level.band);
      if passed then
        if level.passes + 1 >= rule.raiseAfter
        then Some(Level(rule.bands[if at + 1 < |rule.bands| then at + 1 else |rule.bands| - 1], 0, 0))
        else Some(Level(level.band, 0, level.passes + 1))
      else
        if level.fails + 1 >= rule.lowerAfter
        then Some(Level(rule.bands[if at > 0 then at - 1 else 0], 0, 0))
        else Some(Level(level.band, level.fails + 1, 0))
  }

  /** One booked verdict, counted by the rule of its submission's own revision. */
  datatype Booking = Booking(id: Uuid, rule: BandRule, passed: bool)

  /** The level after counting the bookings in order, starting new in `born`. */
  function Fold(born: Band, bookings: seq<Booking>): Option<Level> {
    if bookings == [] then Some(Level(born, 0, 0))
    else
      var last := bookings[|bookings| - 1];
      var before := Fold(born, bookings[..|bookings| - 1]);
      if before.None? then None else Counted(last.rule, before.value, last.passed)
  }

  // ----- Views ---------------------------------------------------------------------------------------------------------

  datatype View =
    | PendingView(id: Uuid, goal: GoalId)
    | FinalView(id: Uuid, goal: GoalId, verdict: Option<Verdict>, counts: Option<bool>, feedback: Option<Feedback>,
                completed: bool)

  /** `view`: what a learner sees of a submission. */
  function ViewOf(id: Uuid, s: Submission, completed: bool): View {
    if s.state == Accepted then PendingView(id, s.key.goal)
    else FinalView(id, s.key.goal, s.verdict, s.counts, s.feedback, completed && s.counts == Some(true))
  }

  function RoomCompleted(db: Db, user: UserId, unit: UnitId): bool {
    var key := R.Doc(user, unit);
    key in db.rooms && db.rooms[key].status == Completed
  }
}
