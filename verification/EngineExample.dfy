/**
 One concrete run of the lesson engine from the empty tables: a revision is published, a plan saved, started, submitted,
 evaluated and booked with a pass. It completes the room and pays the XP once; sent again after its verdict, the same
 plan is refused.
 */
module EngineExample {
  import opened Options
  import opened Ids
  import opened Canonical
  import opened Rooms
  import opened EngineTables
  import opened EngineSteps
  import opened EngineSystem
  import R = Register

  const GOAL: GoalId := [0x67]
  const INPUT: Text := [0x69]
  const PLAN := Object(map[KIND := Str(INPUT)])
  const STATE := Object(map[PLANS := Object(map[GOAL := PLAN])])
  const LESSON := Unit("lesson", Some(Engine), false, {}, {}, {})
  const PRACTICE := Practice("case", Null, Null)
  const TASK := Task(GOAL, "skill", 5, true, INPUT, [], map[], map["easy" := PRACTICE])
  const RULE := BandRule(["easy"], "easy", 2, 2)
  const DOCUMENT := Document("lesson", "", RULE, [TASK])
  const PACKAGE := Package("package", "manifest", "index.html", "evidence")
  const PASS := RunResult(Pass, [], [])
  const KEY := TaskKey("ada", "lesson", GOAL)
  const ROOM := R.Doc("ada", "lesson")

  function Everything(d: Document, j: RunnerJob): Option<RunResult> {
    Some(PASS)
  }

  const CONFIG := Config([LESSON], Everything)
  const WORLD := World(true, true, "seed", 1)
  const OUTSIDE := Outside(true, None, false, None, true, true, 0)

  const PUBLISHING := PublishAsk("lesson", PACKAGE, DOCUMENT, true, true)
  const SAVING := Ask("save", 0, None, Save(STATE), None)
  const STARTING := StartAsk("start", 0, None)
  const SUBMITTING := SubmitAsk(1, 1, PLAN, None)

  // ----- The tables after each step ---------------------------------------------------------------------------

  const TERMS := [Terms(GOAL, true, 5, "skill", INPUT)]
  const REVISION := EngineRevision("lesson", 1, Some("lesson"), PACKAGE, DOCUMENT, TERMS)
  const PUBLISHED := Db(1, {}, map[0 := REVISION], map[], map[], map[], map[], map[], map[])

  lemma DocumentIsValid()
    ensures ValidDocument(DOCUMENT) && TermsOf(DOCUMENT.tasks) == TERMS
  {
    assert DOCUMENT.tasks[0].required;
    assert TASK.practice.Keys == SetOf(RULE.bands) by { assert "easy" in RULE.bands; }
    assert RULE.initial in RULE.bands by { assert RULE.bands[0] == "easy"; }
  }

  lemma PublishStep()
    ensures Publish(CONFIG, EMPTY.db, PUBLISHING) == (PUBLISHED, Published(0, 1, true))
  {
    DocumentIsValid();
    assert PublishRefusal(CONFIG, EMPTY.db, PUBLISHING) == None;
    assert MaxNumber(map[], 0, "lesson") == 0;
    assert Activate(EMPTY.db, PUBLISHING).0.revisions == map[0 := REVISION];
  }

  const ROW := Room.Room(1, STATE, InProgress, None, None)
  const ANSWER := Progress(1, STATE, InProgress, None, None)
  const SAVED := PUBLISHED.(rooms := map[ROOM := ROW],
                            roomRequests := R.Prune(map[R.Key("ada", "save") := R.Receipt(1, RoomMark("ada", "lesson", SAVING), ANSWER)],
                                                    ROOM, KEPT_ROOM_RECEIPTS))

  lemma SaveIsWritten()
    ensures ChangeRoom(PUBLISHED, LESSON, ROOM, SAVING, OUTSIDE) == (SAVED, RoomSaved(ANSWER))
  {
    assert Decide(LESSON, None, SAVING, OUTSIDE) == Write(ROW, ANSWER);
  }

  lemma SaveIsAdmitted(db: Db)
    requires db.erased == {}
    ensures MutateRoom(CONFIG, db, "ada", "lesson", SAVING, OUTSIDE) == ChangeRoom(db, LESSON, ROOM, SAVING, OUTSIDE)
  {
    assert Find(CONFIG.catalogue, "lesson") == Some(LESSON);
  }

  lemma SaveStep()
    ensures MutateRoom(CONFIG, PUBLISHED, "ada", "lesson", SAVING, OUTSIDE) == (SAVED, RoomSaved(ANSWER))
  {
    SaveIsAdmitted(PUBLISHED);
    SaveIsWritten();
  }

  const START := OpenStart(PublicStart(1, 0, GOAL, PRACTICE, "seed"), "easy")
  const OPENED := TaskState(0, "easy", 0, 0, Some(START), Some("start"), None, false, None)
  const STARTED := SAVED.(uuids := 2, states := map[KEY := OPENED])

  /** The query finds the row with id 0, the only one. */
  lemma ActiveIsFirst(db: Db)
    requires db.revisions == map[0 := REVISION] && db.uuids > 0
    ensures ActiveRevision(db, "lesson") == Some(0)
  {
    assert db.revisions[0].activeFor == Some("lesson");
  }

  lemma StartStep()
    ensures Start(CONFIG, SAVED, "ada", "lesson", GOAL, STARTING, WORLD) == (STARTED, StartReply.Started(START))
  {
    assert Find(CONFIG.catalogue, "lesson") == Some(LESSON);
    ActiveIsFirst(SAVED);
    assert FindTask(DOCUMENT.tasks, GOAL) == Some(TASK);
    assert OpenSubmission(SAVED, KEY).None?;
  }

  lemma PlanHasText()
    ensures CanonicalText(PLAN).Some?
  {
    assert SurrogateFree(KIND) && SurrogateFree(INPUT);
    assert Representable(Str(INPUT));
  }

  const SUBMISSION := Submission(KEY, Some(GOAL), 0, 1, Form(PLAN), PLAN, Job(0, START.public, "easy", DOCUMENT), Accepted,
                                 None, None, None, 1, None, None)
  const SUBMITTED := STARTED.(uuids := 3, submissions := map[2 := SUBMISSION])

  lemma SubmitIsAdmitted(db: Db)
    requires db.erased == {}
    ensures Submit(CONFIG, db, "ada", "lesson", GOAL, SUBMITTING, WORLD) == SubmitTask(db, KEY, SUBMITTING, WORLD)
  {
    assert Find(CONFIG.catalogue, "lesson") == Some(LESSON);
  }

  lemma SubmitStep()
    ensures SubmitTask(STARTED, KEY, SUBMITTING, WORLD) == (SUBMITTED, Created(2))
  {
    PlanHasText();
    GoalIsFound();
    NothingSubmitted();
    PlanIsSaved();
    assert STARTED.submissions[2 := SUBMISSION] == map[2 := SUBMISSION];
  }

  lemma NothingSubmitted()
    ensures SameSubmission(STARTED, KEY, 1, Form(PLAN)).None? && SubmissionOfStart(STARTED, KEY, 1).None?
    ensures OpenSubmission(STARTED, KEY).None?
  {}

  lemma PlanIsSaved()
    ensures SavedPlan(STATE, GOAL) == Some(PLAN) && Member(PLAN, KIND) == Some(Str(INPUT))
  {}

  const LEASED := SUBMITTED.(submissions := map[2 := SUBMISSION.(evaluatingUntil := Some(40))])
  const READING := Reading(2, KEY, PASS, REVISION)

  lemma ReadStep()
    ensures Claim(SUBMITTED, 2, 10) == (LEASED, true)
    ensures Read(LEASED, 2, "ada", PASS) == Some(READING)
  {
    assert SUBMITTED.submissions[2 := SUBMISSION.(evaluatingUntil := Some(40))] == LEASED.submissions;
    assert FindTask(DOCUMENT.tasks, GOAL) == Some(TASK);
    assert CriterionIds([]) == [];
  }

  const AWARD := Award(TaskOperation(KEY), 5, "skill")
  const REQUEST := XpRequest("ada", "skill", 5, TaskOperation(KEY))
  const COUNTED := TaskState(0, "easy", 0, 1, None, Some("start"), Some(20), true, Some(AWARD))
  const VERDICT := SUBMISSION.(state := Booked, openGoal := None, verdict := Some(Pass),
                               feedback := Some(Feedback("", [])), counts := Some(true), bookedAt := Some(20))
  const BOOKED := LEASED.(states := map[KEY := COUNTED], submissions := map[2 := VERDICT],
                          rooms := map[ROOM := ROW.(status := Completed, result := Some(Passed))],
                          operations := map[TaskOperation(KEY) := XpOperation("ada", REQUEST, Some(Applied))],
                          xp := map[XpKey("ada", "skill") := 5])
  const LIVE := XpWorld(true, true)

  lemma PaymentStep()
    ensures ApplyXp(LEASED, TaskOperation(KEY), REQUEST, LIVE)
         == (LEASED.(operations := BOOKED.operations, xp := BOOKED.xp), XpDone)
  {
    assert LEASED.operations[TaskOperation(KEY) := XpOperation("ada", REQUEST, Some(Applied))] == BOOKED.operations;
    assert AddXp(LEASED.xp, XpKey("ada", "skill"), 5) == BOOKED.xp;
  }

  lemma CompletionStep(db: Db)
    requires db.states == BOOKED.states && db.rooms == LEASED.rooms
    ensures CompleteUnit(db, "ada", "lesson", TERMS) == db.(rooms := BOOKED.rooms)
    ensures RequiredGoals(TERMS) <= PassedGoals(db, "ada", "lesson")
  {
    forall g | g in RequiredGoals(TERMS) ensures g in PassedGoals(db, "ada", "lesson") {
      assert KEY in db.states && db.states[KEY].passedAt.Some?;
    }
    assert db.rooms[ROOM := ROW.(status := Completed, result := Some(Passed))] == BOOKED.rooms;
  }

  lemma BookedRows()
    ensures Counted(RULE, Level("easy", 0, 0), true) == Some(Level("easy", 0, 1))
    ensures BookedState(OPENED, Level("easy", 0, 1), 1, true, AWARD, 20) == COUNTED
    ensures BookedSubmission(SUBMISSION.(evaluatingUntil := Some(40)), PASS, TASK, 20) == VERDICT
  {
    assert IndexOf(RULE.bands, "easy") == 0;
  }

  lemma BookStep()
    ensures Book(LEASED, READING, LIVE, 20).0 == BOOKED
    ensures Book(LEASED, READING, LIVE, 20).1.BookedNow? && Book(LEASED, READING, LIVE, 20).1.xp == Some(5)
  {
    GoalIsFound();
    PaymentStep();
    BookedRows();
    BookedTables();
    CompletionStep(LEASED.(operations := BOOKED.operations, xp := BOOKED.xp, states := BOOKED.states,
                           submissions := BOOKED.submissions));
  }

  lemma GoalIsFound()
    ensures FindTask(DOCUMENT.tasks, GOAL) == Some(TASK) && FindTerms(TERMS, GOAL) == Some(TERMS[0])
  {}

  lemma BookedTables()
    ensures LEASED.states[KEY := COUNTED] == BOOKED.states && LEASED.submissions[2 := VERDICT] == BOOKED.submissions
  {}

  // ----- The run ----------------------------------------------------------------------------------------------

  const PUBLISH := PublishEvent(PUBLISHING)
  const SAVE := RoomEvent("ada", "lesson", SAVING, OUTSIDE)
  const OPEN := StartEvent("ada", "lesson", GOAL, STARTING, WORLD)
  const SUBMIT := SubmitEvent("ada", "lesson", GOAL, SUBMITTING, WORLD)
  const CLAIM := ClaimEvent(0, "ada", 2, 10)
  const READ := ReadEvent(0, true)
  const BOOK := BookEvent(0, LIVE, 20)
  const REQUESTS := [PUBLISH, SAVE, OPEN, SUBMIT]
  const EVALUATION := [CLAIM, READ, BOOK]

  lemma RunOne(s: System, e: Event, rest: seq<Event>)
    ensures Run(CONFIG, s, [e] + rest) == Run(CONFIG, Step(CONFIG, s, e), rest)
  {
    assert ([e] + rest)[1..] == rest;
  }

  lemma RunTwo(s: System, a: Event, b: Event)
    ensures Run(CONFIG, s, [a, b]) == Step(CONFIG, Step(CONFIG, s, a), b)
  {
    RunOne(s, a, [b]);
    RunOne(Step(CONFIG, s, a), b, []);
    assert [a, b] == [a] + [b] && [b] == [b] + [];
  }

  lemma PublishFrom(s: System)
    requires s.db == EMPTY.db
    ensures Step(CONFIG, s, PUBLISH) == s.(db := PUBLISHED)
  {
    PublishStep();
  }

  lemma StepIsMutation(cfg: Config, s: System, user: UserId, unit: UnitId, ask: Ask, out: Outside)
    ensures Step(cfg, s, RoomEvent(user, unit, ask, out)) == s.(db := MutateRoom(cfg, s.db, user, unit, ask, out).0)
  {}

  lemma SaveFrom(s: System)
    requires s.db == PUBLISHED
    ensures Step(CONFIG, s, SAVE) == s.(db := SAVED)
  {
    SaveStep();
    StepIsMutation(CONFIG, s, "ada", "lesson", SAVING, OUTSIDE);
  }

  lemma OpenAndSubmit(s: System)
    requires s == EMPTY.(db := SAVED)
    ensures Step(CONFIG, s, OPEN) == s.(db := STARTED, born := map[KEY := "easy"])
    ensures Step(CONFIG, s.(db := STARTED, born := map[KEY := "easy"]), SUBMIT)
         == s.(db := SUBMITTED, born := map[KEY := "easy"])
  {
    StartStep();
    SubmitIsAdmitted(STARTED);
    SubmitStep();
  }

  lemma RequestsRun()
    ensures Run(CONFIG, EMPTY, REQUESTS) == EMPTY.(db := SUBMITTED, born := map[KEY := "easy"])
  {
    RunAppend(EMPTY, [PUBLISH, SAVE], [OPEN, SUBMIT]);
    assert REQUESTS == [PUBLISH, SAVE] + [OPEN, SUBMIT];
    RunTwo(EMPTY, PUBLISH, SAVE);
    PublishFrom(EMPTY);
    SaveFrom(EMPTY.(db := PUBLISHED));
    RunTwo(EMPTY.(db := SAVED), OPEN, SUBMIT);
    OpenAndSubmit(EMPTY.(db := SAVED));
  }

  const WORK := Evaluating(2, "ada", DOCUMENT, RunnerJob(GOAL, "easy", "case", "seed", PLAN))

  lemma ClaimAndRead(s: System)
    requires s.db == SUBMITTED && s.workers == map[]
    ensures Step(CONFIG, s, CLAIM) == s.(db := LEASED, workers := map[0 := WORK])
    ensures Step(CONFIG, s.(db := LEASED, workers := map[0 := WORK]), READ)
         == s.(db := LEASED, workers := map[0 := Deciding(READING)])
  {
    ReadStep();
    assert map[0 := WORK][0 := Deciding(READING)] == map[0 := Deciding(READING)];
  }

  lemma BookFrom(s: System)
    requires s.db == LEASED && s.workers == map[0 := Deciding(READING)] && s.paid == multiset{}
    ensures StepBook(s, 0, LIVE, 20).db == BOOKED && StepBook(s, 0, LIVE, 20).paid == multiset{TaskOperation(KEY)}
  {
    BookStep();
    assert s.workers[0] == Deciding(READING);
  }

  lemma StepIsBook(s: System)
    ensures Step(CONFIG, s, BOOK) == StepBook(s, 0, LIVE, 20)
  {}

  lemma EvaluationRuns(s: System)
    requires s.db == SUBMITTED && s.workers == map[] && s.paid == multiset{}
    ensures var last := Run(CONFIG, s, EVALUATION); last.db == BOOKED && last.paid == multiset{TaskOperation(KEY)}
  {
    var ready := s.(db := LEASED, workers := map[0 := Deciding(READING)]);
    RunAppend(s, [CLAIM, READ], [BOOK]);
    assert EVALUATION == [CLAIM, READ] + [BOOK];
    RunTwo(s, CLAIM, READ);
    ClaimAndRead(s);
    RunOne(ready, BOOK, []);
    assert [BOOK] == [BOOK] + [];
    StepIsBook(ready);
    BookFrom(ready);
  }

  lemma {:induction false} RunAppend(s: System, a: seq<Event>, b: seq<Event>)
    ensures Run(CONFIG, s, a + b) == Run(CONFIG, Run(CONFIG, s, a), b)
    decreases |a|
  {
    if a == [] {
      assert a + b == b;
    } else {
      assert (a + b)[0] == a[0] && (a + b)[1..] == a[1..] + b;
      RunAppend(Step(CONFIG, s, a[0]), a[1..], b);
    }
  }

  /**
   The run completes the room and pays the XP once. The exact resubmission of its booked plan is refused: the promise
   that it always finds its submission holds only while the task has an open start (see `ResubmissionIsTheSame`).
   */
  lemma ExampleRun()
    ensures var s := Run(CONFIG, EMPTY, REQUESTS + EVALUATION);
            && RoomCompleted(s.db, "ada", "lesson") && s.paid == multiset{TaskOperation(KEY)}
            && s.db.xp == map[XpKey("ada", "skill") := 5]
            && 2 in s.db.submissions && s.db.submissions[2].startId == SUBMITTING.startId
            && Some(s.db.submissions[2].inputHash) == CanonicalText(SUBMITTING.plan)
            && Submit(CONFIG, s.db, "ada", "lesson", GOAL, SUBMITTING, WORLD) == (s.db, SubmitRefused(StartRequired))
  {
    RequestsRun();
    EvaluationRuns(Run(CONFIG, EMPTY, REQUESTS));
    RunAppend(EMPTY, REQUESTS, EVALUATION);
    PlanHasText();
    SubmitIsAdmitted(BOOKED);
  }
}
