/**
 The course-wide project of a learner (api/services/course_project.py). A save compares and sets the revision
 and keeps the receipts of the sixteen newest saves; it refines the exactly-once register.
 */
module CourseProjects {
  import opened Options
  import opened Ids
  import opened Canonical
  import R = Register

  const KEPT_RECEIPTS := 16

  datatype SaveProject = SaveProject(request: RequestId, expected: nat, state: Json)
  datatype Project = Project(revision: nat, state: Json, updatedAt: Time)
  datatype Envelope = Envelope(course: CourseId, revision: nat, state: Json, updatedAt: Option<Time>)

  /** A receipt answers with its revision and its time; it holds no state. */
  type ProjectReceipt = R.Receipt<Json, Time>

  datatype Tables = Tables(erased: set<UserId>, projects: map<R.Doc, Project>, receipts: map<R.Key, ProjectReceipt>)

  /** `admitted`: the lessons of the course are open to the learner; `fits`: the state is within 64 KiB. */
  datatype World = World(admitted: bool, fits: bool, now: Time)
  datatype Reply = Refused(code: nat) | Saved(project: Envelope)

  function CurrentRevision(projects: map<R.Doc, Project>, doc: R.Doc): nat {
    if doc in projects then projects[doc].revision else 0
  }

  function MarkOf(doc: R.Doc, ask: SaveProject): R.Fingerprint<Json> {
    R.Fingerprint(doc, ask.expected, ask.state)
  }

  /** What one save does to the tables. */
  function AfterSave(t: Tables, doc: R.Doc, ask: SaveProject, w: World): (Tables, Reply) {
    var key := R.Key(doc.user, ask.request);
    if doc.user in t.erased then (t, Refused(401))
    else if !w.admitted then (t, Refused(403))
    else if !w.fits then (t, Refused(413))
    else if key in t.receipts then
      (t, if t.receipts[key].fingerprint != MarkOf(doc, ask) then Refused(409)
          else Saved(Envelope(doc.name, t.receipts[key].revision, ask.state, Some(t.receipts[key].answer))))
    else if CurrentRevision(t.projects, doc) != ask.expected then (t, Refused(409))
    else
      (Tables(t.erased, t.projects[doc := Project(ask.expected + 1, ask.state, w.now)],
              R.Prune(t.receipts[key := R.Receipt(ask.expected + 1, MarkOf(doc, ask), w.now)], doc, KEPT_RECEIPTS)),
       Saved(Envelope(doc.name, ask.expected + 1, ask.state, Some(w.now))))
  }

  /** A new save is taken exactly from an admitted live learner, within its size, for the revision there is; it stores the state. */
  lemma SaveIsExact(t: Tables, doc: R.Doc, ask: SaveProject, w: World)
    requires R.Key(doc.user, ask.request) !in t.receipts
    ensures var (t', reply) := AfterSave(t, doc, ask, w);
            && (reply.Saved? <==>
                  && doc.user !in t.erased && w.admitted && w.fits
                  && ask.expected == if doc in t.projects then t.projects[doc].revision else 0)
            && (reply.Saved? ==>
                  && reply.project == Envelope(doc.name, ask.expected + 1, ask.state, Some(w.now))
                  && t'.projects == t.projects[doc := Project(ask.expected + 1, ask.state, w.now)])
            && (reply.Refused? ==> t' == t)
  {}

  function AfterErase(t: Tables, user: UserId): Tables {
    Tables(t.erased + {user},
           map d | d in t.projects && d.user != user :: t.projects[d],
           map k | k in t.receipts && k.user != user :: t.receipts[k])
  }

  /** The tables with the operations as the source writes them. */
  class Projects {
    var erased: set<UserId>
    var projects: map<R.Doc, Project>
    var receipts: map<R.Key, ProjectReceipt>

    function Contents(): Tables
      reads this
    {
      Tables(erased, projects, receipts)
    }

    constructor ()
      ensures Contents() == Tables({}, map[], map[])
    {
      erased, projects, receipts := {}, map[], map[];
    }

    method Save(doc: R.Doc, ask: SaveProject, w: World) returns (reply: Reply)
      modifies this`projects, this`receipts
      ensures (Contents(), reply) == AfterSave(old(Contents()), doc, ask, w)
    {
      if doc.user in erased { return Refused(401); }
      if !w.admitted { return Refused(403); }
      if !w.fits { return Refused(413); }
      var key, mark := R.Key(doc.user, ask.request), MarkOf(doc, ask);
      if key in receipts {
        var receipt := receipts[key];
        if receipt.fingerprint != mark { return Refused(409); }
        return Saved(Envelope(doc.name, receipt.revision, ask.state, Some(receipt.answer)));
      }
      var revision := if doc in projects then projects[doc].revision else 0;
      if revision != ask.expected { return Refused(409); }
      var saved := Envelope(doc.name, revision + 1, ask.state, Some(w.now));
      if doc !in projects {
        projects := projects[doc := Project(saved.revision, saved.state, w.now)];
      } else {
        projects := projects[doc := projects[doc].(revision := saved.revision, state := saved.state, updatedAt := w.now)];
      }
      receipts := receipts[key := R.Receipt(saved.revision, mark, w.now)];
      receipts := R.Prune(receipts, doc, KEPT_RECEIPTS);
      return Saved(saved);
    }

    method Erase(user: UserId)
      modifies this
      ensures Contents() == AfterErase(old(Contents()), user)
    {
      erased := erased + {user};
      receipts := map k | k in receipts && k.user != user :: receipts[k];
      projects := map d | d in projects && d.user != user :: projects[d];
    }
  }

  // ----- Runs -------------------------------------------------------------------------------------------------

  datatype Event =
    | SaveEvent(doc: R.Doc, ask: SaveProject, world: World)
    | TombstoneEvent(user: UserId)
    | EraseEvent(user: UserId)

  function Step(t: Tables, e: Event): Tables {
    match e
    case SaveEvent(doc, ask, w) => AfterSave(t, doc, ask, w).0
    case TombstoneEvent(user) => t.(erased := t.erased + {user})
    case EraseEvent(user) => AfterErase(t, user)
  }

  function Run(t: Tables, events: seq<Event>): Tables
    decreases events
  {
    if events == [] then t else Run(Step(t, events[0]), events[1..])
  }

  const EMPTY := Tables({}, map[], map[])

  // ----- Refinement -------------------------------------------------------------------------------------------------

  function RevisionsOf(projects: map<R.Doc, Project>): map<R.Doc, nat> {
    map d | d in projects :: projects[d].revision
  }

  function StoreOf(t: Tables): R.Store<Json, Time> {
    R.Store(t.erased, RevisionsOf(t.projects), t.receipts)
  }

  /** The register's step for an event: a save that is not refused at the door, a tombstone or an erasure. */
  function RegisterSteps(e: Event): seq<R.Event<Json, Time>> {
    match e
    case SaveEvent(doc, ask, w) =>
      if w.admitted && w.fits then [R.SaveEvent(R.Key(doc.user, ask.request), MarkOf(doc, ask), w.now)] else []
    case TombstoneEvent(user) => [R.TombstoneEvent(user)]
    case EraseEvent(user) => [R.EraseEvent(user)]
  }

  function RegisterRun(events: seq<Event>): seq<R.Event<Json, Time>> {
    if events == [] then [] else RegisterSteps(events[0]) + RegisterRun(events[1..])
  }

  /** The stored project is the last accepted change of the register's history. */
  ghost predicate IsLast(project: Project, log: seq<R.Change<Json, Time>>) {
    log != [] && project.state == log[|log| - 1].mark.payload && project.updatedAt == log[|log| - 1].answer
  }

  ghost predicate Simulates(t: Tables, trace: R.Traced<Json, Time>) {
    && trace.store == StoreOf(t)
    && forall d | d in t.projects :: IsLast(t.projects[d], R.Log(trace, d))
  }

  lemma SaveRefines(t: Tables, doc: R.Doc, ask: SaveProject, w: World)
    requires w.admitted && w.fits
    ensures var (t', reply) := AfterSave(t, doc, ask, w);
            var (store, answer) := R.Save(StoreOf(t), KEPT_RECEIPTS, R.Key(doc.user, ask.request), MarkOf(doc, ask), w.now);
            && store == StoreOf(t')
            && (reply.Refused? <==> answer.Gone? || answer.Reused? || answer.Stale?)
            && (answer.Replayed? ==> reply.project.updatedAt == Some(answer.answer))
            && (reply.Saved? ==> reply.project.course == doc.name && reply.project.state == ask.state)
  {
    assert RevisionsOf(t.projects[doc := Project(ask.expected + 1, ask.state, w.now)])
        == RevisionsOf(t.projects)[doc := ask.expected + 1];
  }

  lemma SaveStep(t: Tables, doc: R.Doc, ask: SaveProject, w: World, trace: R.Traced<Json, Time>)
    requires Simulates(t, trace) && w.admitted && w.fits
    ensures Simulates(AfterSave(t, doc, ask, w).0,
                      R.Step(trace, KEPT_RECEIPTS, R.SaveEvent(R.Key(doc.user, ask.request), MarkOf(doc, ask), w.now)))
  {
    SaveRefines(t, doc, ask, w);
  }

  lemma EraseStep(t: Tables, user: UserId, trace: R.Traced<Json, Time>)
    requires Simulates(t, trace)
    ensures Simulates(AfterErase(t, user), R.Step(trace, KEPT_RECEIPTS, R.EraseEvent(user)))
  {
    assert RevisionsOf(AfterErase(t, user).projects) == R.Erase(StoreOf(t), user).revisions;
  }

  lemma StepRefines(t: Tables, e: Event, trace: R.Traced<Json, Time>)
    requires Simulates(t, trace)
    ensures Simulates(Step(t, e), R.Run(trace, KEPT_RECEIPTS, RegisterSteps(e)))
  {
    match e
    case SaveEvent(doc, ask, w) =>
      if w.admitted && w.fits {
        SaveStep(t, doc, ask, w, trace);
        R.OneStep(trace, KEPT_RECEIPTS, RegisterSteps(e)[0]);
      }
    case TombstoneEvent(user) => R.OneStep(trace, KEPT_RECEIPTS, R.TombstoneEvent(user));
    case EraseEvent(user) =>
      EraseStep(t, user, trace);
      R.OneStep(trace, KEPT_RECEIPTS, R.EraseEvent(user));
  }

  lemma {:induction false} RunRefines(t: Tables, events: seq<Event>, trace: R.Traced<Json, Time>)
    requires Simulates(t, trace)
    ensures Simulates(Run(t, events), R.Run(trace, KEPT_RECEIPTS, RegisterRun(events)))
    decreases events
  {
    if events != [] {
      var first := RegisterSteps(events[0]);
      StepRefines(t, events[0], trace);
      R.RunAppend(trace, KEPT_RECEIPTS, first, RegisterRun(events[1..]));
      RunRefines(Step(t, events[0]), events[1..], R.Run(trace, KEPT_RECEIPTS, first));
    }
  }

  /** Over every run the projects are the register, and a project's state is that of its last accepted save. */
  lemma ProjectsAreARegister(events: seq<Event>)
    ensures Simulates(Run(EMPTY, events), R.Run(R.Empty(), KEPT_RECEIPTS, RegisterRun(events)))
  {
    RunRefines(EMPTY, events, R.Empty());
  }

  /** The receipts of a project are those of its last sixteen revisions, or of all while there are fewer. */
  lemma ProjectsKeepSixteen(events: seq<Event>, doc: R.Doc, r: nat)
    ensures var t := Run(EMPTY, events);
            var n := CurrentRevision(t.projects, doc);
            (exists k :: k in t.receipts && t.receipts[k].fingerprint.doc == doc && t.receipts[k].revision == r)
            <==> 1 <= r <= n && r > n - KEPT_RECEIPTS
  {
    ProjectsAreARegister(events);
    R.KeptRevisions(KEPT_RECEIPTS, RegisterRun(events), doc, r);
  }

  // ----- Exactly once -----------------------------------------------------------------------------------------------

  /**
   A save that was accepted is never applied again. In every later state its exact retry changes nothing; it gets the
   original answer, state included, while it is one of the project's last sixteen saves, and is refused otherwise.
   */
  lemma ProjectRetryIsExactlyOnce(earlier: seq<Event>, doc: R.Doc, ask: SaveProject, w: World, later: seq<Event>,
                                  again: World)
    requires AfterSave(Run(EMPTY, earlier), doc, ask, w).0 != Run(EMPTY, earlier)
    ensures var saved := AfterSave(Run(EMPTY, earlier), doc, ask, w).1;
            var now := Run(Step(Run(EMPTY, earlier), SaveEvent(doc, ask, w)), later);
            var (t, reply) := AfterSave(now, doc, ask, again);
            && t == now && saved.Saved?
            && if doc.user !in now.erased && again.admitted && again.fits
                  && ask.expected >= CurrentRevision(now.projects, doc) - KEPT_RECEIPTS
               then reply == saved else reply.Refused?
  {
    var t, e := Run(EMPTY, earlier), SaveEvent(doc, ask, w);
    var trace := R.Run(R.Empty(), KEPT_RECEIPTS, RegisterRun(earlier));
    var key, mark := R.Key(doc.user, ask.request), MarkOf(doc, ask);
    ProjectsAreARegister(earlier);
    SaveRefines(t, doc, ask, w);
    StepRefines(t, e, trace);
    R.OneStep(trace, KEPT_RECEIPTS, RegisterSteps(e)[0]);
    RunRefines(Step(t, e), later, R.Step(trace, KEPT_RECEIPTS, RegisterSteps(e)[0]));
    R.RetryIsExactlyOnce(KEPT_RECEIPTS, RegisterRun(earlier), key, mark, w.now, RegisterRun(later), again.now);
    RetryReply(Run(Step(t, e), later), doc, ask, again);
    R.RunAppend(R.Empty(), KEPT_RECEIPTS, RegisterRun(earlier), RegisterSteps(e));
    R.RunAppend(R.Empty(), KEPT_RECEIPTS, RegisterRun(earlier) + RegisterSteps(e), RegisterRun(later));
    if key in Run(Step(t, e), later).receipts {
      R.ReceiptFollowsRequest(KEPT_RECEIPTS, RegisterRun(earlier) + RegisterSteps(e) + RegisterRun(later), key);
    }
  }

  /** Without a new acceptance the tables stay, and a replay answers from the receipt. */
  lemma RetryReply(t: Tables, doc: R.Doc, ask: SaveProject, w: World)
    ensures var answer := R.Save(StoreOf(t), KEPT_RECEIPTS, R.Key(doc.user, ask.request), MarkOf(doc, ask), w.now).1;
            var (t', reply) := AfterSave(t, doc, ask, w);
            && (!answer.Accepted? ==> t' == t)
            && (!w.admitted || !w.fits || answer.Gone? || answer.Reused? || answer.Stale? ==> t' == t && reply.Refused?)
            && (w.admitted && w.fits && answer.Replayed? ==>
                  reply == Saved(Envelope(doc.name, t.receipts[R.Key(doc.user, ask.request)].revision, ask.state,
                                          Some(answer.answer))))
  {}

  // ----- Erasure ----------------------------------------------------------------------------------------------------

  ghost predicate IsErased(t: Tables, user: UserId) {
    && user in t.erased && (forall d | d in t.projects :: d.user != user) && (forall k | k in t.receipts :: k.user != user)
  }

  lemma {:induction false} StaysErased(t: Tables, later: seq<Event>, user: UserId)
    requires IsErased(t, user)
    ensures IsErased(Run(t, later), user)
    decreases later
  {
    if later != [] { StaysErased(Step(t, later[0]), later[1..], user); }
  }

  /** No save after an erasure, admitted before it or not, creates a project or a receipt again. */
  lemma ProjectErasureIsFinal(t: Tables, user: UserId, later: seq<Event>, doc: R.Doc, ask: SaveProject, w: World)
    requires doc.user == user
    ensures var now := Run(Step(t, EraseEvent(user)), later);
            IsErased(now, user) && AfterSave(now, doc, ask, w) == (now, Refused(401))
  {
    StaysErased(Step(t, EraseEvent(user)), later, user);
  }
}
