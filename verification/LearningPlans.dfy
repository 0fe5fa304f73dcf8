/**
 The learning plan of a learner (api/services/learning_plan.py): one row that holds the plan, its revision and the
 one kept receipt. Saving it checks every step and refines the exactly-once register with a single receipt.
 */
module LearningPlans {
  import opened Options
  import opened Ids
  import R = Register

  // ----- Steps ------------------------------------------------------------------------------------------------

  datatype PlanStep =
    | CourseStep(course: CourseId, track: Option<string>, stage: Option<string>)
    | ExternalStep(trackId: string, stageId: string, id: string, done: bool)

  datatype PlanState = PlanState(character: Option<string>, preference: Option<string>, steps: seq<PlanStep>)

  datatype Stage = Stage(courses: set<CourseId>, externals: set<string>)

  /** The content: the courses, and the stages of each track. */
  datatype Content = Content(courses: set<CourseId>, tracks: map<string, map<string, Stage>>)

  datatype StepKey = CourseKey(course: CourseId) | ExternalKey(track: string, stage: string, id: string)
  datatype Problem = UnknownCourse | UnknownTrack | UnknownStage | UnknownStep | DuplicateStep

  function KeyOf(step: PlanStep): StepKey {
    match step
    case CourseStep(course, _, _) => CourseKey(course)
    case ExternalStep(track, stage, id, _) => ExternalKey(track, stage, id)
  }

  /** What a step names is part of the content, and where it names a track, part of that track. */
  predicate IsKnown(c: Content, step: PlanStep) {
    match step
    case CourseStep(course, track, stage) =>
      && course in c.courses
      && (track.Some? || stage.Some? ==>
            && track.Some? && track.value in c.tracks && stage.Some? && stage.value in c.tracks[track.value]
            && course in c.tracks[track.value][stage.value].courses)
    case ExternalStep(track, stage, id, _) =>
      track in c.tracks && stage in c.tracks[track] && id in c.tracks[track][stage].externals
  }

  /** Every step is known and no step repeats an earlier one. */
  predicate StepsOk(c: Content, steps: seq<PlanStep>) {
    && (forall i | 0 <= i < |steps| :: IsKnown(c, steps[i]))
    && (forall i, j | 0 <= i < j < |steps| :: KeyOf(steps[i]) != KeyOf(steps[j]))
  }

  datatype Refusal = Refusal(step: nat, problem: Problem)

  /** `check_steps`: names the first step that is unknown or repeats an earlier one, if there is one. */
  method CheckSteps(c: Content, steps: seq<PlanStep>) returns (refusal: Option<Refusal>)
    ensures refusal.None? <==> StepsOk(c, steps)
    ensures refusal.Some? ==>
              var at := refusal.value.step;
              && at < |steps| && StepsOk(c, steps[..at]) && !StepsOk(c, steps[..at + 1])
              && (refusal.value.problem == DuplicateStep <==> IsKnown(c, steps[at]))
  {
    var seen: set<StepKey> := {};
    for i := 0 to |steps|
      invariant StepsOk(c, steps[..i])
      invariant forall key :: key in seen <==> exists j :: 0 <= j < i && KeyOf(steps[j]) == key
    {
      var step := steps[i];
      assert steps[..i + 1][i] == step && forall j | 0 <= j < i :: steps[..i + 1][j] == steps[j];
      var track, stage, linked;
      match step {
        case CourseStep(course, t, s) =>
          if course !in c.courses { return Some(Refusal(i, UnknownCourse)); }
          track, stage, linked := t, s, t.Some? || s.Some?;
        case ExternalStep(t, s, id, done) =>
          track, stage, linked := Some(t), Some(s), true;
      }
      if linked {
        if track.None? || track.value !in c.tracks { return Some(Refusal(i, UnknownTrack)); }
        if stage.None? || stage.value !in c.tracks[track.value] { return Some(Refusal(i, UnknownStage)); }
        var place := c.tracks[track.value][stage.value];
        if if step.CourseStep? then step.course !in place.courses else step.id !in place.externals {
          return Some(Refusal(i, UnknownStep));
        }
      }
      assert IsKnown(c, step);
      var key := KeyOf(step);
      if key in seen {
        ghost var j :| 0 <= j < i && KeyOf(steps[j]) == key;
        assert KeyOf(steps[..i + 1][j]) == KeyOf(steps[..i + 1][i]);
        return Some(Refusal(i, DuplicateStep));
      }
      seen := seen + {key};
      assert steps[..i + 1] == steps[..i] + [step];
    }
    assert steps[..|steps|] == steps;
    return None;
  }

  // ----- The row --------------------------------------------------------------------------------------------------

  datatype SavePlan = SavePlan(request: RequestId, expected: nat, state: PlanState)

  /** The row holds the newest save with its request; the fingerprint covers the expected revision and the state. */
  datatype Row = Row(revision: nat, state: PlanState, request: RequestId, mark: R.Fingerprint<PlanState>)
  datatype Tables = Tables(erased: set<UserId>, plans: map<UserId, Row>)

  /** What `render` shows, up to titles and progress. */
  datatype Plan = Plan(revision: nat, state: PlanState)
  datatype Reply = Refused(code: nat) | Saved(plan: Plan)

  function DocOf(user: UserId): R.Doc {
    R.Doc(user, "plan")
  }

  function MarkOf(user: UserId, ask: SavePlan): R.Fingerprint<PlanState> {
    R.Fingerprint(DocOf(user), ask.expected, ask.state)
  }

  function RevisionOf(t: Tables, user: UserId): nat {
    if user in t.plans then t.plans[user].revision else 0
  }

  /** What one save does to the tables; `fits`: the state is within 16 KiB. The reuse of a request comes first. */
  function AfterSave(c: Content, t: Tables, user: UserId, ask: SavePlan, fits: bool): (Tables, Reply) {
    if user in t.erased then (t, Refused(401))
    else if !fits then (t, Refused(413))
    else if user in t.plans && t.plans[user].request == ask.request then
      (t, if t.plans[user].mark == MarkOf(user, ask) then Saved(Plan(t.plans[user].revision, t.plans[user].state))
          else Refused(409))
    else if !StepsOk(c, ask.state.steps) then (t, Refused(422))
    else if RevisionOf(t, user) != ask.expected then (t, Refused(409))
    else
      (t.(plans := t.plans[user := Row(ask.expected + 1, ask.state, ask.request, MarkOf(user, ask))]),
       Saved(Plan(ask.expected + 1, ask.state)))
  }

  /** The content has what a step names: the course or the external step, and the stage of the track that lists it. */
  predicate IsListed(c: Content, step: PlanStep) {
    match step
    case CourseStep(course, None, None) => course in c.courses
    case CourseStep(course, Some(track), Some(stage)) =>
      course in c.courses && IsStage(c, track, stage) && course in c.tracks[track][stage].courses
    case CourseStep(_, _, _) => false
    case ExternalStep(track, stage, id, _) => IsStage(c, track, stage) && id in c.tracks[track][stage].externals
  }

  predicate IsStage(c: Content, track: string, stage: string) {
    track in c.tracks && stage in c.tracks[track]
  }

  /** Two steps of one plan name the same course, or the same external step. */
  predicate Repeats(a: PlanStep, b: PlanStep) {
    match (a, b)
    case (CourseStep(x, _, _), CourseStep(y, _, _)) => x == y
    case (ExternalStep(track, stage, id, _), ExternalStep(track', stage', id', _)) =>
      track == track' && stage == stage' && id == id'
    case _ => false
  }

  /**
   A new save is taken exactly from a live learner, within its size, for the revision there is, with steps that the content
   lists and none twice; it stores the plan. A request for that revision with other steps is refused as such.
   */
  lemma SaveIsExact(c: Content, t: Tables, user: UserId, ask: SavePlan, fits: bool)
    requires user in t.plans ==> t.plans[user].request != ask.request
    ensures var (t', reply) := AfterSave(c, t, user, ask, fits);
            var steps := ask.state.steps;
            var listed := (forall i | 0 <= i < |steps| :: IsListed(c, steps[i]))
                          && forall i, j | 0 <= i < j < |steps| :: !Repeats(steps[i], steps[j]);
            && (reply.Saved? <==> user !in t.erased && fits && listed && RevisionOf(t, user) == ask.expected)
            && (reply == Refused(422) <==> user !in t.erased && fits && !listed)
            && (reply.Saved? ==>
                  && reply.plan == Plan(ask.expected + 1, ask.state) && t'.erased == t.erased
                  && t'.plans.Keys == t.plans.Keys + {user} && t'.plans[user].state == ask.state
                  && t'.plans[user].revision == ask.expected + 1
                  && forall u | u in t.plans && u != user :: t'.plans[u] == t.plans[u])
            && (reply.Refused? ==> t' == t)
  {
    var steps := ask.state.steps;
    forall i | 0 <= i < |steps| ensures IsKnown(c, steps[i]) <==> IsListed(c, steps[i]) {}
    forall i, j | 0 <= i < j < |steps| ensures KeyOf(steps[i]) == KeyOf(steps[j]) <==> Repeats(steps[i], steps[j]) {}
  }

  function AfterErase(t: Tables, user: UserId): Tables {
    Tables(t.erased + {user}, map u | u in t.plans && u != user :: t.plans[u])
  }

  /** The table with the operations as the source writes them. */
  class Plans {
    var erased: set<UserId>
    var plans: map<UserId, Row>

    function Contents(): Tables
      reads this
    {
      Tables(erased, plans)
    }

    constructor ()
      ensures Contents() == Tables({}, map[])
    {
      erased, plans := {}, map[];
    }

    method Save(c: Content, user: UserId, ask: SavePlan, fits: bool) returns (reply: Reply)
      modifies this`plans
      ensures (Contents(), reply) == AfterSave(c, old(Contents()), user, ask, fits)
    {
      if user in erased { return Refused(401); }
      if !fits { return Refused(413); }
      var mark := MarkOf(user, ask);
      if user in plans && plans[user].request == ask.request {
        if plans[user].mark == mark { return Saved(Plan(plans[user].revision, plans[user].state)); }
        return Refused(409);
      }
      var refusal := CheckSteps(c, ask.state.steps);
      if refusal.Some? { return Refused(422); }
      if (if user in plans then plans[user].revision else 0) != ask.expected { return Refused(409); }
      var revision := ask.expected + 1;
      if user !in plans {
        plans := plans[user := Row(revision, ask.state, ask.request, mark)];
      } else {
        plans := plans[user := plans[user].(revision := revision, state := ask.state, request := ask.request, mark := mark)];
      }
      return Saved(Plan(revision, ask.state));
    }

    method Erase(user: UserId)
      modifies this
      ensures Contents() == AfterErase(old(Contents()), user)
    {
      erased := erased + {user};
      plans := map u | u in plans && u != user :: plans[u];
    }
  }

  // ----- Runs -------------------------------------------------------------------------------------------------------

  datatype Event =
    | SaveEvent(user: UserId, ask: SavePlan, fits: bool)
    | TombstoneEvent(user: UserId)
    | EraseEvent(user: UserId)

  function Step(c: Content, t: Tables, e: Event): Tables {
    match e
    case SaveEvent(user, ask, fits) => AfterSave(c, t, user, ask, fits).0
    case TombstoneEvent(user) => t.(erased := t.erased + {user})
    case EraseEvent(user) => AfterErase(t, user)
  }

  function Run(c: Content, t: Tables, events: seq<Event>): Tables
    decreases events
  {
    if events == [] then t else Run(c, Step(c, t, events[0]), events[1..])
  }

  const EMPTY := Tables({}, map[])

  // ----- Refinement ---------------------------------------------------------------------------------------------------

  const KEPT_RECEIPTS := 1

  /** The one receipt that a plan holds. */
  predicate Holds(t: Tables, k: R.Key) {
    k.user in t.plans && t.plans[k.user].request == k.request
  }

  function ReceiptOf(row: Row): R.Receipt<PlanState, Plan> {
    R.Receipt(row.revision, row.mark, Plan(row.revision, row.state))
  }

  ghost predicate SameRevision(t: Tables, s: R.Store<PlanState, Plan>, user: UserId) {
    R.Revision(s.revisions, DocOf(user)) == RevisionOf(t, user)
  }

  ghost predicate SameReceipt(t: Tables, receipts: map<R.Key, R.Receipt<PlanState, Plan>>, k: R.Key) {
    && (k in receipts <==> Holds(t, k))
    && (k in receipts ==> receipts[k] == ReceiptOf(t.plans[k.user]))
  }

  /** The table read as a register: the revision of each plan, and its one receipt. */
  ghost predicate Represents(t: Tables, s: R.Store<PlanState, Plan>) {
    && s.erased == t.erased
    && (forall user {:trigger SameRevision(t, s, user)} :: SameRevision(t, s, user))
    && (forall k {:trigger SameReceipt(t, s.receipts, k)} :: SameReceipt(t, s.receipts, k))
  }

  /** A stored plan was checked, and its fingerprint is that of the request that saved it. */
  ghost predicate RowOk(c: Content, user: UserId, row: Row) {
    && row.revision >= 1 && row.mark == R.Fingerprint(DocOf(user), row.revision - 1, row.state)
    && StepsOk(c, row.state.steps)
  }

  ghost predicate Inv(c: Content, t: Tables) {
    forall u {:trigger RowOk(c, u, t.plans[u])} | u in t.plans :: RowOk(c, u, t.plans[u])
  }

  function RowOf(user: UserId, ask: SavePlan): Row {
    Row(ask.expected + 1, ask.state, ask.request, MarkOf(user, ask))
  }

  /** With one receipt kept, a new one replaces the old one. */
  lemma OneReceipt(c: Content, t: Tables, s: R.Store<PlanState, Plan>, user: UserId, ask: SavePlan, k: R.Key)
    requires Inv(c, t) && Represents(t, s) && RevisionOf(t, user) == ask.expected
    ensures SameReceipt(t.(plans := t.plans[user := RowOf(user, ask)]),
                        R.Prune(s.receipts[R.Key(user, ask.request) := ReceiptOf(RowOf(user, ask))], DocOf(user), KEPT_RECEIPTS), k)
  {
    var key := R.Key(user, ask.request);
    var all := s.receipts[key := ReceiptOf(RowOf(user, ask))];
    assert SameReceipt(t, s.receipts, k);
    if k in all && k.user in t.plans { assert RowOk(c, k.user, t.plans[k.user]); }
    if k == key {
      NoneNewer(c, t, s, user, ask);
    } else if k in all && k.user == user {
      assert key in R.Newer(all, DocOf(user), k);
    }
  }

  lemma NoneNewer(c: Content, t: Tables, s: R.Store<PlanState, Plan>, user: UserId, ask: SavePlan)
    requires Inv(c, t) && Represents(t, s) && RevisionOf(t, user) == ask.expected
    ensures var key := R.Key(user, ask.request);
            R.Newer(s.receipts[key := ReceiptOf(RowOf(user, ask))], DocOf(user), key) == {}
  {
    forall k | k in s.receipts && s.receipts[k].fingerprint.doc == DocOf(user)
      ensures s.receipts[k].revision <= ask.expected
    {
      assert SameReceipt(t, s.receipts, k);
      assert RowOk(c, k.user, t.plans[k.user]);
    }
  }

  lemma AcceptRefines(c: Content, t: Tables, s: R.Store<PlanState, Plan>, user: UserId, ask: SavePlan)
    requires Inv(c, t) && Represents(t, s) && RevisionOf(t, user) == ask.expected
    ensures Represents(t.(plans := t.plans[user := RowOf(user, ask)]),
                       R.Advance(s, KEPT_RECEIPTS, R.Key(user, ask.request), MarkOf(user, ask), Plan(ask.expected + 1, ask.state)))
  {
    var t' := t.(plans := t.plans[user := RowOf(user, ask)]);
    var s' := R.Advance(s, KEPT_RECEIPTS, R.Key(user, ask.request), MarkOf(user, ask), Plan(ask.expected + 1, ask.state));
    forall u ensures SameRevision(t', s', u) { assert SameRevision(t, s, u); }
    forall k ensures SameReceipt(t', s'.receipts, k) { OneReceipt(c, t, s, user, ask, k); }
  }

  /** One save of a plan that is not refused for its size or its steps is one save of the register. */
  lemma SaveRefines(c: Content, t: Tables, s: R.Store<PlanState, Plan>, user: UserId, ask: SavePlan)
    requires Inv(c, t) && Represents(t, s)
    requires StepsOk(c, ask.state.steps) || Holds(t, R.Key(user, ask.request))
    ensures var (t', reply) := AfterSave(c, t, user, ask, true);
            var (s', answer) := R.Save(s, KEPT_RECEIPTS, R.Key(user, ask.request), MarkOf(user, ask), Plan(ask.expected + 1, ask.state));
            && Represents(t', s') && (!answer.Accepted? ==> t' == t)
            && (answer.Accepted? || answer.Replayed? ==> reply == Saved(answer.answer))
            && (reply.Refused? <==> answer.Gone? || answer.Reused? || answer.Stale?)
  {
    assert SameReceipt(t, s.receipts, R.Key(user, ask.request)) && SameRevision(t, s, user);
    if RevisionOf(t, user) == ask.expected { AcceptRefines(c, t, s, user, ask); }
  }

  lemma EraseRefines(t: Tables, s: R.Store<PlanState, Plan>, user: UserId)
    requires Represents(t, s)
    ensures Represents(AfterErase(t, user), R.Erase(s, user))
  {
    forall u ensures SameRevision(AfterErase(t, user), R.Erase(s, user), u) { assert SameRevision(t, s, u); }
    forall k ensures SameReceipt(AfterErase(t, user), R.Erase(s, user).receipts, k) { assert SameReceipt(t, s.receipts, k); }
  }

  lemma TombstoneRefines(t: Tables, s: R.Store<PlanState, Plan>, user: UserId)
    requires Represents(t, s)
    ensures Represents(t.(erased := t.erased + {user}), s.(erased := s.erased + {user}))
  {
    forall u ensures SameRevision(t.(erased := t.erased + {user}), s.(erased := s.erased + {user}), u) {
      assert SameRevision(t, s, u);
    }
    forall k ensures SameReceipt(t.(erased := t.erased + {user}), s.receipts, k) { assert SameReceipt(t, s.receipts, k); }
  }

  // ----- Every run ------------------------------------------------------------------------------------------------------

  /** The register's step for an event: a save that is not refused for its size or its steps, or an erasure. */
  function RegisterSteps(c: Content, t: Tables, e: Event): seq<R.Event<PlanState, Plan>> {
    match e
    case SaveEvent(user, ask, fits) =>
      if fits && (StepsOk(c, ask.state.steps) || Holds(t, R.Key(user, ask.request)))
      then [R.SaveEvent(R.Key(user, ask.request), MarkOf(user, ask), Plan(ask.expected + 1, ask.state))]
      else []
    case TombstoneEvent(user) => [R.TombstoneEvent(user)]
    case EraseEvent(user) => [R.EraseEvent(user)]
  }

  function RegisterRun(c: Content, t: Tables, events: seq<Event>): seq<R.Event<PlanState, Plan>>
    decreases events
  {
    if events == [] then [] else RegisterSteps(c, t, events[0]) + RegisterRun(c, Step(c, t, events[0]), events[1..])
  }

  lemma StepKeepsInv(c: Content, t: Tables, e: Event)
    requires Inv(c, t)
    ensures Inv(c, Step(c, t, e))
  {
    forall u | u in Step(c, t, e).plans ensures RowOk(c, u, Step(c, t, e).plans[u]) {
      if u in t.plans { assert RowOk(c, u, t.plans[u]); }
    }
  }

  lemma StepRefines(c: Content, t: Tables, e: Event, trace: R.Traced<PlanState, Plan>)
    requires Inv(c, t) && Represents(t, trace.store)
    ensures Represents(Step(c, t, e), R.Run(trace, KEPT_RECEIPTS, RegisterSteps(c, t, e)).store)
  {
    match e
    case SaveEvent(user, ask, fits) =>
      if RegisterSteps(c, t, e) != [] {
        SaveRefines(c, t, trace.store, user, ask);
        R.OneStep(trace, KEPT_RECEIPTS, RegisterSteps(c, t, e)[0]);
      }
    case TombstoneEvent(user) =>
      TombstoneRefines(t, trace.store, user);
      R.OneStep(trace, KEPT_RECEIPTS, R.TombstoneEvent(user));
    case EraseEvent(user) =>
      EraseRefines(t, trace.store, user);
      R.OneStep(trace, KEPT_RECEIPTS, R.EraseEvent(user));
  }

  lemma {:induction false} RunRefines(c: Content, t: Tables, events: seq<Event>, trace: R.Traced<PlanState, Plan>)
    requires Inv(c, t) && Represents(t, trace.store)
    ensures Inv(c, Run(c, t, events))
    ensures Represents(Run(c, t, events), R.Run(trace, KEPT_RECEIPTS, RegisterRun(c, t, events)).store)
    decreases events
  {
    if events != [] {
      var first, rest := RegisterSteps(c, t, events[0]), RegisterRun(c, Step(c, t, events[0]), events[1..]);
      StepRefines(c, t, events[0], trace);
      StepKeepsInv(c, t, events[0]);
      R.RunAppend(trace, KEPT_RECEIPTS, first, rest);
      RunRefines(c, Step(c, t, events[0]), events[1..], R.Run(trace, KEPT_RECEIPTS, first));
    }
  }

  /** Over every run the plans are a register with one receipt, and every stored plan holds known steps, each once. */
  lemma PlansAreARegister(c: Content, events: seq<Event>)
    ensures Inv(c, Run(c, EMPTY, events))
    ensures Represents(Run(c, EMPTY, events), R.Run(R.Empty(), KEPT_RECEIPTS, RegisterRun(c, EMPTY, events)).store)
  {
    assert Represents(EMPTY, R.Empty<PlanState, Plan>().store);
    RunRefines(c, EMPTY, events, R.Empty());
  }

  // ----- Exactly once ---------------------------------------------------------------------------------------------------

  /**
   A plan save that was accepted is never applied again. In every later state its exact retry changes nothing; it gets
   the original answer while it is the latest save, and is refused after that or after an erasure.
   */
  lemma PlanRetryIsExactlyOnce(c: Content, earlier: seq<Event>, user: UserId, ask: SavePlan, later: seq<Event>, fits: bool)
    requires AfterSave(c, Run(c, EMPTY, earlier), user, ask, true).0 != Run(c, EMPTY, earlier)
    ensures var saved := AfterSave(c, Run(c, EMPTY, earlier), user, ask, true).1;
            var now := Run(c, Step(c, Run(c, EMPTY, earlier), SaveEvent(user, ask, true)), later);
            var (t, reply) := AfterSave(c, now, user, ask, fits);
            && t == now && saved == Saved(Plan(ask.expected + 1, ask.state))
            && if user !in now.erased && fits && ask.expected + 1 == RevisionOf(now, user) then reply == saved
               else reply.Refused?
  {
    var t, e := Run(c, EMPTY, earlier), SaveEvent(user, ask, true);
    var trace := R.Run(R.Empty(), KEPT_RECEIPTS, RegisterRun(c, EMPTY, earlier));
    var key, mark, plan := R.Key(user, ask.request), MarkOf(user, ask), Plan(ask.expected + 1, ask.state);
    PlansAreARegister(c, earlier);
    StepKeepsInv(c, t, e);
    SaveRefines(c, t, trace.store, user, ask);
    StepRefines(c, t, e, trace);
    R.OneStep(trace, KEPT_RECEIPTS, R.SaveEvent(key, mark, plan));
    var next := R.Step(trace, KEPT_RECEIPTS, R.SaveEvent(key, mark, plan));
    RunRefines(c, Step(c, t, e), later, next);
    R.RetryIsExactlyOnce(KEPT_RECEIPTS, RegisterRun(c, EMPTY, earlier), key, mark, plan, RegisterRun(c, Step(c, t, e), later), plan);
    var now, store := Run(c, Step(c, t, e), later), R.Run(next, KEPT_RECEIPTS, RegisterRun(c, Step(c, t, e), later)).store;
    SaveRefines(c, now, store, user, ask);
    assert SameRevision(now, store, user);
  }

  // ----- Erasure --------------------------------------------------------------------------------------------------------

  lemma {:induction false} StaysErased(c: Content, t: Tables, later: seq<Event>, user: UserId)
    requires user in t.erased && user !in t.plans
    ensures user in Run(c, t, later).erased && user !in Run(c, t, later).plans
    decreases later
  {
    if later != [] { StaysErased(c, Step(c, t, later[0]), later[1..], user); }
  }

  /** No save after an erasure creates a plan again. */
  lemma PlanErasureIsFinal(c: Content, t: Tables, user: UserId, later: seq<Event>, ask: SavePlan, fits: bool)
    ensures var now := Run(c, Step(c, t, EraseEvent(user)), later);
            user !in now.plans && AfterSave(c, now, user, ask, fits) == (now, Refused(401))
  {
    StaysErased(c, Step(c, t, EraseEvent(user)), later, user);
  }
}
