/**
 The operations of the lesson engine as the source writes them: step by step over the mutable tables of one
 transaction, which a refusal or a failure rolls back. Each is the step function of `EngineSteps`.
 */
module EngineDatabase {
  import opened Options
  import opened Ids
  import opened Canonical
  import opened Rooms
  import opened EngineTables
  import opened EngineSteps
  import R = Register

  class Database {
    var uuids: Uuid
    var erased: set<UserId>
    var revisions: map<Uuid, EngineRevision>
    var states: map<TaskKey, TaskState>
    var submissions: map<Uuid, Submission>
    var rooms: map<RoomKey, Room>
    var roomRequests: map<RoomRequestKey, RoomReceipt>
    var operations: map<OperationId, XpOperation>
    var xp: map<XpKey, int>

    function Tables(): Db
      reads this
    {
      Db(uuids, erased, revisions, states, submissions, rooms, roomRequests, operations, xp)
    }

    constructor ()
      ensures Tables() == Db(0, {}, map[], map[], map[], map[], map[], map[], map[])
    {
      uuids, erased, revisions, states, submissions := 0, {}, map[], map[], map[];
      rooms, roomRequests, operations, xp := map[], map[], map[], map[];
    }

    /** `db.session.rollback()`: back to the tables at the start of the transaction. */
    method Rollback(saved: Db)
      modifies this
      ensures Tables() == saved
    {
      uuids, erased, revisions, states := saved.uuids, saved.erased, saved.revisions, saved.states;
      submissions, rooms, roomRequests := saved.submissions, saved.rooms, saved.roomRequests;
      operations, xp := saved.operations, saved.xp;
    }

    /** `uuid4()` */
    method FreshUuid() returns (id: Uuid)
      modifies this`uuids
      ensures id == old(uuids) && uuids == old(uuids) + 1
    {
      id := uuids;
      uuids := uuids + 1;
    }

    // ----- Publishing -------------------------------------------------------------------------------------

    method Publish(cfg: Config, ask: PublishAsk) returns (reply: PublishReply)
      modifies this
      ensures (Tables(), reply) == EngineSteps.Publish(cfg, old(Tables()), ask)
    {
      var saved := Tables();
      var unit := Find(cfg.catalogue, ask.unit);
      if unit.None? || !IsEngine(unit.value) { return PublishRefused(404); }
      if !ValidDocument(ask.document) || ask.document.unit != ask.unit || !ask.known { return PublishRefused(422); }
      if !ask.registered { return PublishRefused(409); }
      var active := ActiveRevision(saved, ask.unit);
      if active.Some? && BondsOf(revisions[active.value].terms) != BondsOf(TermsOf(ask.document.tasks)) {
        return PublishRefused(409);
      }
      if active.Some? && revisions[active.value].document.rule.bands != ask.document.rule.bands {
        return PublishRefused(409);
      }
      var same := SameContent(saved, ask);
      if same.Some? && revisions[same.value].package != ask.package { return PublishRefused(409); }
      reply := Activate(ask, active, same);
    }

    /** Switches the active revision to the row of the same content, or to a new one. */
    method Activate(ask: PublishAsk, active: Option<Uuid>, same: Option<Uuid>) returns (reply: PublishReply)
      requires active == ActiveRevision(Tables(), ask.unit) && same == SameContent(Tables(), ask)
      modifies this`uuids, this`revisions
      ensures (Tables(), reply) == EngineSteps.Activate(old(Tables()), ask)
    {
      var number := MaxNumber(revisions, uuids, ask.unit) + 1;
      if active.Some? && active != same {
        revisions := revisions[active.value := revisions[active.value].(activeFor := None)];
      }
      if same.Some? {
        reply := Published(same.value, revisions[same.value].number, false);
        revisions := revisions[same.value := revisions[same.value].(activeFor := Some(ask.unit))];
      } else {
        var id := FreshUuid();
        revisions := revisions[id := EngineRevision(ask.unit, number, Some(ask.unit), ask.package, ask.document,
                                                    TermsOf(ask.document.tasks))];
        reply := Published(id, number, true);
      }
    }

    // ----- Starting ---------------------------------------------------------------------------------------------

    method Start(cfg: Config, user: UserId, unit: UnitId, goal: GoalId, ask: StartAsk, w: World)
      returns (reply: StartReply)
      modifies this
      ensures (Tables(), reply) == EngineSteps.Start(cfg, old(Tables()), user, unit, goal, ask, w)
    {
      var saved := Tables();
      if user in erased { return StartRefused(AccountGone); }
      var refusal := UnitRefusal(cfg, saved, user, unit, ask.course, w.open);
      if refusal.Some? { return StartRefused(refusal.value); }
      var active := ActiveRevision(saved, unit);
      if active.None? { return StartRefused(Unavailable); }
      if ask.revision != active.value { return StartRefused(RevisionChanged); }
      reply := StartTask(TaskKey(user, unit, goal), active.value, ask, w);
    }

    /** Creates the row, or moves it to the active revision, where its start is no longer of use. */
    method Prepare(key: TaskKey, active: Uuid, initial: Band, mayMove: bool)
      modifies this`states
      ensures states == old(states)[key := Prepared(Get(old(states), key), active, initial, mayMove)]
    {
      if key !in states {
        states := states[key := NewState(active, initial)];
      } else if mayMove && states[key].revision != active {
        states := states[key := states[key].(revision := active, start := None)];
      }
    }

    method DrawStart(key: TaskKey, active: Uuid, practice: Practice, ask: StartAsk, seed: string)
      requires key in states
      modifies this`uuids, this`states
      ensures uuids == old(uuids) + 1
      ensures var public := PublicStart(old(uuids), active, key.goal, practice, seed);
              states == old(states)[key := Drawn(old(states)[key], OpenStart(public, old(states)[key].band), ask)]
    {
      var id := FreshUuid();
      var state := states[key];
      state := state.(start := Some(OpenStart(PublicStart(id, active, key.goal, practice, seed), state.band)));
      states := states[key := state.(startRequest := Some(ask.request))];
    }

    method StartTask(key: TaskKey, active: Uuid, ask: StartAsk, w: World) returns (reply: StartReply)
      requires active in revisions
      modifies this
      ensures (Tables(), reply) == EngineSteps.StartTask(old(Tables()), key, active, ask, w)
    {
      var saved := Tables();
      var document := revisions[active].document;
      var task := FindTask(document.tasks, key.goal);
      if task.None? { return StartRefused(NotFound); }
      var pending := OpenSubmission(saved, key);
      var replay := IsReplay(Get(states, key), ask);
      if pending.Some? && !replay && key in states && states[key].revision != active {
        return StartRefused(PendingSubmission);
      }
      Prepare(key, active, document.rule.initial, !replay && pending.None?);
      reply := Begin(saved, key, active, task.value, ask, w);
    }

    method Begin(saved: Db, key: TaskKey, active: Uuid, task: Task, ask: StartAsk, w: World) returns (reply: StartReply)
      requires key in states && Tables() == saved.(states := saved.states[key := states[key]])
      modifies this
      ensures (Tables(), reply) == EngineSteps.Begin(saved, key, active, task, old(states[key]), ask, w)
    {
      if states[key].start.None? {
        var band := states[key].band;
        if band !in task.practice {
          Rollback(saved);
          return StartRefused(Broken);
        }
        DrawStart(key, active, task.practice[band], ask, w.seed);
      }
      if !w.mayStart {
        Rollback(saved);
        return StartRefused(LimitReached);
      }
      assert states == saved.states[key := states[key]];
      return Started(states[key].start.value);
    }

    // ----- Submitting -----------------------------------------------------------------------------------------------

    method Submit(cfg: Config, user: UserId, unit: UnitId, goal: GoalId, ask: SubmitAsk, w: World)
      returns (reply: SubmitReply)
      modifies this
      ensures (Tables(), reply) == EngineSteps.Submit(cfg, old(Tables()), user, unit, goal, ask, w)
    {
      if user in erased { return SubmitRefused(AccountGone); }
      var refusal := UnitRefusal(cfg, Tables(), user, unit, ask.course, w.open);
      if refusal.Some? { return SubmitRefused(refusal.value); }
      reply := SubmitTask(TaskKey(user, unit, goal), ask, w);
    }

    method SubmitTask(key: TaskKey, ask: SubmitAsk, w: World) returns (reply: SubmitReply)
      modifies this
      ensures (Tables(), reply) == EngineSteps.SubmitTask(old(Tables()), key, ask, w)
    {
      var db := Tables();
      var hash := CanonicalText(ask.plan);
      if hash.None? { return SubmitRefused(PlanInvalid); }
      if key !in states || states[key].start.None? { return SubmitRefused(StartRequired); }
      var state := states[key];
      var same := SameSubmission(db, key, ask.startId, hash.value);
      if same.Some? { return Existing(same.value); }
      if state.start.value.public.id != ask.startId { return SubmitRefused(StartRequired); }
      var taken := SubmissionOfStart(db, key, state.start.value.public.id);
      if taken.Some? { return SubmitRefused(StartRequired); }
      var room := Get(rooms, R.Doc(key.user, key.unit));
      var plan := if room.Some? then SavedPlan(room.value.state, key.goal) else None;
      if room.None? || room.value.revision != ask.stateRevision || plan.None? || !Same(plan.value, ask.plan) {
        return SubmitRefused(Conflict);
      }
      if state.revision !in revisions { return SubmitRefused(Unavailable); }
      var document := revisions[state.revision].document;
      var task := FindTask(document.tasks, key.goal);
      if task.None? { return SubmitRefused(NotFound); }
      if Member(ask.plan, KIND) != Some(Str(task.value.input)) { return SubmitRefused(PlanKind); }
      // The unique key of the open submission.
      if OpenSubmission(db, key).Some? { return SubmitRefused(CameFirst); }
      var id := FreshUuid();
      submissions := submissions[id := NewSubmission(key, state, document, hash.value, ask.plan, w.now)];
      return Created(id);
    }

    // ----- The lease --------------------------------------------------------------------------------------------------

    method Claim(id: Uuid, now: Time) returns (taken: bool)
      modifies this`submissions
      ensures (Tables(), taken) == EngineSteps.Claim(old(Tables()), id, now)
    {
      taken := id in submissions && submissions[id].state == Accepted
               && (submissions[id].evaluatingUntil.None? || submissions[id].evaluatingUntil.value <= now);
      if taken {
        submissions := submissions[id := submissions[id].(evaluatingUntil := Some(now + LEASE_SECONDS))];
      }
    }

    // ----- XP -----------------------------------------------------------------------------------------------------------

    method AddXp(key: XpKey, amount: int)
      modifies this`xp
      ensures xp == EngineSteps.AddXp(old(xp), key, amount)
    {
      if key !in xp { xp := xp[key := 0]; }
      xp := xp[key := xp[key] + amount];
    }

    /** Claims the receipt before the guard; a failure takes the claim back, an erased account keeps no row. */
    method ApplyXp(operation: OperationId, request: XpRequest, w: XpWorld) returns (reply: XpReply)
      modifies this
      ensures (Tables(), reply) == EngineSteps.ApplyXp(old(Tables()), operation, request, w)
    {
      var saved := Tables();
      if operation !in operations {
        operations := operations[operation := XpOperation(request.user, request, None)];
      }
      var row := operations[operation];
      if row.request != request {
        Rollback(saved);
        return XpFailed(409);
      }
      if row.result.Some? { return XpDone; }
      if request.user in erased {
        operations := operations - {operation};
        assert operations == saved.operations - {operation};
        return XpErased;
      }
      if !w.live {
        Rollback(saved);
        return XpFailed(503);
      }
      if !w.skillKnown {
        Rollback(saved);
        return XpFailed(404);
      }
      AddXp(XpKey(request.user, request.skill), request.xp);
      operations := operations[operation := row.(result := Some(Applied))];
      assert operations == saved.operations[operation := row.(result := Some(Applied))];
      return XpDone;
    }

    // ----- Booking --------------------------------------------------------------------------------------------------------

    /** `_complete_unit`: whether the unit is completed now. */
    method CompleteUnit(user: UserId, unit: UnitId, terms: seq<Terms>) returns (completed: bool)
      modifies this`rooms
      ensures Tables() == EngineSteps.CompleteUnit(old(Tables()), user, unit, terms)
      ensures completed == (RequiredGoals(terms) <= PassedGoals(old(Tables()), user, unit)
                            && RoomCompleted(Tables(), user, unit))
    {
      var required, passed := RequiredGoals(terms), PassedGoals(Tables(), user, unit);
      if !(required <= passed) { return false; }
      var key := R.Doc(user, unit);
      if key in rooms && rooms[key].status != Completed {
        rooms := rooms[key := rooms[key].(status := Completed, result := Some(Passed))];
        return true;
      }
      return RoomCompleted(Tables(), user, unit);
    }

    /** Counts a verdict in the row of its task, uses up the start, and records the first pass with its award. */
    method CountVerdict(before: TaskState, level: Level, startId: Uuid, passed: bool, award: Award, now: Time)
      returns (state: TaskState)
      ensures state == BookedState(before, level, startId, passed, award, now)
    {
      state := before.(band := level.band, fails := level.fails, passes := level.passes);
      if state.start.Some? && state.start.value.public.id == startId { state := state.(start := None); }
      var first := passed && !state.xpApplied;
      if passed && state.passedAt.None? { state := state.(passedAt := Some(now)); }
      if first { state := state.(xpApplied := true, award := Some(award)); }
    }

    /** The transaction of `book` after its unlocked first read `r`. */
    method Book(r: Reading, w: XpWorld, now: Time) returns (reply: BookReply)
      modifies this
      ensures (Tables(), reply) == EngineSteps.Book(old(Tables()), r, w, now)
    {
      var saved := Tables();
      var task := FindTask(r.revision.document.tasks, r.key.goal);
      var terms := FindTerms(r.revision.terms, r.key.goal);
      if task.None? || terms.None? { return BookBroken; }
      var passed := r.result.verdict == Pass;
      var award := Award(TaskOperation(r.key), terms.value.xp, terms.value.skill);
      if passed {
        var paid := ApplyXp(award.operation, XpRequest(r.key.user, award.skill, award.xp, award.operation), w);
        if !paid.XpDone? {
          Rollback(saved);
          return if paid.XpErased? then BookErased else NoVerdict;
        }
      }
      if r.key.user in erased || r.key !in states || r.id !in submissions
         || submissions[r.id].key.user != r.key.user
      {
        Rollback(saved);
        return BookErased;
      }
      var state, row := states[r.key], submissions[r.id];
      if row.state != Accepted {
        return AlreadyBooked(ViewOf(r.id, row, RoomCompleted(Tables(), r.key.user, r.key.unit)));
      }
      var level := Counted(r.revision.document.rule, Level(state.band, state.fails, state.passes), passed);
      if level.None? {
        Rollback(saved);
        return BookBroken;
      }
      var first := passed && !state.xpApplied;
      state := CountVerdict(state, level.value, row.startId, passed, award, now);
      row := row.(state := Booked, openGoal := None, verdict := Some(r.result.verdict),
                  feedback := Some(FeedbackOf(r.result, task.value)), counts := Some(passed), bookedAt := Some(now),
                  evaluatingUntil := None);
      states, submissions := states[r.key := state], submissions[r.id := row];
      var completed := false;
      if passed { completed := CompleteUnit(r.key.user, r.key.unit, r.revision.terms); }
      return BookedNow(ViewOf(r.id, row, completed), if first then Some(award.xp) else None);
    }

    // ----- Room changes ----------------------------------------------------------------------------------------------------

    method MutateRoom(cfg: Config, user: UserId, unit: UnitId, ask: Ask, out: Outside) returns (reply: RoomReply)
      modifies this
      ensures (Tables(), reply) == EngineSteps.MutateRoom(cfg, old(Tables()), user, unit, ask, out)
    {
      if user in erased { return RoomRefused(401); }
      var found := Find(cfg.catalogue, unit);
      if found.None? || (found.value.completion.None? && !found.value.exercise) { return RoomRefused(404); }
      if ask.course.None? {
        var concepts := CollectIntroduced(cfg.catalogue, RoomsOf(Tables(), user));
        if !(found.value.prerequisites <= concepts) { return RoomRefused(403); }
      }
      if !out.open { return RoomRefused(403); }
      reply := ChangeRoom(found.value, R.Doc(user, unit), ask, out);
    }

    method ChangeRoom(unit: Unit, doc: RoomKey, ask: Ask, out: Outside) returns (reply: RoomReply)
      modifies this`rooms, this`roomRequests
      ensures (Tables(), reply) == EngineSteps.ChangeRoom(old(Tables()), unit, doc, ask, out)
    {
      var key, mark := R.Key(doc.user, ask.id), RoomMark(doc.user, doc.name, ask);
      if key in roomRequests {
        if roomRequests[key].fingerprint != mark { return RoomRefused(409); }
        return RoomReplayed(roomRequests[key].answer);
      }
      var decision := Decide(unit, Get(rooms, doc), ask, out);
      if decision.Refuse? { return RoomRefused(decision.code); }
      if decision.Confirm? { return RoomConfirmed(decision.progress); }
      rooms := rooms[doc := decision.room];
      roomRequests := roomRequests[key := R.Receipt(ask.expected + 1, mark, decision.progress)];
      roomRequests := R.Prune(roomRequests, doc, KEPT_ROOM_RECEIPTS);
      return RoomSaved(decision.progress);
    }

    // ----- Erasure ------------------------------------------------------------------------------------------------------------

    method DeleteUserData(user: UserId)
      modifies this
      ensures Tables() == Erase(old(Tables()), user)
    {
      erased := erased + {user};
      DeleteEngineRows(user);
      roomRequests := map k | k in roomRequests && k.user != user :: roomRequests[k];
      rooms := map k | k in rooms && k.user != user :: rooms[k];
      DeleteXpRows(user);
    }

    method DeleteEngineRows(user: UserId)
      modifies this`submissions, this`states
      ensures submissions == Erase(old(Tables()), user).submissions && states == Erase(old(Tables()), user).states
    {
      submissions := map k | k in submissions && submissions[k].key.user != user :: submissions[k];
      states := map k | k in states && k.user != user :: states[k];
    }

    method DeleteXpRows(user: UserId)
      modifies this`xp, this`operations
      ensures xp == Erase(old(Tables()), user).xp && operations == Erase(old(Tables()), user).operations
    {
      xp := map k | k in xp && k.user != user :: xp[k];
      operations := map k | k in operations && operations[k].user != user :: operations[k];
    }
  }
}
