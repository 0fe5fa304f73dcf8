/**
 What every change of a room rests on (`mutate_room` in api/services/rooms.py): when a client's save, finish or practice
 round is taken, what it writes, and that every achievement had a request that earned it.
 */
module RoomChanges {
  import opened Options
  import opened Ids
  import opened Rooms
  import opened EngineTables
  import opened EngineSteps
  import opened EngineSystem
  import opened EngineInvariant
  import R = Register

  // ----- When a request gets through ---------------------------------------------------------------------------

  function RevisionOf(db: Db, d: RoomKey): nat {
    if d in db.rooms then db.rooms[d].revision else 0
  }

  function RoundOf(db: Db, d: RoomKey): Option<Review> {
    if d in db.rooms then db.rooms[d].review else None
  }

  /** A live account, an offered and unlocked unit that the learner has access to. */
  predicate IsAdmitted(cfg: Config, db: Db, user: UserId, unit: Unit, course: Option<CourseId>, open: bool) {
    && user !in db.erased && (unit.completion.Some? || unit.exercise)
    && (course.Some? || unit.prerequisites <= IntroducedConcepts(cfg.catalogue, RoomsOf(db, user)))
    && open
  }

  /** An admitted, fresh request for the revision there is, of an exercise that can be checked if it is one. */
  predicate IsTaken(cfg: Config, db: Db, user: UserId, unit: Unit, ask: Ask, out: Outside) {
    && IsAdmitted(cfg, db, user, unit, ask.course, out.open) && R.Key(user, ask.id) !in db.roomRequests
    && ask.expected == RevisionOf(db, R.Doc(user, unit.id))
    && (unit.exercise ==> out.solved.Some?)
  }

  /** It names the practice round there is, or none where there is none. */
  predicate NamesRound(db: Db, user: UserId, unit: Unit, ask: Ask) {
    var round := RoundOf(db, R.Doc(user, unit.id));
    if round.Some? then ask.review == Some(round.value.id) else ask.review == None
  }

  /** The room, or its practice round if it has one, is not finished. */
  predicate IsOpen(db: Db, d: RoomKey) {
    d in db.rooms ==>
      var status := if db.rooms[d].review.Some? then db.rooms[d].review.value.status else db.rooms[d].status;
      status == New || status == InProgress
  }

  // ----- What earns a finish -----------------------------------------------------------------------------------

  /** An introduction that allows it, or a graded room, may be skipped. */
  predicate EarnsSkip(unit: Unit, change: Change)
    requires change.Finish?
  {
    change.skip && unit.completion.Some?
    && match unit.completion.value
       case Introduction(_, allowSkip) => allowSkip && !change.signed
       case LlmVerdict => true
       case Engine => false
  }

  /** The challenge service reports the exercise solved; in a round, the named attempt at it. */
  predicate EarnsSolved(unit: Unit, change: Change, inRound: bool, out: Outside)
    requires change.Finish?
  {
    && !change.skip && unit.exercise
    && (if inRound then change.attempt && out.attemptSolved else out.solved == Some(true))
    && if unit.completion != Some(LlmVerdict) then !change.signed
       else if change.signed then out.grading.Some? else change.answer == FALLBACK_ANSWER
  }

  /** The stored answer of an introduction, or a passing grading or the fallback of a graded room. */
  predicate EarnsIntroduced(unit: Unit, change: Change, out: Outside)
    requires change.Finish?
  {
    !change.skip && !unit.exercise && unit.completion.Some?
    && match unit.completion.value
       case Introduction(answer, _) => change.answer == answer && !change.signed
       case LlmVerdict => if change.signed then out.grading == Some(true) else change.answer == FALLBACK_ANSWER
       case Engine => false
  }

  predicate Shows(progress: Progress, status: Status, result: Option<Achievement>) {
    progress.status == status && progress.result == result
  }

  // ----- Finishing ---------------------------------------------------------------------------------------------

  ghost predicate FinishIs(cfg: Config, db: Db, user: UserId, unit: Unit, ask: Ask, out: Outside, reply: RoomReply)
    requires ask.change.Finish?
  {
    var d := R.Doc(user, unit.id);
    var ready := IsTaken(cfg, db, user, unit, ask, out) && NamesRound(db, user, unit, ask) && IsOpen(db, d);
    && (reply.RoomSaved? && Shows(reply.progress, Skipped, None) <==> ready && EarnsSkip(unit, ask.change))
    && (reply.RoomSaved? && Shows(reply.progress, Completed, Some(Solved)) <==>
          ready && out.mayStart && EarnsSolved(unit, ask.change, RoundOf(db, d).Some?, out))
    && (reply.RoomSaved? && Shows(reply.progress, Completed, Some(Introduced)) <==>
          ready && out.mayStart && EarnsIntroduced(unit, ask.change, out))
    && (reply.RoomSaved? ==> Shows(reply.progress, Skipped, None) || Shows(reply.progress, Completed, Some(Solved))
                             || Shows(reply.progress, Completed, Some(Introduced)))
  }

  /**
   A client's finish of a room outside the engine is taken exactly where the room or its round is open and the request
   earns it: skipped where skipping is allowed, solved where the challenge service says so, introduced for the
   stored answer, a passing grading or the fallback; nothing else finishes it.
   */
  lemma FinishIsExact(cfg: Config, db: Db, user: UserId, unit: Unit, ask: Ask, out: Outside)
    requires Find(cfg.catalogue, unit.id) == Some(unit) && !IsEngine(unit) && ask.change.Finish?
    requires RoomsInv(cfg.catalogue, db.rooms)
    ensures FinishIs(cfg, db, user, unit, ask, out, MutateRoom(cfg, db, user, unit.id, ask, out).1)
  {
    var d := R.Doc(user, unit.id);
    if d in db.rooms { assert RoomRowOk(cfg.catalogue, d, db.rooms[d]); }
    DecideFinish(unit, Get(db.rooms, d), ask, out);
  }

  /** The same about the decision alone. */
  lemma DecideFinish(unit: Unit, row: Option<Room>, ask: Ask, out: Outside)
    requires !IsEngine(unit) && ask.change.Finish? && (row.Some? ==> RoomOk(unit, row.value))
    ensures var decision := Decide(unit, row, ask, out);
            var review := if row.Some? then row.value.review else None;
            var ready := (if row.Some? then row.value.revision else 0) == ask.expected
                         && ask.review == (if review.Some? then Some(review.value.id) else None)
                         && (unit.exercise ==> out.solved.Some?)
                         && !IsFinished(if review.Some? then review.value.status
                                        else if row.Some? then row.value.status else New);
            && (decision.Write? && Shows(decision.progress, Skipped, None) <==> ready && EarnsSkip(unit, ask.change))
            && (decision.Write? && Shows(decision.progress, Completed, Some(Solved)) <==>
                  ready && out.mayStart && EarnsSolved(unit, ask.change, review.Some?, out))
            && (decision.Write? && Shows(decision.progress, Completed, Some(Introduced)) <==>
                  ready && out.mayStart && EarnsIntroduced(unit, ask.change, out))
            && (decision.Write? ==>
                  Shows(decision.progress, Skipped, None) || Shows(decision.progress, Completed, Some(Solved))
                  || Shows(decision.progress, Completed, Some(Introduced)))
            && !decision.Confirm?
  {}

  /** A finish keeps the draft; it writes the achievement, or in a practice round only the state of the round. */
  lemma FinishWrites(cfg: Config, db: Db, user: UserId, unit: UnitId, ask: Ask, out: Outside)
    requires ask.change.Finish? && MutateRoom(cfg, db, user, unit, ask, out).1.RoomSaved?
    ensures var (db', reply) := MutateRoom(cfg, db, user, unit, ask, out);
            var d, p := R.Doc(user, unit), reply.progress;
            && d in db'.rooms
            && var draft := if d in db.rooms then db.rooms[d].state else NO_STATE;
               db'.rooms[d] == match RoundOf(db, d)
                               case Some(round) =>
                                 db.rooms[d].(revision := ask.expected + 1, review := Some(round.(status := p.status)))
                               case None => Room(ask.expected + 1, draft, p.status, p.result, None)
  {}

  /** A client's finish of a unit of the engine writes nothing, and confirms what its bookings completed. */
  lemma EngineFinishIsExact(cfg: Config, db: Db, user: UserId, unit: Unit, ask: Ask, out: Outside)
    requires Find(cfg.catalogue, unit.id) == Some(unit) && IsEngine(unit) && ask.change.Finish?
    ensures var (db', reply) := MutateRoom(cfg, db, user, unit.id, ask, out);
            && db' == db && !reply.RoomSaved?
            && (reply.RoomConfirmed? <==>
                  && IsTaken(cfg, db, user, unit, ask, out) && NamesRound(db, user, unit, ask)
                  && !ask.change.skip && RoomCompleted(db, user, unit.id))
  {}

  // ----- Saving and practising -----------------------------------------------------------------------------------

  /** A save is taken exactly at the revision and round it names, within the limits; it stores the draft and begins the room. */
  lemma SaveIsExact(cfg: Config, db: Db, user: UserId, unit: Unit, ask: Ask, out: Outside)
    requires Find(cfg.catalogue, unit.id) == Some(unit) && ask.change.Save?
    ensures var (db', reply) := MutateRoom(cfg, db, user, unit.id, ask, out);
            var d := R.Doc(user, unit.id);
            && (reply.RoomSaved? <==>
                  && IsTaken(cfg, db, user, unit, ask, out) && NamesRound(db, user, unit, ask) && out.mayStart
                  && (IsEngine(unit) ==> out.maySave))
            && (reply.RoomSaved? ==> d in db'.rooms && reply.progress.state == ask.change.state)
            && (reply.RoomSaved? && d !in db.rooms ==>
                  db'.rooms[d] == Room(1, ask.change.state, InProgress, None, None))
  {}

  lemma SaveWrites(cfg: Config, db: Db, user: UserId, unit: UnitId, ask: Ask, out: Outside)
    requires RoomsInv(cfg.catalogue, db.rooms) && R.Doc(user, unit) in db.rooms
    requires ask.change.Save? && MutateRoom(cfg, db, user, unit, ask, out).1.RoomSaved?
    ensures var d := R.Doc(user, unit);
            var row, rooms := db.rooms[d], MutateRoom(cfg, db, user, unit, ask, out).0.rooms;
            d in rooms && rooms[d] == row.(revision := row.revision + 1, state := ask.change.state,
                                           status := if row.status == New then InProgress else row.status)
  {
    assert RoomRowOk(cfg.catalogue, R.Doc(user, unit), db.rooms[R.Doc(user, unit)]);
  }

  /** A practice round begins, with an empty draft, exactly in a finished room outside the engine without one in progress. */
  lemma ReviewIsExact(cfg: Config, db: Db, user: UserId, unit: Unit, ask: Ask, out: Outside)
    requires Find(cfg.catalogue, unit.id) == Some(unit) && ask.change.StartReview?
    ensures var (db', reply) := MutateRoom(cfg, db, user, unit.id, ask, out);
            var d := R.Doc(user, unit.id);
            && (reply.RoomSaved? <==>
                  && IsTaken(cfg, db, user, unit, ask, out) && out.mayStart && !IsEngine(unit)
                  && d in db.rooms && (db.rooms[d].status == Completed || db.rooms[d].status == Skipped)
                  && (db.rooms[d].review.Some? ==> db.rooms[d].review.value.status != InProgress))
            && (reply.RoomSaved? ==>
                  && d in db'.rooms
                  && db'.rooms[d] == db.rooms[d].(revision := ask.expected + 1, state := NO_STATE,
                                                  review := Some(Review(ask.id, InProgress, out.now))))
  {}
}
