/** Over every run, each achievement in a room was earned by one request, or by the bookings of the lesson engine. */
module RoomAchievements {
  import opened Options
  import opened Ids
  import opened Rooms
  import opened EngineTables
  import opened EngineSteps
  import opened EngineSystem
  import opened EngineInvariant
  import opened EngineBooking
  import opened EngineBookingKeeps
  import opened EngineErasure
  import opened EngineRuns
  import opened EngineTheorems
  import opened RoomChanges
  import opened RoomsRegister
  import R = Register

  /** This request of the learner earned what the room shows: it was outside any round. */
  ghost predicate Earns(units: Catalogue, e: Event, d: RoomKey, status: Status, result: Option<Achievement>) {
    && e.RoomEvent? && e.user == d.user && e.unit == d.name && e.ask.change.Finish?
    && Find(units, d.name).Some?
    && var unit := Find(units, d.name).value;
       match result
       case Some(Solved) => status == Completed && EarnsSolved(unit, e.ask.change, false, e.out)
       case Some(Introduced) => status == Completed && EarnsIntroduced(unit, e.ask.change, e.out)
       case None => status == Skipped && EarnsSkip(unit, e.ask.change)
       case Some(Passed) => false
  }

  /** The room held this achievement before, the step's request earned it, or a booking did. */
  ghost predicate HasSource(units: Catalogue, rooms: Rows, e: Event, d: RoomKey, row: Room) {
    || (d in rooms && rooms[d].status == row.status && rooms[d].result == row.result)
    || Earns(units, e, d, row.status, row.result)
    || row.result == Some(Passed)
  }

  lemma WriteHasSource(cfg: Config, db: Db, user: UserId, unit: UnitId, ask: Ask, out: Outside)
    requires RoomsInv(cfg.catalogue, db.rooms) && MutateRoom(cfg, db, user, unit, ask, out).1.RoomSaved?
    ensures var d, rooms := R.Doc(user, unit), MutateRoom(cfg, db, user, unit, ask, out).0.rooms;
            d in rooms && (IsFinished(rooms[d].status) ==>
                             HasSource(cfg.catalogue, db.rooms, RoomEvent(user, unit, ask, out), d, rooms[d]))
  {
    var d, u := R.Doc(user, unit), Find(cfg.catalogue, unit).value;
    match ask.change
    case Finish(_, _, _, _) =>
      if IsEngine(u) { EngineFinishIsExact(cfg, db, user, u, ask, out); } else { FinishHasSource(cfg, db, user, u, ask, out); }
    case Save(_) =>
      SaveIsExact(cfg, db, user, u, ask, out);
      if d in db.rooms { SaveWrites(cfg, db, user, unit, ask, out); }
    case StartReview => ReviewIsExact(cfg, db, user, u, ask, out);
  }

  lemma FinishHasSource(cfg: Config, db: Db, user: UserId, unit: Unit, ask: Ask, out: Outside)
    requires Find(cfg.catalogue, unit.id) == Some(unit) && !IsEngine(unit) && ask.change.Finish?
    requires RoomsInv(cfg.catalogue, db.rooms) && MutateRoom(cfg, db, user, unit.id, ask, out).1.RoomSaved?
    ensures var d, rooms := R.Doc(user, unit.id), MutateRoom(cfg, db, user, unit.id, ask, out).0.rooms;
            d in rooms && HasSource(cfg.catalogue, db.rooms, RoomEvent(user, unit.id, ask, out), d, rooms[d])
  {
    FinishIsExact(cfg, db, user, unit, ask, out);
    FinishWrites(cfg, db, user, unit.id, ask, out);
  }

  lemma RoomStepHasSource(cfg: Config, s: System, user: UserId, unit: UnitId, ask: Ask, out: Outside, d: RoomKey)
    requires Inv(cfg, s) && d in MutateRoom(cfg, s.db, user, unit, ask, out).0.rooms
    ensures var row := MutateRoom(cfg, s.db, user, unit, ask, out).0.rooms[d];
            IsFinished(row.status) ==> HasSource(cfg.catalogue, s.db.rooms, RoomEvent(user, unit, ask, out), d, row)
  {
    MutateShape(cfg, s.db, user, unit, ask, out);
    if MutateRoom(cfg, s.db, user, unit, ask, out).1.RoomSaved? && d == R.Doc(user, unit) {
      WriteHasSource(cfg, s.db, user, unit, ask, out);
    }
  }

  lemma OpenHasSource(cfg: Config, s: System, n: nat, r: Reading, w: XpWorld, now: Time, d: RoomKey)
    requires Inv(cfg, s) && n in s.workers && s.workers[n] == Deciding(r) && Finds(cfg, s.db, r)
    requires WorkOk(cfg, s.db.uuids, s.db.revisions, s.db.submissions, {}, Deciding(r))
    requires d in Book(s.db, r, w, now).0.rooms
    ensures HasSource(cfg.catalogue, s.db.rooms, BookEvent(n, w, now), d, Book(s.db, r, w, now).0.rooms[d])
  {
    var task, award, level := BookShape(cfg, s.db, r, w, now);
    OnlyCompletes(s.db, r, task, award, level, now);
  }

  lemma BookHasSource(cfg: Config, s: System, n: nat, w: XpWorld, now: Time, d: RoomKey)
    requires Inv(cfg, s) && d in StepBook(s, n, w, now).db.rooms
    ensures HasSource(cfg.catalogue, s.db.rooms, BookEvent(n, w, now), d, StepBook(s, n, w, now).db.rooms[d])
  {
    if n in s.workers && s.workers[n].Deciding? {
      var r := s.workers[n].reading;
      assert WorkOk(cfg, s.db.uuids, s.db.revisions, s.db.submissions, s.wiped, s.workers[n]);
      if r.key.user !in s.db.erased && r.id in s.db.submissions && s.db.submissions[r.id].state == Accepted {
        AcceptedFinds(cfg, s.db, r, s.wiped);
        OpenHasSource(cfg, s, n, r, w, now, d);
      } else {
        LateChangesNothing(cfg, s, r, w, now);
      }
    }
  }

  lemma StepHasSource(cfg: Config, s: System, e: Event, d: RoomKey)
    requires Inv(cfg, s) && d in Step(cfg, s, e).db.rooms && IsFinished(Step(cfg, s, e).db.rooms[d].status)
    ensures HasSource(cfg.catalogue, s.db.rooms, e, d, Step(cfg, s, e).db.rooms[d])
  {
    match e
    case RoomEvent(user, unit, ask, out) => RoomStepHasSource(cfg, s, user, unit, ask, out, d);
    case BookEvent(n, w, now) => BookHasSource(cfg, s, n, w, now, d);
    case TombstoneEvent(user) =>
    case EraseEvent(user) =>
    case _ => OthersKeepRegister(cfg, s, e);
  }

  lemma {:induction false} RunLast(cfg: Config, s: System, events: seq<Event>)
    requires events != []
    ensures var n := |events| - 1; Run(cfg, s, events) == Step(cfg, Run(cfg, s, events[..n]), events[n])
    decreases events
  {
    if |events| > 1 {
      RunLast(cfg, Step(cfg, s, events[0]), events[1..]);
      assert events[1..][..|events| - 2] == events[..|events| - 1][1..];
    }
  }

  /**
   Every finished room that no booking passed had a request of its learner that earned exactly its achievement: solved
   where the challenge service said so, introduced for the right answer or grading, skipped where that is allowed.
   */
  lemma {:induction false} AchievementsAreEarned(cfg: Config, events: seq<Event>, d: RoomKey)
    requires d in After(cfg, events).db.rooms && IsFinished(After(cfg, events).db.rooms[d].status)
    requires After(cfg, events).db.rooms[d].result != Some(Passed)
    ensures var row := After(cfg, events).db.rooms[d];
            exists i :: 0 <= i < |events| && Earns(cfg.catalogue, events[i], d, row.status, row.result)
    decreases |events|
  {
    var row, n := After(cfg, events).db.rooms[d], |events| - 1;
    if events != [] {
      RunLast(cfg, EMPTY, events);
      ReachableInv(cfg, events[..n]);
      StepHasSource(cfg, After(cfg, events[..n]), events[n], d);
      if !Earns(cfg.catalogue, events[n], d, row.status, row.result) {
        AchievementsAreEarned(cfg, events[..n], d);
        var i :| 0 <= i < n && Earns(cfg.catalogue, events[..n][i], d, row.status, row.result);
        assert events[i] == events[..n][i];
      }
    }
  }
}
