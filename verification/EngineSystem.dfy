/**
 The lesson engine as a transition system: any number of requests, evaluations and operators act on the tables
 in any order. An evaluation holds what it read: first the frozen job it runs, then, between the unlocked first
 read of `book` and its transaction, that reading. Histories record what the tables do not keep.
 */
module EngineSystem {
  import opened Options
  import opened Ids
  import opened Rooms
  import opened EngineTables
  import opened EngineSteps

  /** One evaluation in flight: running in the sandbox, or about to book. */
  datatype Work =
    | Evaluating(id: Uuid, user: UserId, document: Document, job: RunnerJob)
    | Deciding(reading: Reading)

  /**
   Histories: the bookings of each task in booking order, the band each task state was created with, the operations
   whose XP some booking answer carried, the users whose data was deleted, and the XP deleted with their sub-skill.
   */
  datatype System = System(db: Db, workers: map<nat, Work>, bookings: map<TaskKey, seq<Booking>>,
                           born: map<TaskKey, Band>, paid: multiset<OperationId>, wiped: set<UserId>,
                           lost: map<XpKey, int>)

  datatype Event =
    | PublishEvent(publish: PublishAsk)
    | StartEvent(user: UserId, unit: UnitId, goal: GoalId, start: StartAsk, world: World)
    | SubmitEvent(user: UserId, unit: UnitId, goal: GoalId, submit: SubmitAsk, world: World)
    // `settle`: a fresh worker takes the lease of an own submission.
    | ClaimEvent(worker: nat, user: UserId, id: Uuid, now: Time)
    // The sandbox is done, at any time and perhaps long after the lease; `up` says that it answered.
    | ReadEvent(worker: nat, up: bool)
    | BookEvent(worker: nat, xpWorld: XpWorld, now: Time)
    // A keyed award of another service.
    | XpEvent(operation: string, request: XpRequest, xpWorld: XpWorld)
    // Deleting a sub-skill deletes its XP counters with it, and no receipt.
    | SkillDeletedEvent(skill: SkillId)
    | RoomEvent(user: UserId, unit: UnitId, ask: Ask, out: Outside)
    | TombstoneEvent(user: UserId)
    | EraseEvent(user: UserId)

  function LogOf(bookings: map<TaskKey, seq<Booking>>, k: TaskKey): seq<Booking> {
    if k in bookings then bookings[k] else []
  }

  function StepStart(cfg: Config, s: System, user: UserId, unit: UnitId, goal: GoalId, ask: StartAsk, w: World): System {
    var db := Start(cfg, s.db, user, unit, goal, ask, w).0;
    var key := TaskKey(user, unit, goal);
    if key in db.states && key !in s.db.states then s.(db := db, born := s.born[key := db.states[key].band])
    else s.(db := db)
  }

  function StepClaim(s: System, worker: nat, user: UserId, id: Uuid, now: Time): System {
    if worker in s.workers || id !in s.db.submissions || s.db.submissions[id].key.user != user then s
    else
      var (db, taken) := Claim(s.db, id, now);
      var row := s.db.submissions[id];
      if !taken || row.revision !in db.revisions then s.(db := db)
      else
        s.(db := db,
           workers := s.workers[worker := Evaluating(id, user, db.revisions[row.revision].document,
                                                     RunnerJobOf(row.job, row.key.goal, row.input))])
  }

  function StepRead(cfg: Config, s: System, worker: nat, up: bool): System {
    if worker !in s.workers || !s.workers[worker].Evaluating? then s
    else
      var work := s.workers[worker];
      var result := if up then cfg.sandbox(work.document, work.job) else None;
      var reading := if result.Some? then Read(s.db, work.id, work.user, result.value) else None;
      if reading.None? then s.(workers := s.workers - {worker})
      else s.(workers := s.workers[worker := Deciding(reading.value)])
  }

  function StepBook(s: System, worker: nat, w: XpWorld, now: Time): System {
    if worker !in s.workers || !s.workers[worker].Deciding? then s
    else
      var r := s.workers[worker].reading;
      var (db, reply) := Book(s.db, r, w, now);
      var done := s.(db := db, workers := s.workers - {worker});
      if !reply.BookedNow? then done
      else
        done.(bookings := s.bookings[r.key := LogOf(s.bookings, r.key)
                                              + [Booking(r.id, r.revision.document.rule, r.result.verdict == Pass)]],
              paid := if reply.xp.Some? then s.paid + multiset{TaskOperation(r.key)} else s.paid)
  }

  function StepErase(s: System, user: UserId): System {
    s.(db := Erase(s.db, user),
       bookings := map k | k in s.bookings && k.user != user :: s.bookings[k],
       born := map k | k in s.born && k.user != user :: s.born[k],
       wiped := s.wiped + {user},
       lost := map k | k in s.lost && k.user != user :: s.lost[k])
  }

  function StepSkillDeleted(s: System, skill: SkillId): System {
    s.(db := DeleteCounters(s.db, skill),
       lost := map k | k in s.lost.Keys + s.db.xp.Keys ::
                 Counter(s.lost, k) + if k.skill == skill then Counter(s.db.xp, k) else 0)
  }

  function Step(cfg: Config, s: System, e: Event): System {
    match e
    case PublishEvent(ask) => s.(db := Publish(cfg, s.db, ask).0)
    case StartEvent(user, unit, goal, ask, w) => StepStart(cfg, s, user, unit, goal, ask, w)
    case SubmitEvent(user, unit, goal, ask, w) => s.(db := Submit(cfg, s.db, user, unit, goal, ask, w).0)
    case ClaimEvent(worker, user, id, now) => StepClaim(s, worker, user, id, now)
    case ReadEvent(worker, up) => StepRead(cfg, s, worker, up)
    case BookEvent(worker, w, now) => StepBook(s, worker, w, now)
    case XpEvent(operation, request, w) => s.(db := ApplyXp(s.db, OtherOperation(operation), request, w).0)
    case SkillDeletedEvent(skill) => StepSkillDeleted(s, skill)
    case RoomEvent(user, unit, ask, out) => s.(db := MutateRoom(cfg, s.db, user, unit, ask, out).0)
    case TombstoneEvent(user) => s.(db := Tombstone(s.db, user))
    case EraseEvent(user) => StepErase(s, user)
  }

  function Run(cfg: Config, s: System, events: seq<Event>): System
    decreases events
  {
    if events == [] then s else Run(cfg, Step(cfg, s, events[0]), events[1..])
  }

  const EMPTY := System(Db(0, {}, map[], map[], map[], map[], map[], map[], map[]), map[], map[], map[], multiset{}, {}, map[])
}
