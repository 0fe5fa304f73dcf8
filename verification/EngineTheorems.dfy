/**
 What the lesson engine promises, over every run from the empty tables: any number of requests and evaluations,
 interleaved in any way, with evaluations that outlive their leases and erasures between any two steps.
 */
module EngineTheorems {
  import opened Options
  import opened Ids
  import opened Canonical
  import opened Rooms
  import opened EngineTables
  import opened EngineSteps
  import opened EngineSystem
  import opened EngineInvariant
  import opened EngineRevisions
  import opened EngineRequests
  import opened EngineSubmissions
  import opened EngineBooking
  import opened EngineBookingKeeps
  import opened EngineErasure
  import opened EngineRuns
  import R = Register

  /** The state after a run. */
  function After(cfg: Config, events: seq<Event>): System {
    Run(cfg, EMPTY, events)
  }

  // ----- Booked at most once, and for good -------------------------------------------------------------------

  /** The ids of the booked submissions of a task. */
  function BookedIds(subs: Submissions, k: TaskKey): set<Uuid> {
    set id | id in subs && subs[id].key == k && subs[id].state == Booked
  }

  function IdsOf(log: seq<Booking>): set<Uuid> {
    set i | 0 <= i < |log| :: log[i].id
  }

  /** The bookings of a task are its booked submissions, each exactly once, with their own verdict and rule. */
  lemma EachIsBookedOnce(cfg: Config, events: seq<Event>, k: TaskKey)
    ensures var s := After(cfg, events);
            var log := LogOf(s.bookings, k);
            && (k in s.db.states ==> IdsOf(log) == BookedIds(s.db.submissions, k))
            && (forall i, j | 0 <= i < j < |log| :: log[i].id != log[j].id)
            && (forall i | 0 <= i < |log| ::
                  && log[i].id in s.db.submissions && s.db.submissions[log[i].id].revision in s.db.revisions
                  && log[i].rule == s.db.revisions[s.db.submissions[log[i].id].revision].document.rule
                  && log[i].passed == (s.db.submissions[log[i].id].verdict == Some(Pass)))
  {
    var s := After(cfg, events);
    var log := LogOf(s.bookings, k);
    ReachableInv(cfg, events);
    if k in s.db.states {
      assert TaskHistoryOk(s.db.revisions, s.db.submissions, s.db.states[k], log, s.born[k], k);
      forall i | 0 <= i < |log| ensures BookingOk(s.db.revisions, s.db.submissions, k, log[i]) {}
      forall id | id in BookedIds(s.db.submissions, k) ensures id in IdsOf(log) {
        assert IsLogged(log, id);
      }
    }
  }

  /** A booked submission never changes again, unless its account's data is deleted. */
  lemma BookedIsFinal(cfg: Config, earlier: seq<Event>, later: seq<Event>, id: Uuid)
    requires id in After(cfg, earlier).db.submissions && After(cfg, earlier).db.submissions[id].state == Booked
    ensures var row, now := After(cfg, earlier).db.submissions[id], Run(cfg, After(cfg, earlier), later);
            row.key.user in now.wiped || (id in now.db.submissions && now.db.submissions[id] == row)
  {
    var s, now := After(cfg, earlier), Run(cfg, After(cfg, earlier), later);
    ReachableInv(cfg, earlier);
    RunRemembers(cfg, s, later);
    assert KeepsSubmission(s.db.submissions, now.db.submissions, now.wiped, id);
  }

  /** Two evaluations of one submission, however late, hold the same verdict: the sandbox ran the same frozen job. */
  lemma EvaluationsAgree(cfg: Config, events: seq<Event>, a: nat, b: nat)
    requires var s := After(cfg, events);
             && a in s.workers && b in s.workers && s.workers[a].Deciding? && s.workers[b].Deciding?
             && s.workers[a].reading.id == s.workers[b].reading.id
             && s.workers[a].reading.id in s.db.submissions
    ensures var s := After(cfg, events);
            var row := s.db.submissions[s.workers[a].reading.id];
            && s.workers[a].reading.result == s.workers[b].reading.result
            && s.workers[a].reading.key == s.workers[b].reading.key == row.key
            && (row.state == Booked ==> row.verdict == Some(s.workers[a].reading.result.verdict))
  {
    var s := After(cfg, events);
    ReachableInv(cfg, events);
    assert WorkOk(cfg, s.db.uuids, s.db.revisions, s.db.submissions, s.wiped, s.workers[a]);
    assert WorkOk(cfg, s.db.uuids, s.db.revisions, s.db.submissions, s.wiped, s.workers[b]);
    if s.db.submissions[s.workers[a].reading.id].state == Booked { LateIsPaid(cfg, s, s.workers[a].reading); }
  }

  lemma ClaimSetsLease(s: System, worker: nat, user: UserId, id: Uuid, now: Time)
    requires id in s.db.submissions && Claim(s.db, id, now).1 && worker !in s.workers
    requires s.db.submissions[id].key.user == user
    ensures var subs := StepClaim(s, worker, user, id, now).db.submissions;
            id in subs && subs[id].evaluatingUntil == Some(now + LEASE_SECONDS) && subs[id].key.user == user
  {}

  lemma LeaseIsRespected(db: Db, id: Uuid, until: Time, now: Time)
    requires id in db.submissions && (db.submissions[id].state == Accepted ==>
               db.submissions[id].evaluatingUntil.Some? && db.submissions[id].evaluatingUntil.value >= until)
    ensures Claim(db, id, now).1 ==> now >= until
  {}

  /** While an evaluation holds the lease of a submission, no other takes it, whatever happens in between. */
  lemma LeasesDoNotOverlap(cfg: Config, earlier: seq<Event>, worker: nat, user: UserId, id: Uuid, now: Time,
                           later: seq<Event>, again: Time)
    requires Claim(After(cfg, earlier).db, id, now).1 && worker !in After(cfg, earlier).workers
    requires id in After(cfg, earlier).db.submissions && After(cfg, earlier).db.submissions[id].key.user == user
    requires user !in Run(cfg, Step(cfg, After(cfg, earlier), ClaimEvent(worker, user, id, now)), later).wiped
    ensures Claim(Run(cfg, Step(cfg, After(cfg, earlier), ClaimEvent(worker, user, id, now)), later).db, id, again).1 ==>
              again >= now + LEASE_SECONDS
  {
    var s := After(cfg, earlier);
    var leased := Step(cfg, s, ClaimEvent(worker, user, id, now));
    var last := Run(cfg, leased, later);
    ReachableInv(cfg, earlier);
    StepKeepsInv(cfg, s, ClaimEvent(worker, user, id, now));
    ClaimSetsLease(s, worker, user, id, now);
    RunRemembers(cfg, leased, later);
    assert KeepsSubmission(leased.db.submissions, last.db.submissions, last.wiped, id);
    LeaseIsRespected(last.db, id, now + LEASE_SECONDS, again);
  }

  // ----- The band of a task -----------------------------------------------------------------------------------

  /**
   The band and the counters of a task are the fold of `counted` over its bookings in booking order, each by the rule
   of its own revision, from the band it was created with; and one of the counters is always 0.
   */
  lemma LevelIsTheFold(cfg: Config, events: seq<Event>, k: TaskKey)
    requires k in After(cfg, events).db.states
    ensures var s := After(cfg, events);
            var st := s.db.states[k];
            && k in s.born && Fold(s.born[k], LogOf(s.bookings, k)) == Some(Level(st.band, st.fails, st.passes))
            && st.fails >= 0 && st.passes >= 0 && (st.fails == 0 || st.passes == 0)
            && st.revision in s.db.revisions && st.band in s.db.revisions[st.revision].document.rule.bands
  {
    var s := After(cfg, events);
    ReachableInv(cfg, events);
    assert StateOk(s.db.revisions, s.db.uuids, s.db.states[k], k);
    assert TaskHistoryOk(s.db.revisions, s.db.submissions, s.db.states[k], LogOf(s.bookings, k), s.born[k], k);
  }

  // ----- XP -------------------------------------------------------------------------------------------------------

  /**
   The counter of a learner and sub-skill and what was deleted with the sub-skill are the sum of the committed receipts,
   and every receipt has its result.
   */
  lemma XpIsConserved(cfg: Config, events: seq<Event>, key: XpKey, op: OperationId)
    ensures var s := After(cfg, events);
            && Counter(s.db.xp, key) + Counter(s.lost, key) == Total(s.db.operations, key)
            && (op in s.db.operations ==> s.db.operations[op].result == Some(Applied))
  {
    var s := After(cfg, events);
    ReachableInv(cfg, events);
    assert Counter(s.db.xp, key) + Counter(s.lost, key) == Total(s.db.operations, key);
    if op in s.db.operations { assert OperationOk(s.db.states, op, s.db.operations[op]); }
  }

  predicate DeletesSkill(events: seq<Event>, skill: SkillId) {
    exists i :: 0 <= i < |events| && events[i] == SkillDeletedEvent(skill)
  }

  /** While its sub-skill is not deleted, a counter is the sum of its receipts. */
  lemma XpIsCounted(cfg: Config, events: seq<Event>, key: XpKey)
    requires !DeletesSkill(events, key.skill)
    ensures var db := After(cfg, events).db; Counter(db.xp, key) == Total(db.operations, key)
  {
    LostWithSkill(cfg, EMPTY, events, key);
    XpIsConserved(cfg, events, key, OtherOperation(""));
  }

  lemma {:induction false} LostWithSkill(cfg: Config, s: System, events: seq<Event>, key: XpKey)
    requires !DeletesSkill(events, key.skill) && Counter(s.lost, key) == 0
    ensures Counter(Run(cfg, s, events).lost, key) == 0
    decreases events
  {
    if events != [] {
      assert forall i | 0 <= i < |events[1..]| :: events[1..][i] == events[i + 1];
      LostByStep(cfg, s, events[0], key);
      LostWithSkill(cfg, Step(cfg, s, events[0]), events[1..], key);
    }
  }

  lemma LostByStep(cfg: Config, s: System, e: Event, key: XpKey)
    requires e != SkillDeletedEvent(key.skill) && Counter(s.lost, key) == 0
    ensures Counter(Step(cfg, s, e).lost, key) == 0
  {}

  /**
   A task has earned its XP exactly when a booking passed: then its receipt exists, `xp_applied` and `passed_at` are
   set, and exactly one booking answer carried the XP. It is the XP that every revision of the unit states.
   */
  lemma PassedIsPaidOnce(cfg: Config, events: seq<Event>, k: TaskKey)
    requires k in After(cfg, events).db.states
    ensures var s := After(cfg, events);
            var st, paid := s.db.states[k], SomePass(LogOf(s.bookings, k));
            && (st.passedAt.Some? <==> paid) && (st.xpApplied <==> paid)
            && (TaskOperation(k) in s.db.operations <==> paid)
            && s.paid[TaskOperation(k)] == (if paid then 1 else 0)
            && (paid ==>
                  && st.revision in s.db.revisions && k.goal in BondsOf(s.db.revisions[st.revision].terms)
                  && var bond := BondsOf(s.db.revisions[st.revision].terms)[k.goal];
                     s.db.operations[TaskOperation(k)].request == XpRequest(k.user, bond.skill, bond.xp, TaskOperation(k)))
  {
    var s := After(cfg, events);
    ReachableInv(cfg, events);
    assert StateOk(s.db.revisions, s.db.uuids, s.db.states[k], k);
    assert TaskHistoryOk(s.db.revisions, s.db.submissions, s.db.states[k], LogOf(s.bookings, k), s.born[k], k);
    assert PaidOk(s.db.operations, s.paid, s.wiped, TaskOperation(k));
    if TaskOperation(k) in s.db.operations {
      assert OperationOk(s.db.states, TaskOperation(k), s.db.operations[TaskOperation(k)]);
    }
    assert k.user in s.wiped ==> IsWiped(s.db, k.user);
  }

  /** The answers of any later run carry the XP of a task that once was paid never again. */
  lemma XpIsAnsweredOnce(cfg: Config, earlier: seq<Event>, later: seq<Event>, op: OperationId)
    requires op in After(cfg, earlier).paid
    ensures Run(cfg, After(cfg, earlier), later).paid[op] == After(cfg, earlier).paid[op] == 1
  {
    var s, now := After(cfg, earlier), Run(cfg, After(cfg, earlier), later);
    ReachableInv(cfg, earlier);
    RunKeepsInv(cfg, s, later);
    RunRemembers(cfg, s, later);
    assert PaidOk(s.db.operations, s.paid, s.wiped, op);
    assert PaidOk(now.db.operations, now.paid, now.wiped, op);
  }

  /** The first pass of a task, its award and its instant stay, whatever is booked later. */
  lemma FirstPassStays(cfg: Config, earlier: seq<Event>, later: seq<Event>, k: TaskKey)
    requires k in After(cfg, earlier).db.states && After(cfg, earlier).db.states[k].passedAt.Some?
    ensures var st, now := After(cfg, earlier).db.states[k], Run(cfg, After(cfg, earlier), later);
            if k in now.db.states then now.db.states[k].passedAt == st.passedAt && now.db.states[k].award == st.award
            else k.user in now.wiped
  {
    var s, now := After(cfg, earlier), Run(cfg, After(cfg, earlier), later);
    ReachableInv(cfg, earlier);
    RunKeepsInv(cfg, s, later);
    RunRemembers(cfg, s, later);
    assert KeepsState(s.db.states, now.db.states, now.wiped, k);
    if k.user in now.wiped { assert IsWiped(now.db, k.user); }
  }

  // ----- Rooms of the engine ------------------------------------------------------------------------------------------

  /** The required tasks of a revision, each with a booked pass. */
  ghost predicate HasAllPasses(s: System, rev: EngineRevision, user: UserId) {
    forall g | g in RequiredGoals(rev.terms) :: SomePass(LogOf(s.bookings, TaskKey(user, rev.unit, g)))
  }

  lemma PassedOnMeansBooked(s: System, rev: EngineRevision, user: UserId)
    requires HistoryInv(s.db.revisions, s.db.states, s.db.submissions, s.bookings, s.born)
    ensures PassedOn(rev, s.db.states, user) <==> HasAllPasses(s, rev, user)
  {
    forall g | g in RequiredGoals(rev.terms)
      ensures var k := TaskKey(user, rev.unit, g);
              k in s.db.states && s.db.states[k].passedAt.Some? <==> SomePass(LogOf(s.bookings, k))
    {
      var k := TaskKey(user, rev.unit, g);
      if k in s.db.states {
        assert TaskHistoryOk(s.db.revisions, s.db.submissions, s.db.states[k], LogOf(s.bookings, k), s.born[k], k);
      }
    }
  }

  /**
   The room of an engine unit is completed if and only if every required task has a booked pass, whichever of the
   unit's revisions one asks, the active one among them. Clients neither complete nor skip nor reopen it.
   */
  lemma CompletedMeansAllPassed(cfg: Config, events: seq<Event>, user: UserId, rev: Uuid)
    requires rev in After(cfg, events).db.revisions
    ensures var s := After(cfg, events);
            var r := s.db.revisions[rev];
            RoomCompleted(s.db, user, r.unit) <==> HasAllPasses(s, r, user)
  {
    var s := After(cfg, events);
    var r, d := s.db.revisions[rev], R.Doc(user, s.db.revisions[rev].unit);
    ReachableInv(cfg, events);
    assert RevisionOk(cfg.catalogue, s.db.uuids, r, rev);
    AllPassedOnAny(cfg.catalogue, s.db.uuids, s.db.revisions, s.db.states, user, rev);
    PassedOnMeansBooked(s, r, user);
    if d in s.db.rooms {
      assert CompletionOk(cfg.catalogue, s.db.revisions, s.db.states, d, s.db.rooms[d]);
    } else if PassedOn(r, s.db.states, user) {
      AllPassedHasRoom(cfg, s, user, r.unit);
    }
  }

  /** A first achievement, of the engine or not, stays through saves, practice rounds and bookings. */
  lemma AchievementStays(cfg: Config, earlier: seq<Event>, later: seq<Event>, d: RoomKey)
    requires d in After(cfg, earlier).db.rooms && IsFinished(After(cfg, earlier).db.rooms[d].status)
    ensures var row, now := After(cfg, earlier).db.rooms[d], Run(cfg, After(cfg, earlier), later);
            if d in now.db.rooms then now.db.rooms[d].status == row.status && now.db.rooms[d].result == row.result
            else d.user in now.wiped
  {
    var s, now := After(cfg, earlier), Run(cfg, After(cfg, earlier), later);
    ReachableInv(cfg, earlier);
    RunKeepsInv(cfg, s, later);
    RunRemembers(cfg, s, later);
    assert KeepsRoom(s.db.rooms, now.db.rooms, now.wiped, d);
    if d.user in now.wiped { assert IsWiped(now.db, d.user); }
  }

  /** What a learner's finished rooms introduce only grows, so a unit that was once unlocked is never locked again. */
  lemma UnlockedStaysUnlocked(cfg: Config, earlier: seq<Event>, later: seq<Event>, user: UserId, unit: Unit)
    requires user !in Run(cfg, After(cfg, earlier), later).wiped
    ensures var before := RoomsOf(After(cfg, earlier).db, user);
            var after := RoomsOf(Run(cfg, After(cfg, earlier), later).db, user);
            && IntroducedConcepts(cfg.catalogue, before) <= IntroducedConcepts(cfg.catalogue, after)
            && (IsUnlocked(cfg.catalogue, unit, before) ==> IsUnlocked(cfg.catalogue, unit, after))
  {
    var s, now := After(cfg, earlier), Run(cfg, After(cfg, earlier), later);
    ReachableInv(cfg, earlier);
    RunRemembers(cfg, s, later);
    var before, after := RoomsOf(s.db, user), RoomsOf(now.db, user);
    forall u | u in before
      ensures KeepsAchievement(Some(before[u]), if u in after then Some(after[u]) else None)
    {
      assert R.Doc(user, u) in s.db.rooms;
      assert KeepsRoom(s.db.rooms, now.db.rooms, now.wiped, R.Doc(user, u));
    }
    IntroducedGrows(cfg.catalogue, before, after, unit);
  }

  // ----- Starts and submissions --------------------------------------------------------------------------------------

  /** An accepted submission holds exactly the start, the band and the revision of its task state. */
  lemma AcceptedIsHeld(cfg: Config, events: seq<Event>, id: Uuid)
    requires id in After(cfg, events).db.submissions && After(cfg, events).db.submissions[id].state == Accepted
    ensures var db := After(cfg, events).db;
            var row := db.submissions[id];
            && row.key in db.states && db.states[row.key].start == Some(OpenStart(row.job.start, row.job.band))
            && row.startId == row.job.start.id && db.states[row.key].revision == row.revision == row.job.revision
            && row.revision in db.revisions && row.job.document == db.revisions[row.revision].document
  {
    var s := After(cfg, events);
    ReachableInv(cfg, events);
    assert SubmissionOk(cfg, s.db.uuids, s.db.revisions, s.db.states, s.db.submissions[id], id);
  }

  /** Without the unique constraints: one open submission per task, and one submission per start. */
  lemma OneOpenSubmission(cfg: Config, events: seq<Event>, a: Uuid, b: Uuid)
    requires var subs := After(cfg, events).db.submissions;
             && a in subs && b in subs && subs[a].key == subs[b].key
             && (subs[a].startId == subs[b].startId || (subs[a].state == Accepted && subs[b].state == Accepted))
    ensures a == b
  {
    var s := After(cfg, events);
    ReachableInv(cfg, events);
    if s.db.submissions[a].state == Accepted && s.db.submissions[b].state == Accepted {
      AcceptedIsHeld(cfg, events, a);
      AcceptedIsHeld(cfg, events, b);
    }
    assert OneStart(s.db.submissions, a, b);
  }

  /** The refusals for a missing row, a missing practice case or a lost race never happen. */
  lemma NothingIsMissing(cfg: Config, events: seq<Event>, user: UserId, unit: UnitId, goal: GoalId, start: StartAsk,
                         submit: SubmitAsk, w: World)
    ensures var db := After(cfg, events).db; NeverBreaks(cfg, db, user, unit, goal, start, submit, w)
  {
    ReachableInv(cfg, events);
    NothingIsMissingNow(cfg, After(cfg, events).db, user, unit, goal, start, submit, w);
  }

  predicate NeverBreaks(cfg: Config, db: Db, user: UserId, unit: UnitId, goal: GoalId, start: StartAsk, submit: SubmitAsk,
                        w: World)
  {
    var reply := Submit(cfg, db, user, unit, goal, submit, w).1;
    && Start(cfg, db, user, unit, goal, start, w).1 != StartRefused(Broken)
    && (reply.SubmitRefused? && UnitRefusal(cfg, db, user, unit, submit.course, w.open).None? ==>
          reply.why !in {Unavailable, NotFound, CameFirst})
  }

  lemma NothingIsMissingNow(cfg: Config, db: Db, user: UserId, unit: UnitId, goal: GoalId, start: StartAsk,
                            submit: SubmitAsk, w: World)
    requires RevisionsInv(cfg.catalogue, db.uuids, db.revisions) && StatesInv(db.uuids, db.revisions, db.states)
    requires SubmissionsInv(cfg, db.uuids, db.revisions, db.states, db.submissions)
    ensures NeverBreaks(cfg, db, user, unit, goal, start, submit, w)
  {
    SubmitNeverFails(cfg, db, TaskKey(user, unit, goal), submit, w);
    var active := ActiveRevision(db, unit);
    ActiveIsUnique(cfg.catalogue, db, unit);
    if active.Some? { StartNeverBreaks(cfg, db, TaskKey(user, unit, goal), active.value, start, w); }
  }

  /**
   The same plan for the same start is the same submission, in every later state where the task has an open start
   and the account's data is there. Without an open start, as right after its verdict, it is refused.
   */
  lemma ResubmissionIsTheSame(cfg: Config, earlier: seq<Event>, later: seq<Event>, id: Uuid, ask: SubmitAsk, w: World)
    requires id in After(cfg, earlier).db.submissions
    requires var row := After(cfg, earlier).db.submissions[id];
             ask.startId == row.startId && CanonicalText(ask.plan) == Some(row.inputHash)
    requires After(cfg, earlier).db.submissions[id].key.user !in Run(cfg, After(cfg, earlier), later).wiped
    ensures var key, db := After(cfg, earlier).db.submissions[id].key, Run(cfg, After(cfg, earlier), later).db;
            && key in db.states
            && SubmitTask(db, key, ask, w)
               == (db, if db.states[key].start.Some? then Existing(id) else SubmitRefused(StartRequired))
  {
    var s, now := After(cfg, earlier), Run(cfg, After(cfg, earlier), later);
    var key := s.db.submissions[id].key;
    ReachableInv(cfg, earlier);
    RunKeepsInv(cfg, s, later);
    RunRemembers(cfg, s, later);
    assert KeepsSubmission(s.db.submissions, now.db.submissions, now.wiped, id);
    assert SubmissionOk(cfg, now.db.uuids, now.db.revisions, now.db.states, now.db.submissions[id], id);
    SameIsTheOne(cfg, now.db, key, id);
  }

  /** The query for the same plan and start finds the one submission there is. */
  lemma SameIsTheOne(cfg: Config, db: Db, key: TaskKey, id: Uuid)
    requires SubmissionsInv(cfg, db.uuids, db.revisions, db.states, db.submissions)
    requires id in db.submissions && db.submissions[id].key == key
    ensures SameSubmission(db, key, db.submissions[id].startId, db.submissions[id].inputHash) == Some(id)
  {
    var row := db.submissions[id];
    assert SubmissionOk(cfg, db.uuids, db.revisions, db.states, row, id);
    var found := SameSubmission(db, key, row.startId, row.inputHash);
    assert OneStart(db.submissions, found.value, id);
  }

  /**
   A booking writes the verdict of the frozen job and uses up the start, always its own, so that the exact
   resubmission of a booked plan gets no answer before the next start.
   */
  lemma VerdictUsesUpTheStart(cfg: Config, events: seq<Event>, n: nat, w: XpWorld, now: Time, ask: SubmitAsk, w2: World)
    requires var s := After(cfg, events);
             && n in s.workers && s.workers[n].Deciding? && Book(s.db, s.workers[n].reading, w, now).1.BookedNow?
             && CanonicalText(ask.plan).Some?
    ensures var s := After(cfg, events);
            var r, db := s.workers[n].reading, Book(s.db, s.workers[n].reading, w, now).0;
            && r.id in s.db.submissions && s.db.submissions[r.id].state == Accepted
            && Some(r.result) == ResultOf(cfg, s.db.submissions[r.id])
            && r.id in db.submissions && db.submissions[r.id].state == Booked
            && db.submissions[r.id].verdict == Some(r.result.verdict) && db.submissions[r.id].bookedAt == Some(now)
            && r.key in db.states && db.states[r.key].start == None
            && SubmitTask(db, r.key, ask, w2) == (db, SubmitRefused(StartRequired))
  {
    var s := After(cfg, events);
    var r := s.workers[n].reading;
    ReachableInv(cfg, events);
    assert WorkOk(cfg, s.db.uuids, s.db.revisions, s.db.submissions, s.wiped, s.workers[n]);
    if r.key.user !in s.db.erased && r.id in s.db.submissions && s.db.submissions[r.id].state == Accepted {
      AcceptedFinds(cfg, s.db, r, s.wiped);
      var task, award, level := BookShape(cfg, s.db, r, w, now);
      AfterBookTables(s.db, r, task, award, level, now);
    } else {
      LateChangesNothing(cfg, s, r, w, now);
    }
  }

  // ----- The registry ---------------------------------------------------------------------------------------------------

  /**
   A published unit has exactly one active revision; its revisions are numbered 1, 2, ... without a gap or a repeat,
   and share the bands and the terms of every task.
   */
  lemma RegistryIsSound(cfg: Config, events: seq<Event>, a: Uuid, b: Uuid, n: nat)
    requires var revisions := After(cfg, events).db.revisions;
             a in revisions && b in revisions && revisions[a].unit == revisions[b].unit
    ensures var db := After(cfg, events).db;
            var unit := db.revisions[a].unit;
            && ActiveRevision(db, unit).Some? && db.revisions[ActiveRevision(db, unit).value].unit == unit
            && (db.revisions[a].activeFor.Some? <==> ActiveRevision(db, unit) == Some(a))
            && BondsOf(db.revisions[a].terms) == BondsOf(db.revisions[b].terms)
            && db.revisions[a].document.rule.bands == db.revisions[b].document.rule.bands
            && (db.revisions[a].number == db.revisions[b].number ==> a == b)
            && (1 <= n <= db.revisions[a].number ==> HasNumber(db.revisions, unit, n))
  {
    var db := After(cfg, events).db;
    ReachableInv(cfg, events);
    ActiveIsUnique(cfg.catalogue, db, db.revisions[a].unit);
    assert Agree(db.revisions, a, b);
    if 1 <= n <= db.revisions[a].number { assert HasNumber(db.revisions, db.revisions[a].unit, n); }
  }

  // ----- Erasure ----------------------------------------------------------------------------------------------------------

  /** Once an account's data is deleted, no later step, even one that read before, leaves a row or XP of it. */
  lemma ErasureIsFinal(cfg: Config, earlier: seq<Event>, user: UserId, later: seq<Event>)
    ensures var erased := Step(cfg, After(cfg, earlier), EraseEvent(user));
            IsWiped(Run(cfg, erased, later).db, user)
  {
    var erased := Step(cfg, After(cfg, earlier), EraseEvent(user));
    ReachableInv(cfg, earlier);
    StepKeepsInv(cfg, After(cfg, earlier), EraseEvent(user));
    RunKeepsInv(cfg, erased, later);
    RunRemembers(cfg, erased, later);
    assert IsWiped(Run(cfg, erased, later).db, user);
  }

  /** The state after a run, the deletion of the account's data, and any later run. */
  function AfterErasure(cfg: Config, earlier: seq<Event>, user: UserId, later: seq<Event>): Db {
    Run(cfg, Step(cfg, After(cfg, earlier), EraseEvent(user)), later).db
  }

  /** After the erasure every request of the account is refused, in every later state, and changes nothing. */
  lemma ErasedIsRefused(cfg: Config, earlier: seq<Event>, user: UserId, later: seq<Event>, unit: UnitId, goal: GoalId,
                        start: StartAsk, submit: SubmitAsk, w: World, ask: Ask, out: Outside)
    ensures var db := AfterErasure(cfg, earlier, user, later);
            && Start(cfg, db, user, unit, goal, start, w) == (db, StartRefused(AccountGone))
            && Submit(cfg, db, user, unit, goal, submit, w) == (db, SubmitRefused(AccountGone))
            && MutateRoom(cfg, db, user, unit, ask, out) == (db, RoomRefused(401))
  {
    ErasureIsFinal(cfg, earlier, user, later);
  }

  /**
   So is every XP delivery, without a receipt: always as erased, whatever the world answers, and as a conflict where
   the operation's receipt is another account's.
   */
  lemma ErasedEarnsNothing(cfg: Config, earlier: seq<Event>, user: UserId, later: seq<Event>, op: OperationId,
                           request: XpRequest, w: XpWorld)
    requires request.user == user
    ensures var db := AfterErasure(cfg, earlier, user, later);
            ApplyXp(db, op, request, w) == (db, if op in db.operations then XpFailed(409) else XpErased)
  {
    var db := AfterErasure(cfg, earlier, user, later);
    ErasureIsFinal(cfg, earlier, user, later);
    ReachableInv(cfg, earlier);
    StepKeepsInv(cfg, After(cfg, earlier), EraseEvent(user));
    RunKeepsInv(cfg, Step(cfg, After(cfg, earlier), EraseEvent(user)), later);
    WipedEarnsNothing(db, user, op, request, w);
  }

  lemma WipedEarnsNothing(db: Db, user: UserId, op: OperationId, request: XpRequest, w: XpWorld)
    requires IsWiped(db, user) && ReceiptsInv(db.states, db.operations) && request.user == user
    ensures ApplyXp(db, op, request, w) == (db, if op in db.operations then XpFailed(409) else XpErased)
  {
    if op in db.operations {
      assert OperationOk(db.states, op, db.operations[op]);
    } else {
      assert db.operations - {op} == db.operations;
    }
  }

  /** An evaluation that read before the erasure books nothing after it. */
  lemma ErasedIsNotBooked(cfg: Config, events: seq<Event>, n: nat, w: XpWorld, now: Time)
    requires var s := After(cfg, events);
             n in s.workers && s.workers[n].Deciding? && s.workers[n].reading.key.user in s.db.erased
    ensures var s := After(cfg, events);
            var (db, reply) := Book(s.db, s.workers[n].reading, w, now);
            db == s.db && !reply.BookedNow?
  {
    var s := After(cfg, events);
    ReachableInv(cfg, events);
    assert WorkOk(cfg, s.db.uuids, s.db.revisions, s.db.submissions, s.wiped, s.workers[n]);
    LateChangesNothing(cfg, s, s.workers[n].reading, w, now);
  }
}
