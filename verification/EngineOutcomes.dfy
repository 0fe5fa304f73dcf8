/**
 What the rest of the lesson engine does for its callers: when a lease can be taken again, what a publication leaves, when
 an award is paid, what a verdict and its feedback mean, what a booking shows, and whose rows an erasure touches.
 */
module EngineOutcomes {
  import opened Options
  import opened Ids
  import opened Rooms
  import opened EngineTables
  import opened EngineSteps
  import opened EngineSystem
  import opened EngineInvariant
  import opened EngineSubmissions
  import opened EngineBooking
  import opened EngineBookingKeeps
  import opened EngineErasure
  import opened EngineRuns

  // ----- The lease -----------------------------------------------------------------------------------------------

  predicate Claims(e: Event, id: Uuid) {
    e.ClaimEvent? && e.id == id
  }

  /** An accepted submission keeps its lease through every step but a claim of its own. */
  ghost predicate SameLease(subs: Submissions, subs': Submissions, id: Uuid) {
    id in subs && subs[id].state == Accepted && id in subs' && subs'[id].state == Accepted ==>
      subs'[id].evaluatingUntil == subs[id].evaluatingUntil
  }

  lemma BookKeepsLease(cfg: Config, s: System, n: nat, w: XpWorld, now: Time, id: Uuid)
    requires Inv(cfg, s)
    ensures SameLease(s.db.submissions, StepBook(s, n, w, now).db.submissions, id)
  {
    if n in s.workers && s.workers[n].Deciding? {
      var r := s.workers[n].reading;
      assert WorkOk(cfg, s.db.uuids, s.db.revisions, s.db.submissions, s.wiped, s.workers[n]);
      if r.key.user !in s.db.erased && r.id in s.db.submissions && s.db.submissions[r.id].state == Accepted {
        AcceptedFinds(cfg, s.db, r, s.wiped);
        var task, award, level := BookShape(cfg, s.db, r, w, now);
        AfterBookTables(s.db, r, task, award, level, now);
      } else {
        LateChangesNothing(cfg, s, r, w, now);
      }
    }
  }

  lemma StartKeepsLease(cfg: Config, db: Db, user: UserId, unit: UnitId, goal: GoalId, ask: StartAsk, w: World)
    requires StatesInv(db.uuids, db.revisions, db.states)
    requires SubmissionsInv(cfg, db.uuids, db.revisions, db.states, db.submissions)
    ensures Start(cfg, db, user, unit, goal, ask, w).0.submissions == db.submissions
  {
    if Start(cfg, db, user, unit, goal, ask, w).1.Started? {
      StartKeepsPasses(cfg, db, TaskKey(user, unit, goal), ActiveRevision(db, unit).value, ask, w, {});
    } else {
      RefusedStart(cfg, db, user, unit, goal, ask, w);
    }
  }

  lemma SubmitKeepsLease(cfg: Config, db: Db, user: UserId, unit: UnitId, goal: GoalId, ask: SubmitAsk, w: World, id: Uuid)
    requires SubmissionsInv(cfg, db.uuids, db.revisions, db.states, db.submissions)
    ensures SameLease(db.submissions, Submit(cfg, db, user, unit, goal, ask, w).0.submissions, id)
  {
    FreshIsNew(cfg, db);
    OnlyCreatedChanges(cfg, db, user, unit, goal, ask, w);
  }

  lemma QuietKeepsLease(cfg: Config, s: System, e: Event, id: Uuid)
    requires e.ReadEvent? || e.PublishEvent? || e.XpEvent? || e.TombstoneEvent? || e.EraseEvent? || e.SkillDeletedEvent?
    ensures SameLease(s.db.submissions, Step(cfg, s, e).db.submissions, id)
  {
    if e.PublishEvent? { PublishKeepsSubmissions(cfg, s.db, e.publish); }
  }

  lemma StepKeepsLease(cfg: Config, s: System, e: Event, id: Uuid)
    requires Inv(cfg, s) && !Claims(e, id)
    ensures SameLease(s.db.submissions, Step(cfg, s, e).db.submissions, id)
  {
    match e
    case BookEvent(n, w, now) => BookKeepsLease(cfg, s, n, w, now, id);
    case ClaimEvent(worker, user, other, now) => StepClaimShape(s, worker, user, other, now);
    case StartEvent(user, unit, goal, ask, w) => StartKeepsLease(cfg, s.db, user, unit, goal, ask, w);
    case SubmitEvent(user, unit, goal, ask, w) => SubmitKeepsLease(cfg, s.db, user, unit, goal, ask, w, id);
    case RoomEvent(user, unit, ask, out) => MutateShape(cfg, s.db, user, unit, ask, out);
    case _ => QuietKeepsLease(cfg, s, e, id);
  }

  lemma PublishKeepsSubmissions(cfg: Config, db: Db, ask: PublishAsk)
    ensures Publish(cfg, db, ask).0.submissions == db.submissions
  {}

  lemma {:induction false} RunKeepsLease(cfg: Config, s: System, events: seq<Event>, id: Uuid)
    requires Inv(cfg, s) && forall i | 0 <= i < |events| :: !Claims(events[i], id)
    requires id in s.db.submissions && s.db.submissions[id].state == Accepted
    requires s.db.submissions[id].key.user !in Run(cfg, s, events).wiped
    ensures var now := Run(cfg, s, events);
            && id in now.db.submissions
            && (now.db.submissions[id].state == Accepted ==>
                  now.db.submissions[id].evaluatingUntil == s.db.submissions[id].evaluatingUntil)
    decreases events
  {
    if events != [] {
      var next, now := Step(cfg, s, events[0]), Run(cfg, s, events);
      StepKeepsInv(cfg, s, events[0]);
      StepKeepsLease(cfg, s, events[0], id);
      StepRemembers(cfg, s, events[0]);
      RunRemembers(cfg, next, events[1..]);
      assert KeepsSubmission(s.db.submissions, next.db.submissions, next.wiped, id);
      assert KeepsSubmission(next.db.submissions, now.db.submissions, now.wiped, id);
      assert forall i | 0 <= i < |events[1..]| :: events[1..][i] == events[i + 1];
      if next.db.submissions[id].state == Accepted { RunKeepsLease(cfg, next, events[1..], id); }
    }
  }

  /**
   A lease ends after 30 seconds: whatever else happens, the submission can be taken again from then on, and not before,
   for as long as it is accepted and no other evaluation takes it.
   */
  lemma LeaseEnds(cfg: Config, s: System, worker: nat, user: UserId, id: Uuid, now: Time, later: seq<Event>, again: Time)
    requires Inv(cfg, s) && Claim(s.db, id, now).1 && worker !in s.workers
    requires id in s.db.submissions && s.db.submissions[id].key.user == user
    requires forall i | 0 <= i < |later| :: !Claims(later[i], id)
    requires user !in Run(cfg, StepClaim(s, worker, user, id, now), later).wiped
    ensures var db := Run(cfg, StepClaim(s, worker, user, id, now), later).db;
            id in db.submissions && (Claim(db, id, again).1 <==> db.submissions[id].state == Accepted && again >= now + 30)
  {
    var e := ClaimEvent(worker, user, id, now);
    StepClaimTakes(s, worker, user, id, now);
    StepKeepsInv(cfg, s, e);
    RunKeepsLease(cfg, Step(cfg, s, e), later, id);
  }

  lemma StepClaimTakes(s: System, worker: nat, user: UserId, id: Uuid, now: Time)
    requires Claim(s.db, id, now).1 && worker !in s.workers
    requires id in s.db.submissions && s.db.submissions[id].key.user == user
    ensures var subs := StepClaim(s, worker, user, id, now).db.submissions;
            id in subs && subs[id] == s.db.submissions[id].(evaluatingUntil := Some(now + 30)) && subs[id].state == Accepted
  {}

  /** A new submission can be taken at once. */
  lemma NewCanBeTaken(cfg: Config, db: Db, user: UserId, unit: UnitId, goal: GoalId, ask: SubmitAsk, w: World, now: Time)
    requires Submit(cfg, db, user, unit, goal, ask, w).1.Created?
    ensures var (db', reply) := Submit(cfg, db, user, unit, goal, ask, w); Claim(db', reply.id, now).1
  {
    OnlyCreatedChanges(cfg, db, user, unit, goal, ask, w);
  }
}
