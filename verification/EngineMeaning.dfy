/**
 What the lesson engine's results mean: what a publication leaves, when an award is paid, what a verdict and its feedback
 say, what a booking shows, and whose rows an erasure touches.
 */
module EngineMeaning {
  import opened Options
  import opened Ids
  import opened Rooms
  import opened EngineTables
  import opened EngineSteps
  import opened EngineSystem
  import opened EngineInvariant
  import opened EngineRevisions
  import opened EngineBooking
  import opened EngineBookingInv
  import opened EngineBookingKeeps
  import R = Register

  // ----- Publishing ------------------------------------------------------------------------------------------------

  /** A valid document of an engine unit that keeps the terms and bands of all its revisions, with the package of its content. */
  ghost predicate MayPublish(cfg: Config, db: Db, ask: PublishAsk) {
    && Find(cfg.catalogue, ask.unit).Some? && IsEngine(Find(cfg.catalogue, ask.unit).value)
    && ValidDocument(ask.document) && ask.document.unit == ask.unit && ask.known && ask.registered
    && (forall id | id in db.revisions && db.revisions[id].unit == ask.unit ::
          && BondsOf(db.revisions[id].terms) == BondsOf(TermsOf(ask.document.tasks))
          && db.revisions[id].document.rule.bands == ask.document.rule.bands)
    && (forall id | id in db.revisions && IsContent(db.revisions[id], ask) :: db.revisions[id].package == ask.package)
  }

  predicate IsContent(r: EngineRevision, ask: PublishAsk) {
    r.unit == ask.unit && r.document == ask.document && r.package.packageHash == ask.package.packageHash
  }

  /** In every reachable state exactly such a publication is taken. */
  lemma PublishIsExact(cfg: Config, s: System, ask: PublishAsk)
    requires Inv(cfg, s)
    ensures Publish(cfg, s.db, ask).1.Published? <==> MayPublish(cfg, s.db, ask)
    ensures Publish(cfg, s.db, ask).1.PublishRefused? ==> Publish(cfg, s.db, ask).0 == s.db
  {
    var db := s.db;
    ActiveIsUnique(cfg.catalogue, db, ask.unit);
    forall id | id in db.revisions ensures id < db.uuids && (db.revisions[id].unit == ask.unit ==> SharesActive(db, ask.unit, id)) {
      assert RevisionOk(cfg.catalogue, db.uuids, db.revisions[id], id);
      if db.revisions[id].unit == ask.unit { assert Agree(db.revisions, id, ActiveRevision(db, ask.unit).value); }
    }
    SameIsContent(cfg, db, ask);
  }

  ghost predicate SharesActive(db: Db, unit: UnitId, id: Uuid)
    requires id in db.revisions
  {
    var active := ActiveRevision(db, unit);
    && active.Some?
    && BondsOf(db.revisions[id].terms) == BondsOf(db.revisions[active.value].terms)
    && db.revisions[id].document.rule.bands == db.revisions[active.value].document.rule.bands
  }

  lemma SameIsContent(cfg: Config, db: Db, ask: PublishAsk)
    requires RevisionsInv(cfg.catalogue, db.uuids, db.revisions)
    ensures var same := SameContent(db, ask);
            && (same.Some? ==> IsContent(db.revisions[same.value], ask))
            && (forall id | id in db.revisions && IsContent(db.revisions[id], ask) :: same == Some(id))
  {
    var same := SameContent(db, ask);
    forall id | id in db.revisions && IsContent(db.revisions[id], ask) ensures same == Some(id) {
      assert RevisionOk(cfg.catalogue, db.uuids, db.revisions[id], id);
      assert Agree(db.revisions, id, same.value);
    }
  }

  /** A publication makes its document and package the active revision of the unit. */
  lemma PublishedIsActive(cfg: Config, s: System, ask: PublishAsk)
    requires Inv(cfg, s) && Publish(cfg, s.db, ask).1.Published?
    ensures var (db', reply) := Publish(cfg, s.db, ask);
            && reply.id in db'.revisions && (reply.created <==> reply.id !in s.db.revisions)
            && IsPublished(db'.revisions[reply.id], ask) && db'.revisions[reply.id].number == reply.number
  {
    SameIsContent(cfg, s.db, ask);
    if SameContent(s.db, ask).Some? {
      var id := SameContent(s.db, ask).value;
      assert RevisionOk(cfg.catalogue, s.db.uuids, s.db.revisions[id], id);
      SameIsPublished(cfg, s.db, ask);
    } else {
      NewIsSwitched(cfg.catalogue, s.db, ask);
      NewIsPublished(s.db, ask);
    }
  }

  lemma SameIsPublished(cfg: Config, db: Db, ask: PublishAsk)
    requires SameContent(db, ask).Some? && PublishRefusal(cfg, db, ask).None?
    requires db.revisions[SameContent(db, ask).value].terms == TermsOf(ask.document.tasks)
    requires IsContent(db.revisions[SameContent(db, ask).value], ask)
    ensures var id, (db', reply) := SameContent(db, ask).value, Activate(db, ask);
            && reply == Published(id, db.revisions[id].number, false) && id in db'.revisions
            && IsPublished(db'.revisions[id], ask) && db'.revisions[id].number == db.revisions[id].number
  {}

  lemma NewIsPublished(db: Db, ask: PublishAsk)
    requires SameContent(db, ask).None?
    ensures var (db', reply) := Activate(db, ask);
            && reply.Published? && reply.id == db.uuids && reply.created && db.uuids in db'.revisions
            && IsPublished(db'.revisions[db.uuids], ask) && db'.revisions[db.uuids].number == reply.number
  {
    ActivateNew(db, ask);
  }

  predicate IsPublished(row: EngineRevision, ask: PublishAsk) {
    && row.unit == ask.unit && row.activeFor == Some(ask.unit)
    && row.document == ask.document && row.package == ask.package && row.terms == TermsOf(ask.document.tasks)
  }

  /** It changes no other revision, but that those of the unit are no longer active. */
  lemma PublishingSwitches(cfg: Config, s: System, ask: PublishAsk)
    requires Inv(cfg, s) && Publish(cfg, s.db, ask).1.Published?
    ensures var (db', reply) := Publish(cfg, s.db, ask);
            && db' == s.db.(uuids := db'.uuids, revisions := db'.revisions)
            && db'.revisions.Keys == s.db.revisions.Keys + {reply.id}
            && forall o | o in s.db.revisions && o != reply.id ::
                 db'.revisions[o] == (if s.db.revisions[o].unit == ask.unit then s.db.revisions[o].(activeFor := None)
                                      else s.db.revisions[o])
  {
    ActivateFrame(s.db, ask);
    if SameContent(s.db, ask).Some? { SameIsSwitched(cfg.catalogue, s.db, ask); } else { NewIsSwitched(cfg.catalogue, s.db, ask); }
    OthersAreSwitched(s.db.revisions, Publish(cfg, s.db, ask).0.revisions, ask.unit, Publish(cfg, s.db, ask).1.id);
  }

  lemma OthersAreSwitched(before: Revisions, after: Revisions, unit: UnitId, id: Uuid)
    requires Switched(before, after, unit, id)
    ensures forall o | o in before && o != id ::
              after[o] == if before[o].unit == unit then before[o].(activeFor := None) else before[o]
  {
    forall o | o in before && o != id
      ensures after[o] == if before[o].unit == unit then before[o].(activeFor := None) else before[o]
    {
      assert Alike(before, after, o) && after[o].activeFor == if before[o].unit == unit then None else before[o].activeFor;
    }
  }

  // ----- Awards ------------------------------------------------------------------------------------------------------

  /** An award without a receipt is paid exactly to a live account that the world knows, in a known sub-skill, and once. */
  lemma AwardIsExact(db: Db, op: OperationId, request: XpRequest, w: XpWorld)
    requires op in db.operations ==> db.operations[op].result.Some?
    ensures var (db', reply) := ApplyXp(db, op, request, w);
            var pays := op !in db.operations && request.user !in db.erased && w.live && w.skillKnown;
            && (reply.XpDone? <==> pays || (op in db.operations && db.operations[op].request == request))
            && db'.operations == (if pays then db.operations[op := XpOperation(request.user, request, Some(Applied))]
                                  else db.operations)
            && db' == db.(operations := db'.operations, xp := db'.xp)
            && forall key {:trigger Counter(db'.xp, key)} ::
                 Counter(db'.xp, key) - Counter(db.xp, key)
                 == if pays && key == XpKey(request.user, request.skill) then request.xp else 0
  {
    if op !in db.operations { assert db.operations - {op} == db.operations; }
  }

  // ----- Verdicts and feedback -------------------------------------------------------------------------------------------

  predicate IsMet(result: RunResult, criterion: string, i: nat) {
    i < |result.criteria| && result.criteria[i] == Criterion(criterion, true)
  }

  /**
   A booked verdict is that of the sandbox for the frozen job. A pass means that every criterion of the task was judged
   once and met, no other, and shows no reasons.
   */
  lemma PassMeansAllMet(cfg: Config, s: System, id: Uuid)
    requires Inv(cfg, s) && id in s.db.submissions && s.db.submissions[id].state == Booked
    ensures var row := s.db.submissions[id];
            && ResultOf(cfg, row).Some? && row.verdict == Some(ResultOf(cfg, row).value.verdict)
            && FindTask(row.job.document.tasks, row.key.goal).Some?
            && var result, task := ResultOf(cfg, row).value, FindTask(row.job.document.tasks, row.key.goal).value;
               row.verdict == Some(Pass) ==>
                 && row.feedback == Some(Feedback("", []))
                 && (forall c :: c in task.criteria <==> exists i: nat :: IsMet(result, c, i))
                 && (forall c, i: nat, j: nat | IsMet(result, c, i) && IsMet(result, c, j) :: i == j)
  {
    var row := s.db.submissions[id];
    assert SubmissionOk(cfg, s.db.uuids, s.db.revisions, s.db.states, row, id);
    var result, task := ResultOf(cfg, row).value, FindTask(row.job.document.tasks, row.key.goal).value;
    if row.verdict == Some(Pass) { FitsMeansMet(result, task); }
  }

  lemma FitsMeansMet(result: RunResult, task: Task)
    requires Fits(result, task) && result.verdict == Pass
    ensures forall c :: c in task.criteria <==> exists i: nat :: IsMet(result, c, i)
    ensures forall c, i: nat, j: nat | IsMet(result, c, i) && IsMet(result, c, j) :: i == j
  {
    var ids := CriterionIds(result.criteria);
    forall c ensures c in task.criteria <==> exists i: nat :: IsMet(result, c, i) {
      assert c in task.criteria <==> c in SetOf(task.criteria);
      assert c in ids <==> c in SetOf(ids);
      if c in ids {
        var i :| 0 <= i < |ids| && ids[i] == c;
        assert IsMet(result, c, i);
      }
      if i: nat :| IsMet(result, c, i) { assert ids[i] == c; }
    }
    forall c, i: nat, j: nat | IsMet(result, c, i) && IsMet(result, c, j) ensures i == j {
      assert ids[i] == ids[j];
    }
  }

  /** The code at this place is new there and has a text. */
  predicate Tells(codes: seq<string>, texts: map<string, string>, at: nat) {
    at < |codes| && codes[at] !in codes[..at] && codes[at] in texts && texts[codes[at]] != ""
  }

  /** The places of the codes that are told, in order. */
  ghost predicate AreTold(codes: seq<string>, texts: map<string, string>, reasons: seq<string>, places: seq<nat>) {
    && |places| == |reasons| && (forall i, j | 0 <= i < j < |places| :: places[i] < places[j])
    && (forall i | 0 <= i < |places| :: Tells(codes, texts, places[i]) && reasons[i] == texts[codes[places[i]]])
    && (forall at: nat | Tells(codes, texts, at) :: at in places)
  }

  /** The reasons shown for a fail are the texts of its codes, each code once, in the order of the sandbox, no empty text. */
  lemma {:induction false} ReasonsAreTold(codes: seq<string>, texts: map<string, string>) returns (places: seq<nat>)
    ensures AreTold(codes, texts, Reasons(codes, texts), places)
    decreases |codes|
  {
    if codes == [] {
      places := [];
    } else {
      var n, before := |codes| - 1, codes[..|codes| - 1];
      var earlier := ReasonsAreTold(before, texts);
      places := if Tells(codes, texts, n) then earlier + [n] else earlier;
      ToldOneMore(codes, texts, Reasons(before, texts), earlier);
    }
  }

  lemma ToldOneMore(codes: seq<string>, texts: map<string, string>, reasons: seq<string>, places: seq<nat>)
    requires codes != [] && AreTold(codes[..|codes| - 1], texts, reasons, places)
    ensures var n := |codes| - 1;
            if Tells(codes, texts, n) then AreTold(codes, texts, reasons + [texts[codes[n]]], places + [n])
            else AreTold(codes, texts, reasons, places)
  {
    var n, before := |codes| - 1, codes[..|codes| - 1];
    forall at: nat | at < n ensures Tells(codes, texts, at) <==> Tells(before, texts, at) {
      assert codes[..at] == before[..at];
    }
    assert forall i | 0 <= i < |places| :: Tells(before, texts, places[i]);
    if Tells(codes, texts, n) {
      var more, told := places + [n], reasons + [texts[codes[n]]];
      forall at: nat | Tells(codes, texts, at) ensures at in more {
        if at < n { assert Tells(before, texts, at) && at in places; }
      }
      assert forall i | 0 <= i < |more| :: Tells(codes, texts, more[i]) && told[i] == texts[codes[more[i]]];
    }
  }

  /** The sandbox's result is taken up for booking exactly while its submission is open and if it fits the frozen task. */
  lemma ReadIsExact(cfg: Config, s: System, n: nat)
    requires Inv(cfg, s) && n in s.workers && s.workers[n].Evaluating?
    requires cfg.sandbox(s.workers[n].document, s.workers[n].job).Some?
    ensures var work, s' := s.workers[n], StepRead(cfg, s, n, true);
            var result := cfg.sandbox(work.document, work.job).value;
            && s'.db == s.db
            && (n in s'.workers <==>
                  && work.id in s.db.submissions && s.db.submissions[work.id].state == Accepted
                  && var row := s.db.submissions[work.id];
                     var task := FindTask(row.job.document.tasks, row.key.goal);
                     task.Some? && Fits(result, task.value))
            && (n in s'.workers ==> s'.workers[n].Deciding? && s'.workers[n].reading.id == work.id
                                    && s'.workers[n].reading.result == result)
  {
    var work := s.workers[n];
    assert WorkOk(cfg, s.db.uuids, s.db.revisions, s.db.submissions, s.wiped, work);
    if work.id in s.db.submissions {
      assert SubmissionOk(cfg, s.db.uuids, s.db.revisions, s.db.states, s.db.submissions[work.id], work.id);
    }
  }

  // ----- When a booking takes place ----------------------------------------------------------------------------------------

  /** An evaluation of an open submission books it, pass or fail, unless it is a first pass whose XP cannot be paid. */
  lemma BookingIsExact(cfg: Config, s: System, n: nat, w: XpWorld, now: Time)
    requires Inv(cfg, s) && n in s.workers && s.workers[n].Deciding?
    requires var r := s.workers[n].reading;
             r.key.user !in s.db.erased && r.id in s.db.submissions && s.db.submissions[r.id].state == Accepted
    ensures var r := s.workers[n].reading;
            && r.key in s.db.states
            && (Book(s.db, r, w, now).1.BookedNow? <==>
                  (r.result.verdict == Pass && s.db.states[r.key].passedAt.None? ==> w.live && w.skillKnown))
  {
    var r := s.workers[n].reading;
    assert WorkOk(cfg, s.db.uuids, s.db.revisions, s.db.submissions, s.wiped, s.workers[n]);
    AcceptedFinds(cfg, s.db, r, s.wiped);
    ReadingHasTask(cfg, s.db, r, s.wiped);
    FoundIsCounted(cfg, s.db, r);
    assert StateOk(s.db.revisions, s.db.uuids, s.db.states[r.key], r.key);
    if r.result.verdict == Pass {
      var award := AwardOf(r, FindTerms(r.revision.terms, r.key.goal).value);
      ReceiptOfTask(cfg, s.db, r, award);
      AwardIsExact(s.db, award.operation, RequestOf(r, award), w);
    }
  }

  // ----- What a booking shows ----------------------------------------------------------------------------------------------

  /**
   The answer of a booking shows its final verdict, which counts for a pass, with the feedback of the sandbox's result, and
   the unit as completed exactly if the pass leaves the room completed.
   */
  lemma BookingShows(cfg: Config, s: System, n: nat, w: XpWorld, now: Time)
    requires Inv(cfg, s) && n in s.workers && s.workers[n].Deciding?
    requires Book(s.db, s.workers[n].reading, w, now).1.BookedNow?
    ensures var r, (db', reply) := s.workers[n].reading, Book(s.db, s.workers[n].reading, w, now);
            var task := FindTask(r.revision.document.tasks, r.key.goal);
            && task.Some?
            && reply.view == FinalView(r.id, r.key.goal, Some(r.result.verdict), Some(r.result.verdict == Pass),
                                       Some(FeedbackOf(r.result, task.value)),
                                       r.result.verdict == Pass && RoomCompleted(db', r.key.user, r.key.unit))
  {
    var r := s.workers[n].reading;
    assert WorkOk(cfg, s.db.uuids, s.db.revisions, s.db.submissions, s.wiped, s.workers[n]);
    if r.key.user !in s.db.erased && r.id in s.db.submissions && s.db.submissions[r.id].state == Accepted {
      OpenBookingShows(cfg, s, n, r, w, now);
    } else {
      LateChangesNothing(cfg, s, r, w, now);
    }
  }

  lemma OpenBookingShows(cfg: Config, s: System, n: nat, r: Reading, w: XpWorld, now: Time)
    requires Inv(cfg, s) && n in s.workers && s.workers[n] == Deciding(r) && Book(s.db, r, w, now).1.BookedNow?
    requires WorkOk(cfg, s.db.uuids, s.db.revisions, s.db.submissions, s.wiped, Deciding(r))
    requires r.key.user !in s.db.erased && r.id in s.db.submissions && s.db.submissions[r.id].state == Accepted
    ensures var (db', reply) := Book(s.db, r, w, now);
            var task := FindTask(r.revision.document.tasks, r.key.goal);
            && task.Some?
            && reply.view == FinalView(r.id, r.key.goal, Some(r.result.verdict), Some(r.result.verdict == Pass),
                                       Some(FeedbackOf(r.result, task.value)),
                                       r.result.verdict == Pass && RoomCompleted(db', r.key.user, r.key.unit))
  {
    var revision := s.db.submissions[r.id].revision;
    AcceptedFinds(cfg, s.db, r, s.wiped);
    BookView(s.db, r, w, now);
    BookKeepsInv(cfg, s, n, w, now);
    var after := StepBook(s, n, w, now);
    BookKeepsRegistry(cfg, s, r, w, now);
    if RoomCompleted(after.db, r.key.user, r.key.unit) {
      CompletedHasPassed(cfg, after, R.Doc(r.key.user, r.key.unit), revision);
    }
  }

  lemma BookKeepsRegistry(cfg: Config, s: System, r: Reading, w: XpWorld, now: Time)
    requires Inv(cfg, s) && Finds(cfg, s.db, r) && Book(s.db, r, w, now).1.BookedNow?
    requires WorkOk(cfg, s.db.uuids, s.db.revisions, s.db.submissions, s.wiped, Deciding(r))
    ensures Book(s.db, r, w, now).0.revisions == s.db.revisions
  {
    var task, award, level := BookShape(cfg, s.db, r, w, now);
    AfterBookTables(s.db, r, task, award, level, now);
  }

  lemma BookView(db: Db, r: Reading, w: XpWorld, now: Time)
    requires Book(db, r, w, now).1.BookedNow? && r.id in db.submissions && db.submissions[r.id].key == r.key
    ensures var (db', reply) := Book(db, r, w, now);
            var task := FindTask(r.revision.document.tasks, r.key.goal);
            && task.Some?
            && reply.view == FinalView(r.id, r.key.goal, Some(r.result.verdict), Some(r.result.verdict == Pass),
                                       Some(FeedbackOf(r.result, task.value)),
                                       && r.result.verdict == Pass && RoomCompleted(db', r.key.user, r.key.unit)
                                       && RequiredGoals(r.revision.terms) <= PassedGoals(db', r.key.user, r.key.unit))
  {}

  /** Where a room of the engine is completed, all required goals are among the passed ones. */
  lemma CompletedHasPassed(cfg: Config, s: System, d: RoomKey, id: Uuid)
    requires Inv(cfg, s) && d in s.db.rooms && s.db.rooms[d].status == Completed
    requires id in s.db.revisions && s.db.revisions[id].unit == d.name
    ensures RequiredGoals(s.db.revisions[id].terms) <= PassedGoals(s.db, d.user, d.name)
  {
    assert RevisionOk(cfg.catalogue, s.db.uuids, s.db.revisions[id], id);
    assert CompletionOk(cfg.catalogue, s.db.revisions, s.db.states, d, s.db.rooms[d]);
    AllPassedOnAny(cfg.catalogue, s.db.uuids, s.db.revisions, s.db.states, d.user, id);
    PassedGoalsMeansPassedOn(s.db, s.db.revisions[id], d.user);
  }

  // ----- Erasure -----------------------------------------------------------------------------------------------------------

  /** An erasure leaves no row of the user and touches no row of anybody else, nor the registry. */
  lemma ErasesOneUser(cfg: Config, s: System, user: UserId)
    requires Inv(cfg, s)
    ensures var db, db' := s.db, Erase(s.db, user);
            && IsWiped(db', user) && db'.erased == db.erased + {user}
            && db'.uuids == db.uuids && db'.revisions == db.revisions
    ensures var db, db' := s.db, Erase(s.db, user);
            && (forall k | k in db.states && k.user != user :: k in db'.states && db'.states[k] == db.states[k])
            && (forall id | id in db.submissions && db.submissions[id].key.user != user ::
                  id in db'.submissions && db'.submissions[id] == db.submissions[id])
            && (forall d | d in db.rooms && d.user != user :: d in db'.rooms && db'.rooms[d] == db.rooms[d])
            && (forall k | k in db.roomRequests && k.user != user ::
                  k in db'.roomRequests && db'.roomRequests[k] == db.roomRequests[k])
            && (forall op | op in db.operations && db.operations[op].request.user != user ::
                  op in db'.operations && db'.operations[op] == db.operations[op])
            && (forall key: XpKey | key.user != user :: Counter(db'.xp, key) == Counter(db.xp, key))
  {
    forall op | op in s.db.operations ensures s.db.operations[op].user == s.db.operations[op].request.user {
      assert OperationOk(s.db.states, op, s.db.operations[op]);
    }
  }
}
