/** A booking, whatever it finds, keeps the whole invariant. */
module EngineBookingKeeps {
  import opened Options
  import opened Ids
  import opened Rooms
  import opened EngineTables
  import opened EngineSteps
  import opened EngineSystem
  import opened EngineInvariant
  import opened EngineSubmissions
  import opened EngineBooking
  import opened EngineBookingInv
  import opened EngineXp
  import R = Register

  // ----- The XP of a booking -----------------------------------------------------------------------------

  lemma BookKeepsReceipts(cfg: Config, db: Db, r: Reading, task: Task, award: Award, level: Level, now: Time)
    requires StatesInv(db.uuids, db.revisions, db.states) && ReceiptsInv(db.states, db.operations)
    requires Finds(cfg, db, r) && Counts(r, db.states[r.key], task, award, level)
    ensures ReceiptsInv(StatesAfter(db, r, award, level, now), PaidFor(db, r, award).operations)
    ensures PaysFirst(r, db.states[r.key]) ==> award.operation !in db.operations
  {
    var states, operations := StatesAfter(db, r, award, level, now), PaidFor(db, r, award).operations;
    ReceiptOfTask(cfg, db, r, award);
    assert StateOk(db.revisions, db.uuids, db.states[r.key], r.key);
    forall op | op in operations ensures OperationOk(states, op, operations[op]) {
      if op in db.operations { assert OperationOk(db.states, op, db.operations[op]); }
    }
  }

  function PaidAfter(s: System, r: Reading): multiset<OperationId>
    requires r.key in s.db.states
  {
    if PaysFirst(r, s.db.states[r.key]) then s.paid + multiset{TaskOperation(r.key)} else s.paid
  }

  lemma BookKeepsPaid(s: System, r: Reading, award: Award)
    requires PaidInv(s.db.operations, s.paid, s.wiped) && WipedInv(s.db, s.wiped)
    requires r.key in s.db.states && r.key.user !in s.db.erased && award.operation == TaskOperation(r.key)
    requires PaysFirst(r, s.db.states[r.key]) ==> award.operation !in s.db.operations
    ensures PaidInv(PaidFor(s.db, r, award).operations, PaidAfter(s, r), s.wiped)
  {
    var operations, paid := PaidFor(s.db, r, award).operations, PaidAfter(s, r);
    assert r.key.user in s.wiped ==> IsWiped(s.db, r.key.user);
    forall op ensures PaidOk(operations, paid, s.wiped, op) {
      assert PaidOk(s.db.operations, s.paid, s.wiped, op);
    }
  }

  lemma BookKeepsTotals(db: Db, lost: map<XpKey, int>, r: Reading, award: Award)
    requires TotalsInv(db.operations, db.xp, lost) && r.key in db.states
    requires PaysFirst(r, db.states[r.key]) ==> award.operation !in db.operations
    ensures TotalsInv(PaidFor(db, r, award).operations, PaidFor(db, r, award).xp, lost)
  {
    if PaysFirst(r, db.states[r.key]) {
      PaymentKeepsTotals(db.operations, db.xp, lost, award.operation, RequestOf(r, award));
    }
  }

  // ----- The whole step -------------------------------------------------------------------------------------

  function AfterBooking(s: System, n: nat, r: Reading, task: Task, award: Award, level: Level, now: Time): System
    requires r.key in s.db.states && r.id in s.db.submissions
  {
    s.(db := AfterBook(s.db, r, task, award, level, now), workers := s.workers - {n},
       bookings := s.bookings[r.key := LogOf(s.bookings, r.key) + [BookingOf(r)]], paid := PaidAfter(s, r))
  }

  lemma AfterBookTables(db: Db, r: Reading, task: Task, award: Award, level: Level, now: Time)
    requires r.key in db.states && r.id in db.submissions
    ensures var after := AfterBook(db, r, task, award, level, now);
            var paid := PaidFor(db, r, award);
            && after == Db(db.uuids, db.erased, db.revisions, StatesAfter(db, r, award, level, now),
                           SubmissionsAfter(db, r, task, now), after.rooms, db.roomRequests, paid.operations, paid.xp)
  {}

  lemma BookKeepsWiped(db: Db, db': Db, wiped: set<UserId>, user: UserId)
    requires WipedInv(db, wiped) && user !in db.erased
    requires db'.erased == db.erased && db'.states.Keys == db.states.Keys && db'.rooms.Keys == db.rooms.Keys
    requires db'.submissions.Keys == db.submissions.Keys && db'.roomRequests == db.roomRequests
    requires forall id | id in db.submissions :: db'.submissions[id].key == db.submissions[id].key
    requires forall op | op in db'.operations :: (op in db.operations && db'.operations[op] == db.operations[op]) || db'.operations[op].user == user
    requires forall k | k in db'.xp :: k in db.xp || k.user == user
    ensures WipedInv(db', wiped)
  {
    forall other | other in wiped ensures IsWiped(db', other) { assert IsWiped(db, other); }
  }

  lemma BookedKeepsPlaces(subs: Submissions, subs': Submissions, rooms: Rows, rooms': Rows)
    requires PlacesInv(subs, rooms) && rooms'.Keys == rooms.Keys && subs'.Keys == subs.Keys
    requires forall id | id in subs :: subs'[id].key == subs[id].key
    ensures PlacesInv(subs', rooms')
  {
    forall id | id in subs' ensures R.Doc(subs'[id].key.user, subs'[id].key.unit) in rooms' { assert id in subs; }
  }

  lemma BookKeepsXp(cfg: Config, s: System, r: Reading, task: Task, award: Award, level: Level, now: Time)
    requires StatesInv(s.db.uuids, s.db.revisions, s.db.states) && ReceiptsInv(s.db.states, s.db.operations)
    requires TotalsInv(s.db.operations, s.db.xp, s.lost) && PaidInv(s.db.operations, s.paid, s.wiped)
    requires WipedInv(s.db, s.wiped)
    requires Finds(cfg, s.db, r) && Counts(r, s.db.states[r.key], task, award, level)
    ensures ReceiptsInv(StatesAfter(s.db, r, award, level, now), PaidFor(s.db, r, award).operations)
    ensures TotalsInv(PaidFor(s.db, r, award).operations, PaidFor(s.db, r, award).xp, s.lost)
    ensures PaidInv(PaidFor(s.db, r, award).operations, PaidAfter(s, r), s.wiped)
  {
    BookKeepsReceipts(cfg, s.db, r, task, award, level, now);
    BookKeepsPaid(s, r, award);
    BookKeepsTotals(s.db, s.lost, r, award);
  }

  lemma BookKeepsRest(cfg: Config, s: System, r: Reading, task: Task, award: Award, level: Level, now: Time)
    requires Finds(cfg, s.db, r) && WipedInv(s.db, s.wiped) && PlacesInv(s.db.submissions, s.db.rooms)
    requires AfterBook(s.db, r, task, award, level, now).rooms.Keys == s.db.rooms.Keys
    ensures var after := AfterBook(s.db, r, task, award, level, now);
            WipedInv(after, s.wiped) && PlacesInv(after.submissions, after.rooms)
  {
    var db, after := s.db, AfterBook(s.db, r, task, award, level, now);
    AfterBookTables(db, r, task, award, level, now);
    BookKeepsWiped(db, after, s.wiped, r.key.user);
    BookedKeepsPlaces(db.submissions, after.submissions, db.rooms, after.rooms);
  }

  lemma BookedKeepsInv(cfg: Config, s: System, n: nat, r: Reading, task: Task, award: Award, level: Level, now: Time)
    requires Inv(cfg, s) && Finds(cfg, s.db, r) && Counts(r, s.db.states[r.key], task, award, level)
    ensures Inv(cfg, AfterBooking(s, n, r, task, award, level, now))
  {
    assert R.Doc(s.db.submissions[r.id].key.user, s.db.submissions[r.id].key.unit) in s.db.rooms;
    AfterBookTables(s.db, r, task, award, level, now);
    BookKeepsStates(cfg, s.db, r, task, award, level, now);
    BookKeepsSubmissions(cfg, s.db, r, task, award, level, now);
    BookKeepsHistory(cfg, s, r, task, award, level, now);
    BookKeepsRooms(cfg, s.db, r, task, award, level, now);
    BookKeepsXp(cfg, s, r, task, award, level, now);
    BookKeepsWorkers(cfg, s.db, r, task, now, s.wiped, s.workers, n);
    BookKeepsRest(cfg, s, r, task, award, level, now);
  }

  // ----- A booking that comes too late ------------------------------------------------------------------------

  /** A submission booked with a pass has earned its XP already. */
  lemma BookedPassIsPaid(cfg: Config, s: System, id: Uuid)
    requires SubmissionsInv(cfg, s.db.uuids, s.db.revisions, s.db.states, s.db.submissions)
    requires HistoryInv(s.db.revisions, s.db.states, s.db.submissions, s.bookings, s.born)
    requires StatesInv(s.db.uuids, s.db.revisions, s.db.states) && ReceiptsInv(s.db.states, s.db.operations)
    requires id in s.db.submissions && s.db.submissions[id].state == Booked
    requires s.db.submissions[id].verdict == Some(Pass)
    ensures TaskOperation(s.db.submissions[id].key) in s.db.operations
  {
    var db, k := s.db, s.db.submissions[id].key;
    assert SubmissionOk(cfg, db.uuids, db.revisions, db.states, db.submissions[id], id);
    assert StateOk(db.revisions, db.uuids, db.states[k], k);
    var log := LogOf(s.bookings, k);
    assert TaskHistoryOk(db.revisions, db.submissions, db.states[k], log, s.born[k], k);
    assert IsLogged(log, id);
    var i :| 0 <= i < |log| && log[i].id == id;
    assert BookingOk(db.revisions, db.submissions, k, log[i]);
  }

  /** Another evaluation booked it first, with the same verdict, and its XP if any. */
  lemma LateIsPaid(cfg: Config, s: System, r: Reading)
    requires SubmissionsInv(cfg, s.db.uuids, s.db.revisions, s.db.states, s.db.submissions)
    requires HistoryInv(s.db.revisions, s.db.states, s.db.submissions, s.bookings, s.born)
    requires StatesInv(s.db.uuids, s.db.revisions, s.db.states) && ReceiptsInv(s.db.states, s.db.operations)
    requires WorkOk(cfg, s.db.uuids, s.db.revisions, s.db.submissions, s.wiped, Deciding(r))
    requires r.id in s.db.submissions && s.db.submissions[r.id].state == Booked
    ensures r.key in s.db.states && s.db.submissions[r.id].verdict == Some(r.result.verdict)
    ensures r.result.verdict == Pass ==> TaskOperation(r.key) in s.db.operations
  {
    assert SubmissionOk(cfg, s.db.uuids, s.db.revisions, s.db.states, s.db.submissions[r.id], r.id);
    if r.result.verdict == Pass { BookedPassIsPaid(cfg, s, r.id); }
  }

  /** A booking that finds its account erased or its submission booked changes nothing. */
  lemma LateChangesNothing(cfg: Config, s: System, r: Reading, w: XpWorld, now: Time)
    requires Inv(cfg, s) && WorkOk(cfg, s.db.uuids, s.db.revisions, s.db.submissions, s.wiped, Deciding(r))
    requires r.key.user !in s.db.erased ==> r.id !in s.db.submissions || s.db.submissions[r.id].state == Booked
    ensures Book(s.db, r, w, now).0 == s.db && !Book(s.db, r, w, now).1.BookedNow?
  {
    if r.id !in s.db.submissions { assert IsWiped(s.db, r.key.user); }
    else if s.db.submissions[r.id].state == Booked { LateIsPaid(cfg, s, r); }
    var op := TaskOperation(r.key);
    if op in s.db.operations { assert OperationOk(s.db.states, op, s.db.operations[op]); }
    LateBook(s.db, r, w, now);
  }

  lemma LateBook(db: Db, r: Reading, w: XpWorld, now: Time)
    requires TaskOperation(r.key) in db.operations ==> db.operations[TaskOperation(r.key)].result.Some?
    requires r.key.user !in db.erased ==>
               && r.id in db.submissions && db.submissions[r.id].state == Booked
               && (r.result.verdict == Pass ==> TaskOperation(r.key) in db.operations)
    ensures Book(db, r, w, now).0 == db && !Book(db, r, w, now).1.BookedNow?
  {
    var op := TaskOperation(r.key);
    var terms := FindTerms(r.revision.terms, r.key.goal);
    if terms.Some? { ApplyXpShape(db, op, XpRequest(r.key.user, terms.value.skill, terms.value.xp, op), w); }
  }

  // ----- Any booking ----------------------------------------------------------------------------------------------

  lemma BookKeepsInv(cfg: Config, s: System, n: nat, w: XpWorld, now: Time)
    requires Inv(cfg, s)
    ensures Inv(cfg, StepBook(s, n, w, now))
  {
    if n in s.workers && s.workers[n].Deciding? {
      var r := s.workers[n].reading;
      assert WorkOk(cfg, s.db.uuids, s.db.revisions, s.db.submissions, s.wiped, s.workers[n]);
      if r.key.user !in s.db.erased && r.id in s.db.submissions && s.db.submissions[r.id].state == Accepted {
        OpenKeepsInv(cfg, s, n, r, w, now);
      } else {
        LateChangesNothing(cfg, s, r, w, now);
        DropKeepsInv(cfg, s, n);
      }
    }
  }

  lemma OpenKeepsInv(cfg: Config, s: System, n: nat, r: Reading, w: XpWorld, now: Time)
    requires Inv(cfg, s) && n in s.workers && s.workers[n] == Deciding(r)
    requires r.key.user !in s.db.erased && r.id in s.db.submissions && s.db.submissions[r.id].state == Accepted
    ensures Inv(cfg, StepBook(s, n, w, now))
  {
    assert WorkOk(cfg, s.db.uuids, s.db.revisions, s.db.submissions, s.wiped, s.workers[n]);
    AcceptedFinds(cfg, s.db, r, s.wiped);
    var task, award, level := BookShape(cfg, s.db, r, w, now);
    if Book(s.db, r, w, now).1.BookedNow? {
      BookedKeepsInv(cfg, s, n, r, task, award, level, now);
      StepBookIsAfterBooking(s, n, r, task, award, level, w, now);
    } else {
      DropKeepsInv(cfg, s, n);
    }
  }

  lemma StepBookIsAfterBooking(s: System, n: nat, r: Reading, task: Task, award: Award, level: Level, w: XpWorld,
                               now: Time)
    requires n in s.workers && s.workers[n] == Deciding(r) && r.key in s.db.states && r.id in s.db.submissions
    requires Book(s.db, r, w, now).0 == AfterBook(s.db, r, task, award, level, now)
    requires Book(s.db, r, w, now).1.BookedNow?
    requires Book(s.db, r, w, now).1.xp == if PaysFirst(r, s.db.states[r.key]) then Some(award.xp) else None
    ensures StepBook(s, n, w, now) == AfterBooking(s, n, r, task, award, level, now)
  {}
}
