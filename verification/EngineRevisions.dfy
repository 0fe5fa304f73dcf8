/** Publishing: what a revision binds, and that every other invariant survives a newer revision. */
module EngineRevisions {
  import opened Options
  import opened Ids
  import opened Rooms
  import opened EngineTables
  import opened EngineSteps
  import opened EngineSystem
  import opened EngineInvariant

  function BondOf(t: Terms): Bond {
    Bond(t.required, t.xp, t.skill, t.input)
  }

  lemma {:induction false} BondsHoldTerms(terms: seq<Terms>)
    requires forall i, j | 0 <= i < j < |terms| :: terms[i].goal != terms[j].goal
    ensures forall i | 0 <= i < |terms| ::
              terms[i].goal in BondsOf(terms) && BondsOf(terms)[terms[i].goal] == BondOf(terms[i])
    ensures forall g | g in BondsOf(terms) :: exists i :: 0 <= i < |terms| && terms[i].goal == g
  {
    if terms != [] {
      var before := terms[..|terms| - 1];
      BondsHoldTerms(before);
      forall i | 0 <= i < |terms|
        ensures terms[i].goal in BondsOf(terms) && BondsOf(terms)[terms[i].goal] == BondOf(terms[i])
      {
        if i < |before| { assert before[i] == terms[i]; }
      }
      forall g | g in BondsOf(terms) ensures exists i :: 0 <= i < |terms| && terms[i].goal == g {
        if g in BondsOf(before) {
          var i :| 0 <= i < |before| && before[i].goal == g;
          assert terms[i].goal == g;
        } else {
          assert terms[|terms| - 1].goal == g;
        }
      }
    }
  }

  /** A task and its terms are found together, with the same values. */
  lemma {:induction false} FindAligned(tasks: seq<Task>, goal: GoalId)
    ensures FindTask(tasks, goal).Some? <==> FindTerms(TermsOf(tasks), goal).Some?
    ensures FindTask(tasks, goal).Some? ==>
              var t := FindTask(tasks, goal).value;
              FindTerms(TermsOf(tasks), goal) == Some(Terms(t.goal, t.required, t.xp, t.skill, t.input))
  {
    if tasks != [] {
      FindAligned(tasks[1..], goal);
      assert TermsOf(tasks)[1..] == TermsOf(tasks[1..]);
    }
  }

  lemma {:induction false} FindTermsAt(terms: seq<Terms>, i: nat)
    requires i < |terms|
    requires forall i, j | 0 <= i < j < |terms| :: terms[i].goal != terms[j].goal
    ensures FindTerms(terms, terms[i].goal) == Some(terms[i])
  {
    if i > 0 {
      FindTermsAt(terms[1..], i - 1);
    }
  }

  lemma FindIsBond(terms: seq<Terms>, goal: GoalId)
    requires forall i, j | 0 <= i < j < |terms| :: terms[i].goal != terms[j].goal
    ensures goal in BondsOf(terms) <==> FindTerms(terms, goal).Some?
    ensures goal in BondsOf(terms) ==> BondOf(FindTerms(terms, goal).value) == BondsOf(terms)[goal]
  {
    BondsHoldTerms(terms);
    if goal in BondsOf(terms) {
      var i :| 0 <= i < |terms| && terms[i].goal == goal;
      FindTermsAt(terms, i);
    }
  }

  /** A task of a revision is found in its document and its terms, with the values it is bound to. */
  lemma TaskOfRevision(units: Catalogue, uuids: Uuid, r: EngineRevision, id: Uuid, goal: GoalId)
    requires RevisionOk(units, uuids, r, id)
    ensures goal in BondsOf(r.terms) <==> FindTask(r.document.tasks, goal).Some?
    ensures goal in BondsOf(r.terms) <==> FindTerms(r.terms, goal).Some?
    ensures goal in BondsOf(r.terms) ==>
              && FindTask(r.document.tasks, goal).value.practice.Keys == SetOf(r.document.rule.bands)
              && BondOf(FindTerms(r.terms, goal).value) == BondsOf(r.terms)[goal]
  {
    FindAligned(r.document.tasks, goal);
    FindIsBond(r.terms, goal);
  }

  ghost function RequiredBonds(bonds: map<GoalId, Bond>): set<GoalId> {
    set g | g in bonds && bonds[g].required
  }

  lemma RequiredIsBound(terms: seq<Terms>)
    requires forall i, j | 0 <= i < j < |terms| :: terms[i].goal != terms[j].goal
    ensures RequiredGoals(terms) == RequiredBonds(BondsOf(terms))
  {
    BondsHoldTerms(terms);
    forall g | g in RequiredBonds(BondsOf(terms)) ensures g in RequiredGoals(terms) {
      var i :| 0 <= i < |terms| && terms[i].goal == g;
    }
  }

  /** The required tasks are part of what later revisions keep, and there are some. */
  lemma RequiredAreBound(units: Catalogue, uuids: Uuid, r: EngineRevision, id: Uuid)
    requires RevisionOk(units, uuids, r, id)
    ensures RequiredGoals(r.terms) == RequiredBonds(BondsOf(r.terms))
    ensures RequiredGoals(r.terms) != {}
  {
    RequiredIsBound(r.terms);
    var i :| 0 <= i < |r.document.tasks| && r.document.tasks[i].required;
    assert r.terms[i].goal in RequiredGoals(r.terms);
  }

  // ----- Later revisions --------------------------------------------------------------------------------

  /** The row is still there, and nothing of it but whether it is active has changed. */
  ghost predicate Alike(before: Revisions, after: Revisions, id: Uuid)
    requires id in before
  {
    id in after && after[id] == before[id].(activeFor := after[id].activeFor)
  }

  /** Later revisions keep the earlier rows; only which one is active changes. */
  ghost predicate Extends(before: Revisions, after: Revisions) {
    forall id {:trigger Alike(before, after, id)} | id in before :: Alike(before, after, id)
  }

  lemma ExtendsKeepsStates(uuids: Uuid, uuids': Uuid, before: Revisions, after: Revisions, states: States)
    requires Extends(before, after) && uuids <= uuids' && StatesInv(uuids, before, states)
    ensures StatesInv(uuids', after, states)
  {
    forall k | k in states ensures StateOk(after, uuids', states[k], k) {
      assert StateOk(before, uuids, states[k], k);
      assert Alike(before, after, states[k].revision);
    }
  }

  lemma ExtendsKeepsSubmissions(cfg: Config, uuids: Uuid, uuids': Uuid, before: Revisions, after: Revisions,
                                states: States, subs: Submissions)
    requires Extends(before, after) && uuids <= uuids' && SubmissionsInv(cfg, uuids, before, states, subs)
    ensures SubmissionsInv(cfg, uuids', after, states, subs)
  {
    forall id | id in subs ensures SubmissionOk(cfg, uuids', after, states, subs[id], id) {
      assert SubmissionOk(cfg, uuids, before, states, subs[id], id);
      assert Alike(before, after, subs[id].revision);
    }
  }

  lemma ExtendsKeepsHistory(before: Revisions, after: Revisions, states: States, subs: Submissions,
                            bookings: map<TaskKey, seq<Booking>>, born: map<TaskKey, Band>)
    requires Extends(before, after) && HistoryInv(before, states, subs, bookings, born)
    ensures HistoryInv(after, states, subs, bookings, born)
  {
    forall k | k in states ensures TaskHistoryOk(after, subs, states[k], LogOf(bookings, k), born[k], k) {
      var log := LogOf(bookings, k);
      assert TaskHistoryOk(before, subs, states[k], log, born[k], k);
      forall i | 0 <= i < |log| ensures BookingOk(after, subs, k, log[i]) {
        assert BookingOk(before, subs, k, log[i]);
        assert Alike(before, after, subs[log[i].id].revision);
      }
    }
  }

  lemma ExtendsKeepsWorkers(cfg: Config, uuids: Uuid, uuids': Uuid, before: Revisions, after: Revisions,
                            subs: Submissions, wiped: set<UserId>, workers: map<nat, Work>)
    requires Extends(before, after) && uuids <= uuids' && WorkersInv(cfg, uuids, before, subs, wiped, workers)
    ensures WorkersInv(cfg, uuids', after, subs, wiped, workers)
  {
    forall n | n in workers ensures WorkOk(cfg, uuids', after, subs, wiped, workers[n]) {
      assert WorkOk(cfg, uuids, before, subs, wiped, workers[n]);
      if workers[n].Deciding? && workers[n].reading.id in subs {
        var id := subs[workers[n].reading.id].revision;
        assert Alike(before, after, id);
      }
    }
  }

  /** The required tasks of a unit do not depend on which of its revisions one asks. */
  lemma RequiredAgree(units: Catalogue, uuids: Uuid, revisions: Revisions, a: Uuid, b: Uuid)
    requires RevisionsInv(units, uuids, revisions)
    requires a in revisions && b in revisions && revisions[a].unit == revisions[b].unit
    ensures RequiredGoals(revisions[a].terms) == RequiredGoals(revisions[b].terms)
  {
    assert Agree(revisions, a, b);
    RequiredAreBound(units, uuids, revisions[a], a);
    RequiredAreBound(units, uuids, revisions[b], b);
  }

  lemma AllPassedOnAny(units: Catalogue, uuids: Uuid, revisions: Revisions, states: States, user: UserId, id: Uuid)
    requires RevisionsInv(units, uuids, revisions) && id in revisions
    ensures AllPassed(revisions, states, user, revisions[id].unit) <==> PassedOn(revisions[id], states, user)
  {
    if AllPassed(revisions, states, user, revisions[id].unit) {
      var other :| other in revisions && revisions[other].unit == revisions[id].unit
                   && PassedOn(revisions[other], states, user);
      RequiredAgree(units, uuids, revisions, id, other);
    }
  }

  /** A unit with passed tasks had its revision before a newer one came. */
  lemma PassedHasRevision(units: Catalogue, uuids: Uuid, uuids': Uuid, before: Revisions, after: Revisions,
                          states: States, user: UserId, id: Uuid)
      returns (earlier: Uuid)
    requires StatesInv(uuids, before, states) && id in after && RevisionOk(units, uuids', after[id], id)
    requires PassedOn(after[id], states, user)
    ensures earlier in before && before[earlier].unit == after[id].unit
  {
    RequiredAreBound(units, uuids', after[id], id);
    var g :| g in RequiredGoals(after[id].terms);
    var k := TaskKey(user, after[id].unit, g);
    assert StateOk(before, uuids, states[k], k);
    earlier := states[k].revision;
  }

  /** A newer revision asks for nothing else, so it completes and reopens no unit. */
  lemma ExtendsKeepsAllPassed(units: Catalogue, uuids: Uuid, uuids': Uuid, before: Revisions, after: Revisions,
                              states: States, user: UserId, unit: UnitId)
    requires Extends(before, after)
    requires RevisionsInv(units, uuids, before) && RevisionsInv(units, uuids', after)
    requires StatesInv(uuids, before, states)
    ensures AllPassed(before, states, user, unit) <==> AllPassed(after, states, user, unit)
  {
    if id :| id in before && before[id].unit == unit {
      assert Alike(before, after, id);
      AllPassedOnAny(units, uuids, before, states, user, id);
      AllPassedOnAny(units, uuids', after, states, user, id);
    } else if id :| id in after && after[id].unit == unit {
      AllPassedOnAny(units, uuids', after, states, user, id);
      if PassedOn(after[id], states, user) {
        var earlier := PassedHasRevision(units, uuids, uuids', before, after, states, user, id);
      }
    }
  }

  lemma ExtendsKeepsCompletion(units: Catalogue, uuids: Uuid, uuids': Uuid, before: Revisions, after: Revisions,
                               states: States, rooms: Rows)
    requires Extends(before, after)
    requires RevisionsInv(units, uuids, before) && RevisionsInv(units, uuids', after)
    requires StatesInv(uuids, before, states) && CompletionInv(units, before, states, rooms)
    ensures CompletionInv(units, after, states, rooms)
  {
    forall d | d in rooms ensures CompletionOk(units, after, states, d, rooms[d]) {
      assert CompletionOk(units, before, states, d, rooms[d]);
      ExtendsKeepsAllPassed(units, uuids, uuids', before, after, states, d.user, d.name);
    }
  }

  // ----- Publishing keeps the registry ---------------------------------------------------------------------

  /** The active revision of a unit is the one the query finds. */
  lemma ActiveIsUnique(units: Catalogue, db: Db, unit: UnitId)
    requires RevisionsInv(units, db.uuids, db.revisions)
    ensures var active := ActiveRevision(db, unit);
            && (active.Some? ==> db.revisions[active.value].unit == unit)
            && (forall id | id in db.revisions && db.revisions[id].unit == unit ::
                  active.Some? && (db.revisions[id].activeFor.Some? ==> active.value == id))
  {
    var active := ActiveRevision(db, unit);
    if active.Some? { assert RevisionOk(units, db.uuids, db.revisions[active.value], active.value); }
    forall id | id in db.revisions && db.revisions[id].unit == unit
      ensures active.Some? && (db.revisions[id].activeFor.Some? ==> active.value == id)
    {
      assert RevisionOk(units, db.uuids, db.revisions[id], id);
      assert HasActive(db.revisions, unit);
      var other :| other in db.revisions && db.revisions[other].activeFor == Some(unit);
      assert RevisionOk(units, db.uuids, db.revisions[other], other);
      assert Agree(db.revisions, id, active.value);
    }
  }

  /** What publishing does to the registry: one row of the unit is active afterwards, and no row else changes. */
  ghost predicate Switched(before: Revisions, after: Revisions, unit: UnitId, id: Uuid) {
    && id in after && after[id].unit == unit && after[id].activeFor == Some(unit)
    && after.Keys == before.Keys + {id}
    && Extends(before, after)
    && (forall o {:trigger after[o].activeFor} | o in before && o != id ::
          after[o].activeFor == if before[o].unit == unit then None else before[o].activeFor)
  }

  lemma SameIsSwitched(units: Catalogue, db: Db, ask: PublishAsk)
    requires RevisionsInv(units, db.uuids, db.revisions) && SameContent(db, ask).Some?
    ensures Switched(db.revisions, Activate(db, ask).0.revisions, ask.unit, SameContent(db, ask).value)
  {
    ActiveIsUnique(units, db, ask.unit);
    forall id | id in db.revisions && db.revisions[id].unit != ask.unit ensures db.revisions[id].activeFor != Some(ask.unit) {
      assert RevisionOk(units, db.uuids, db.revisions[id], id);
    }
  }

  lemma ActivateNew(db: Db, ask: PublishAsk)
    requires SameContent(db, ask).None?
    ensures Activate(db, ask).0.revisions
         == Deactivate(db.revisions, ActiveRevision(db, ask.unit))[db.uuids := NewRevision(db, ask)]
  {}

  lemma NewIsSwitched(units: Catalogue, db: Db, ask: PublishAsk)
    requires RevisionsInv(units, db.uuids, db.revisions) && SameContent(db, ask).None?
    ensures Switched(db.revisions, Activate(db, ask).0.revisions, ask.unit, db.uuids)
    ensures db.uuids !in db.revisions
  {
    ActiveIsUnique(units, db, ask.unit);
    forall id | id in db.revisions ensures id < db.uuids {
      assert RevisionOk(units, db.uuids, db.revisions[id], id);
    }
    ActivateNew(db, ask);
    DeactivateSwitches(db.revisions, ActiveRevision(db, ask.unit), ask.unit, db.uuids, NewRevision(db, ask));
  }

  lemma DeactivateSwitches(before: Revisions, active: Option<Uuid>, unit: UnitId, id: Uuid, row: EngineRevision)
    requires active.Some? ==> active.value in before && before[active.value].unit == unit
    requires forall o | o in before && o != (if active.Some? then active.value else id) :: before[o].unit == unit ==> before[o].activeFor.None?
    requires id !in before && row.unit == unit && row.activeFor == Some(unit)
    ensures Switched(before, Deactivate(before, active)[id := row], unit, id)
  {}

  /** A new row agrees with every other row of its unit, because it was compared with the active one. */
  lemma NewRowAgrees(cfg: Config, db: Db, ask: PublishAsk)
    requires RevisionsInv(cfg.catalogue, db.uuids, db.revisions)
    requires PublishRefusal(cfg, db, ask).None? && SameContent(db, ask).None?
    ensures var row := NewRevision(db, ask).(activeFor := None);
            SiblingOfAll(db.revisions, row)
  {
    ActiveIsUnique(cfg.catalogue, db, ask.unit);
    var active := ActiveRevision(db, ask.unit);
    forall o | o in db.revisions && db.revisions[o].unit == ask.unit
      ensures BondsOf(db.revisions[o].terms) == BondsOf(TermsOf(ask.document.tasks))
      ensures db.revisions[o].document.rule.bands == ask.document.rule.bands
      ensures db.revisions[o].number <= MaxNumber(db.revisions, db.uuids, ask.unit)
      ensures !(db.revisions[o].document == ask.document
                && db.revisions[o].package.packageHash == ask.package.packageHash)
    {
      assert RevisionOk(cfg.catalogue, db.uuids, db.revisions[o], o);
      assert Agree(db.revisions, o, active.value);
    }
  }

  lemma SwitchedAgree(before: Revisions, after: Revisions, unit: UnitId, id: Uuid)
    requires Switched(before, after, unit, id)
    requires EachAgrees(before)
    requires id !in before ==> SiblingOfAll(before, after[id].(activeFor := None))
    ensures EachAgrees(after)
  {
    forall a, b | a in after && b in after ensures Agree(after, a, b) {
      if a in before { assert Alike(before, after, a); }
      if b in before { assert Alike(before, after, b); }
      if a in before && b in before {
        assert Agree(before, a, b);
      } else if a in before {
        assert Siblings(before[a], after[id].(activeFor := None));
      } else if b in before {
        assert Siblings(after[id].(activeFor := None), before[b]);
      }
    }
  }

  lemma SwitchedActive(units: Catalogue, uuids: Uuid, before: Revisions, after: Revisions, unit: UnitId, id: Uuid)
    requires EachOk(units, uuids, before) && EachActive(before) && Switched(before, after, unit, id)
    ensures EachActive(after)
  {
    forall o | o in after ensures HasActive(after, after[o].unit) {
      if after[o].unit != unit {
        assert Alike(before, after, o);
        assert HasActive(before, before[o].unit);
        var other :| other in before && before[other].activeFor == Some(before[o].unit);
        assert RevisionOk(units, uuids, before[other], other);
        assert Alike(before, after, other);
      }
    }
  }

  lemma NumberPersists(before: Revisions, after: Revisions, from: Uuid, n: nat)
    requires EachNumbered(before) && Extends(before, after)
    requires from in before && 1 <= n <= before[from].number
    ensures HasNumber(after, before[from].unit, n)
  {
    assert HasNumber(before, before[from].unit, n);
    var other :| other in before && before[other].unit == before[from].unit && before[other].number == n;
    assert Alike(before, after, other);
  }

  ghost predicate SiblingOfAll(before: Revisions, row: EngineRevision) {
    forall o {:trigger Siblings(before[o], row)} {:trigger Siblings(row, before[o])} | o in before ::
      Siblings(before[o], row) && Siblings(row, before[o])
  }

  /** A row that may be added: checked, in line with its siblings, and with the next number of its unit. */
  ghost predicate MayAdd(units: Catalogue, uuids: Uuid, before: Revisions, row: EngineRevision, id: Uuid) {
    && RevisionOk(units, uuids, row, id)
    && SiblingOfAll(before, row.(activeFor := None))
    && (row.number == 1 || HasNumber(before, row.unit, row.number - 1))
  }

  lemma SwitchedOk(units: Catalogue, uuids: Uuid, uuids': Uuid, before: Revisions, after: Revisions, unit: UnitId,
                   id: Uuid)
    requires EachOk(units, uuids, before) && Switched(before, after, unit, id) && uuids <= uuids'
    requires id !in before ==> RevisionOk(units, uuids', after[id], id)
    ensures EachOk(units, uuids', after)
  {
    forall o | o in after ensures RevisionOk(units, uuids', after[o], o) {
      if o in before { assert RevisionOk(units, uuids, before[o], o) && Alike(before, after, o); }
    }
  }

  lemma SwitchedNumbers(before: Revisions, after: Revisions, unit: UnitId, id: Uuid)
    requires EachNumbered(before) && Switched(before, after, unit, id)
    requires id !in before ==> after[id].number <= 1 || HasNumber(before, unit, after[id].number - 1)
    ensures EachNumbered(after)
  {
    forall o, n: nat | o in after && 1 <= n <= after[o].number ensures HasNumber(after, after[o].unit, n) {
      if o in before {
        assert Alike(before, after, o);
        NumberPersists(before, after, o, n);
      } else if n < after[o].number {
        assert HasNumber(before, unit, after[o].number - 1);
        var p :| p in before && before[p].unit == unit && before[p].number == after[o].number - 1;
        NumberPersists(before, after, p, n);
      }
    }
  }

  /** A switch keeps exactly one active revision, contiguous numbers, and equal terms and bands. */
  lemma SwitchKeepsRevisions(units: Catalogue, uuids: Uuid, uuids': Uuid, before: Revisions, after: Revisions,
                             unit: UnitId, id: Uuid)
    requires RevisionsInv(units, uuids, before) && Switched(before, after, unit, id) && uuids <= uuids'
    requires id !in before ==> MayAdd(units, uuids', before, after[id], id)
    ensures RevisionsInv(units, uuids', after)
  {
    SwitchedOk(units, uuids, uuids', before, after, unit, id);
    SwitchedAgree(before, after, unit, id);
    SwitchedActive(units, uuids, before, after, unit, id);
    SwitchedNumbers(before, after, unit, id);
  }

  /** Publishing keeps exactly one active revision, contiguous numbers, and equal terms and bands. */
  lemma PublishKeepsRevisions(cfg: Config, db: Db, ask: PublishAsk)
    requires RevisionsInv(cfg.catalogue, db.uuids, db.revisions) && PublishRefusal(cfg, db, ask).None?
    ensures RevisionsInv(cfg.catalogue, Activate(db, ask).0.uuids, Activate(db, ask).0.revisions)
    ensures Extends(db.revisions, Activate(db, ask).0.revisions)
  {
    var db' := Activate(db, ask).0;
    if SameContent(db, ask).Some? {
      SameIsSwitched(cfg.catalogue, db, ask);
      SwitchKeepsRevisions(cfg.catalogue, db.uuids, db'.uuids, db.revisions, db'.revisions, ask.unit,
                           SameContent(db, ask).value);
    } else {
      NewIsSwitched(cfg.catalogue, db, ask);
      NewRowAgrees(cfg, db, ask);
      SwitchKeepsRevisions(cfg.catalogue, db.uuids, db'.uuids, db.revisions, db'.revisions, ask.unit, db.uuids);
    }
  }

  lemma ExtendsKeepsInv(cfg: Config, s: System, uuids: Uuid, after: Revisions)
    requires Inv(cfg, s) && s.db.uuids <= uuids
    requires RevisionsInv(cfg.catalogue, uuids, after) && Extends(s.db.revisions, after)
    ensures Inv(cfg, s.(db := s.db.(uuids := uuids, revisions := after)))
  {
    var db := s.db;
    ExtendsKeepsStates(db.uuids, uuids, db.revisions, after, db.states);
    ExtendsKeepsSubmissions(cfg, db.uuids, uuids, db.revisions, after, db.states, db.submissions);
    ExtendsKeepsHistory(db.revisions, after, db.states, db.submissions, s.bookings, s.born);
    ExtendsKeepsWorkers(cfg, db.uuids, uuids, db.revisions, after, db.submissions, s.wiped, s.workers);
    ExtendsKeepsCompletion(cfg.catalogue, db.uuids, uuids, db.revisions, after, db.states, db.rooms);
    forall user | user in s.wiped ensures IsWiped(db.(uuids := uuids, revisions := after), user) {
      assert IsWiped(db, user);
    }
  }

  lemma ActivateFrame(db: Db, ask: PublishAsk)
    ensures var db' := Activate(db, ask).0;
            db' == db.(uuids := db'.uuids, revisions := db'.revisions) && db.uuids <= db'.uuids
  {}

  lemma PublishKeepsInv(cfg: Config, s: System, ask: PublishAsk)
    requires Inv(cfg, s)
    ensures Inv(cfg, s.(db := Publish(cfg, s.db, ask).0))
  {
    if PublishRefusal(cfg, s.db, ask).None? {
      var db := Activate(s.db, ask).0;
      ActivateFrame(s.db, ask);
      PublishKeepsRevisions(cfg, s.db, ask);
      ExtendsKeepsInv(cfg, s, db.uuids, db.revisions);
    }
  }
}
