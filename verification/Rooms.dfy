/**
 One learning room of a learner (api/services/rooms.py): the stored row, what a client sees of it, the
 decision about one change with its practice rounds, and what a finished room introduces.
 */
module Rooms {
  import opened Options
  import opened Ids
  import opened Canonical

  type Concept = string

  datatype Completion =
    | Introduction(answer: Json, allowSkip: bool)
    | LlmVerdict
    | Engine

  /** A unit of the catalogue, which is fixed content. */
  datatype Unit = Unit(id: UnitId, completion: Option<Completion>, exercise: bool,
                       teaches: set<Concept>, practices: set<Concept>, prerequisites: set<Concept>)

  type Catalogue = seq<Unit>

  datatype Status = New | InProgress | Completed | Skipped
  datatype Achievement = Introduced | Solved | Passed

  /** The columns review_id, review_status and review_started_at; a practice round sets all three. */
  datatype Review = Review(id: RequestId, status: Status, startedAt: Time)

  datatype Room = Room(revision: nat, state: Json, status: Status, result: Option<Achievement>, review: Option<Review>)

  datatype Progress = Progress(revision: nat, state: Json, status: Status, result: Option<Achievement>,
                               review: Option<RequestId>)

  const NO_STATE := Object(map[])

  /** The fixed answer {"fallback": "example"} that completes a graded room without the model. */
  const FALLBACK_ANSWER := Object(map[[0x66, 0x61, 0x6C, 0x6C, 0x62, 0x61, 0x63, 0x6B]
                                      := Str([0x65, 0x78, 0x61, 0x6D, 0x70, 0x6C, 0x65])])

  predicate IsEngine(unit: Unit) {
    unit.completion == Some(Engine)
  }

  predicate IsFinished(status: Status) {
    status == Completed || status == Skipped
  }

  // ----- The catalogue ----------------------------------------------------------------------------------

  function Find(units: Catalogue, id: UnitId): (r: Option<Unit>)
    ensures r.Some? ==> r.value in units && r.value.id == id
    ensures r.None? ==> forall u | u in units :: u.id != id
  {
    if units == [] then None else if units[0].id == id then Some(units[0]) else Find(units[1..], id)
  }

  /** The concepts a room row introduces, if it is finished. */
  function Gained(unit: Unit, row: Room): set<Concept> {
    if row.status == Skipped && unit.completion.Some? then unit.teaches
    else if row.status == Completed && row.result == Some(Introduced) then unit.teaches
    else if row.status == Completed && (row.result == Some(Solved) || row.result == Some(Passed))
    then unit.teaches + unit.practices
    else {}
  }

  /** All concepts the rows of one learner introduce. */
  function IntroducedConcepts(units: Catalogue, rows: map<UnitId, Room>): set<Concept> {
    set u, c | u in units && u.id in rows && c in Gained(u, rows[u.id]) :: c
  }

  method CollectIntroduced(units: Catalogue, rows: map<UnitId, Room>) returns (concepts: set<Concept>)
    ensures concepts == IntroducedConcepts(units, rows)
  {
    concepts := {};
    for i := 0 to |units|
      invariant concepts == IntroducedConcepts(units[..i], rows)
    {
      var unit := units[i];
      assert units[..i + 1] == units[..i] + [unit];
      ghost var before := concepts;
      if unit.id in rows {
        var row := rows[unit.id];
        if row.status == Skipped && unit.completion.Some? {
          concepts := concepts + unit.teaches;
        } else if row.status == Completed && row.result == Some(Introduced) {
          concepts := concepts + unit.teaches;
        } else if row.status == Completed && (row.result == Some(Solved) || row.result == Some(Passed)) {
          concepts := concepts + (unit.teaches + unit.practices);
        }
      }
      assert concepts == before + if unit.id in rows then Gained(unit, rows[unit.id]) else {};
    }
    assert units[..|units|] == units;
  }

  /**
   A concept is introduced by finishing a room that teaches it, be it by skipping where there is something to skip, or by
   solving or passing one that practises it.
   */
  lemma IntroducedIsExact(units: Catalogue, rows: map<UnitId, Room>, c: Concept)
    ensures c in IntroducedConcepts(units, rows) <==>
              exists u :: u in units && u.id in rows && Introduces(u, rows[u.id], c)
  {
    forall u | u in units && u.id in rows ensures c in Gained(u, rows[u.id]) <==> Introduces(u, rows[u.id], c) {
      var result := rows[u.id].result;
      assert result.Some? ==> result.value.Introduced? || result.value.Solved? || result.value.Passed?;
    }
  }

  predicate Introduces(unit: Unit, row: Room, c: Concept) {
    || (c in unit.teaches && ((row.status == Completed && row.result.Some?) || (row.status == Skipped && unit.completion.Some?)))
    || (c in unit.practices && row.status == Completed && row.result in {Some(Solved), Some(Passed)})
  }

  /** Whether the prerequisites of a unit are met (the 403 of `find_unit`). */
  predicate IsUnlocked(units: Catalogue, unit: Unit, rows: map<UnitId, Room>) {
    unit.prerequisites <= IntroducedConcepts(units, rows)
  }

  // ----- What a client sees --------------------------------------------------------------------------------

  function ProgressOf(row: Option<Room>): Progress {
    match row
    case None => Progress(0, NO_STATE, New, None, None)
    case Some(r) =>
      var status := if r.review.Some? then r.review.value.status else r.status;
      // Completing the practice round of a skipped introduction shows as introduced.
      var result := if r.review.Some? && status == Completed && r.status == Skipped then Some(Introduced) else r.result;
      Progress(r.revision, r.state, status, if status == Completed then result else None,
               if r.review.Some? then Some(r.review.value.id) else None)
  }

  /** A finished round shows its own end: what was achieved before, and after a skipped introduction that it is introduced. */
  lemma RoundShows(row: Room)
    requires row.review.Some? && (row.status != Completed ==> row.result.None?)
    ensures var p := ProgressOf(Some(row));
            && p.status == row.review.value.status && p.review == Some(row.review.value.id)
            && p.revision == row.revision && p.state == row.state
            && (p.result.Some? ==> p.status == Completed)
            && (p.status == Completed && row.status == Completed ==> p.result == row.result)
            && (p.status == Completed && row.status == Skipped ==> p.result == Some(Introduced))
  {}

  // ----- One change --------------------------------------------------------------------------------------------

  datatype Change =
    | Save(state: Json)
    | Finish(skip: bool, answer: Json, signed: bool, attempt: bool)
    | StartReview

  /** A client's request; `signed` says that a grading verdict came with it, `attempt` that it names an attempt. */
  datatype Ask = Ask(id: RequestId, expected: nat, review: Option<RequestId>, change: Change, course: Option<CourseId>)

  /**
   What the rest of the world answers during one request: whether the unit is offered and the learner has
   access, the challenge service's verdict on the exercise and on the named attempt (None is an outage), the
   checked grading (None is a refusal), the save limit of the engine and the daily limit, and the clock.
   */
  datatype Outside = Outside(open: bool, solved: Option<bool>, attemptSolved: bool, grading: Option<bool>,
                             maySave: bool, mayStart: bool, now: Time)

  datatype Decision = Refuse(code: nat) | Confirm(progress: Progress) | Write(room: Room, progress: Progress)

  datatype Grading = Refused | NotNeeded | Graded(passed: bool)

  predicate IsFallback(unit: Unit, change: Change)
    requires change.Finish?
  {
    unit.completion == Some(LlmVerdict) && !change.skip && !change.signed && change.answer == FALLBACK_ANSWER
  }

  function GradedVerdict(unit: Unit, current: Progress, change: Change, out: Outside): Grading
    requires change.Finish?
  {
    if unit.completion != Some(LlmVerdict) then if change.signed then Refused else NotNeeded
    else if change.skip || IsFinished(current.status) || IsFallback(unit, change) then NotNeeded
    else if !change.signed || out.grading.None? then Refused
    else Graded(out.grading.value)
  }

  datatype Finished = No(code: nat) | Yes(progress: Progress)

  /** `completed_progress`: the finished progress, or the refusal. */
  function CompletedProgress(unit: Unit, current: Progress, change: Change, solved: bool, verdict: Grading): Finished
    requires change.Finish?
  {
    if IsFinished(current.status) then No(409)
    else if change.skip then
      if unit.completion == Some(LlmVerdict) || (unit.completion.Some? && unit.completion.value.Introduction?
                                                 && unit.completion.value.allowSkip)
      then Yes(current.(status := Skipped, result := None))
      else No(403)
    else if unit.exercise then
      if solved then Yes(current.(status := Completed, result := Some(Solved))) else No(409)
    else if unit.completion == Some(LlmVerdict) then
      if if verdict.Graded? then verdict.passed else IsFallback(unit, change)
      then Yes(current.(status := Completed, result := Some(Introduced)))
      else No(422)
    else if unit.completion.Some? && unit.completion.value.Introduction? && change.answer == unit.completion.value.answer
    then Yes(current.(status := Completed, result := Some(Introduced)))
    else No(422)
  }

  /** The row written for the next progress: a practice round never touches the achievement. */
  function WrittenRoom(row: Option<Room>, next: Progress, starting: bool, now: Time): Room {
    if row.Some? && next.review.Some? then
      var startedAt := if starting || row.value.review.None? then now else row.value.review.value.startedAt;
      Room(next.revision, next.state, row.value.status, row.value.result,
           Some(Review(next.review.value, next.status, startedAt)))
    else
      Room(next.revision, next.state, next.status, next.result, None)
  }

  /** Everything `mutate_room` decides after the guard, the access checks and the receipt lookup. */
  function Decide(unit: Unit, row: Option<Room>, ask: Ask, out: Outside): Decision {
    var current := ProgressOf(row);
    if current.revision != ask.expected then Refuse(409)
    else if !ask.change.StartReview? && ask.review != current.review then Refuse(409)
    else if unit.exercise && out.solved.None? then Refuse(503)
    else
      match ask.change
      case StartReview =>
        if IsEngine(unit) then Refuse(409)
        else if row.None? || !IsFinished(row.value.status)
                || (row.value.review.Some? && row.value.review.value.status == InProgress) then Refuse(409)
        else Commit(row, Progress(current.revision, NO_STATE, InProgress, None, Some(ask.id)), ask, out)
      case Save(state) =>
        if IsEngine(unit) && !out.maySave then Refuse(429)
        else
          Commit(row, current.(state := state, status := if current.status == New then InProgress else current.status),
                 ask, out)
      case Finish(skip, answer, signed, attempt) =>
        if IsEngine(unit) && !skip then
          if row.None? || row.value.status != Completed then Refuse(409) else Confirm(current)
        else
          var solved := if current.review.Some? && unit.exercise then attempt && out.attemptSolved
                        else unit.exercise && out.solved == Some(true);
          var verdict := GradedVerdict(unit, current, ask.change, out);
          if verdict.Refused? then Refuse(422)
          else
            var next := CompletedProgress(unit, current, ask.change, solved, verdict);
            if next.No? then Refuse(next.code) else Commit(row, next.progress, ask, out)
  }

  /** The end of `mutate_room`: the daily limit, except for a skip, and the row with the next revision. */
  function Commit(row: Option<Room>, next: Progress, ask: Ask, out: Outside): Decision {
    if !(ask.change.Finish? && ask.change.skip) && !out.mayStart then Refuse(429)
    else
      var saved := next.(revision := next.revision + 1);
      Write(WrittenRoom(row, saved, ask.change.StartReview?, out.now), saved)
  }

  // ----- The first achievement is absorbing ------------------------------------------------------------------------

  /** A skipped room has no result, and practice rounds exist only in finished rooms. */
  predicate RoomOk(unit: Unit, row: Room) {
    && (row.status != Completed ==> row.result.None?)
    && (row.review.Some? ==> IsFinished(row.status) && row.review.value.status != New)
    && (IsEngine(unit) ==> row.status != Skipped && row.review.None?)
  }

  /** A finished room keeps its status and result. */
  predicate KeepsAchievement(before: Option<Room>, after: Option<Room>) {
    before.Some? && IsFinished(before.value.status) ==>
      after.Some? && after.value.status == before.value.status && after.value.result == before.value.result
  }

  /** No change through the rooms, practice rounds included, touches what was once achieved. */
  lemma AchievementIsAbsorbing(unit: Unit, row: Option<Room>, ask: Ask, out: Outside)
    requires row.Some? ==> RoomOk(unit, row.value)
    requires Decide(unit, row, ask, out).Write?
    ensures var d := Decide(unit, row, ask, out);
            && KeepsAchievement(row, Some(d.room)) && RoomOk(unit, d.room)
            && d.room.revision == ask.expected + 1 == ProgressOf(row).revision + 1
            && ProgressOf(Some(d.room)).(result := d.progress.result) == d.progress
  {}

  /** A client cannot finish a room of the lesson engine: only its booking does. */
  lemma ClientNeverFinishesEngine(unit: Unit, row: Option<Room>, ask: Ask, out: Outside)
    requires IsEngine(unit) && (row.Some? ==> RoomOk(unit, row.value))
    ensures var d := Decide(unit, row, ask, out);
            d.Write? ==> (d.room.status == Completed <==> row.Some? && row.value.status == Completed)
  {}

  /** What is introduced stays introduced, so a unit whose prerequisites were once met is never locked again. */
  lemma IntroducedGrows(units: Catalogue, before: map<UnitId, Room>, after: map<UnitId, Room>, unit: Unit)
    requires forall u | u in before ::
               KeepsAchievement(Some(before[u]), if u in after then Some(after[u]) else None)
    ensures IntroducedConcepts(units, before) <= IntroducedConcepts(units, after)
    ensures IsUnlocked(units, unit, before) ==> IsUnlocked(units, unit, after)
  {
    forall c | c in IntroducedConcepts(units, before) ensures c in IntroducedConcepts(units, after) {
      var u :| u in units && u.id in before && c in Gained(u, before[u.id]);
      assert u.id in after && Gained(u, after[u.id]) == Gained(u, before[u.id]);
    }
  }
}
