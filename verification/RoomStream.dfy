/**
 The continuous stream of learning rooms (`continuous_room` in api/services/rooms.py): own work in progress first,
 then new material along the paths, then repeats in rotation, and the room just left only as a last resort.
 */
module RoomStream {
  import opened Options
  import opened Ids
  import opened Rooms

  datatype Path = Path(id: string, units: seq<UnitId>)

  /**
   What a request meets when it asks about a unit. `available` passes over a limit, a missing introduction, a missing
   unit and an outage of the learning access. Any other error of the exercise check ends the whole request (Failing),
   and so does a unit that is available but cannot be shown, because its module is out of reach (Unshown).
   */
  datatype Answer = Open | Limited | Blocked | Missing | Down | Failing | Unshown

  /** The paths of the direction, the place of the chosen one, the room just left, and the learner's rows. */
  datatype Scope = Scope(paths: seq<Path>, at: nat, after: Option<UnitId>, rows: map<UnitId, Room>,
                         answers: UnitId -> Answer)

  datatype Reason = LimitReached | Prerequisites | Unavailable
  datatype Next = Offer(unit: UnitId, startReview: bool) | Failed(unit: UnitId) | Nothing(reason: Reason) | Raised

  function Ordered(s: Scope): seq<Path>
    requires s.at < |s.paths|
  {
    s.paths[s.at..] + s.paths[..s.at]
  }

  function Concat(paths: seq<Path>): seq<UnitId> {
    if paths == [] then [] else paths[0].units + Concat(paths[1..])
  }

  function AllIds(s: Scope): seq<UnitId>
    requires s.at < |s.paths|
  {
    Concat(Ordered(s))
  }

  predicate DistinctIds(ids: seq<UnitId>) {
    forall i, j | 0 <= i < j < |ids| :: ids[i] != ids[j]
  }

  /** The schema lists every unit in exactly one path; the room just left is one of the chosen path. */
  predicate Valid(s: Scope) {
    s.at < |s.paths| && DistinctIds(AllIds(s)) && (s.after.Some? ==> s.after.value in s.paths[s.at].units)
  }

  predicate IsOpen(s: Scope, id: UnitId) {
    s.answers(id) == Open
  }

  /** The request ends with an error as soon as it asks about this unit. */
  predicate Stops(s: Scope, id: UnitId) {
    s.answers(id) == Failing || s.answers(id) == Unshown
  }

  predicate Ends(s: Scope, id: UnitId) {
    IsOpen(s, id) || Stops(s, id)
  }

  predicate HasFinished(s: Scope, id: UnitId) {
    id in s.rows && IsFinished(s.rows[id].status)
  }

  /** A practice round is in progress. */
  predicate IsReviewing(s: Scope, id: UnitId) {
    id in s.rows && s.rows[id].review.Some? && s.rows[id].review.value.status == InProgress
  }

  predicate IsWorking(s: Scope, id: UnitId) {
    id in s.rows && (s.rows[id].status == InProgress || IsReviewing(s, id))
  }

  predicate IsAfter(s: Scope, id: UnitId) {
    s.after == Some(id)
  }

  /** The passes of the stream, and which units each asks about. */
  datatype Pass = OwnWork | NewMaterial | Repeat(resume: bool)

  predicate Wants(s: Scope, pass: Pass, id: UnitId) {
    match pass
    case OwnWork => !IsAfter(s, id) && IsWorking(s, id)
    case NewMaterial => !HasFinished(s, id)
    case Repeat(resume) => HasFinished(s, id) && IsReviewing(s, id) == resume && !(IsReviewing(s, id) && IsAfter(s, id))
  }

  predicate Takes(s: Scope, pass: Pass, id: UnitId) {
    Wants(s, pass, id) && Ends(s, id)
  }

  /** The first of these ids that the pass wants and that ends the request, with a room or an error. */
  function First(s: Scope, pass: Pass, ids: seq<UnitId>): (r: Option<UnitId>)
    ensures r.Some? ==> exists i :: 0 <= i < |ids| && ids[i] == r.value && Takes(s, pass, ids[i])
                                    && forall j | 0 <= j < i :: !Takes(s, pass, ids[j])
    ensures r.None? ==> forall id | id in ids :: !Takes(s, pass, id)
  {
    if ids == [] then None else if Takes(s, pass, ids[0]) then Some(ids[0]) else First(s, pass, ids[1..])
  }

  lemma {:induction false} FirstAppend(s: Scope, pass: Pass, a: seq<UnitId>, b: seq<UnitId>)
    ensures First(s, pass, a + b) == if First(s, pass, a).Some? then First(s, pass, a) else First(s, pass, b)
  {
    if a == [] {
      assert a + b == b;
    } else {
      assert (a + b)[0] == a[0] && (a + b)[1..] == a[1..] + b;
      FirstAppend(s, pass, a[1..], b);
    }
  }

  lemma {:induction false} FirstAt(s: Scope, pass: Pass, ids: seq<UnitId>, i: nat)
    requires i <= |ids| && forall j | 0 <= j < i :: !Takes(s, pass, ids[j])
    ensures First(s, pass, ids) == if i < |ids| && Takes(s, pass, ids[i]) then Some(ids[i]) else First(s, pass, ids[i..])
  {
    if i > 0 {
      FirstAt(s, pass, ids[1..], i - 1);
      assert ids[1..][i - 1..] == ids[i..];
    } else {
      assert ids[0..] == ids;
    }
  }

  // ----- The orders of the passes ----------------------------------------------------------------------------

  function IndexOf(ids: seq<UnitId>, id: UnitId): (i: nat)
    requires id in ids
    ensures i < |ids| && ids[i] == id
  {
    if ids[0] == id then 0 else 1 + IndexOf(ids[1..], id)
  }

  predicate IsBegun(s: Scope, id: UnitId) {
    id in s.rows && s.rows[id].status == InProgress
  }

  function WhereBegun(s: Scope, ids: seq<UnitId>, begun: bool): (r: seq<UnitId>)
    ensures forall id :: id in r <==> id in ids && IsBegun(s, id) == begun
  {
    if ids == [] then []
    else (if IsBegun(s, ids[0]) == begun then [ids[0]] else []) + WhereBegun(s, ids[1..], begun)
  }

  /** New material of one path: after the room just left, then before it; or what is in progress first. */
  function PathOrder(s: Scope, path: Path, chosen: bool): seq<UnitId> {
    if s.after.Some? then
      if chosen && s.after.value in path.units then
        var split := IndexOf(path.units, s.after.value);
        path.units[split + 1..] + path.units[..split]
      else path.units
    else WhereBegun(s, path.units, true) + WhereBegun(s, path.units, false)
  }

  function NewOrder(s: Scope, paths: seq<Path>, chosen: bool): seq<UnitId> {
    if paths == [] then [] else PathOrder(s, paths[0], chosen) + NewOrder(s, paths[1..], false)
  }

  /** The rotation that ends with the room just left. */
  function ReviewOrder(s: Scope): seq<UnitId>
    requires Valid(s)
  {
    var ids := AllIds(s);
    var cursor := if s.after.Some? && s.after.value in ids then IndexOf(ids, s.after.value) + 1 else 0;
    ids[cursor..] + ids[..cursor]
  }

  // ----- The choice, as a function ------------------------------------------------------------------------------

  function PassWork(s: Scope): Option<UnitId>
    requires Valid(s)
  {
    First(s, OwnWork, AllIds(s))
  }

  function PassNew(s: Scope): Option<UnitId>
    requires Valid(s)
  {
    First(s, NewMaterial, NewOrder(s, Ordered(s), true))
  }

  function PassReview(s: Scope, resume: bool): Option<UnitId>
    requires Valid(s)
  {
    First(s, Repeat(resume), ReviewOrder(s))
  }

  /** The response with this unit, or the error that its question ended in. */
  function Given(s: Scope, id: UnitId, startReview: bool): Next {
    if IsOpen(s, id) then Offer(id, startReview) else Failed(id)
  }

  function Choose(s: Scope): Next
    requires Valid(s)
  {
    if PassWork(s).Some? then Given(s, PassWork(s).value, false)
    else if PassNew(s).Some? then Given(s, PassNew(s).value, false)
    else if PassReview(s, true).Some? then Given(s, PassReview(s, true).value, false)
    else if PassReview(s, false).Some? then Given(s, PassReview(s, false).value, true)
    else if s.after.Some? && Ends(s, s.after.value) then
      Given(s, s.after.value, HasFinished(s, s.after.value) && !IsReviewing(s, s.after.value))
    else Ending(s)
  }

  /** Why there is no room: an outage is raised, then the daily limit, then missing introductions. */
  function Ending(s: Scope): Next
    requires Valid(s)
  {
    if exists id :: id in AllIds(s) && s.answers(id) == Down then Raised
    else if exists id :: id in AllIds(s) && s.answers(id) == Limited then Nothing(LimitReached)
    else if exists id :: id in AllIds(s) && s.answers(id) == Blocked then Nothing(Prerequisites)
    else Nothing(Unavailable)
  }

  // ----- What the orders hold -----------------------------------------------------------------------------------

  /** Away from the chosen path the room just left does not occur. */
  lemma {:induction false} InNewOrder(s: Scope, paths: seq<Path>, id: UnitId)
    requires s.after.Some? ==> s.after.value !in Concat(paths)
    ensures id in NewOrder(s, paths, false) <==> id in Concat(paths)
    ensures s.after.None? ==> (id in NewOrder(s, paths, true) <==> id in Concat(paths))
  {
    if paths != [] {
      InNewOrder(s, paths[1..], id);
      assert id in Concat(paths) <==> id in paths[0].units || id in Concat(paths[1..]);
    }
  }

  lemma OrderedStartsHere(s: Scope)
    requires Valid(s)
    ensures Ordered(s) != [] && Ordered(s)[0] == s.paths[s.at]
    ensures AllIds(s) == s.paths[s.at].units + Concat(Ordered(s)[1..])
  {}

  /** The rotated path holds all its units but the room just left. */
  lemma RotatedHolds(ids: seq<UnitId>, after: UnitId, id: UnitId)
    requires DistinctIds(ids) && after in ids
    ensures var split := IndexOf(ids, after); id in ids[split + 1..] + ids[..split] <==> id in ids && id != after
  {
    var split := IndexOf(ids, after);
    assert ids == ids[..split] + [after] + ids[split + 1..];
    if id in ids[split + 1..] {
      var k :| 0 <= k < |ids[split + 1..]| && ids[split + 1..][k] == id;
      assert ids[split + 1 + k] == id;
    }
    if id in ids[..split] {
      var k :| 0 <= k < split && ids[k] == id;
    }
  }

  /** New material is looked for in every unit but the room just left. */
  lemma NewOrderHolds(s: Scope, id: UnitId)
    requires Valid(s)
    ensures id in NewOrder(s, Ordered(s), true) <==> id in AllIds(s) && !IsAfter(s, id)
  {
    OrderedStartsHere(s);
    var first, rest := s.paths[s.at], Ordered(s)[1..];
    if s.after.Some? {
      var after := s.after.value;
      FirstIsDistinct(first.units, Concat(rest), after);
      RotatedHolds(first.units, after, id);
      InNewOrder(s, rest, id);
    } else {
      InNewOrder(s, Ordered(s), id);
    }
  }

  lemma FirstIsDistinct(first: seq<UnitId>, rest: seq<UnitId>, id: UnitId)
    requires DistinctIds(first + rest) && id in first
    ensures DistinctIds(first) && id !in rest
  {
    forall i, j | 0 <= i < j < |first| ensures first[i] != first[j] {
      assert (first + rest)[i] == first[i] && (first + rest)[j] == first[j];
    }
    var i :| 0 <= i < |first| && first[i] == id;
    forall j | 0 <= j < |rest| ensures rest[j] != id {
      assert (first + rest)[i] == id && (first + rest)[|first| + j] == rest[j];
    }
  }

  /** Repeats go through every unit, the room just left last. */
  lemma ReviewOrderHolds(s: Scope, id: UnitId)
    requires Valid(s)
    ensures id in ReviewOrder(s) <==> id in AllIds(s)
    ensures s.after.Some? ==> s.after.value in AllIds(s)
    ensures s.after.Some? ==> ReviewOrder(s) != [] && ReviewOrder(s)[|ReviewOrder(s)| - 1] == s.after.value
  {
    OrderedStartsHere(s);
    var ids := AllIds(s);
    var cursor := if s.after.Some? && s.after.value in ids then IndexOf(ids, s.after.value) + 1 else 0;
    assert ids == ids[..cursor] + ids[cursor..];
    assert s.after.Some? ==> ids[cursor - 1] == s.after.value;
  }

  // ----- What the stream promises ----------------------------------------------------------------------------------

  /** The turn in which a unit is first asked about: own work, new material, repeats, the room just left. */
  function Turn(s: Scope, id: UnitId): nat {
    if IsAfter(s, id) then 3 else if IsWorking(s, id) then 0 else if !HasFinished(s, id) then 1 else 2
  }

  function TurnOrder(s: Scope, turn: nat): seq<UnitId>
    requires Valid(s)
  {
    if turn == 0 then AllIds(s) else if turn == 1 then NewOrder(s, Ordered(s), true) else ReviewOrder(s)
  }

  function Place(ids: seq<UnitId>, id: UnitId): nat {
    if id in ids then IndexOf(ids, id) else |ids|
  }

  predicate AskedBefore(s: Scope, a: UnitId, b: UnitId)
    requires Valid(s)
  {
    || Turn(s, a) < Turn(s, b)
    || (Turn(s, a) == Turn(s, b) && Place(TurnOrder(s, Turn(s, a)), a) < Place(TurnOrder(s, Turn(s, a)), b))
  }

  /** The first unit that ends the request. */
  predicate IsFirst(s: Scope, id: UnitId)
    requires Valid(s)
  {
    id in AllIds(s) && Ends(s, id) && forall other | other in AllIds(s) && other != id && Ends(s, other) ::
      AskedBefore(s, id, other)
  }

  lemma {:induction false} FirstIsBefore(s: Scope, pass: Pass, ids: seq<UnitId>, a: UnitId, b: UnitId)
    requires First(s, pass, ids) == Some(a) && b in ids && Takes(s, pass, b) && a != b
    ensures a in ids && IndexOf(ids, a) < IndexOf(ids, b)
  {
    if ids[0] != a { FirstIsBefore(s, pass, ids[1..], a, b); }
  }

  /** A practice round in progress is own work: the pass that resumes rounds only meets what was passed over before. */
  lemma ResumeFindsNothing(s: Scope)
    requires Valid(s) && PassWork(s).None?
    ensures PassReview(s, true).None?
  {
    if PassReview(s, true).Some? { ReviewOrderHolds(s, PassReview(s, true).value); }
  }

  /** The unit that a request ends with, in whatever pass. */
  function Found(s: Scope): Option<UnitId>
    requires Valid(s)
  {
    if PassWork(s).Some? then PassWork(s) else if PassNew(s).Some? then PassNew(s)
    else if PassReview(s, false).Some? then PassReview(s, false)
    else if s.after.Some? && Ends(s, s.after.value) then s.after else None
  }

  lemma ChooseIsFound(s: Scope)
    requires Valid(s)
    ensures Choose(s) == if Found(s).Some?
                         then Given(s, Found(s).value, HasFinished(s, Found(s).value) && !IsReviewing(s, Found(s).value))
                         else Ending(s)
    ensures Found(s).Some? ==> Found(s).value in AllIds(s) && Ends(s, Found(s).value)
  {
    if PassWork(s).None? {
      ResumeFindsNothing(s);
      if PassNew(s).Some? { NewOrderHolds(s, PassNew(s).value); }
      else if Found(s).Some? { ReviewOrderHolds(s, Found(s).value); }
    }
  }

  /** What the passes left over does not end the request. */
  lemma FoundMissesNothing(s: Scope, id: UnitId)
    requires Valid(s) && Found(s).None? && id in AllIds(s)
    ensures !Ends(s, id)
  {
    if IsAfter(s, id) { return; }
    ResumeFindsNothing(s);
    if !HasFinished(s, id) {
      NewOrderHolds(s, id);
      assert Wants(s, NewMaterial, id);
    } else {
      ReviewOrderHolds(s, id);
      assert Wants(s, Repeat(IsReviewing(s, id)), id);
    }
  }

  lemma FoundIsFirst(s: Scope, other: UnitId)
    requires Valid(s) && Found(s).Some? && other in AllIds(s) && other != Found(s).value && Ends(s, other)
    ensures AskedBefore(s, Found(s).value, other)
  {
    var id := Found(s).value;
    NewOrderHolds(s, id);
    NewOrderHolds(s, other);
    ReviewOrderHolds(s, id);
    ReviewOrderHolds(s, other);
    if PassWork(s).Some? {
      if Turn(s, other) == 0 { FirstIsBefore(s, OwnWork, AllIds(s), id, other); }
    } else if PassNew(s).Some? {
      if Turn(s, other) == 1 { FirstIsBefore(s, NewMaterial, TurnOrder(s, 1), id, other); }
    } else if PassReview(s, false).Some? {
      if Turn(s, other) == 2 {
        FirstIsBefore(s, Repeat(false), ReviewOrder(s), id, other);
        if IsAfter(s, id) { LastIsLast(s, other); }
      }
    }
  }

  /** The rotation asks about the room just left after all others. */
  lemma LastIsLast(s: Scope, id: UnitId)
    requires Valid(s) && s.after.Some? && id in AllIds(s) && id != s.after.value
    ensures Place(ReviewOrder(s), id) < Place(ReviewOrder(s), s.after.value)
  {
    ReviewOrderHolds(s, id);
    ReviewOrderHolds(s, s.after.value);
    ReviewOrderIsDistinct(s);
    var order := ReviewOrder(s);
    assert order[IndexOf(order, s.after.value)] == order[|order| - 1];
  }

  lemma ReviewOrderIsDistinct(s: Scope)
    requires Valid(s)
    ensures DistinctIds(ReviewOrder(s))
  {
    var ids := AllIds(s);
    var cursor := if s.after.Some? && s.after.value in ids then IndexOf(ids, s.after.value) + 1 else 0;
    var order := ReviewOrder(s);
    forall i, j | 0 <= i < j < |order| ensures order[i] != order[j] {
      assert order[i] == ids[(if i < |ids| - cursor then cursor + i else i - (|ids| - cursor))];
      assert order[j] == ids[(if j < |ids| - cursor then cursor + j else j - (|ids| - cursor))];
    }
  }

  /**
   The four passes and the last resort come down to one order of the direction: the request ends with the first unit
   in it that is available or that stops the request, and begins a repeat exactly when that is finished material without
   a round in progress.
   */
  lemma ChoiceIsExact(s: Scope, id: UnitId)
    requires Valid(s)
    ensures Choose(s).Offer? && Choose(s).unit == id <==> IsFirst(s, id) && IsOpen(s, id)
    ensures Choose(s).Failed? && Choose(s).unit == id <==> IsFirst(s, id) && Stops(s, id)
    ensures Choose(s).Offer? ==>
              (Choose(s).startReview <==> HasFinished(s, Choose(s).unit) && !IsReviewing(s, Choose(s).unit))
  {
    ChooseIsFound(s);
    if Found(s).Some? {
      forall other | other in AllIds(s) && other != Found(s).value && Ends(s, other)
        ensures AskedBefore(s, Found(s).value, other)
      {
        FoundIsFirst(s, other);
      }
      assert IsFirst(s, id) ==> id == Found(s).value;
    } else if id in AllIds(s) {
      FoundMissesNothing(s, id);
    }
  }

  /**
   A room is offered if and only if some room of the direction is available and asked about before every unit that
   stops the request.
   */
  lemma StreamIsComplete(s: Scope)
    requires Valid(s)
    ensures Choose(s).Offer? <==>
              exists id :: id in AllIds(s) && IsOpen(s, id)
                           && forall other | other in AllIds(s) && Stops(s, other) :: AskedBefore(s, id, other)
    ensures (forall id | id in AllIds(s) :: !Stops(s, id)) ==>
              (Choose(s).Offer? <==> exists id :: id in AllIds(s) && IsOpen(s, id))
  {
    ChooseIsFound(s);
    if Found(s).Some? {
      ChoiceIsExact(s, Found(s).value);
    } else {
      forall id | id in AllIds(s) ensures !IsOpen(s, id) { FoundMissesNothing(s, id); }
    }
  }

  /** An exercise that cannot be checked ends the request although the next room is available. */
  lemma CheckDownEndsRequest()
    ensures var s := CHECK_DOWN; Valid(s) && IsOpen(s, "introduction") && Choose(s) == Failed("exercise")
  {
    var s := CHECK_DOWN;
    OnePath(s);
    assert s.paths[0].units[0] == "exercise" && s.paths[0].units[1] == "introduction";
    ChoiceIsExact(s, "exercise");
    assert Place(TurnOrder(s, 1), "exercise") == 0 by { NothingBegunKeepsOrder(s); }
    NewOrderHolds(s, "introduction");
  }

  const CHECK_DOWN := Scope([Path("p", ["exercise", "introduction"])], 0, None, map[],
                            id => if id == "exercise" then Failing else Open)

  lemma OnePath(s: Scope)
    requires |s.paths| == 1 && s.at == 0
    ensures Ordered(s) == s.paths && AllIds(s) == s.paths[0].units
  {
    assert Concat([]) == [];
    assert Ordered(s)[1..] == [];
  }

  lemma NothingBegunKeepsOrder(s: Scope)
    requires |s.paths| == 1 && s.at == 0 && s.after.None? && s.rows == map[]
    ensures NewOrder(s, Ordered(s), true) == s.paths[0].units
  {
    OnePath(s);
    WhereAll(s, s.paths[0].units);
    assert NewOrder(s, [], false) == [] && s.paths[1..] == [];
  }

  lemma {:induction false} WhereAll(s: Scope, ids: seq<UnitId>)
    requires forall id | id in ids :: !IsBegun(s, id)
    ensures WhereBegun(s, ids, false) == ids && WhereBegun(s, ids, true) == []
  {
    if ids != [] { WhereAll(s, ids[1..]); }
  }

  /** The room just left ends a request only when no other room does. */
  lemma AfterIsLastResort(s: Scope, id: UnitId)
    requires Valid(s) && s.after.Some? && (Choose(s).Offer? || Choose(s).Failed?) && Choose(s).unit == s.after.value
    requires id in AllIds(s) && id != s.after.value
    ensures !Ends(s, id)
  {
    ChoiceIsExact(s, s.after.value);
  }

  /** The first own work in progress is finished material in a practice round. */
  predicate IsRoundFirst(s: Scope, i: nat)
    requires Valid(s)
  {
    var ids := AllIds(s);
    && i < |ids| && HasFinished(s, ids[i]) && IsReviewing(s, ids[i]) && !IsAfter(s, ids[i]) && IsOpen(s, ids[i])
    && forall j | 0 <= j < i && !IsAfter(s, ids[j]) && IsWorking(s, ids[j]) :: !Ends(s, ids[j])
  }

  /**
   While a room with new material, other than the one just left, is available, no repeat is begun, and only what is
   asked about earlier can stop the request. Finished material comes before it if and only if a practice round in
   progress is the first own work that ends the request.
   */
  lemma NewBeforeRepeats(s: Scope, id: UnitId)
    requires Valid(s) && id in AllIds(s) && !IsAfter(s, id) && !HasFinished(s, id) && IsOpen(s, id)
    ensures Choose(s).Offer? || (Choose(s).Failed? && AskedBefore(s, Choose(s).unit, id))
    ensures Choose(s).Offer? ==> !Choose(s).startReview && !IsAfter(s, Choose(s).unit)
    ensures Choose(s).Offer? && HasFinished(s, Choose(s).unit) <==> exists i: nat :: IsRoundFirst(s, i)
  {
    RoundFirstIsWork(s);
    NewOrderHolds(s, id);
    ChooseIsFound(s);
    if Found(s) != Some(id) { FoundIsFirst(s, id); }
    if PassNew(s).Some? { NewOrderHolds(s, PassNew(s).value); }
  }

  lemma RoundFirstIsWork(s: Scope)
    requires Valid(s)
    ensures (exists i: nat :: IsRoundFirst(s, i)) <==>
              PassWork(s).Some? && IsOpen(s, PassWork(s).value) && HasFinished(s, PassWork(s).value)
  {
    var ids := AllIds(s);
    if i: nat :| IsRoundFirst(s, i) { FirstAt(s, OwnWork, ids, i); }
    if PassWork(s).Some? && IsOpen(s, PassWork(s).value) && HasFinished(s, PassWork(s).value) {
      var i :| 0 <= i < |ids| && ids[i] == PassWork(s).value && forall j | 0 <= j < i :: !Takes(s, OwnWork, ids[j]);
      assert IsRoundFirst(s, i);
    }
  }

  /** A concrete scope in which a practice round in progress comes before new material. */
  lemma RoundInProgressComesFirst(open: UnitId -> Answer)
    requires forall id :: open(id) == Open
    ensures var round := Room.Room(2, NO_STATE, Completed, Some(Introduced), Some(Review("r", InProgress, 0)));
            var s := Scope([Path("p", ["new", "old"])], 0, None, map["old" := round], open);
            Valid(s) && HasFinished(s, "old") && !HasFinished(s, "new") && Choose(s) == Offer("old", false)
  {
    var round := Room.Room(2, NO_STATE, Completed, Some(Introduced), Some(Review("r", InProgress, 0)));
    var s := Scope([Path("p", ["new", "old"])], 0, None, map["old" := round], open);
    OnePath(s);
    assert !Takes(s, OwnWork, "new") && Takes(s, OwnWork, "old");
    assert ["new", "old"][1..] == ["old"];
  }

  /** Unfinished work other than the room just left comes first; only such work can stop the request before it. */
  lemma OwnWorkFirst(s: Scope, id: UnitId)
    requires Valid(s) && id in AllIds(s) && !IsAfter(s, id) && IsWorking(s, id) && IsOpen(s, id)
    ensures Choose(s).Offer? || (Choose(s).Failed? && AskedBefore(s, Choose(s).unit, id))
    ensures IsWorking(s, Choose(s).unit) && !IsAfter(s, Choose(s).unit)
  {
    ChooseIsFound(s);
    if Found(s) != Some(id) { FoundIsFirst(s, id); }
  }

  // ----- The passes, step by step --------------------------------------------------------------------------------

  /** What the questions asked so far have met. */
  datatype Met = Met(down: bool, limited: bool, blocked: bool)

  function Noted(met: Met, answer: Answer): Met {
    match answer
    case Down => met.(down := true)
    case Limited => met.(limited := true)
    case Blocked => met.(blocked := true)
    case _ => met
  }

  ghost predicate IsMet(s: Scope, asked: set<UnitId>, met: Met) {
    && (met.down <==> exists id :: id in asked && s.answers(id) == Down)
    && (met.limited <==> exists id :: id in asked && s.answers(id) == Limited)
    && (met.blocked <==> exists id :: id in asked && s.answers(id) == Blocked)
  }

  lemma NotedIsMet(s: Scope, asked: set<UnitId>, met: Met, id: UnitId)
    requires IsMet(s, asked, met)
    ensures IsMet(s, asked + {id}, Noted(met, s.answers(id)))
  {
    assert id in asked + {id};
  }

  /** The pass has asked about all it wants of these. */
  ghost predicate HasAsked(s: Scope, pass: Pass, ids: seq<UnitId>, asked: set<UnitId>) {
    forall id | id in ids && Wants(s, pass, id) :: id in asked
  }

  ghost predicate AskedOnly(ids: seq<UnitId>, before: set<UnitId>, asked: set<UnitId>) {
    before <= asked && forall id | id in asked :: id in before || id in ids
  }

  /** One pass: asks about each wanted unit in turn until one is available or stops the request. */
  method RunPass(s: Scope, pass: Pass, ids: seq<UnitId>, met: Met, ghost asked: set<UnitId>)
    returns (found: Option<UnitId>, met': Met, ghost asked': set<UnitId>)
    requires IsMet(s, asked, met)
    ensures found == First(s, pass, ids)
    ensures IsMet(s, asked', met') && AskedOnly(ids, asked, asked')
    ensures found.None? ==> HasAsked(s, pass, ids, asked')
  {
    met', asked' := met, asked;
    for i := 0 to |ids|
      invariant forall j | 0 <= j < i :: !Takes(s, pass, ids[j])
      invariant IsMet(s, asked', met') && AskedOnly(ids, asked, asked')
      invariant HasAsked(s, pass, ids[..i], asked')
    {
      assert ids[..i + 1] == ids[..i] + [ids[i]];
      if Wants(s, pass, ids[i]) {
        var answer := s.answers(ids[i]);
        NotedIsMet(s, asked', met', ids[i]);
        asked', met' := asked' + {ids[i]}, Noted(met', answer);
        if answer == Open || answer == Failing || answer == Unshown {
          FirstAt(s, pass, ids, i);
          return Some(ids[i]), met', asked';
        }
      }
    }
    FirstAt(s, pass, ids, |ids|);
    assert ids[..|ids|] == ids;
    return None, met', asked';
  }

  /** The pass over new material, path by path. */
  method RunPaths(s: Scope, paths: seq<Path>, chosen: bool, met: Met, ghost asked: set<UnitId>)
    returns (found: Option<UnitId>, met': Met, ghost asked': set<UnitId>)
    requires IsMet(s, asked, met)
    ensures found == First(s, NewMaterial, NewOrder(s, paths, chosen))
    ensures IsMet(s, asked', met') && AskedOnly(NewOrder(s, paths, chosen), asked, asked')
    ensures found.None? ==> HasAsked(s, NewMaterial, NewOrder(s, paths, chosen), asked')
    decreases |paths|
  {
    if paths == [] { return None, met, asked; }
    var ids := PathOrder(s, paths[0], chosen);
    FirstAppend(s, NewMaterial, ids, NewOrder(s, paths[1..], false));
    found, met', asked' := RunPass(s, NewMaterial, ids, met, asked);
    if found.None? {
      found, met', asked' := RunPaths(s, paths[1..], false, met', asked');
    }
  }

  /** Everything asked about is of the direction. */
  ghost predicate InScope(s: Scope, asked: set<UnitId>)
    requires Valid(s)
  {
    forall id | id in asked :: id in AllIds(s)
  }

  lemma StaysInScope(s: Scope, ids: seq<UnitId>, before: set<UnitId>, asked: set<UnitId>)
    requires Valid(s) && InScope(s, before) && AskedOnly(ids, before, asked)
    requires ids == AllIds(s) || ids == NewOrder(s, Ordered(s), true) || ids == ReviewOrder(s)
    ensures InScope(s, asked)
  {
    forall id | id in asked ensures id in AllIds(s) {
      NewOrderHolds(s, id);
      ReviewOrderHolds(s, id);
    }
  }

  /** The passes over work in progress and new material. */
  method RunNew(s: Scope) returns (found: Option<UnitId>, met: Met, ghost asked: set<UnitId>)
    requires Valid(s)
    ensures found == if PassWork(s).Some? then PassWork(s) else PassNew(s)
    ensures IsMet(s, asked, met) && InScope(s, asked)
    ensures found.None? ==> HasAsked(s, NewMaterial, NewOrder(s, Ordered(s), true), asked)
  {
    found, met, asked := RunPass(s, OwnWork, AllIds(s), Met(false, false, false), {});
    StaysInScope(s, AllIds(s), {}, asked);
    if found.None? {
      ghost var before := asked;
      found, met, asked := RunPaths(s, Ordered(s), true, met, asked);
      StaysInScope(s, NewOrder(s, Ordered(s), true), before, asked);
    }
  }

  /** One pass over the repeats. */
  method RunRepeats(s: Scope, resume: bool, met: Met, ghost asked: set<UnitId>)
    returns (found: Option<UnitId>, met': Met, ghost asked': set<UnitId>)
    requires Valid(s) && IsMet(s, asked, met) && InScope(s, asked)
    ensures found == PassReview(s, resume)
    ensures IsMet(s, asked', met') && InScope(s, asked') && asked <= asked'
    ensures found.None? ==> HasAsked(s, Repeat(resume), ReviewOrder(s), asked')
  {
    found, met', asked' := RunPass(s, Repeat(resume), ReviewOrder(s), met, asked);
    StaysInScope(s, ReviewOrder(s), asked, asked');
  }

  /** Without a find, every unit of the direction but the room just left was asked about. */
  lemma AllAsked(s: Scope, asked: set<UnitId>, id: UnitId)
    requires Valid(s) && HasAsked(s, NewMaterial, NewOrder(s, Ordered(s), true), asked)
    requires HasAsked(s, Repeat(true), ReviewOrder(s), asked) && HasAsked(s, Repeat(false), ReviewOrder(s), asked)
    ensures id in AllIds(s) && !IsAfter(s, id) ==> id in asked
  {
    NewOrderHolds(s, id);
    ReviewOrderHolds(s, id);
    assert id in AllIds(s) && !IsAfter(s, id) && HasFinished(s, id) ==> Wants(s, Repeat(IsReviewing(s, id)), id);
  }

  lemma EndingIsMet(s: Scope, asked: set<UnitId>, met: Met)
    requires Valid(s) && IsMet(s, asked, met) && InScope(s, asked) && forall id | id in AllIds(s) :: id in asked
    ensures Ending(s) == if met.down then Raised else if met.limited then Nothing(LimitReached)
                         else if met.blocked then Nothing(Prerequisites) else Nothing(Unavailable)
  {}

  /** The end of `continuous_room`: the room just left, or the reason why there is none. */
  method Resort(s: Scope, met: Met, ghost asked: set<UnitId>) returns (next: Next)
    requires Valid(s) && IsMet(s, asked, met) && InScope(s, asked)
    requires forall id | id in AllIds(s) && !IsAfter(s, id) :: id in asked
    ensures next == if s.after.Some? && Ends(s, s.after.value)
                    then Given(s, s.after.value, HasFinished(s, s.after.value) && !IsReviewing(s, s.after.value))
                    else Ending(s)
  {
    var met' := met;
    ghost var asked' := asked;
    if s.after.Some? {
      ReviewOrderHolds(s, s.after.value);
      var answer := s.answers(s.after.value);
      NotedIsMet(s, asked, met, s.after.value);
      met', asked' := Noted(met, answer), asked + {s.after.value};
      if answer == Open || answer == Failing || answer == Unshown {
        return Given(s, s.after.value, HasFinished(s, s.after.value) && !IsReviewing(s, s.after.value));
      }
    }
    EndingIsMet(s, asked', met');
    return if met'.down then Raised else if met'.limited then Nothing(LimitReached)
           else if met'.blocked then Nothing(Prerequisites) else Nothing(Unavailable);
  }

  /** `continuous_room` */
  method ContinuousRoom(s: Scope) returns (next: Next)
    requires Valid(s)
    ensures next == Choose(s)
  {
    var found, met;
    ghost var asked;
    found, met, asked := RunNew(s);
    if found.Some? { return Given(s, found.value, false); }
    found, met, asked := RunRepeats(s, true, met, asked);
    if found.Some? { return Given(s, found.value, false); }
    found, met, asked := RunRepeats(s, false, met, asked);
    if found.Some? { return Given(s, found.value, true); }
    forall id | id in AllIds(s) && !IsAfter(s, id) ensures id in asked { AllAsked(s, asked, id); }
    next := Resort(s, met, asked);
  }
}
