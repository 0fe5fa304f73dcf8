/**
 The order in which the continuous stream of rooms asks: onwards from the room just left, path by path, what is begun
 first; and why there is no room in the end.
 */
module RoomOrder {
  import opened Options
  import opened Ids
  import opened Rooms
  import opened RoomStream

  predicate IsBefore(ids: seq<UnitId>, a: UnitId, b: UnitId) {
    a in ids && b in ids && IndexOf(ids, a) < IndexOf(ids, b)
  }

  lemma {:induction false} IndexInConcat(x: seq<UnitId>, y: seq<UnitId>, id: UnitId)
    requires id in x + y
    ensures IndexOf(x + y, id) == if id in x then IndexOf(x, id) else |x| + IndexOf(y, id)
  {
    if x == [] {
      assert x + y == y;
    } else {
      assert (x + y)[0] == x[0] && (x + y)[1..] == x[1..] + y;
      if x[0] != id { IndexInConcat(x[1..], y, id); }
    }
  }

  /** What is in the first of two parts comes before what is only in the second. */
  lemma PartsInOrder(x: seq<UnitId>, y: seq<UnitId>, a: UnitId, b: UnitId)
    requires a in x && b in y && b !in x
    ensures IsBefore(x + y, a, b)
  {
    IndexInConcat(x, y, a);
    IndexInConcat(x, y, b);
  }

  lemma BeforeInFirst(x: seq<UnitId>, y: seq<UnitId>, a: UnitId, b: UnitId)
    requires IsBefore(x, a, b)
    ensures IsBefore(x + y, a, b)
  {
    IndexInConcat(x, y, a);
    IndexInConcat(x, y, b);
  }

  lemma BeforeInSecond(x: seq<UnitId>, y: seq<UnitId>, a: UnitId, b: UnitId)
    requires IsBefore(y, a, b) && a !in x && b !in x
    ensures IsBefore(x + y, a, b)
  {
    IndexInConcat(x, y, a);
    IndexInConcat(x, y, b);
  }

  /** Whether place i comes before place j where those from one place on come first and those up to another follow. */
  predicate ComesFirst(i: nat, j: nat, from: nat, upTo: nat) {
    if i >= from then j < upTo || j > i else i < j < upTo
  }

  /** Where ids are turned around a place, what lies from there on comes first, each part in its old order. */
  lemma Turned(ids: seq<UnitId>, from: nat, upTo: nat, a: UnitId, b: UnitId)
    requires DistinctIds(ids) && upTo <= from <= |ids| && a in ids && b in ids
    requires ComesFirst(IndexOf(ids, a), IndexOf(ids, b), from, upTo)
    ensures IsBefore(ids[from..] + ids[..upTo], a, b)
  {
    var i, j := IndexOf(ids, a), IndexOf(ids, b);
    SplitAt(ids, from, a);
    SplitAt(ids, from, b);
    SplitAt(ids, upTo, a);
    SplitAt(ids, upTo, b);
    if i >= from && j < upTo {
      PartsInOrder(ids[from..], ids[..upTo], a, b);
    } else if i >= from {
      BeforeInFirst(ids[from..], ids[..upTo], a, b);
    } else {
      BeforeInSecond(ids[from..], ids[..upTo], a, b);
    }
  }

  /** An id of a list without repeats lies in exactly one of its two parts. */
  lemma SplitAt(ids: seq<UnitId>, at: nat, id: UnitId)
    requires DistinctIds(ids) && at <= |ids| && id in ids
    ensures id in ids[..at] <==> IndexOf(ids, id) < at
    ensures id in ids[at..] <==> IndexOf(ids, id) >= at
    ensures IndexOf(ids, id) < at ==> IndexOf(ids[..at], id) == IndexOf(ids, id)
    ensures IndexOf(ids, id) >= at ==> IndexOf(ids[at..], id) == IndexOf(ids, id) - at
  {
    assert ids == ids[..at] + ids[at..];
    IndexInConcat(ids[..at], ids[at..], id);
  }

  // ----- New material ------------------------------------------------------------------------------------------------

  lemma ChosenIsDistinct(s: Scope)
    requires Valid(s)
    ensures DistinctIds(s.paths[s.at].units)
    ensures forall id | id in s.paths[s.at].units :: id !in Concat(Ordered(s)[1..])
  {
    OrderedStartsHere(s);
    var first, rest := s.paths[s.at].units, Concat(Ordered(s)[1..]);
    forall i, j | 0 <= i < j < |first| ensures first[i] != first[j] {
      assert (first + rest)[i] == first[i] && (first + rest)[j] == first[j];
    }
    forall id | id in first ensures id !in rest { FirstIsDistinct(first, rest, id); }
  }

  lemma PathIsTurned(s: Scope, path: Path, left: nat)
    requires s.after.Some? && s.after.value in path.units && left == IndexOf(path.units, s.after.value)
    ensures left < |path.units|
    ensures PathOrder(s, path, true) == path.units[left + 1..] + path.units[..left]
  {
  }

  lemma PathGoesOn(s: Scope, path: Path, left: nat, a: UnitId, b: UnitId)
    requires s.after.Some? && s.after.value in path.units && left == IndexOf(path.units, s.after.value)
    requires DistinctIds(path.units) && a in path.units && b in path.units
    requires ComesFirst(IndexOf(path.units, a), IndexOf(path.units, b), left + 1, left)
    ensures IsBefore(PathOrder(s, path, true), a, b)
  {
    PathIsTurned(s, path, left);
    var turned := path.units[left + 1..] + path.units[..left];
    assert IsBefore(turned, a, b) by { Turned(path.units, left + 1, left, a, b); }
  }

  /** After a room, new material goes on along its path, and what lies before it comes last. */
  lemma GoesOn(s: Scope, a: UnitId, b: UnitId)
    requires Valid(s) && s.after.Some? && a in s.paths[s.at].units && b in s.paths[s.at].units
    requires var units := s.paths[s.at].units;
             var left, i, j := IndexOf(units, s.after.value), IndexOf(units, a), IndexOf(units, b);
             if i > left then j < left || j > i else i < j < left
    ensures IsBefore(NewOrder(s, Ordered(s), true), a, b)
  {
    OrderedStartsHere(s);
    ChosenIsDistinct(s);
    PathGoesOn(s, s.paths[s.at], IndexOf(s.paths[s.at].units, s.after.value), a, b);
    BeforeInFirst(PathOrder(s, s.paths[s.at], true), NewOrder(s, Ordered(s)[1..], false), a, b);
  }

  /** The paths follow one another from the chosen one. */
  lemma ChosenPathFirst(s: Scope, a: UnitId, b: UnitId)
    requires Valid(s) && a in s.paths[s.at].units && !IsAfter(s, a)
    requires b in AllIds(s) && b !in s.paths[s.at].units
    ensures IsBefore(NewOrder(s, Ordered(s), true), a, b)
  {
    OrderedStartsHere(s);
    NewOrderHolds(s, a);
    NewOrderHolds(s, b);
    ChosenIsDistinct(s);
    var first, rest := PathOrder(s, s.paths[s.at], true), NewOrder(s, Ordered(s)[1..], false);
    if s.after.Some? {
      RotatedHolds(s.paths[s.at].units, s.after.value, a);
      RotatedHolds(s.paths[s.at].units, s.after.value, b);
    }
    assert NewOrder(s, Ordered(s), true) == first + rest;
    PartsInOrder(first, rest, a, b);
  }

  lemma {:induction false} LaterPathLater(s: Scope, paths: seq<Path>, i: nat, j: nat, a: UnitId, b: UnitId)
    requires i < j < |paths| && a in paths[i].units && b in paths[j].units && DistinctIds(Concat(paths))
    requires s.after.Some? ==> s.after.value !in Concat(paths)
    ensures IsBefore(NewOrder(s, paths, false), a, b)
  {
    var first, rest := paths[0].units, Concat(paths[1..]);
    InPath(paths, j, b);
    InPath(paths[1..], j - 1, b);
    assert DistinctIds(first + rest);
    forall k, l | 0 <= k < l < |rest| ensures rest[k] != rest[l] {
      assert (first + rest)[|first| + k] == rest[k] && (first + rest)[|first| + l] == rest[l];
    }
    InNewOrder(s, paths[1..], b);
    if b in first { FirstIsDistinct(first, rest, b); }
    if i == 0 {
      PartsInOrder(PathOrder(s, paths[0], false), NewOrder(s, paths[1..], false), a, b);
    } else {
      InPath(paths[1..], i - 1, a);
      InNewOrder(s, paths[1..], a);
      if a in first { FirstIsDistinct(first, rest, a); }
      LaterPathLater(s, paths[1..], i - 1, j - 1, a, b);
      BeforeInSecond(PathOrder(s, paths[0], false), NewOrder(s, paths[1..], false), a, b);
    }
  }

  /** The other paths follow in turn, around to the one before the chosen path. */
  lemma PathsInTurn(s: Scope, i: nat, j: nat, a: UnitId, b: UnitId)
    requires Valid(s) && 0 < i < j < |Ordered(s)| && a in Ordered(s)[i].units && b in Ordered(s)[j].units
    ensures IsBefore(NewOrder(s, Ordered(s), true), a, b)
  {
    OrderedStartsHere(s);
    ChosenIsDistinct(s);
    var first, rest := s.paths[s.at].units, Ordered(s)[1..];
    var ids := Concat(rest);
    forall k, l | 0 <= k < l < |ids| ensures ids[k] != ids[l] {
      assert (first + ids)[|first| + k] == ids[k] && (first + ids)[|first| + l] == ids[l];
    }
    InPath(rest, i - 1, a);
    InPath(rest, j - 1, b);
    LaterPathLater(s, rest, i - 1, j - 1, a, b);
    if s.after.Some? {
      RotatedHolds(first, s.after.value, a);
      RotatedHolds(first, s.after.value, b);
    }
    BeforeInSecond(PathOrder(s, s.paths[s.at], true), NewOrder(s, rest, false), a, b);
  }

  lemma {:induction false} InPath(paths: seq<Path>, i: nat, id: UnitId)
    requires i < |paths| && id in paths[i].units
    ensures id in Concat(paths)
  {
    if i > 0 { InPath(paths[1..], i - 1, id); }
  }

  /** Without a room just left, what is begun comes first in each path, and else the path's own order counts. */
  lemma BegunFirst(s: Scope, path: Path, chosen: bool, a: UnitId, b: UnitId)
    requires s.after.None? && a in path.units && b in path.units && a != b
    requires if IsBegun(s, a) == IsBegun(s, b) then IndexOf(path.units, a) < IndexOf(path.units, b) else IsBegun(s, a)
    ensures IsBefore(PathOrder(s, path, chosen), a, b)
  {
    var begun, others := WhereBegun(s, path.units, true), WhereBegun(s, path.units, false);
    if !IsBegun(s, b) && IsBegun(s, a) {
      PartsInOrder(begun, others, a, b);
    } else {
      WhereKeepsOrder(s, path.units, IsBegun(s, a), a, b);
      if IsBegun(s, a) { BeforeInFirst(begun, others, a, b); } else { BeforeInSecond(begun, others, a, b); }
    }
  }

  lemma {:induction false} WhereKeepsOrder(s: Scope, ids: seq<UnitId>, begun: bool, a: UnitId, b: UnitId)
    requires IsBefore(ids, a, b) && IsBegun(s, a) == begun && IsBegun(s, b) == begun
    ensures IsBefore(WhereBegun(s, ids, begun), a, b)
  {
    if ids[0] != a {
      WhereKeepsOrder(s, ids[1..], begun, a, b);
      var head := if IsBegun(s, ids[0]) == begun then [ids[0]] else [];
      assert ids[0] != b;
      BeforeInSecond(head, WhereBegun(s, ids[1..], begun), a, b);
    } else {
      assert b in ids[1..];
      PartsInOrder([a], WhereBegun(s, ids[1..], begun), a, b);
    }
  }

  // ----- Repeats -----------------------------------------------------------------------------------------------------

  /** Repeats go on from the room just left through the whole direction, and around to it again. */
  lemma RepeatsGoOn(s: Scope, a: UnitId, b: UnitId)
    requires Valid(s) && a in AllIds(s) && b in AllIds(s)
    requires s.after.Some? ==> s.after.value in AllIds(s)
    requires var ids := AllIds(s);
             var left := if s.after.Some? then IndexOf(ids, s.after.value) else -1;
             var i, j := IndexOf(ids, a), IndexOf(ids, b);
             if i > left then j <= left || j > i else i < j <= left
    ensures IsBefore(ReviewOrder(s), a, b)
  {
    var ids := AllIds(s);
    var cursor := if s.after.Some? then IndexOf(ids, s.after.value) + 1 else 0;
    Turned(ids, cursor, cursor, a, b);
  }

  // ----- No room -----------------------------------------------------------------------------------------------------

  predicate Meets(s: Scope, answer: Answer)
    requires Valid(s)
  {
    exists id :: id in AllIds(s) && s.answers(id) == answer
  }

  /** Without a room, an outage of the learning access is raised; else the limit is the reason, then the introductions. */
  lemma EndingIsExact(s: Scope)
    requires Valid(s)
    ensures var none := !Meets(s, Open) && !Meets(s, Failing) && !Meets(s, Unshown);
            && (Choose(s) == Raised <==> none && Meets(s, Down))
            && (Choose(s) == Nothing(LimitReached) <==> none && !Meets(s, Down) && Meets(s, Limited))
            && (Choose(s) == Nothing(Prerequisites) <==> none && !Meets(s, Down) && !Meets(s, Limited) && Meets(s, Blocked))
            && (Choose(s) == Nothing(Unavailable) <==>
                  none && !Meets(s, Down) && !Meets(s, Limited) && !Meets(s, Blocked))
  {
    ChooseIsFound(s);
    if Found(s).None? {
      forall id | id in AllIds(s) ensures !Ends(s, id) { FoundMissesNothing(s, id); }
    }
  }
}
