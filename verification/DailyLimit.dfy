/**
 The daily limit of lesson starts (api/services/daily_limit.py): one durable start per lesson, charged to the local
 day of its insertion, under the user guard.
 */
module DailyLimit {
  import opened FiniteSets
  import opened Options
  import opened Ids

  type LessonId = string
  /** A local calendar day, counted from some first day. */
  type Day = int

  datatype Mode = Off | Shadow | Enforce
  datatype Limit = Limit(mode: Mode, starts: int)

  /** The shop's learning policy; Unknown is its outage. */
  datatype Policy = Unknown | Known(daily: bool, premium: bool)

  datatype Lesson = Lesson(user: UserId, course: CourseId, lesson: LessonId)
  datatype RequestKey = RequestKey(user: UserId, request: RequestId)
  datatype LessonStart = LessonStart(day: Day, charged: bool)
  datatype Tables = Tables(erased: set<UserId>, starts: map<Lesson, LessonStart>, requests: map<RequestKey, Lesson>)

  /**
   What one start meets: the configuration and the policy, whether the learner is an administrator, owns the course
   or gets it free, the evidence of earlier progress here and in the challenge service (None is an outage), and
   the local day at the status read and at the insertion.
   */
  datatype World = World(limit: Limit, policy: Policy, admin: bool, purchased: bool, owned: bool, free: bool, here: bool,
                         there: Option<bool>, statusDay: Day, insertDay: Day)

  datatype Reply = AccountGone | RequestConflict | LimitReached | NoAnswer | Legacy | Started | Repeated

  datatype Status = Status(unlimited: bool, canStart: bool)

  function ChargedOn(starts: map<Lesson, LessonStart>, user: UserId, day: Day): set<Lesson> {
    set k | k in starts && k.user == user && starts[k].charged && starts[k].day == day
  }

  /** `historical_progress`; None when the evidence is out of reach. */
  function Historical(w: World, withHistory: bool): Option<bool> {
    if w.here then Some(true) else if withHistory then w.there else Some(false)
  }

  predicate IsEnforced(w: World) {
    w.policy.Known? && w.policy.daily && w.limit.mode == Enforce
  }

  predicate IsUnlimited(w: World)
    requires w.policy.Known?
  {
    w.admin || w.policy.premium || w.purchased
  }

  /** `optional_status`: None while the policy or the evidence is unknown. */
  function StatusOf(t: Tables, k: Lesson, w: World): Option<Status> {
    if w.policy.Unknown? then None
    else
      var unlimited := IsUnlimited(w);
      var earlier := Historical(w, !unlimited);
      if k !in t.starts && earlier.None? then None
      else
        var exempt := unlimited || k in t.starts || earlier == Some(true);
        Some(Status(unlimited, !IsEnforced(w) || exempt || |ChargedOn(t.starts, k.user, w.statusDay)| < w.limit.starts))
  }

  /** `start`; the receipt of an answered request comes first, a lesson that has begun is never charged again. */
  function AfterStart(t: Tables, k: Lesson, request: Option<RequestId>, w: World): (Tables, Reply) {
    var receipt := if request.Some? then Some(RequestKey(k.user, request.value)) else None;
    if k.user in t.erased then (t, AccountGone)
    else if receipt.Some? && receipt.value in t.requests then
      (t, if t.requests[receipt.value] == k then Repeated else RequestConflict)
    else
      var status := StatusOf(t, k, w);
      if status.None? && !w.free && !w.admin && !w.owned && k !in t.starts && Historical(w, true) != Some(true)
      then (t, NoAnswer)
      else if status.Some? && !status.value.canStart then (t, LimitReached)
      else if status.Some? && !w.policy.daily && w.limit.mode == Off then (t, Legacy)
      else
        var earlier := Historical(w, !(status.Some? && status.value.unlimited));
        if k !in t.starts && earlier.None? && IsEnforced(w) then (t, NoAnswer)
        else
          var charged := status.Some? && earlier != Some(true) && !status.value.unlimited && w.limit.mode != Off;
          var starts := if k in t.starts then t.starts else t.starts[k := LessonStart(w.insertDay, charged)];
          var requests := if receipt.Some? then t.requests[receipt.value := k] else t.requests;
          (Tables(t.erased, starts, requests), Started)
  }

  function AfterErase(t: Tables, user: UserId): Tables {
    Tables(t.erased + {user}, map k | k in t.starts && k.user != user :: t.starts[k],
           map r | r in t.requests && r.user != user :: t.requests[r])
  }

  // ----- Step by step ---------------------------------------------------------------------------------------------

  class Admissions {
    var erased: set<UserId>
    var starts: map<Lesson, LessonStart>
    var requests: map<RequestKey, Lesson>

    function Contents(): Tables
      reads this
    {
      Tables(erased, starts, requests)
    }

    constructor ()
      ensures Contents() == Tables({}, map[], map[])
    {
      erased, starts, requests := {}, map[], map[];
    }

    /** The starts charged by each day, as `snapshot` counts them. */
    method CountCharged(user: UserId) returns (byDay: map<Day, nat>)
      ensures forall day {:trigger CountOn(byDay, day)} :: CountOn(byDay, day) == |ChargedOn(starts, user, day)|
    {
      byDay := map[];
      var todo := starts.Keys;
      while todo != {}
        invariant todo <= starts.Keys
        invariant Counts(starts, user, todo, byDay)
        decreases todo
      {
        var k :| k in todo;
        CountOneMore(starts, user, todo, k, byDay);
        if k.user == user && starts[k].charged {
          byDay := byDay[starts[k].day := CountOn(byDay, starts[k].day) + 1];
        }
        todo := todo - {k};
      }
      forall day ensures CountOn(byDay, day) == |ChargedOn(starts, user, day)| {
        assert ChargedOn(starts, user, day) - {} == ChargedOn(starts, user, day);
      }
    }

    method Start(k: Lesson, request: Option<RequestId>, w: World) returns (reply: Reply)
      modifies this`starts, this`requests
      ensures (Contents(), reply) == AfterStart(old(Contents()), k, request, w)
    {
      if k.user in erased { return AccountGone; }
      if request.Some? {
        var receipt := RequestKey(k.user, request.value);
        if receipt in requests {
          if requests[receipt] != k { return RequestConflict; }
          return Repeated;
        }
      }
      var status := ReadStatus(k, w);
      if status.None? && !w.free && !w.admin {
        if !w.owned && k !in starts && Historical(w, true) != Some(true) { return NoAnswer; }
      }
      if status.Some? {
        if !status.value.canStart { return LimitReached; }
        if !w.policy.daily && w.limit.mode == Off { return Legacy; }
      }
      if k !in starts {
        var earlier := Historical(w, !(status.Some? && status.value.unlimited));
        if earlier.None? && IsEnforced(w) { return NoAnswer; }
        var charged := status.Some? && earlier != Some(true) && !status.value.unlimited && w.limit.mode != Off;
        starts := starts[k := LessonStart(w.insertDay, charged)];
      }
      if request.Some? { requests := requests[RequestKey(k.user, request.value) := k]; }
      return Started;
    }

    method ReadStatus(k: Lesson, w: World) returns (status: Option<Status>)
      ensures status == StatusOf(Contents(), k, w)
    {
      if w.policy.Unknown? { return None; }
      var byDay := CountCharged(k.user);
      var used := CountOn(byDay, w.statusDay);
      var unlimited := IsUnlimited(w);
      var started := k in starts;
      if !started {
        var earlier := Historical(w, !unlimited);
        if earlier.None? { return None; }
        started := earlier.value;
      }
      return Some(Status(unlimited, !IsEnforced(w) || unlimited || started || used < w.limit.starts));
    }

    method Erase(user: UserId)
      modifies this
      ensures Contents() == AfterErase(old(Contents()), user)
    {
      erased := erased + {user};
      requests := map r | r in requests && r.user != user :: requests[r];
      starts := map k | k in starts && k.user != user :: starts[k];
    }
  }

  function CountOn(byDay: map<Day, nat>, day: Day): nat {
    if day in byDay then byDay[day] else 0
  }

  /** The charged starts of each day, but for those still to be looked at. */
  ghost predicate Counts(starts: map<Lesson, LessonStart>, user: UserId, todo: set<Lesson>, byDay: map<Day, nat>) {
    forall day {:trigger CountOn(byDay, day)} :: CountOn(byDay, day) == |ChargedOn(starts, user, day) - todo|
  }

  lemma CountOneMore(starts: map<Lesson, LessonStart>, user: UserId, todo: set<Lesson>, k: Lesson, byDay: map<Day, nat>)
    requires k in todo && k in starts && Counts(starts, user, todo, byDay)
    ensures Counts(starts, user, todo - {k},
                   if k.user == user && starts[k].charged
                   then byDay[starts[k].day := CountOn(byDay, starts[k].day) + 1] else byDay)
  {
    var after := if k.user == user && starts[k].charged
                 then byDay[starts[k].day := CountOn(byDay, starts[k].day) + 1] else byDay;
    forall day ensures CountOn(after, day) == |ChargedOn(starts, user, day) - (todo - {k})| {
      assert ChargedOn(starts, user, day) - (todo - {k})
          == (ChargedOn(starts, user, day) - todo) + if k in ChargedOn(starts, user, day) then {k} else {};
      assert CountOn(byDay, day) == |ChargedOn(starts, user, day) - todo|;
    }
  }

  // ----- Runs -------------------------------------------------------------------------------------------------------

  datatype Event =
    | StartEvent(lesson: Lesson, request: Option<RequestId>, world: World)
    | TombstoneEvent(user: UserId)
    | EraseEvent(user: UserId)

  function Step(t: Tables, e: Event): Tables {
    match e
    case StartEvent(k, request, w) => AfterStart(t, k, request, w).0
    case TombstoneEvent(user) => t.(erased := t.erased + {user})
    case EraseEvent(user) => AfterErase(t, user)
  }

  function Run(t: Tables, events: seq<Event>): Tables
    decreases events
  {
    if events == [] then t else Run(Step(t, events[0]), events[1..])
  }

  const EMPTY := Tables({}, map[], map[])

  predicate IsStartOf(e: Event, user: UserId) {
    e.StartEvent? && e.lesson.user == user
  }

  /** The starts of this learner meet this limit, enforced. */
  predicate IsEnforcedFor(events: seq<Event>, user: UserId, limit: int) {
    forall i | 0 <= i < |events| && IsStartOf(events[i], user) :: IsEnforcedWith(events[i].world, limit)
  }

  predicate IsEnforcedWith(w: World, limit: int) {
    w.limit == Limit(Enforce, limit) && (w.policy.Known? ==> w.policy.daily)
  }

  /** The local days of one start: that of the status read, whose starts are counted, and that of the insertion. */
  datatype Days = Days(status: Day, insert: Day)

  function DaysOf(events: seq<Event>, user: UserId): seq<Days>
    decreases |events|
  {
    if events == [] then []
    else
      var last := events[|events| - 1];
      DaysOf(events[..|events| - 1], user)
      + if IsStartOf(last, user) then [Days(last.world.statusDay, last.world.insertDay)] else []
  }

  /** A start that counted another day than the one it is charged to is the first on that one. */
  predicate IsOrderly(days: seq<Days>) {
    forall i, j | 0 <= i < j < |days| && days[i].insert == days[j].insert :: days[j].status == days[j].insert
  }

  function AtMost(limit: int): nat {
    if limit > 0 then limit else 0
  }

  /** No local day holds more charged starts of the learner than the limit. */
  ghost predicate IsWithin(t: Tables, user: UserId, limit: int) {
    forall day {:trigger ChargedOn(t.starts, user, day)} :: |ChargedOn(t.starts, user, day)| <= AtMost(limit)
  }

  /** Every start there is was inserted on one of these days. */
  predicate IsDated(t: Tables, user: UserId, days: seq<Days>) {
    forall k | k in t.starts && k.user == user :: exists i :: 0 <= i < |days| && days[i].insert == t.starts[k].day
  }

  lemma ChargedAfterInsert(starts: map<Lesson, LessonStart>, k: Lesson, row: LessonStart, user: UserId, day: Day)
    requires k !in starts
    ensures ChargedOn(starts[k := row], user, day)
         == ChargedOn(starts, user, day) + if k.user == user && row.charged && row.day == day then {k} else {}
  {}

  /** A start that is charged under enforcement found the day of its status read below the limit. */
  lemma InsertShape(t: Tables, k: Lesson, request: Option<RequestId>, w: World)
    requires w.limit.mode == Enforce && (w.policy.Known? ==> w.policy.daily)
    ensures var starts := AfterStart(t, k, request, w).0.starts;
            starts != t.starts ==>
              && k !in t.starts && k in starts && starts == t.starts[k := starts[k]] && starts[k].day == w.insertDay
              && (starts[k].charged ==> |ChargedOn(t.starts, k.user, w.statusDay)| < w.limit.starts)
  {}

  /** The day charged holds fewer starts than the limit: it is the day counted, or it holds none yet. */
  lemma InsertStaysWithin(t: Tables, k: Lesson, row: LessonStart, statusDay: Day, limit: int)
    requires IsWithin(t, k.user, limit) && k !in t.starts
    requires row.charged ==> |ChargedOn(t.starts, k.user, statusDay)| < limit
    requires row.day == statusDay || ChargedOn(t.starts, k.user, row.day) == {}
    ensures IsWithin(t.(starts := t.starts[k := row]), k.user, limit)
  {
    var starts := t.starts[k := row];
    forall day ensures |ChargedOn(starts, k.user, day)| <= AtMost(limit) {
      ChargedAfterInsert(t.starts, k, row, k.user, day);
      assert |ChargedOn(t.starts, k.user, day)| <= AtMost(limit);
    }
  }

  lemma StartStaysWithin(t: Tables, k: Lesson, request: Option<RequestId>, w: World, limit: int, days: seq<Days>)
    requires IsWithin(t, k.user, limit) && IsDated(t, k.user, days) && IsEnforcedWith(w, limit)
    requires w.statusDay == w.insertDay || forall i | 0 <= i < |days| :: days[i].insert != w.insertDay
    ensures var t' := AfterStart(t, k, request, w).0;
            IsWithin(t', k.user, limit) && IsDated(t', k.user, days + [Days(w.statusDay, w.insertDay)])
  {
    InsertShape(t, k, request, w);
    var starts := AfterStart(t, k, request, w).0.starts;
    if starts != t.starts { InsertStaysWithin(t, k, starts[k], w.statusDay, limit); }
    StaysDated(t, AfterStart(t, k, request, w).0, k.user, days, [Days(w.statusDay, w.insertDay)]);
  }

  lemma StaysDated(before: Tables, after: Tables, user: UserId, days: seq<Days>, more: seq<Days>)
    requires IsDated(before, user, days)
    requires forall k | k in after.starts && k.user == user ::
               || (k in before.starts && after.starts[k].day == before.starts[k].day)
               || (more != [] && after.starts[k].day == more[0].insert)
    ensures IsDated(after, user, days + more)
  {
    forall k | k in after.starts && k.user == user
      ensures exists i :: 0 <= i < |days + more| && (days + more)[i].insert == after.starts[k].day
    {
      if k in before.starts && after.starts[k].day == before.starts[k].day {
        var i :| 0 <= i < |days| && days[i].insert == before.starts[k].day;
        assert (days + more)[i] == days[i];
      } else {
        assert (days + more)[|days|] == more[0];
      }
    }
  }

  lemma OthersStayWithin(t: Tables, e: Event, user: UserId, limit: int, days: seq<Days>)
    requires IsWithin(t, user, limit) && IsDated(t, user, days) && !IsStartOf(e, user)
    ensures IsWithin(Step(t, e), user, limit) && IsDated(Step(t, e), user, days)
  {
    var t' := Step(t, e);
    forall day ensures ChargedOn(t'.starts, user, day) <= ChargedOn(t.starts, user, day) {}
    forall day ensures |ChargedOn(t'.starts, user, day)| <= AtMost(limit) {
      SubsetIsNotLarger(ChargedOn(t'.starts, user, day), ChargedOn(t.starts, user, day));
    }
    StaysDated(t, t', user, days, []);
    assert days + [] == days;
  }

  lemma {:induction false} RunAppend(t: Tables, events: seq<Event>, e: Event)
    ensures Run(t, events + [e]) == Step(Run(t, events), e)
    decreases events
  {
    if events == [] {
      assert [e][1..] == [];
    } else {
      assert (events + [e])[1..] == events[1..] + [e];
      RunAppend(Step(t, events[0]), events[1..], e);
    }
  }

  lemma {:induction false} OrderlyRunIsWithin(events: seq<Event>, user: UserId, limit: int)
    requires IsEnforcedFor(events, user, limit) && IsOrderly(DaysOf(events, user))
    ensures IsWithin(Run(EMPTY, events), user, limit) && IsDated(Run(EMPTY, events), user, DaysOf(events, user))
    decreases |events|
  {
    if events == [] {
      forall day ensures |ChargedOn(EMPTY.starts, user, day)| <= AtMost(limit) {
        assert ChargedOn(EMPTY.starts, user, day) == {};
      }
    } else {
      var before, e := events[..|events| - 1], events[|events| - 1];
      var days, earlier := DaysOf(events, user), DaysOf(before, user);
      assert IsOrderly(earlier) by { assert forall i | 0 <= i < |earlier| :: earlier[i] == days[i]; }
      OrderlyRunIsWithin(before, user, limit);
      assert before + [e] == events;
      RunAppend(EMPTY, before, e);
      if IsStartOf(e, user) {
        assert forall i | 0 <= i < |earlier| :: earlier[i] == days[i];
        assert days[|earlier|] == Days(e.world.statusDay, e.world.insertDay);
        StartStaysWithin(Run(EMPTY, before), e.lesson, e.request, e.world, limit, earlier);
      } else {
        OthersStayWithin(Run(EMPTY, before), e, user, limit, earlier);
        assert days == earlier;
      }
    }
  }

  /** On these days, every run that enforces a limit keeps it on every local day. */
  ghost predicate LimitHoldsOn(user: UserId, days: seq<Days>) {
    forall events, limit | DaysOf(events, user) == days && IsEnforcedFor(events, user, limit) ::
      IsWithin(Run(EMPTY, events), user, limit)
  }

  /**
   While the limit is enforced, no local day ever charges a learner more starts than it allows, if and only if every
   start across midnight is the first on the day it is charged to. On a clock that never steps back it is.
   */
  lemma LimitHolds(user: UserId, days: seq<Days>)
    ensures LimitHoldsOn(user, days) <==> IsOrderly(days)
    ensures (forall i, j | 0 <= i < j < |days| :: days[i].insert <= days[j].status <= days[j].insert) ==> IsOrderly(days)
  {
    if IsOrderly(days) {
      forall events, limit | DaysOf(events, user) == days && IsEnforcedFor(events, user, limit)
        ensures IsWithin(Run(EMPTY, events), user, limit)
      {
        OrderlyRunIsWithin(events, user, limit);
      }
    } else {
      var i, j :| 0 <= i < j < |days| && days[i].insert == days[j].insert && days[j].status != days[j].insert;
      DisorderExceeds(user, days, i, j);
    }
  }

  /** A start that is refused, because nothing is known of the learner's access. */
  function Refused(user: UserId, days: Days): Event {
    var unknown := World(Limit(Enforce, 1), Unknown, false, false, false, false, false, None, days.status, days.insert);
    StartEvent(Lesson(user, "refused", "refused"), None, unknown)
  }

  /** A start on the daily limit of one lesson. */
  function Fresh(user: UserId, lesson: LessonId, days: Days): Event {
    var daily := World(Limit(Enforce, 1), Known(true, false), false, false, false, false, false, Some(false), days.status,
                       days.insert);
    StartEvent(Lesson(user, "course", lesson), None, daily)
  }

  /** The i-th and the j-th start are fresh, the others are refused. */
  function TwoStarts(user: UserId, days: seq<Days>, i: nat, j: nat): seq<Event> {
    if days == [] then []
    else
      var n := |days| - 1;
      TwoStarts(user, days[..n], i, j)
      + [if n == i then Fresh(user, "first", days[n]) else if n == j then Fresh(user, "second", days[n])
         else Refused(user, days[n])]
  }

  /** What the two starts leave: the first is charged, and the second too, as the day it counts holds no start. */
  function AfterTwo(user: UserId, days: seq<Days>, i: nat, j: nat): map<Lesson, LessonStart> {
    (if i < |days| then map[Lesson(user, "course", "first") := LessonStart(days[i].insert, true)] else map[])
    + if j < |days| then map[Lesson(user, "course", "second") := LessonStart(days[j].insert, true)] else map[]
  }

  lemma {:induction false} TwoStartsRun(user: UserId, days: seq<Days>, i: nat, j: nat)
    requires i < j && (j < |days| ==> days[i].insert != days[j].status)
    ensures var events := TwoStarts(user, days, i, j);
            && DaysOf(events, user) == days && IsEnforcedFor(events, user, 1)
            && Run(EMPTY, events) == Tables({}, AfterTwo(user, days, i, j), map[])
    decreases |days|
  {
    if days != [] {
      var n := |days| - 1;
      var before, events := TwoStarts(user, days[..n], i, j), TwoStarts(user, days, i, j);
      var e := events[|events| - 1];
      assert events == before + [e];
      TwoStartsRun(user, days[..n], i, j);
      RunAppend(EMPTY, before, e);
      OneStartMore(user, days, i, j, e);
      assert days[..n] + [days[n]] == days;
    }
  }

  lemma OneStartMore(user: UserId, days: seq<Days>, i: nat, j: nat, e: Event)
    requires i < j && (j < |days| ==> days[i].insert != days[j].status) && days != []
    requires var n := |days| - 1;
             e == if n == i then Fresh(user, "first", days[n]) else if n == j then Fresh(user, "second", days[n])
                  else Refused(user, days[n])
    ensures Step(Tables({}, AfterTwo(user, days[..|days| - 1], i, j), map[]), e)
         == Tables({}, AfterTwo(user, days, i, j), map[])
  {
    var starts := AfterTwo(user, days[..|days| - 1], i, j);
    assert |days| - 1 in {i, j} ==> ChargedOn(starts, user, e.world.statusDay) == {};
  }

  /** Two starts on one day, the later of which counted another: a limit of one lesson is exceeded. */
  lemma DisorderExceeds(user: UserId, days: seq<Days>, i: nat, j: nat)
    requires i < j < |days| && days[i].insert == days[j].insert != days[j].status
    ensures !LimitHoldsOn(user, days)
  {
    TwoStartsRun(user, days, i, j);
    var starts := AfterTwo(user, days, i, j);
    var first, second := Lesson(user, "course", "first"), Lesson(user, "course", "second");
    assert ChargedOn(starts, user, days[j].insert) == {first, second};
    assert |ChargedOn(Run(EMPTY, TwoStarts(user, days, i, j)).starts, user, days[j].insert)| == 2;
  }

  /** Midnight between the status read and the insertion: the start counts one day and is charged to the next. */
  lemma MidnightStart(user: UserId)
    ensures var e := Fresh(user, "first", Days(1, 2));
            Step(EMPTY, e).starts == map[e.lesson := LessonStart(2, true)] && e.world.statusDay == 1
  {
    assert ChargedOn(EMPTY.starts, user, 1) == {};
  }

  /** The clock steps back after midnight: the second start counts the day before and is charged to the full one. */
  lemma ClockStepsBack(user: UserId)
    ensures !LimitHoldsOn(user, [Days(1, 2), Days(1, 2)])
  {
    DisorderExceeds(user, [Days(1, 2), Days(1, 2)], 0, 1);
  }

  /** A lesson has one start: no later step changes it or adds a second, and none but an erasure removes it. */
  lemma {:induction false} StartStays(t: Tables, events: seq<Event>, k: Lesson)
    requires k in t.starts
    ensures var now := Run(t, events);
            if k in now.starts then now.starts[k] == t.starts[k] || k.user in now.erased else k.user in now.erased
    ensures t.erased <= Run(t, events).erased
    decreases events
  {
    if events != [] {
      var next := Step(t, events[0]);
      if k in next.starts {
        StartStays(next, events[1..], k);
      } else {
        ErasedStays(next, events[1..], k.user);
      }
    }
  }

  lemma {:induction false} ErasedStays(t: Tables, events: seq<Event>, user: UserId)
    requires user in t.erased
    ensures user in Run(t, events).erased && t.erased <= Run(t, events).erased
    decreases events
  {
    if events != [] { ErasedStays(Step(t, events[0]), events[1..], user); }
  }

  /** Once an account's data is deleted, every later start is refused, and no start or receipt of it is ever there. */
  lemma ErasureIsFinal(t: Tables, user: UserId, events: seq<Event>, k: Lesson, request: Option<RequestId>, w: World)
    requires k.user == user
    ensures var now := Run(AfterErase(t, user), events);
            && IsGone(now, user) && AfterStart(now, k, request, w) == (now, AccountGone)
  {
    GoneStays(AfterErase(t, user), events, user);
  }

  predicate IsGone(t: Tables, user: UserId) {
    user in t.erased && (forall k | k in t.starts :: k.user != user) && forall r | r in t.requests :: r.user != user
  }

  lemma {:induction false} GoneStays(t: Tables, events: seq<Event>, user: UserId)
    requires IsGone(t, user)
    ensures IsGone(Run(t, events), user)
    decreases events
  {
    if events != [] { GoneStays(Step(t, events[0]), events[1..], user); }
  }

  /** A lesson once started is never refused for the limit, nor for an outage, and never charged again. */
  lemma StartedIsNeverRefused(t: Tables, events: seq<Event>, k: Lesson, request: Option<RequestId>, w: World)
    requires k in t.starts && k.user !in Run(t, events).erased
    ensures var now := Run(t, events);
            var (t', reply) := AfterStart(now, k, request, w);
            reply !in {LimitReached, NoAnswer, AccountGone} && t'.starts == now.starts
  {
    StartStays(t, events, k);
  }
}
