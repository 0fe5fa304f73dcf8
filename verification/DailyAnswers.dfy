/**
 What the daily limit answers to each start of a lesson, told from the request, the charged starts and the world: nobody
 is refused before the limit is reached, and everybody after it.
 */
module DailyAnswers {
  import opened Ids
  import opened Options
  import opened DailyLimit

  /** A live learner's request that no receipt answers. */
  predicate IsFresh(t: Tables, k: Lesson, request: Option<RequestId>) {
    k.user !in t.erased && (request.Some? ==> RequestKey(k.user, request.value) !in t.requests)
  }

  /** The policy is known to be the daily one, and neither the role, premium nor a purchase exempts the learner. */
  predicate IsLimited(w: World) {
    w.policy == Known(true, false) && !w.admin && !w.purchased
  }

  /** The lesson is known to be new: no start, and no earlier progress here or in the challenge service. */
  predicate IsNew(t: Tables, k: Lesson, w: World) {
    k !in t.starts && !w.here && w.there.Some? && !w.there.value
  }

  /**
   A start is refused for the limit if and only if it is enforced, nothing exempts the learner, the lesson is known to be
   new, and the day holds the limit of charged starts already.
   */
  lemma LimitIsExact(t: Tables, k: Lesson, request: Option<RequestId>, w: World)
    requires IsFresh(t, k, request)
    ensures AfterStart(t, k, request, w).1 == LimitReached <==>
              && w.limit.mode == Enforce && IsLimited(w) && IsNew(t, k, w)
              && |set s | s in t.starts && s.user == k.user && t.starts[s].charged && t.starts[s].day == w.statusDay|
                 >= w.limit.starts
  {
    assert ChargedOn(t.starts, k.user, w.statusDay)
        == set s | s in t.starts && s.user == k.user && t.starts[s].charged && t.starts[s].day == w.statusDay;
  }

  /** Nothing is known of the learner's access or of the lesson's past, and the lesson would be new. */
  predicate IsUncertain(t: Tables, k: Lesson, w: World) {
    && k !in t.starts && !w.here
    && (w.policy == Policy.Unknown || (!IsExempt(w) && w.there.None?))
  }

  predicate IsExempt(w: World) {
    w.admin || w.purchased || (w.policy.Known? && w.policy.premium)
  }

  /**
   A start gets no answer exactly where it is uncertain and no access of another kind opens the lesson, and, with it, where
   the limit is enforced and the lesson's past is unknown.
   */
  lemma NoAnswerIsExact(t: Tables, k: Lesson, request: Option<RequestId>, w: World)
    requires IsFresh(t, k, request)
    ensures AfterStart(t, k, request, w).1 == NoAnswer <==>
              && IsUncertain(t, k, w)
              && ((!w.free && !w.admin && !w.owned && w.there != Some(true))
                  || (w.policy.Known? && w.policy.daily && w.limit.mode == Enforce))
  {}

  /** Every other start is taken, where there is a limit at all; the first of a lesson is recorded on the day it is inserted. */
  lemma StartIsTaken(t: Tables, k: Lesson, request: Option<RequestId>, w: World)
    requires IsFresh(t, k, request) && AfterStart(t, k, request, w).1 !in {LimitReached, NoAnswer}
    ensures var (t', reply) := AfterStart(t, k, request, w);
            var legacy := w.policy.Known? && !w.policy.daily && w.limit.mode == Off && !IsUncertain(t, k, w);
            && reply == (if legacy then Legacy else Started)
            && (legacy ==> t' == t)
            && (!legacy ==>
                  && k in t'.starts && t'.erased == t.erased
                  && t'.starts == (if k in t.starts then t.starts else t.starts[k := t'.starts[k]])
                  && t'.requests == (if request.Some? then t.requests[RequestKey(k.user, request.value) := k] else t.requests)
                  && (k !in t.starts ==> t'.starts[k].day == w.insertDay))
  {}

  /** A new start is charged exactly where a limit is set, the policy is known not to exempt, and the lesson is known to be new. */
  lemma ChargeIsExact(t: Tables, k: Lesson, request: Option<RequestId>, w: World)
    requires IsFresh(t, k, request) && k !in t.starts && AfterStart(t, k, request, w).1 == Started
    ensures var starts := AfterStart(t, k, request, w).0.starts;
            && k in starts
            && (starts[k].charged <==> w.limit.mode != Off && w.policy.Known? && !IsExempt(w) && IsNew(t, k, w))
  {}

  /** An answered request is repeated for its own lesson and a conflict for any other, and changes nothing. */
  lemma ReceiptIsExact(t: Tables, k: Lesson, request: RequestId, w: World)
    requires k.user !in t.erased && RequestKey(k.user, request) in t.requests
    ensures AfterStart(t, k, Some(request), w)
         == (t, if t.requests[RequestKey(k.user, request)] == k then Repeated else RequestConflict)
  {}

  // ----- The limit is used up -----------------------------------------------------------------------------------------

  /** A start of a new lesson on this day by a learner whom the enforced limit applies to. */
  predicate IsLimitedStart(e: Event, user: UserId, limit: int, day: Day) {
    && e.StartEvent? && e.lesson.user == user && e.request == None
    && e.world.limit == Limit(Enforce, limit) && IsLimited(e.world)
    && !e.world.here && e.world.there == Some(false)
    && e.world.statusDay == day && e.world.insertDay == day
  }

  /** Such starts of different lessons, none of which was begun. */
  predicate AreNewLessons(t: Tables, events: seq<Event>, user: UserId, limit: int, day: Day) {
    && (forall i | 0 <= i < |events| :: IsLimitedStart(events[i], user, limit, day) && events[i].lesson !in t.starts)
    && forall i, j | 0 <= i < j < |events| :: events[i].lesson != events[j].lesson
  }

  lemma OneMoreStart(t: Tables, e: Event, user: UserId, limit: int, day: Day)
    requires IsLimitedStart(e, user, limit, day) && user !in t.erased && e.lesson !in t.starts
    requires |ChargedOn(t.starts, user, day)| < limit
    ensures AfterStart(t, e.lesson, None, e.world).1 == Started
    ensures var t' := Step(t, e);
            && t'.erased == t.erased && t'.starts.Keys == t.starts.Keys + {e.lesson}
            && |ChargedOn(t'.starts, user, day)| == |ChargedOn(t.starts, user, day)| + 1
  {
    LimitIsExact(t, e.lesson, None, e.world);
    NoAnswerIsExact(t, e.lesson, None, e.world);
    StartIsTaken(t, e.lesson, None, e.world);
    ChargeIsExact(t, e.lesson, None, e.world);
    var t' := Step(t, e);
    OneMoreCharged(t.starts, t'.starts, e.lesson, user, day);
  }

  lemma OneMoreCharged(starts: map<Lesson, LessonStart>, starts': map<Lesson, LessonStart>, k: Lesson, user: UserId, day: Day)
    requires k !in starts && k in starts' && starts' == starts[k := starts'[k]]
    requires k.user == user && starts'[k].charged && starts'[k].day == day
    ensures |ChargedOn(starts', user, day)| == |ChargedOn(starts, user, day)| + 1
  {
    ChargedAfterInsert(starts, k, starts'[k], user, day);
    assert k !in ChargedOn(starts, user, day);
  }

  /**
   As long as the limit leaves room, different new lessons of one day are all started and charged; then the next one is
   refused. So a learner without charged starts begins exactly as many lessons as the limit allows.
   */
  lemma {:induction false} LimitIsUsedUp(t: Tables, events: seq<Event>, user: UserId, limit: int, day: Day, next: Event)
    requires user !in t.erased && AreNewLessons(t, events + [next], user, limit, day)
    requires |ChargedOn(t.starts, user, day)| + |events| <= limit
    ensures IsLimitedStart(next, user, limit, day)
    ensures var now := Run(t, events);
            && (forall i | 0 <= i < |events| :: events[i].StartEvent? && events[i].lesson in now.starts)
            && |ChargedOn(now.starts, user, day)| == |ChargedOn(t.starts, user, day)| + |events|
            && AfterStart(now, next.lesson, None, next.world).1
               == if |ChargedOn(t.starts, user, day)| + |events| < limit then Started else LimitReached
    decreases events
  {
    assert (events + [next])[|events|] == next;
    assert forall i | 0 <= i < |events| :: (events + [next])[i] == events[i];
    if events == [] {
      NextStart(t, next, user, limit, day);
    } else {
      assert (events + [next])[0] == events[0];
      OneMoreStart(t, events[0], user, limit, day);
      var t', rest := Step(t, events[0]), events[1..];
      assert rest + [next] == (events + [next])[1..];
      forall i | 0 <= i < |rest + [next]|
        ensures IsLimitedStart((rest + [next])[i], user, limit, day) && (rest + [next])[i].lesson !in t'.starts
      {
        assert (rest + [next])[i] == (events + [next])[i + 1];
      }
      LimitIsUsedUp(t', rest, user, limit, day, next);
      StartedStays(t', rest, events[0].lesson, user, limit, day);
      forall i | 0 <= i < |events| ensures events[i].StartEvent? && events[i].lesson in Run(t, events).starts {
        if i > 0 { assert events[i] == rest[i - 1]; }
      }
    }
  }

  lemma NextStart(t: Tables, next: Event, user: UserId, limit: int, day: Day)
    requires IsLimitedStart(next, user, limit, day) && user !in t.erased && next.lesson !in t.starts
    requires |ChargedOn(t.starts, user, day)| <= limit
    ensures AfterStart(t, next.lesson, None, next.world).1
         == if |ChargedOn(t.starts, user, day)| < limit then Started else LimitReached
  {
    if |ChargedOn(t.starts, user, day)| < limit {
      OneMoreStart(t, next, user, limit, day);
    } else {
      LimitIsExact(t, next.lesson, None, next.world);
      assert ChargedOn(t.starts, user, day)
          == set s | s in t.starts && s.user == user && t.starts[s].charged && t.starts[s].day == day;
    }
  }

  lemma StartedStays(t: Tables, events: seq<Event>, k: Lesson, user: UserId, limit: int, day: Day)
    requires k in t.starts && k.user == user && user !in t.erased
    requires forall i | 0 <= i < |events| :: IsLimitedStart(events[i], user, limit, day)
    ensures k in Run(t, events).starts
  {
    StartStays(t, events, k);
    NobodyIsErased(t, events, user, limit, day);
  }

  lemma {:induction false} NobodyIsErased(t: Tables, events: seq<Event>, user: UserId, limit: int, day: Day)
    requires forall i | 0 <= i < |events| :: IsLimitedStart(events[i], user, limit, day)
    ensures Run(t, events).erased == t.erased
    decreases events
  {
    if events != [] {
      assert forall i | 0 <= i < |events[1..]| :: events[1..][i] == events[i + 1];
      NobodyIsErased(Step(t, events[0]), events[1..], user, limit, day);
    }
  }
}
