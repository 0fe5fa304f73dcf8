/**
 What course orders and rights rest on: when an order is offered, accepted and fulfilled and when a right is granted, told
 from the request and the tables, and over every run where each order, access and right came from.
 */
module EntitlementAnswers {
  import opened Options
  import opened Ids
  import opened Entitlements
  import opened EntitlementRuns

  // ----- Offering and accepting --------------------------------------------------------------------------------------

  predicate HasOther(t: Tables, place: Place, but: OrderId, states: set<OrderState>) {
    exists id :: id in t.orders && id != but && t.orders[id].place == place && t.orders[id].state in states
  }

  /** An order is offered to a live learner without access or a pending order, for a course that is not free. */
  lemma OfferIsExact(t: Tables, place: Place, id: OrderId, offer: Offer, free: bool, offered: bool)
    ensures var (t', reply) := AfterOffer(t, place, id, offer, free, offered);
            && (reply.OrderIs? <==>
                  && place.user !in t.deleted && !free && place !in t.access && offered && id !in t.orders
                  && !HasOther(t, place, id, {Prepared, Paid, Review}))
            && t' == (if reply.OrderIs? then t.(orders := t.orders[id := Order(place, offer, Offered, false, None)]) else t)
  {
    if HasOrder(t.orders, place, {Prepared, Paid, Review}, {}) {
      var o :| o in t.orders && t.orders[o].place == place && t.orders[o].state in {Prepared, Paid, Review};
    }
  }

  /**
   The learner accepts an order of theirs as it was offered: the product is the same still, the terms are those of the
   offer, and the consents are given; and the learner has neither the course nor another order of it.
   */
  predicate MayAccept(t: Tables, place: Place, product: string, a: Acceptance) {
    && place.user !in t.deleted && place !in t.access && a.order in t.orders
    && t.orders[a.order].place == place && t.orders[a.order].state == Offered && t.orders[a.order].acceptance == None
    && t.orders[a.order].offer == Offer(product, a.hash) && a.accepted && a.early
    && !HasOther(t, place, a.order, {Prepared, Paid, Review, Fulfilled})
  }

  lemma AcceptIsExact(t: Tables, place: Place, product: string, a: Acceptance)
    ensures var (t', reply) := AfterAccept(t, place, product, a);
            && t' == (if MayAccept(t, place, product, a)
                      then t.(orders := t.orders[a.order := Order(place, Offer(product, a.hash), Prepared, true, Some(a))])
                      else t)
            && (reply == OrderIs(a.order) <==>
                  || MayAccept(t, place, product, a)
                  || (place.user !in t.deleted && a.order in t.orders && t.orders[a.order].place == place
                      && t.orders[a.order].acceptance == Some(a)))
  {}

  // ----- Delivering an order -------------------------------------------------------------------------------------------

  /** The order waits for its delivery, and the shop is asked about it for a live account. */
  predicate IsAsked(t: Tables, id: OrderId, account: Account) {
    && id in t.orders && t.orders[id].state in {Prepared, Paid} && t.orders[id].place.user !in t.deleted
    && account == Alive
  }

  /** The shop answers that the order is paid, its confirmation was accepted, and the time for it is not over. */
  predicate Provides(t: Tables, id: OrderId, account: Account, answer: ShopAnswer) {
    IsAsked(t, id, account) && answer.Outcome? && answer.state == Paid && answer.confirmed && !answer.late
  }

  ghost predicate Sets(t: Tables, t': Tables, id: OrderId, state: OrderState, key: bool) {
    id in t.orders && t' == t.(orders := t.orders[id := t.orders[id].(state := state, key := key)])
  }

  /** A delivery provides the course and fulfils the order if and only if the order was asked about and answered so. */
  lemma DeliverIsExact(t: Tables, id: OrderId, account: Account, answer: ShopAnswer)
    ensures var t' := AfterDeliver(t, id, account, answer);
            && (Provides(t, id, account, answer) <==>
                  && id in t.orders && t.orders[id].state != Fulfilled && t'.orders[id].state == Fulfilled
                  && t.orders[id].place in t'.access && !(answer.Outcome? && answer.state == Fulfilled))
            && (if Provides(t, id, account, answer)
                then t' == t.(access := t.access + {t.orders[id].place},
                              orders := t.orders[id := t.orders[id].(state := Fulfilled)])
                else t'.access == t.access)
  {}

  /** What every other answer leaves: late is for review, a rejection frees the key, silence changes nothing. */
  lemma DeliverOtherwise(t: Tables, id: OrderId, account: Account, answer: ShopAnswer)
    ensures var t' := AfterDeliver(t, id, account, answer);
            && (IsAsked(t, id, account) && answer.Outcome? && answer.state == Paid && answer.confirmed && answer.late ==>
                  Sets(t, t', id, Review, t.orders[id].key))
            && (IsAsked(t, id, account) && answer.Outcome? && answer.state == Paid && !answer.confirmed ==>
                  Sets(t, t', id, Paid, t.orders[id].key))
            && (IsAsked(t, id, account) && (answer.Rejected? || (answer.Outcome? && answer.state == Failed)) ==>
                  Sets(t, t', id, Failed, false))
            && (IsAsked(t, id, account) && answer.Outcome? && answer.state in {Prepared, Review, Fulfilled} ==>
                  Sets(t, t', id, answer.state, t.orders[id].key))
            && (IsAsked(t, id, account) && answer.Silent? ==> t' == t)
    ensures var t' := AfterDeliver(t, id, account, answer);
            && (id in t.orders && t.orders[id].state in {Prepared, Paid} && t.orders[id].place.user in t.deleted ==>
                  Sets(t, t', id, Review, t.orders[id].key))
            && (id in t.orders && t.orders[id].state in {Prepared, Paid} && t.orders[id].place.user !in t.deleted ==>
                  && (account == Vanished ==>
                        Sets(t.(deleted := t.deleted + {t.orders[id].place.user}), t', id, Review, t.orders[id].key))
                  && (account == Account.Unknown ==> t' == t))
            && (id !in t.orders || t.orders[id].state !in {Prepared, Paid} ==> t' == t)
  {}

  // ----- Granting a right ----------------------------------------------------------------------------------------------

  /**
   A retained right is granted on a fresh delivery to the successor that the authority names, before and after the lock,
   in the scope that was observed: the right is the erased source's, free or the successor's already, for a course
   that exists.
   */
  predicate MayGrant(t: Tables, source: UserId, id: GrantId, first: Admission, second: Admission, supplied: set<CourseId>) {
    && id !in t.grants && first.Given? && second.Given?
    && second.authority.successor == first.authority.successor && second.authority.scope == first.authority.scope
    && first.authority.successor !in t.deleted && source in t.deleted
    && first.authority.contract in t.rights
    && var right := t.rights[first.authority.contract];
       && right.original == first.authority.scope && right.original.source == source
       && (right.subject == None || right.subject == Some(first.authority.successor))
       && right.original.course in supplied
  }

  lemma GrantIsExact(t: Tables, source: UserId, id: GrantId, saw: bool, first: Admission, second: Admission,
                     supplied: set<CourseId>)
    ensures var (t', reply) := AfterGrant(t, source, id, saw, first, second, supplied);
            var grants := MayGrant(t, source, id, first, second, supplied);
            && (id !in t.grants ==> (reply.GrantIs? <==> grants))
            && (!grants ==> t' == t)
            && (grants ==>
                  var contract, subject := first.authority.contract, first.authority.successor;
                  var course := t.rights[contract].original.course;
                  && reply == GrantIs(GrantRow(contract, subject, course, Granted))
                  && t' == t.(access := t.access + {Place(subject, course)},
                              rights := t.rights[contract := t.rights[contract].(subject := Some(subject))],
                              grants := t.grants[id := GrantRow(contract, subject, course, Granted)]))
  {}

  // ----- Where it all came from ------------------------------------------------------------------------------------------

  /** This event gave the learner the course: a delivery that the shop confirmed, or a right. */
  ghost predicate Gives(t: Tables, e: Event, place: Place) {
    || (e.DeliverEvent? && Provides(t, e.id, e.account, e.answer) && t.orders[e.id].place == place)
    || (e.GrantEvent? && MayGrant(t, e.source, e.grant, e.first, e.second, e.supplied)
        && place == Place(e.first.authority.successor, t.rights[e.first.authority.contract].original.course))
  }

  lemma StepGives(t: Tables, e: Event, t': Tables, place: Place)
    requires Next(t, e, t') && place in t'.access
    ensures place in t.access || Gives(t, e, place)
  {
    match e
    case DeliverEvent(id, account, answer) => DeliverIsExact(t, id, account, answer);
    case GrantEvent(source, id, saw, first, second, supplied) =>
      GrantIsExact(t, source, id, saw, first, second, supplied);
    case EraseEvent(user) => var m: Tables :| Preserves(t, m, user) && t' == Deleted(m, user);
    case _ =>
  }

  /** Every access row came from a delivery that the shop answered as paid, confirmed and in time, or from a granted right. */
  lemma {:induction false} AccessWasGiven(states: seq<Tables>, events: seq<Event>, i: nat, place: Place)
    requires IsRun(states, events) && states[0] == EMPTY && i < |states| && place in states[i].access
    ensures exists j :: 0 <= j < i && Gives(states[j], events[j], place)
  {
    if i > 0 {
      assert Next(states[i - 1], events[i - 1], states[i]);
      StepGives(states[i - 1], events[i - 1], states[i], place);
      if place in states[i - 1].access { AccessWasGiven(states, events, i - 1, place); }
    }
  }

  /** This event fulfilled the order: this service provided the course, or the shop says that it was provided. */
  ghost predicate Fulfils(t: Tables, e: Event, id: OrderId) {
    && e.DeliverEvent? && e.id == id
    && (Provides(t, id, e.account, e.answer)
        || (IsAsked(t, id, e.account) && e.answer.Outcome? && e.answer.state == Fulfilled))
  }

  lemma StepFulfils(t: Tables, e: Event, t': Tables, id: OrderId)
    requires Next(t, e, t') && id in t'.orders && t'.orders[id].state == Fulfilled
    ensures (id in t.orders && t.orders[id].state == Fulfilled) || Fulfils(t, e, id)
  {
    match e
    case OfferEvent(place, o, offer, free, offered) => OfferIsExact(t, place, o, offer, free, offered);
    case AcceptEvent(place, product, a) => AcceptIsExact(t, place, product, a);
    case DeliverEvent(o, account, answer) =>
      DeliverIsExact(t, o, account, answer);
      DeliverOtherwise(t, o, account, answer);
    case EraseEvent(user) => var m: Tables :| Preserves(t, m, user) && t' == Deleted(m, user);
    case _ =>
  }

  /** Every fulfilled order had such an answer. */
  lemma {:induction false} FulfilledWasAnswered(states: seq<Tables>, events: seq<Event>, i: nat, id: OrderId)
    requires IsRun(states, events) && states[0] == EMPTY && i < |states|
    requires id in states[i].orders && states[i].orders[id].state == Fulfilled
    ensures exists j :: 0 <= j < i && Fulfils(states[j], events[j], id)
  {
    if i > 0 {
      assert Next(states[i - 1], events[i - 1], states[i]);
      StepFulfils(states[i - 1], events[i - 1], states[i], id);
      if !Fulfils(states[i - 1], events[i - 1], id) { FulfilledWasAnswered(states, events, i - 1, id); }
    }
  }

  /** The order was accepted as offered, with both consents. */
  predicate IsAccepted(order: Order, id: OrderId) {
    && order.acceptance.Some? && order.acceptance.value.order == id && order.acceptance.value.hash == order.offer.hash
    && order.acceptance.value.accepted && order.acceptance.value.early
  }

  lemma StepKeepsAccepted(t: Tables, e: Event, t': Tables, id: OrderId)
    requires Next(t, e, t') && id in t'.orders && t'.orders[id].state != Offered
    requires id in t.orders && t.orders[id].state != Offered ==> IsAccepted(t.orders[id], id)
    ensures IsAccepted(t'.orders[id], id)
  {
    match e
    case OfferEvent(place, o, offer, free, offered) => OfferIsExact(t, place, o, offer, free, offered);
    case AcceptEvent(place, product, a) => AcceptIsExact(t, place, product, a);
    case EraseEvent(user) => var m: Tables :| Preserves(t, m, user) && t' == Deleted(m, user);
    case _ =>
  }

  /** No order gets past its offer without the learner's acceptance of its very terms. */
  lemma {:induction false} OrdersWereAccepted(states: seq<Tables>, events: seq<Event>, i: nat, id: OrderId)
    requires IsRun(states, events) && states[0] == EMPTY && i < |states|
    requires id in states[i].orders && states[i].orders[id].state != Offered
    ensures IsAccepted(states[i].orders[id], id)
  {
    if i > 0 {
      assert Next(states[i - 1], events[i - 1], states[i]);
      if id in states[i - 1].orders && states[i - 1].orders[id].state != Offered {
        OrdersWereAccepted(states, events, i - 1, id);
      }
      StepKeepsAccepted(states[i - 1], events[i - 1], states[i], id);
    }
  }

  /** The erasure of the source found this of the learner and the course. */
  ghost predicate Observes(t: Tables, e: Event, original: Original) {
    var place := Place(original.source, original.course);
    && e == EraseEvent(original.source)
    && (original.hadAccess <==> place in t.access) && (original.hadStarted <==> place in t.watched)
    && (original.hadAccess || original.hadStarted)
    && forall o :: o in original.purchases <==> o in t.orders && t.orders[o].place == place
  }

  lemma StepObserves(t: Tables, e: Event, t': Tables, id: Uuid)
    requires Next(t, e, t') && id in t'.rights
    ensures (id in t.rights && t.rights[id].original == t'.rights[id].original) || Observes(t, e, t'.rights[id].original)
  {
    match e
    case GrantEvent(source, g, saw, first, second, supplied) =>
      GrantIsExact(t, source, g, saw, first, second, supplied);
    case EraseEvent(user) =>
      var m: Tables :| Preserves(t, m, user) && t' == Deleted(m, user);
      if id in t.rights {
        assert m.rights[id] == WithoutContinued(t, user).rights[id];
      } else {
        assert IsNew(WithoutContinued(t, user), user, Admitted(t, user) - Continued(t, user), m.rights[id]);
      }
    case _ =>
  }

  /** Every right records what the erasure of its source found: the access, the started lessons and the orders. */
  lemma {:induction false} RightsRecordErasures(states: seq<Tables>, events: seq<Event>, i: nat, id: Uuid)
    requires IsRun(states, events) && states[0] == EMPTY && i < |states| && id in states[i].rights
    ensures exists j :: 0 <= j < i && Observes(states[j], events[j], states[i].rights[id].original)
  {
    if i > 0 {
      assert Next(states[i - 1], events[i - 1], states[i]);
      StepObserves(states[i - 1], events[i - 1], states[i], id);
      if !Observes(states[i - 1], events[i - 1], states[i].rights[id].original) {
        RightsRecordErasures(states, events, i - 1, id);
      }
    }
  }

  /** An erasure takes all access of the user and none of anybody else, and reviews the open orders of the user alone. */
  lemma ErasesOneUser(t: Tables, t': Tables, user: UserId)
    requires Erases(t, t', user)
    ensures t'.deleted == t.deleted + {user}
    ensures forall p :: (p in t'.access <==> p in t.access && p.user != user)
                        && (p in t'.watched <==> p in t.watched && p.user != user)
    ensures t'.orders.Keys == t.orders.Keys
    ensures forall o | o in t.orders ::
              t'.orders[o] == if t.orders[o].place.user == user && t.orders[o].state in {Prepared, Paid}
                              then t.orders[o].(state := Review) else t.orders[o]
  {
    var m: Tables :| Preserves(t, m, user) && t' == Deleted(m, user);
  }

  /** The generation of a right counts the erasures of learners who used it. */
  lemma GenerationCounts(t: Tables, e: Event, t': Tables, id: Uuid)
    requires Next(t, e, t') && id in t'.rights
    ensures t'.rights[id].generation == if id !in t.rights then 0
            else t.rights[id].generation + if e.EraseEvent? && t.rights[id].subject == Some(e.user) then 1 else 0
  {
    match e
    case GrantEvent(source, g, saw, first, second, supplied) =>
      GrantIsExact(t, source, g, saw, first, second, supplied);
    case EraseEvent(user) =>
      var m: Tables :| Preserves(t, m, user) && t' == Deleted(m, user);
      if id in t.rights {
        assert m.rights[id] == WithoutContinued(t, user).rights[id];
      } else {
        assert IsNew(WithoutContinued(t, user), user, Admitted(t, user) - Continued(t, user), m.rights[id]);
      }
    case _ =>
  }
}
