/**
 Course entitlements over whole runs: what the orders, erasures and right deliveries keep, and what survives an
 erasure.
 */
module EntitlementRuns {
  import opened Options
  import opened Ids
  import opened Entitlements

  datatype Event =
    | OfferEvent(place: Place, id: OrderId, offer: Offer, free: bool, offered: bool)
    | AcceptEvent(place: Place, product: string, acceptance: Acceptance)
    | DeliverEvent(id: OrderId, account: Account, answer: ShopAnswer)
    | GrantEvent(source: UserId, grant: GrantId, saw: bool, first: Admission, second: Admission, supplied: set<CourseId>)
    // A lesson of the course is watched; this write takes no guard.
    | WatchEvent(place: Place)
    | EraseEvent(user: UserId)

  /** The step of an event. An erasure leaves open in which order the new rights get their ids. */
  ghost predicate Next(t: Tables, e: Event, t': Tables) {
    match e
    case OfferEvent(place, id, offer, free, offered) => t' == AfterOffer(t, place, id, offer, free, offered).0
    case AcceptEvent(place, product, a) => t' == AfterAccept(t, place, product, a).0
    case DeliverEvent(id, account, answer) => t' == AfterDeliver(t, id, account, answer)
    case GrantEvent(source, id, saw, first, second, supplied) =>
      t' == AfterGrant(t, source, id, saw, first, second, supplied).0
    case WatchEvent(place) => t' == t.(watched := t.watched + {place})
    case EraseEvent(user) => Erases(t, t', user)
  }

  /** A run: the states before and after each of its events. */
  ghost predicate IsRun(states: seq<Tables>, events: seq<Event>) {
    && |states| == |events| + 1
    && forall i | 0 <= i < |events| :: Next(states[i], events[i], states[i + 1])
  }

  const EMPTY := Tables(0, {}, {}, {}, map[], map[], map[])

  // ----- The invariant -----------------------------------------------------------------------------------------

  type Rights = map<Uuid, Right>
  type Grants = map<GrantId, Grant>
  type Orders = map<OrderId, Order>

  ghost predicate Serves(grants: Grants, right: Uuid, subject: UserId) {
    exists g :: g in grants && grants[g].right == right && grants[g].subject == subject && grants[g].state == Granted
  }

  /** A right in use has a granted grant that names its subject, and the subject has the access row. */
  ghost predicate RightOk(t: Tables, id: Uuid, right: Right) {
    && id < t.uuids
    && (right.subject.Some? ==>
          && Place(right.subject.value, right.original.course) in t.access
          && Serves(t.grants, id, right.subject.value))
  }

  /** A source has one right per course. */
  ghost predicate SameRight(rights: Rights, a: Uuid, b: Uuid)
    requires a in rights && b in rights
  {
    a != b ==> Differ(rights, a, b)
  }

  /** A granted grant names the one subject that its right serves. */
  ghost predicate GrantOk(rights: Rights, grant: Grant) {
    && grant.right in rights && rights[grant.right].original.course == grant.course
    && (grant.state == Granted ==> rights[grant.right].subject == Some(grant.subject))
  }

  /** The unique key marks exactly the active orders. */
  predicate OrderOk(order: Order) {
    && (order.key <==> IsActive(order.state))
    && (order.state == Offered <==> order.acceptance.None?)
  }

  ghost predicate SameOrder(orders: Orders, a: OrderId, b: OrderId)
    requires a in orders && b in orders
  {
    a != b && orders[a].place == orders[b].place ==> !(orders[a].key && orders[b].key)
  }

  /** Access comes from a fulfilled order or from a right that serves the learner. */
  ghost predicate IsProvided(orders: Orders, grants: Grants, place: Place) {
    || (exists o :: o in orders && orders[o].place == place && orders[o].state == Fulfilled)
    || (exists g :: g in grants && grants[g].subject == place.user && grants[g].course == place.course
                    && grants[g].state == Granted)
  }

  ghost predicate RightsInv(t: Tables) {
    && (forall id {:trigger RightOk(t, id, t.rights[id])} | id in t.rights :: RightOk(t, id, t.rights[id]))
    && (forall a, b {:trigger SameRight(t.rights, a, b)} | a in t.rights && b in t.rights :: SameRight(t.rights, a, b))
  }

  ghost predicate GrantsInv(rights: Rights, grants: Grants) {
    forall g {:trigger GrantOk(rights, grants[g])} | g in grants :: GrantOk(rights, grants[g])
  }

  ghost predicate OrdersInv(orders: Orders) {
    && (forall o {:trigger OrderOk(orders[o])} | o in orders :: OrderOk(orders[o]))
    && (forall a, b {:trigger SameOrder(orders, a, b)} | a in orders && b in orders :: SameOrder(orders, a, b))
  }

  ghost predicate AccessInv(t: Tables) {
    forall p {:trigger IsProvided(t.orders, t.grants, p)} | p in t.access :: IsProvided(t.orders, t.grants, p)
  }

  ghost predicate Inv(t: Tables) {
    RightsInv(t) && GrantsInv(t.rights, t.grants) && OrdersInv(t.orders) && AccessInv(t)
  }

  // ----- Orders -----------------------------------------------------------------------------------------------------

  /** One order changes its state; a fulfilled one never does. */
  ghost predicate OrderStep(orders: Orders, orders': Orders, id: OrderId) {
    && id in orders' && orders' == orders[id := orders'[id]] && OrderOk(orders'[id])
    && (id in orders ==>
          && orders[id].place == orders'[id].place && orders[id].state != Fulfilled
          && (orders'[id].key && !orders[id].key ==>
                !HasOrder(orders, orders[id].place, {Prepared, Paid, Review, Fulfilled}, {id})))
    && (id !in orders ==> !orders'[id].key)
  }

  lemma OrderStepKeepsOrders(orders: Orders, orders': Orders, id: OrderId)
    requires OrdersInv(orders) && OrderStep(orders, orders', id)
    ensures OrdersInv(orders')
  {
    forall o | o in orders' ensures OrderOk(orders'[o]) {
      if o != id { assert OrderOk(orders[o]); }
    }
    forall a, b | a in orders' && b in orders' ensures SameOrder(orders', a, b) {
      if a in orders && b in orders { assert SameOrder(orders, a, b); }
      if a in orders { assert OrderOk(orders[a]); }
      if b in orders { assert OrderOk(orders[b]); }
    }
  }

  lemma OrderStepKeepsProvided(orders: Orders, orders': Orders, grants: Grants, id: OrderId, place: Place)
    requires OrderStep(orders, orders', id) && IsProvided(orders, grants, place)
    ensures IsProvided(orders', grants, place)
  {
    if o :| o in orders && orders[o].place == place && orders[o].state == Fulfilled {
      assert orders'[o] == orders[o];
    }
  }

  lemma OrderStepKeepsInv(t: Tables, t': Tables, id: OrderId)
    requires Inv(t) && OrderStep(t.orders, t'.orders, id)
    requires t' == t.(deleted := t'.deleted, orders := t'.orders, access := t'.access)
    requires t'.access == t.access || (t'.orders[id].state == Fulfilled && t'.access == t.access + {t'.orders[id].place})
    ensures Inv(t')
  {
    OrderStepKeepsOrders(t.orders, t'.orders, id);
    forall p | p in t'.access ensures IsProvided(t'.orders, t'.grants, p) {
      if p in t.access { OrderStepKeepsProvided(t.orders, t'.orders, t.grants, id, p); }
    }
    forall r | r in t'.rights ensures RightOk(t', r, t'.rights[r]) { assert RightOk(t, r, t.rights[r]); }
  }

  // ----- Grants -------------------------------------------------------------------------------------------------------

  /** What a delivered right writes. */
  ghost predicate GrantStep(t: Tables, t': Tables, id: GrantId, right: Uuid, subject: UserId) {
    && id !in t.grants && right in t.rights && t.rights[right].subject in {None, Some(subject)}
    && t' == t.(access := t.access + {Place(subject, t.rights[right].original.course)},
                rights := t.rights[right := t.rights[right].(subject := Some(subject))],
                grants := t.grants[id := GrantRow(right, subject, t.rights[right].original.course, Granted)])
  }

  lemma ServesStays(grants: Grants, grants': Grants, right: Uuid, subject: UserId)
    requires Serves(grants, right, subject)
    requires forall g | g in grants :: g in grants' && grants'[g] == grants[g]
    ensures Serves(grants', right, subject)
  {}

  lemma ProvidedStays(orders: Orders, grants: Grants, grants': Grants, place: Place)
    requires IsProvided(orders, grants, place)
    requires forall g | g in grants :: g in grants' && grants'[g] == grants[g]
    ensures IsProvided(orders, grants', place)
  {
    if g :| g in grants && grants[g].subject == place.user && grants[g].course == place.course && grants[g].state == Granted {
      assert grants'[g] == grants[g];
    }
  }

  lemma GrantKeepsRights(t: Tables, t': Tables, id: GrantId, right: Uuid, subject: UserId)
    requires RightsInv(t) && GrantStep(t, t', id, right, subject)
    ensures RightsInv(t')
  {
    forall r | r in t'.rights ensures RightOk(t', r, t'.rights[r]) {
      assert RightOk(t, r, t.rights[r]);
      if r == right {
        assert t'.grants[id].right == right;
      } else if t.rights[r].subject.Some? {
        ServesStays(t.grants, t'.grants, r, t.rights[r].subject.value);
      }
    }
    forall a, b | a in t'.rights && b in t'.rights ensures SameRight(t'.rights, a, b) {
      assert SameRight(t.rights, a, b);
    }
  }

  lemma GrantKeepsInv(t: Tables, t': Tables, id: GrantId, right: Uuid, subject: UserId)
    requires Inv(t) && GrantStep(t, t', id, right, subject)
    ensures Inv(t')
  {
    GrantKeepsRights(t, t', id, right, subject);
    forall g | g in t'.grants ensures GrantOk(t'.rights, t'.grants[g]) {
      if g != id { assert GrantOk(t.rights, t.grants[g]); }
    }
    forall p | p in t'.access ensures IsProvided(t'.orders, t'.grants, p) {
      if p in t.access {
        assert IsProvided(t.orders, t.grants, p);
        ProvidedStays(t.orders, t.grants, t'.grants, p);
      } else {
        assert t'.grants[id].subject == p.user && t'.grants[id].course == p.course;
      }
    }
  }

  // ----- Erasure -----------------------------------------------------------------------------------------------------------

  lemma WithoutContinuedKeepsRight(t: Tables, user: UserId, id: Uuid)
    requires RightsInv(t) && id in t.rights
    ensures RightOk(WithoutContinued(t, user), id, WithoutContinued(t, user).rights[id])
    ensures WithoutContinued(t, user).rights[id].subject != Some(user)
  {
    var m := WithoutContinued(t, user);
    assert RightOk(t, id, t.rights[id]);
    if m.rights[id].subject.Some? {
      var s := m.rights[id].subject.value;
      var g :| g in t.grants && t.grants[g].right == id && t.grants[g].subject == s && t.grants[g].state == Granted;
      assert m.grants[g] == t.grants[g];
    }
  }

  lemma ErasedRights(t: Tables, m: Tables, user: UserId)
    requires RightsInv(t) && Preserves(t, m, user)
    ensures RightsInv(Deleted(m, user))
  {
    var base, t' := WithoutContinued(t, user), Deleted(m, user);
    forall id | id in t'.rights ensures RightOk(t', id, t'.rights[id]) {
      if id in t.rights {
        WithoutContinuedKeepsRight(t, user, id);
        assert m.rights[id] == base.rights[id];
      }
    }
    forall a, b | a in t'.rights && b in t'.rights ensures SameRight(t'.rights, a, b) {
      if a in t.rights && b in t.rights {
        assert SameRight(t.rights, a, b);
      } else if a != b && a !in t.rights && b !in t.rights {
        assert Differ(m.rights, a, b);
      }
    }
  }

  lemma ErasedGrants(t: Tables, m: Tables, user: UserId)
    requires GrantsInv(t.rights, t.grants) && Preserves(t, m, user)
    ensures GrantsInv(m.rights, m.grants)
  {
    forall g | g in m.grants ensures GrantOk(m.rights, m.grants[g]) {
      assert GrantOk(t.rights, t.grants[g]);
      assert m.rights[t.grants[g].right] == WithoutContinued(t, user).rights[t.grants[g].right];
    }
  }

  lemma ErasedOrders(orders: Orders, user: UserId)
    requires OrdersInv(orders)
    ensures OrdersInv(map id | id in orders :: ReviewedFor(orders[id], user))
  {
    var orders' := map id | id in orders :: ReviewedFor(orders[id], user);
    forall o | o in orders' ensures OrderOk(orders'[o]) { assert OrderOk(orders[o]); }
    forall a, b | a in orders' && b in orders' ensures SameOrder(orders', a, b) { assert SameOrder(orders, a, b); }
  }

  lemma ErasedAccess(t: Tables, m: Tables, user: UserId)
    requires AccessInv(t) && Preserves(t, m, user)
    ensures AccessInv(Deleted(m, user))
  {
    var t' := Deleted(m, user);
    forall p | p in t'.access ensures IsProvided(t'.orders, t'.grants, p) {
      assert IsProvided(t.orders, t.grants, p);
      if o :| o in t.orders && t.orders[o].place == p && t.orders[o].state == Fulfilled {
        assert t'.orders[o] == t.orders[o];
      } else {
        var g :| g in t.grants && t.grants[g].subject == p.user && t.grants[g].course == p.course && t.grants[g].state == Granted;
        assert t'.grants[g] == t.grants[g];
      }
    }
  }

  lemma EraseKeepsInv(t: Tables, t': Tables, user: UserId)
    requires Inv(t) && Erases(t, t', user)
    ensures Inv(t')
  {
    var m: Tables :| Preserves(t, m, user) && t' == Deleted(m, user);
    ErasedRights(t, m, user);
    ErasedGrants(t, m, user);
    ErasedOrders(t.orders, user);
    ErasedAccess(t, m, user);
  }

  // ----- Every run --------------------------------------------------------------------------------------------------------------

  /** Orders change one at a time, and only a fulfilled one brings access. */
  ghost predicate OrdersMove(t: Tables, t': Tables, id: OrderId) {
    && OrderStep(t.orders, t'.orders, id)
    && t' == t.(deleted := t'.deleted, orders := t'.orders, access := t'.access) && t.deleted <= t'.deleted
    && (t'.access == t.access || (t'.orders[id].state == Fulfilled && t'.orders[id].place.user !in t.deleted
                                  && t'.access == t.access + {t'.orders[id].place}))
    && (t'.orders[id].place.user in t.deleted ==> t'.orders[id].state == Review)
  }

  lemma OfferMoves(t: Tables, place: Place, id: OrderId, offer: Offer, free: bool, offered: bool)
    ensures var t' := AfterOffer(t, place, id, offer, free, offered).0; t' == t || OrdersMove(t, t', id)
  {}

  lemma AcceptMoves(t: Tables, place: Place, product: string, a: Acceptance)
    requires OrdersInv(t.orders)
    ensures var t' := AfterAccept(t, place, product, a).0; t' == t || OrdersMove(t, t', a.order)
  {
    if a.order in t.orders { assert OrderOk(t.orders[a.order]); }
  }

  lemma DeliverMoves(t: Tables, id: OrderId, account: Account, answer: ShopAnswer)
    requires OrdersInv(t.orders)
    ensures var t' := AfterDeliver(t, id, account, answer); t' == t || OrdersMove(t, t', id)
  {
    if id in t.orders { assert OrderOk(t.orders[id]); }
  }

  lemma GrantMoves(t: Tables, source: UserId, id: GrantId, saw: bool, first: Admission, second: Admission,
                   supplied: set<CourseId>)
    ensures var t' := AfterGrant(t, source, id, saw, first, second, supplied).0;
            t' == t || (first.Given? && first.authority.successor !in t.deleted
                        && GrantStep(t, t', id, first.authority.contract, first.authority.successor))
  {}

  lemma MovesKeepInv(t: Tables, t': Tables, id: OrderId)
    requires Inv(t) && OrdersMove(t, t', id)
    ensures Inv(t')
  {
    OrderStepKeepsInv(t, t', id);
  }

  lemma WatchKeepsInv(t: Tables, place: Place)
    requires Inv(t)
    ensures Inv(t.(watched := t.watched + {place}))
  {
    var t' := t.(watched := t.watched + {place});
    forall r | r in t'.rights ensures RightOk(t', r, t'.rights[r]) { assert RightOk(t, r, t.rights[r]); }
  }

  /** Every step either changes nothing, or moves one order, delivers one right, notes a lesson, or erases. */
  datatype Kind = Nothing | Moves(order: OrderId) | Delivers(grant: GrantId, right: Uuid, subject: UserId)
                | Watches(place: Place) | ErasesUser(user: UserId)

  ghost predicate IsKind(t: Tables, t': Tables, kind: Kind) {
    match kind
    case Nothing => t' == t
    case Moves(id) => OrdersMove(t, t', id)
    case Delivers(id, right, subject) => subject !in t.deleted && GrantStep(t, t', id, right, subject)
    case Watches(place) => t' == t.(watched := t.watched + {place})
    case ErasesUser(user) => Erases(t, t', user)
  }

  lemma KindOf(t: Tables, e: Event, t': Tables) returns (kind: Kind)
    requires OrdersInv(t.orders) && Next(t, e, t')
    ensures IsKind(t, t', kind)
    ensures e.EraseEvent? ==> kind == ErasesUser(e.user)
  {
    kind := Nothing;
    match e
    case OfferEvent(place, id, offer, free, offered) =>
      OfferMoves(t, place, id, offer, free, offered);
      if t' != t { kind := Moves(id); }
    case AcceptEvent(place, product, a) =>
      AcceptMoves(t, place, product, a);
      if t' != t { kind := Moves(a.order); }
    case DeliverEvent(id, account, answer) =>
      DeliverMoves(t, id, account, answer);
      if t' != t { kind := Moves(id); }
    case GrantEvent(source, id, saw, first, second, supplied) =>
      GrantMoves(t, source, id, saw, first, second, supplied);
      if t' != t { kind := Delivers(id, first.authority.contract, first.authority.successor); }
    case WatchEvent(place) => kind := Watches(place);
    case EraseEvent(user) => kind := ErasesUser(user);
  }

  lemma StepKeepsInv(t: Tables, e: Event, t': Tables)
    requires Inv(t) && Next(t, e, t')
    ensures Inv(t')
  {
    var kind := KindOf(t, e, t');
    match kind
    case Nothing =>
    case Moves(id) => MovesKeepInv(t, t', id);
    case Delivers(id, right, subject) => GrantKeepsInv(t, t', id, right, subject);
    case Watches(place) => WatchKeepsInv(t, place);
    case ErasesUser(user) => EraseKeepsInv(t, t', user);
  }

  lemma {:induction false} RunKeepsInv(states: seq<Tables>, events: seq<Event>, i: nat)
    requires IsRun(states, events) && states[0] == EMPTY && i < |states|
    ensures Inv(states[i])
  {
    if i > 0 {
      RunKeepsInv(states, events, i - 1);
      StepKeepsInv(states[i - 1], events[i - 1], states[i]);
    }
  }

  // ----- Conservation ---------------------------------------------------------------------------------------------------

  /** A right serves one learner at most: all its granted grants name that learner, who has the access row. */
  lemma RightServesOne(states: seq<Tables>, events: seq<Event>, i: nat, a: GrantId, b: GrantId)
    requires IsRun(states, events) && states[0] == EMPTY && i < |states|
    requires a in states[i].grants && b in states[i].grants && states[i].grants[a].right == states[i].grants[b].right
    requires states[i].grants[a].state == Granted && states[i].grants[b].state == Granted
    ensures var t := states[i];
            && t.grants[a].subject == t.grants[b].subject
            && t.grants[a].right in t.rights && t.rights[t.grants[a].right].subject == Some(t.grants[a].subject)
            && Place(t.grants[a].subject, t.grants[a].course) in t.access
  {
    var t := states[i];
    RunKeepsInv(states, events, i);
    assert GrantOk(t.rights, t.grants[a]) && GrantOk(t.rights, t.grants[b]);
    assert RightOk(t, t.grants[a].right, t.rights[t.grants[a].right]);
  }

  /** Every access row came from a fulfilled order or from a delivered right that still serves its learner. */
  lemma AccessIsProvided(states: seq<Tables>, events: seq<Event>, i: nat, place: Place)
    requires IsRun(states, events) && states[0] == EMPTY && i < |states| && place in states[i].access
    ensures IsProvided(states[i].orders, states[i].grants, place)
  {
    RunKeepsInv(states, events, i);
  }

  /** A learner has one active order per course at most, by the checks of `buy` alone. */
  lemma OneActiveOrder(states: seq<Tables>, events: seq<Event>, i: nat, a: OrderId, b: OrderId)
    requires IsRun(states, events) && states[0] == EMPTY && i < |states|
    requires a in states[i].orders && b in states[i].orders && states[i].orders[a].place == states[i].orders[b].place
    requires IsActive(states[i].orders[a].state) && IsActive(states[i].orders[b].state)
    ensures a == b
  {
    RunKeepsInv(states, events, i);
    assert OrderOk(states[i].orders[a]) && OrderOk(states[i].orders[b]) && SameOrder(states[i].orders, a, b);
  }

  // ----- What stays ---------------------------------------------------------------------------------------------------------

  /** Rights are never deleted and keep what was observed; grants keep all but their state; fulfilled orders stay. */
  ghost predicate Keeps(t: Tables, t': Tables) {
    && (forall id | id in t.rights :: id in t'.rights && t'.rights[id].original == t.rights[id].original)
    && (forall g | g in t.grants :: g in t'.grants && t'.grants[g] == t.grants[g].(state := t'.grants[g].state)
                                    && (t.grants[g].state == Withdrawn ==> t'.grants[g].state == Withdrawn))
    && (forall o | o in t.orders && t.orders[o].state == Fulfilled :: o in t'.orders && t'.orders[o] == t.orders[o])
    && t.deleted <= t'.deleted
  }

  lemma MovesKeep(t: Tables, t': Tables, id: OrderId)
    requires OrdersMove(t, t', id)
    ensures Keeps(t, t')
  {}

  lemma DeliversKeep(t: Tables, t': Tables, id: GrantId, right: Uuid, subject: UserId)
    requires GrantStep(t, t', id, right, subject)
    ensures Keeps(t, t')
  {}

  lemma StepKeeps(t: Tables, e: Event, t': Tables)
    requires Inv(t) && Next(t, e, t')
    ensures Keeps(t, t')
  {
    var kind := KindOf(t, e, t');
    match kind
    case Moves(id) => MovesKeep(t, t', id);
    case Delivers(id, right, subject) => DeliversKeep(t, t', id, right, subject);
    case ErasesUser(user) => EraseKeeps(t, t', user);
    case _ =>
  }

  lemma EraseKeeps(t: Tables, t': Tables, user: UserId)
    requires Erases(t, t', user)
    ensures Keeps(t, t')
  {
    var m: Tables :| Preserves(t, m, user) && t' == Deleted(m, user);
    forall id | id in t.rights ensures id in t'.rights && t'.rights[id].original == t.rights[id].original {
      assert m.rights[id] == WithoutContinued(t, user).rights[id];
    }
  }

  lemma {:induction false} RunKeeps(states: seq<Tables>, events: seq<Event>, i: nat, j: nat)
    requires IsRun(states, events) && states[0] == EMPTY && i <= j < |states|
    ensures Keeps(states[i], states[j])
  {
    if i < j {
      RunKeeps(states, events, i, j - 1);
      RunKeepsInv(states, events, j - 1);
      StepKeeps(states[j - 1], events[j - 1], states[j]);
    }
  }

  /** The right that covers a course of an erased learner: one of their own, or the one they had in use. */
  ghost predicate Covers(before: Tables, t: Tables, user: UserId, course: CourseId, id: Uuid) {
    && id in t.rights && t.rights[id].original.course == course
    && (t.rights[id].original.source == user || (id in before.rights && before.rights[id].subject == Some(user)))
  }

  lemma ErasureCovers(t: Tables, t': Tables, user: UserId, course: CourseId) returns (id: Uuid)
    requires Erases(t, t', user) && course in Admitted(t, user)
    ensures Covers(t, t', user, course, id)
  {
    var m: Tables :| Preserves(t, m, user) && t' == Deleted(m, user);
    if course in Continued(t, user) {
      id :| id in t.rights && t.rights[id].subject == Some(user) && t.rights[id].original.course == course;
      assert m.rights[id] == WithoutContinued(t, user).rights[id];
    } else {
      assert HasRight(m.rights, user, course);
      id :| id in m.rights && m.rights[id].original.source == user && m.rights[id].original.course == course;
    }
  }

  /** Every course a learner was admitted to at an erasure is covered by a right, in every state after it. */
  lemma AdmissionSurvivesErasure(states: seq<Tables>, events: seq<Event>, i: nat, j: nat, user: UserId, course: CourseId)
    requires IsRun(states, events) && states[0] == EMPTY && i < j < |states|
    requires events[i] == EraseEvent(user) && course in Admitted(states[i], user)
    ensures exists id :: Covers(states[i], states[j], user, course, id)
  {
    var id := ErasureCovers(states[i], states[i + 1], user, course);
    RunKeeps(states, events, i + 1, j);
    assert Covers(states[i], states[j], user, course, id);
  }

  /** Replaying a delivery changes nothing and names the same right and subject, even after the subject was erased. */
  lemma ReplayChangesNothing(states: seq<Tables>, events: seq<Event>, i: nat, j: nat, source: UserId, id: GrantId,
                             saw: bool, first: Admission, second: Admission, supplied: set<CourseId>)
    requires IsRun(states, events) && states[0] == EMPTY && i <= j < |states| && id in states[i].grants
    ensures var grant := states[i].grants[id];
            var (t, reply) := AfterGrant(states[j], source, id, saw, first, second, supplied);
            && t == states[j] && grant.right in states[i].rights
            && (reply.GrantIs? ==> reply.grant == grant.(state := reply.grant.state))
            && (reply.GrantIs? <==> (saw || first.Given?) && states[i].rights[grant.right].original.source == source)
  {
    RunKeepsInv(states, events, i);
    assert GrantOk(states[i].rights, states[i].grants[id]);
    RunKeeps(states, events, i, j);
  }

  // ----- Erasure is final --------------------------------------------------------------------------------------------------------

  /** Nothing of the account is live: no access, no right in use, no order that could still be fulfilled. */
  ghost predicate IsGone(t: Tables, user: UserId) {
    && user in t.deleted
    && (forall p | p in t.access :: p.user != user)
    && (forall id | id in t.rights :: t.rights[id].subject != Some(user))
    && (forall o | o in t.orders && t.orders[o].place.user == user :: t.orders[o].state !in {Prepared, Paid})
  }

  lemma EraseGoes(t: Tables, t': Tables, user: UserId)
    requires RightsInv(t) && Erases(t, t', user)
    ensures IsGone(t', user)
  {
    var m: Tables :| Preserves(t, m, user) && t' == Deleted(m, user);
    forall id | id in t'.rights ensures t'.rights[id].subject != Some(user) {
      if id in t.rights {
        WithoutContinuedKeepsRight(t, user, id);
        assert m.rights[id] == WithoutContinued(t, user).rights[id];
      }
    }
  }

  /** Every fulfilled order of the user was there before. */
  predicate FulfilsNoMore(t: Tables, t': Tables, user: UserId) {
    forall o | o in t'.orders && t'.orders[o].place.user == user && t'.orders[o].state == Fulfilled ::
      o in t.orders && t.orders[o] == t'.orders[o]
  }

  lemma StepStaysGone(t: Tables, e: Event, t': Tables, user: UserId)
    requires Inv(t) && IsGone(t, user) && Next(t, e, t')
    ensures IsGone(t', user) && FulfilsNoMore(t, t', user)
  {
    var kind := KindOf(t, e, t');
    if kind.ErasesUser? { EraseStaysGone(t, t', kind.user, user); }
  }

  lemma EraseStaysGone(t: Tables, t': Tables, other: UserId, user: UserId)
    requires RightsInv(t) && IsGone(t, user) && Erases(t, t', other)
    ensures IsGone(t', user) && FulfilsNoMore(t, t', user)
  {
    var m: Tables :| Preserves(t, m, other) && t' == Deleted(m, other);
    forall id | id in t'.rights ensures t'.rights[id].subject != Some(user) {
      if id in t.rights { assert m.rights[id] == WithoutContinued(t, other).rights[id]; }
    }
  }

  /** After an erasure no order, no delivery and no right gives the account anything again. */
  lemma {:induction false} EntitlementErasureIsFinal(states: seq<Tables>, events: seq<Event>, i: nat, j: nat, user: UserId)
    requires IsRun(states, events) && states[0] == EMPTY && i < j < |states| && events[i] == EraseEvent(user)
    ensures IsGone(states[j], user) && FulfilsNoMore(states[i + 1], states[j], user)
  {
    if j == i + 1 {
      RunKeepsInv(states, events, i);
      EraseGoes(states[i], states[j], user);
    } else {
      EntitlementErasureIsFinal(states, events, i, j - 1, user);
      RunKeepsInv(states, events, j - 1);
      StepStaysGone(states[j - 1], events[j - 1], states[j], user);
    }
  }
}
