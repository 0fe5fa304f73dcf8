/**
 Course orders and retained course rights (api/services/purchases.py, api/services/retained_rights.py and their part
 of api/services/user_deletion.py), with the operations as the source writes them.
 */
module Entitlements {
  import opened Options
  import opened Ids

  type OrderId = string
  type GrantId = string

  datatype Place = Place(user: UserId, course: CourseId)

  // ----- Orders ---------------------------------------------------------------------------------------------

  datatype OrderState = Offered | Prepared | Paid | Review | Failed | Fulfilled

  /** The binding facts of an offer; `product` stands for what the SHA-256 of the course product covers. */
  datatype Offer = Offer(product: string, hash: string)
  datatype Acceptance = Acceptance(order: OrderId, hash: string, accepted: bool, early: bool)

  /** `key`: the unique active_key of the learner and course is set. */
  datatype Order = Order(place: Place, offer: Offer, state: OrderState, key: bool, acceptance: Option<Acceptance>)

  predicate IsActive(state: OrderState) {
    state == Prepared || state == Paid || state == Review || state == Fulfilled
  }

  // ----- Retained rights -----------------------------------------------------------------------------------------

  /** What was observed when the source's data was deleted; it never changes. */
  datatype Original = Original(source: UserId, course: CourseId, hadAccess: bool, hadStarted: bool,
                               purchases: set<OrderId>, at: Time)
  datatype Right = Right(original: Original, subject: Option<UserId>, generation: nat)

  datatype GrantState = Granted | Withdrawn
  datatype Grant = GrantRow(right: Uuid, subject: UserId, course: CourseId, state: GrantState)

  /** `watched` are the LastWatch rows: an access of its own, written without the user guard. */
  datatype Tables = Tables(uuids: Uuid, deleted: set<UserId>, access: set<Place>, watched: set<Place>,
                           orders: map<OrderId, Order>, rights: map<Uuid, Right>, grants: map<GrantId, Grant>)

  // ----- The world ---------------------------------------------------------------------------------------------------

  datatype Account = Alive | Vanished | Unknown

  /** The shop's answer to a prepared order: a rejection, an outcome, or nothing usable. */
  datatype ShopAnswer =
    | Rejected
    | Outcome(state: OrderState, confirmed: bool, late: bool)
    | Silent

  datatype Authority = Authority(successor: UserId, contract: Uuid, scope: Original)
  datatype Admission = Down | NoAuthority | Given(authority: Authority)

  datatype OrderReply = OrderRefused(code: nat) | OrderPending | OrderIs(id: OrderId)
  datatype GrantReply = GrantRefused(code: nat) | GrantIs(grant: Grant)

  // ----- One step of each operation ----------------------------------------------------------------------------------

  predicate HasOrder(orders: map<OrderId, Order>, place: Place, states: set<OrderState>, but: set<OrderId>) {
    exists id :: id in orders && id !in but && orders[id].place == place && orders[id].state in states
  }

  /** The accepting transaction of `buy`; `product` is the course as it is offered now. */
  function AfterAccept(t: Tables, place: Place, product: string, a: Acceptance): (Tables, OrderReply) {
    if place.user in t.deleted || a.order !in t.orders || t.orders[a.order].place != place then (t, OrderRefused(404))
    else
      var row := t.orders[a.order];
      if row.acceptance.Some? then (t, if row.acceptance.value == a then OrderIs(a.order) else OrderRefused(409))
      else if row.state != Offered || row.offer.product != product then (t, OrderRefused(409))
      else if !a.accepted || !a.early || a.hash != row.offer.hash then (t, OrderRefused(409))
      else if place in t.access then (t, OrderRefused(409))
      else if HasOrder(t.orders, place, {Prepared, Paid, Review, Fulfilled}, {a.order}) then (t, OrderRefused(409))
      else
        (t.(orders := t.orders[a.order := row.(acceptance := Some(a), state := Prepared, key := true)]), OrderIs(a.order))
  }

  /** `offer`: a new order with the shop's id and terms; `offered` says that the shop made an offer. */
  function AfterOffer(t: Tables, place: Place, id: OrderId, offer: Offer, free: bool, offered: bool): (Tables, OrderReply) {
    if place.user in t.deleted || free then (t, OrderRefused(412))
    else if place in t.access then (t, OrderRefused(409))
    else if HasOrder(t.orders, place, {Prepared, Paid, Review}, {}) then (t, OrderPending)
    else if !offered || id in t.orders then (t, OrderRefused(503))
    else (t.(orders := t.orders[id := Order(place, offer, Offered, false, None)]), OrderIs(id))
  }

  /** `deliver`: asks the shop about a prepared order and provides the course once it is paid and confirmed. */
  function AfterDeliver(t: Tables, id: OrderId, account: Account, answer: ShopAnswer): Tables {
    if id !in t.orders || (t.orders[id].state != Prepared && t.orders[id].state != Paid) then t
    else
      var row := t.orders[id];
      if row.place.user in t.deleted then t.(orders := t.orders[id := row.(state := Review)])
      else if account == Vanished then
        t.(deleted := t.deleted + {row.place.user}, orders := t.orders[id := row.(state := Review)])
      else if account != Alive || answer.Silent? then t
      else if answer.Rejected? || answer.state == Failed then
        t.(orders := t.orders[id := row.(state := Failed, key := false)])
      else if answer.state == Offered then t
      else if answer.state != Paid || !answer.confirmed then t.(orders := t.orders[id := row.(state := answer.state)])
      else if answer.late then t.(orders := t.orders[id := row.(state := Review)])
      else
        t.(access := t.access + {row.place}, orders := t.orders[id := row.(state := Fulfilled)])
  }

  function ScopeOf(t: Tables, a: Authority, source: UserId): bool {
    a.contract in t.rights && t.rights[a.contract].original.source == source && source in t.deleted
    && t.rights[a.contract].original == a.scope
  }

  /** An earlier delivery answers as it is, to its own source. */
  function Replay(t: Tables, source: UserId, id: GrantId): GrantReply
    requires id in t.grants
  {
    var grant := t.grants[id];
    if grant.right in t.rights && t.rights[grant.right].original.source == source then GrantIs(grant)
    else GrantRefused(404)
  }

  /**
   `deliver` of a retained right. `saw`: its unlocked first read saw the grant; `first` and `second` are the answers of
   the authority before and after the lock; `supplied`: the course still exists.
   */
  function AfterGrant(t: Tables, source: UserId, id: GrantId, saw: bool, first: Admission, second: Admission,
                      supplied: set<CourseId>): (Tables, GrantReply)
  {
    if saw && id in t.grants then (t, Replay(t, source, id))
    else if first.Down? then (t, GrantRefused(503))
    else if first.NoAuthority? then (t, GrantRefused(409))
    else if id in t.grants then (t, Replay(t, source, id))
    else if first.authority.successor in t.deleted then (t, GrantRefused(409))
    else if second.Down? then (t, GrantRefused(503))
    else if second.NoAuthority? || second.authority.successor != first.authority.successor
            || second.authority.scope != first.authority.scope then (t, GrantRefused(409))
    else if !ScopeOf(t, first.authority, source) then (t, GrantRefused(409))
    else
      var subject, right := first.authority.successor, t.rights[first.authority.contract];
      if right.subject.Some? && right.subject.value != subject then (t, GrantRefused(409))
      else if right.original.course !in supplied then (t, GrantRefused(409))
      else
        var grant := GrantRow(first.authority.contract, subject, right.original.course, Granted);
        (t.(access := t.access + {Place(subject, right.original.course)},
            rights := t.rights[first.authority.contract := right.(subject := Some(subject))],
            grants := t.grants[id := grant]),
         GrantIs(grant))
  }

  // ----- Erasure as a relation ---------------------------------------------------------------------------------------------

  /** The courses a learner is admitted to, by access or by having started them. */
  function Admitted(t: Tables, user: UserId): set<CourseId> {
    set p | p in t.access + t.watched && p.user == user :: p.course
  }

  /** The courses a learner uses by the right of another source. */
  function Continued(t: Tables, user: UserId): set<CourseId> {
    set id | id in t.rights && t.rights[id].subject == Some(user) :: t.rights[id].original.course
  }

  function OrdersAt(orders: map<OrderId, Order>, place: Place): set<OrderId> {
    set o | o in orders && orders[o].place == place
  }

  predicate HasRight(rights: map<Uuid, Right>, source: UserId, course: CourseId) {
    exists id :: id in rights && rights[id].original.source == source && rights[id].original.course == course
  }

  function Freed(right: Right, user: UserId): Right {
    if right.subject == Some(user) then right.(subject := None, generation := right.generation + 1) else right
  }

  function WithdrawnFrom(grant: Grant, user: UserId): Grant {
    if grant.subject == user && grant.state == Granted then grant.(state := Withdrawn) else grant
  }

  function ReviewedFor(order: Order, user: UserId): Order {
    if order.place.user == user && (order.state == Prepared || order.state == Paid) then order.(state := Review) else order
  }

  /** The user no longer uses or holds any retained right. */
  function WithoutContinued(t: Tables, user: UserId): Tables {
    t.(rights := map id | id in t.rights :: Freed(t.rights[id], user),
       grants := map id | id in t.grants :: WithdrawnFrom(t.grants[id], user))
  }

  /** The rights recorded for these courses: each new one once, none where the user had one before. */
  ghost predicate Observed(t: Tables, t': Tables, user: UserId, courses: set<CourseId>) {
    && t' == t.(uuids := t'.uuids, rights := t'.rights) && t.uuids <= t'.uuids
    && (forall id | id in t.rights :: id in t'.rights && t'.rights[id] == t.rights[id])
    && (forall id | id in t'.rights && id !in t.rights ::
          t.uuids <= id < t'.uuids && IsNew(t, user, courses, t'.rights[id]))
    && (forall c {:trigger HasRight(t'.rights, user, c)} | c in courses :: HasRight(t'.rights, user, c))
    && (forall a, b {:trigger Differ(t'.rights, a, b)}
          | a in t'.rights && a !in t.rights && b in t'.rights && b !in t.rights && a != b :: Differ(t'.rights, a, b))
  }

  predicate Differ(rights: map<Uuid, Right>, a: Uuid, b: Uuid)
    requires a in rights && b in rights
  {
    rights[a].original.source != rights[b].original.source || rights[a].original.course != rights[b].original.course
  }

  predicate IsNew(t: Tables, user: UserId, courses: set<CourseId>, right: Right) {
    && right.subject == None && right.generation == 0 && right.original.source == user
    && var course := right.original.course;
       && course in courses && !HasRight(t.rights, user, course)
       && right.original.hadAccess == (Place(user, course) in t.access)
       && right.original.hadStarted == (Place(user, course) in t.watched)
       && right.original.purchases == OrdersAt(t.orders, Place(user, course))
  }

  lemma ObservedBefore(t: Tables, t': Tables, user: UserId, courses: set<CourseId>, course: CourseId)
    requires Observed(t, t', user, courses) && HasRight(t'.rights, user, course)
    ensures Observed(t, t', user, courses + {course})
  {
    forall a | a in t'.rights && a !in t.rights ensures IsNew(t, user, courses + {course}, t'.rights[a]) {
      assert IsNew(t, user, courses, t'.rights[a]);
    }
  }

  lemma ObservedOneMore(t: Tables, m: Tables, t': Tables, user: UserId, courses: set<CourseId>, course: CourseId)
    requires Observed(t, m, user, courses) && !HasRight(m.rights, user, course) && m.uuids !in m.rights
    requires t' == m.(uuids := m.uuids + 1, rights := t'.rights)
    requires m.uuids in t'.rights && t'.rights == m.rights[m.uuids := t'.rights[m.uuids]]
    requires IsNew(m, user, {course}, t'.rights[m.uuids])
    ensures Observed(t, t', user, courses + {course})
  {
    var id := m.uuids;
    assert HasRight(t'.rights, user, course) by { assert t'.rights[id].original.course == course; }
    forall c | c in courses ensures HasRight(t'.rights, user, c) {
      assert HasRight(m.rights, user, c);
      var o :| o in m.rights && m.rights[o].original.source == user && m.rights[o].original.course == c;
      assert t'.rights[o] == m.rights[o];
    }
    forall a | a in t'.rights && a !in t.rights
      ensures t.uuids <= a < t'.uuids && IsNew(t, user, courses + {course}, t'.rights[a])
    {
      if a != id { assert IsNew(t, user, courses, m.rights[a]); }
    }
    forall a, b | a in t'.rights && a !in t.rights && b in t'.rights && b !in t.rights && a != b
      ensures Differ(t'.rights, a, b)
    {
      if a != id && b != id { assert Differ(m.rights, a, b); }
    }
  }

  /** `preserve_before_erasure`: rights in use are freed, and each course of the user's own gets its right. */
  ghost predicate Preserves(t: Tables, t': Tables, user: UserId) {
    Observed(WithoutContinued(t, user), t', user, Admitted(t, user) - Continued(t, user))
  }

  /** The tables after the rights were preserved: the tombstone, open orders to review, and no access left. */
  function Deleted(t: Tables, user: UserId): Tables {
    t.(deleted := t.deleted + {user},
       orders := map id | id in t.orders :: ReviewedFor(t.orders[id], user),
       access := (set p | p in t.access && p.user != user),
       watched := (set p | p in t.watched && p.user != user))
  }

  /** `delete_user_data`, as far as these tables go. */
  ghost predicate Erases(t: Tables, t': Tables, user: UserId) {
    exists m: Tables :: Preserves(t, m, user) && t' == Deleted(m, user)
  }

  // ----- The operations, step by step -------------------------------------------------------------------------------------------

  class Database {
    var uuids: Uuid
    var deleted: set<UserId>
    var access: set<Place>
    var watched: set<Place>
    var orders: map<OrderId, Order>
    var rights: map<Uuid, Right>
    var grants: map<GrantId, Grant>

    function Contents(): Tables
      reads this
    {
      Tables(uuids, deleted, access, watched, orders, rights, grants)
    }

    constructor ()
      ensures Contents() == Tables(0, {}, {}, {}, map[], map[], map[])
    {
      uuids, deleted, access, watched, orders, rights, grants := 0, {}, {}, {}, map[], map[], map[];
    }

    method Accept(place: Place, product: string, a: Acceptance) returns (reply: OrderReply)
      modifies this`orders
      ensures (Contents(), reply) == AfterAccept(old(Contents()), place, product, a)
    {
      if place.user in deleted || a.order !in orders || orders[a.order].place != place { return OrderRefused(404); }
      var row := orders[a.order];
      if row.acceptance.Some? {
        if row.acceptance.value != a { return OrderRefused(409); }
      } else {
        if row.state != Offered || row.offer.product != product { return OrderRefused(409); }
        if !a.accepted || !a.early || a.hash != row.offer.hash { return OrderRefused(409); }
        if place in access { return OrderRefused(409); }
        if HasOrder(orders, place, {Prepared, Paid, Review, Fulfilled}, {a.order}) { return OrderRefused(409); }
        row := row.(acceptance := Some(a));
        row := row.(state := Prepared);
        row := row.(key := true);
        orders := orders[a.order := row];
      }
      return OrderIs(a.order);
    }

    method Deliver(id: OrderId, account: Account, answer: ShopAnswer)
      modifies this`orders, this`deleted, this`access
      ensures Contents() == AfterDeliver(old(Contents()), id, account, answer)
    {
      if id !in orders { return; }
      var row := orders[id];
      if row.state != Prepared && row.state != Paid { return; }
      if row.place.user in deleted {
        orders := orders[id := row.(state := Review)];
        return;
      }
      if account == Vanished {
        deleted := deleted + {row.place.user};
        orders := orders[id := row.(state := Review)];
        return;
      }
      if account != Alive { return; }
      match answer {
        case Silent =>
        case Rejected => orders := orders[id := row.(state := Failed, key := false)];
        case Outcome(state, confirmed, late) =>
          // The shop never takes an accepted order back to an offer.
          if state == Offered { return; }
          row := row.(state := state);
          if row.state == Failed { row := row.(key := false); }
          if row.state == Paid && confirmed {
            if late {
              row := row.(state := Review);
            } else {
              if row.place !in access { access := access + {row.place}; }
              row := row.(state := Fulfilled);
            }
          }
          orders := orders[id := row];
      }
    }

    method Grant(source: UserId, id: GrantId, saw: bool, first: Admission, second: Admission, supplied: set<CourseId>)
      returns (reply: GrantReply)
      modifies this`access, this`rights, this`grants
      ensures (Contents(), reply) == AfterGrant(old(Contents()), source, id, saw, first, second, supplied)
    {
      if saw && id in grants { return Replay(Contents(), source, id); }
      if first.Down? { return GrantRefused(503); }
      if first.NoAuthority? { return GrantRefused(409); }
      var subject := first.authority.successor;
      if id in grants { return Replay(Contents(), source, id); }
      if subject in deleted { return GrantRefused(409); }
      if second.Down? { return GrantRefused(503); }
      if second.NoAuthority? || second.authority.successor != subject
         || second.authority.scope != first.authority.scope { return GrantRefused(409); }
      if !ScopeOf(Contents(), first.authority, source) { return GrantRefused(409); }
      var right := rights[first.authority.contract];
      if right.subject.Some? && right.subject.value != subject { return GrantRefused(409); }
      var course := right.original.course;
      if course !in supplied { return GrantRefused(409); }
      if Place(subject, course) !in access { access := access + {Place(subject, course)}; }
      assert access == old(access) + {Place(subject, course)};
      rights := rights[first.authority.contract := right.(subject := Some(subject))];
      var grant := GrantRow(first.authority.contract, subject, course, Granted);
      grants := grants[id := grant];
      return GrantIs(grant);
    }

    // ----- Erasure ------------------------------------------------------------------------------------------

    /** Frees every right the user has in use. */
    method FreeRights(user: UserId)
      modifies this`rights
      ensures rights == map id | id in old(rights) :: Freed(old(rights)[id], user)
    {
      var todo := set id | id in rights && rights[id].subject == Some(user);
      while todo != {}
        invariant rights.Keys == old(rights).Keys && todo <= rights.Keys
        invariant forall id | id in rights :: rights[id] == if id in todo then old(rights)[id] else Freed(old(rights)[id], user)
        decreases todo
      {
        var id :| id in todo;
        var right := rights[id];
        right := right.(subject := None);
        right := right.(generation := right.generation + 1);
        rights := rights[id := right];
        todo := todo - {id};
      }
    }

    /** Withdraws every grant that still serves the user. */
    method WithdrawGrants(user: UserId)
      modifies this`grants
      ensures grants == map id | id in old(grants) :: WithdrawnFrom(old(grants)[id], user)
    {
      var todo := set id | id in grants && grants[id].subject == user && grants[id].state == Granted;
      while todo != {}
        invariant grants.Keys == old(grants).Keys && todo <= grants.Keys
        invariant forall id | id in grants :: grants[id] == if id in todo then old(grants)[id] else WithdrawnFrom(old(grants)[id], user)
        decreases todo
      {
        var id :| id in todo;
        grants := grants[id := grants[id].(state := Withdrawn)];
        todo := todo - {id};
      }
    }

    /** Puts every open order of the user under review. */
    method ReviewOrders(user: UserId)
      modifies this`orders
      ensures orders == map id | id in old(orders) :: ReviewedFor(old(orders)[id], user)
    {
      var todo := set id | id in orders && orders[id].place.user == user && orders[id].state in {Prepared, Paid};
      while todo != {}
        invariant orders.Keys == old(orders).Keys && todo <= orders.Keys
        invariant forall id | id in orders :: orders[id] == if id in todo then old(orders)[id] else ReviewedFor(old(orders)[id], user)
        decreases todo
      {
        var id :| id in todo;
        orders := orders[id := orders[id].(state := Review)];
        todo := todo - {id};
      }
    }

    /** Records the right of each course once; a course the user was the source of before keeps its right. */
    method ObserveCourses(user: UserId, courses: set<CourseId>, now: Time)
      requires forall id | id in rights :: id < uuids
      modifies this`uuids, this`rights
      ensures Observed(old(Contents()), Contents(), user, courses)
    {
      ghost var before := Contents();
      var todo := courses;
      while todo != {}
        invariant todo <= courses && Contents() == before.(uuids := uuids, rights := rights)
        invariant forall id | id in rights :: id < uuids
        invariant Observed(before, Contents(), user, courses - todo)
        decreases todo
      {
        var course :| course in todo;
        if !HasRight(rights, user, course) {
          var original := Original(user, course, Place(user, course) in access, Place(user, course) in watched,
                                   OrdersAt(orders, Place(user, course)), now);
          ghost var mid := Contents();
          rights := rights[uuids := Right(original, None, 0)];
          uuids := uuids + 1;
          ObservedOneMore(before, mid, Contents(), user, courses - todo, course);
        } else {
          ObservedBefore(before, Contents(), user, courses - todo, course);
        }
        todo := todo - {course};
        assert courses - todo == (courses - (todo + {course})) + {course};
      }
      assert courses - {} == courses;
    }

    /** `preserve_before_erasure` */
    method PreserveBeforeErasure(user: UserId, now: Time)
      requires forall id | id in rights :: id < uuids
      modifies this`uuids, this`rights, this`grants
      ensures Preserves(old(Contents()), Contents(), user)
    {
      var courses := Admitted(Contents(), user) - Continued(Contents(), user);
      FreeRights(user);
      WithdrawGrants(user);
      ObserveCourses(user, courses, now);
    }

    /** Puts up the tombstone, hands open orders to review and deletes the rows of access. */
    method DeleteRows(user: UserId)
      modifies this`deleted, this`orders, this`access, this`watched
      ensures Contents() == Deleted(old(Contents()), user)
    {
      deleted := deleted + {user};
      ReviewOrders(user);
      access := set p | p in access && p.user != user;
      watched := set p | p in watched && p.user != user;
    }

    /** `delete_user_data` */
    method DeleteUserData(user: UserId, now: Time)
      requires forall id | id in rights :: id < uuids
      modifies this
      ensures Erases(old(Contents()), Contents(), user)
    {
      PreserveBeforeErasure(user, now);
      DeleteRows(user);
    }
  }
}
