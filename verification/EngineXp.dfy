/** XP receipts and counters: the counters are the sums of the receipts, and each operation pays once. */
module EngineXp {
  import opened Options
  import opened Ids
  import opened EngineTables
  import opened EngineSteps
  import opened EngineSystem
  import opened EngineInvariant
  import opened EngineBooking

  // ----- Sums ------------------------------------------------------------------------------------------------

  lemma {:induction false} SumWithout(operations: Operations, ids: set<OperationId>, op: OperationId)
    requires ids <= operations.Keys && op in ids
    ensures Sum(operations, ids) == operations[op].request.xp + Sum(operations, ids - {op})
    decreases |ids|
  {
    var first :| first in ids && Sum(operations, ids) == operations[first].request.xp + Sum(operations, ids - {first});
    if first != op {
      SumWithout(operations, ids - {first}, op);
      SumWithout(operations, ids - {op}, first);
      assert ids - {first} - {op} == ids - {op} - {first};
    }
  }

  lemma {:induction false} SumSame(before: Operations, after: Operations, ids: set<OperationId>)
    requires ids <= before.Keys && ids <= after.Keys
    requires forall op | op in ids :: before[op] == after[op]
    ensures Sum(before, ids) == Sum(after, ids)
    decreases |ids|
  {
    if ids != {} {
      var op :| op in ids;
      SumWithout(before, ids, op);
      SumWithout(after, ids, op);
      SumSame(before, after, ids - {op});
    }
  }

  /** A new receipt adds its XP to the total of its learner and sub-skill, and to no other. */
  lemma TotalAfterReceipt(operations: Operations, op: OperationId, row: XpOperation, key: XpKey)
    requires op !in operations
    ensures Total(operations[op := row], key) == Total(operations, key) + if Pays(row, key) then row.request.xp else 0
  {
    var after := operations[op := row];
    SumSame(operations, after, Payers(operations, key));
    if Pays(row, key) {
      SumWithout(after, Payers(after, key), op);
      assert Payers(after, key) - {op} == Payers(operations, key);
    } else {
      assert Payers(after, key) == Payers(operations, key);
    }
  }

  lemma PaymentKeepsTotals(operations: Operations, xp: map<XpKey, int>, lost: map<XpKey, int>, op: OperationId,
                           request: XpRequest)
    requires TotalsInv(operations, xp, lost) && op !in operations
    ensures TotalsInv(operations[op := XpOperation(request.user, request, Some(Applied))],
                      AddXp(xp, XpKey(request.user, request.skill), request.xp), lost)
  {
    var row := XpOperation(request.user, request, Some(Applied));
    var after := operations[op := row];
    forall key
      ensures Counter(AddXp(xp, XpKey(request.user, request.skill), request.xp), key) + Counter(lost, key) == Total(after, key)
    {
      TotalAfterReceipt(operations, op, row, key);
      assert Counter(xp, key) + Counter(lost, key) == Total(operations, key);
    }
  }

  /** Without one learner's receipts and counters, every other total is as before. */
  lemma ErasureKeepsTotals(states: States, operations: Operations, xp: map<XpKey, int>, lost: map<XpKey, int>,
                           user: UserId)
    requires ReceiptsInv(states, operations) && TotalsInv(operations, xp, lost)
    ensures TotalsInv(map op | op in operations && operations[op].user != user :: operations[op],
                      map k | k in xp && k.user != user :: xp[k], map k | k in lost && k.user != user :: lost[k])
  {
    var after := map op | op in operations && operations[op].user != user :: operations[op];
    var xp' := map k | k in xp && k.user != user :: xp[k];
    var lost' := map k | k in lost && k.user != user :: lost[k];
    forall op | op in operations ensures operations[op].user == operations[op].request.user {
      assert OperationOk(states, op, operations[op]);
    }
    forall key ensures Counter(xp', key) + Counter(lost', key) == Total(after, key) {
      assert Counter(xp, key) + Counter(lost, key) == Total(operations, key);
      if key.user == user {
        assert Payers(after, key) == {};
      } else {
        assert Payers(after, key) == Payers(operations, key);
        SumSame(operations, after, Payers(operations, key));
      }
    }
  }

  /** Deleting a sub-skill moves its counters from one side to the other. */
  lemma SkillDeletedKeepsInv(cfg: Config, s: System, skill: SkillId)
    requires Inv(cfg, s)
    ensures Inv(cfg, StepSkillDeleted(s, skill))
  {
    var s' := StepSkillDeleted(s, skill);
    forall key ensures Counter(s'.db.xp, key) + Counter(s'.lost, key) == Total(s.db.operations, key) {
      assert Counter(s.db.xp, key) + Counter(s.lost, key) == Total(s.db.operations, key);
    }
    forall user | user in s.wiped ensures IsWiped(s'.db, user) { assert IsWiped(s.db, user); }
  }

  // ----- Awards of other services --------------------------------------------------------------------------------

  lemma OtherReceiptKeepsReceipts(states: States, operations: Operations, id: string, request: XpRequest)
    requires ReceiptsInv(states, operations)
    ensures ReceiptsInv(states, operations[OtherOperation(id) := XpOperation(request.user, request, Some(Applied))])
  {
    var after := operations[OtherOperation(id) := XpOperation(request.user, request, Some(Applied))];
    forall op | op in after ensures OperationOk(states, op, after[op]) {
      if op != OtherOperation(id) { assert OperationOk(states, op, operations[op]); }
    }
  }

  lemma OtherReceiptKeepsPaid(operations: Operations, paid: multiset<OperationId>, wiped: set<UserId>, id: string,
                              row: XpOperation)
    requires PaidInv(operations, paid, wiped)
    ensures PaidInv(operations[OtherOperation(id) := row], paid, wiped)
  {
    var after := operations[OtherOperation(id) := row];
    forall op ensures PaidOk(after, paid, wiped, op) {
      assert PaidOk(operations, paid, wiped, op);
    }
  }

  lemma PaymentKeepsWiped(db: Db, wiped: set<UserId>, op: OperationId, request: XpRequest)
    requires WipedInv(db, wiped) && request.user !in db.erased
    ensures WipedInv(Paid(db, op, request), wiped)
  {
    forall user | user in wiped ensures IsWiped(Paid(db, op, request), user) { assert IsWiped(db, user); }
  }

  lemma XpKeepsInv(cfg: Config, s: System, id: string, request: XpRequest, w: XpWorld)
    requires Inv(cfg, s)
    ensures Inv(cfg, s.(db := ApplyXp(s.db, OtherOperation(id), request, w).0))
  {
    var op := OtherOperation(id);
    if op in s.db.operations { assert OperationOk(s.db.states, op, s.db.operations[op]); }
    ApplyXpShape(s.db, op, request, w);
    var db := ApplyXp(s.db, op, request, w).0;
    if db != s.db {
      PaymentKeepsTotals(s.db.operations, s.db.xp, s.lost, op, request);
      OtherReceiptKeepsReceipts(s.db.states, s.db.operations, id, request);
      OtherReceiptKeepsPaid(s.db.operations, s.paid, s.wiped, id, XpOperation(request.user, request, Some(Applied)));
      PaymentKeepsWiped(s.db, s.wiped, op, request);
    }
  }
}
