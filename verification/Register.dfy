/**
 The revisioned private documents of a learner. Rooms, course projects and the learning plan are all
 saved by compare-and-set on a revision and keep the receipts of their newest saves, so that an exact
 retry gets its first answer. This module states the scheme once, with `keep` receipts per document,
 and proves over all runs that it is an exactly-once register.
 */
module Register {
  import opened Ids

  datatype Doc = Doc(user: UserId, name: string)
  datatype Key = Key(user: UserId, request: RequestId)

  /** What the SHA-256 of a request covers; the hash is taken to be injective. */
  datatype Fingerprint<P> = Fingerprint(doc: Doc, expected: nat, payload: P)
  datatype Receipt<P, A> = Receipt(revision: nat, fingerprint: Fingerprint<P>, answer: A)

  /** The tables: erased users, the revision of each document, and the kept receipts. */
  datatype Store<P, A> = Store(erased: set<UserId>, revisions: map<Doc, nat>, receipts: map<Key, Receipt<P, A>>)

  datatype Reply<A> = Gone | Reused | Stale | Replayed(answer: A) | Accepted(answer: A)

  function Revision(revisions: map<Doc, nat>, doc: Doc): nat {
    if doc in revisions then revisions[doc] else 0
  }

  // ----- Pruning ------------------------------------------------------------------------------------

  /** The receipts of `doc` with a higher revision than the receipt `key`. */
  function Newer<P, A>(receipts: map<Key, Receipt<P, A>>, doc: Doc, key: Key): set<Key>
    requires key in receipts
  {
    set k | k in receipts && receipts[k].fingerprint.doc == doc && receipts[k].revision > receipts[key].revision
  }

  /** Deletes every receipt of `doc` but the `keep` ones with the highest revisions. */
  function Prune<P, A>(receipts: map<Key, Receipt<P, A>>, doc: Doc, keep: nat): map<Key, Receipt<P, A>> {
    map k | k in receipts && (receipts[k].fingerprint.doc != doc || |Newer(receipts, doc, k)| < keep) :: receipts[k]
  }

  // ----- One save and one erasure ---------------------------------------------------------------------

  function Save<P(==), A>(s: Store<P, A>, keep: nat, key: Key, mark: Fingerprint<P>, answer: A)
    : (Store<P, A>, Reply<A>)
  {
    if mark.doc.user in s.erased then (s, Gone)
    else if key in s.receipts then
      (s, if s.receipts[key].fingerprint != mark then Reused else Replayed(s.receipts[key].answer))
    else if Revision(s.revisions, mark.doc) != mark.expected then (s, Stale)
    else (Advance(s, keep, key, mark, answer), Accepted(answer))
  }

  /** The effect of an accepted save. */
  function Advance<P, A>(s: Store<P, A>, keep: nat, key: Key, mark: Fingerprint<P>, answer: A): Store<P, A> {
    var revision := mark.expected + 1;
    s.(revisions := s.revisions[mark.doc := revision],
       receipts := Prune(s.receipts[key := Receipt(revision, mark, answer)], mark.doc, keep))
  }

  function Erase<P, A>(s: Store<P, A>, user: UserId): Store<P, A> {
    Store(s.erased + {user},
          map d | d in s.revisions && d.user != user :: s.revisions[d],
          map k | k in s.receipts && k.user != user :: s.receipts[k])
  }

  // ----- Runs -------------------------------------------------------------------------------------------

  /**
   Any client's request, with the answer it would get if accepted; the tombstone alone, which the purchase
   service can set before the account's data goes; or the erasure of an account.
   */
  datatype Event<P, A> =
    | SaveEvent(key: Key, mark: Fingerprint<P>, answer: A)
    | TombstoneEvent(user: UserId)
    | EraseEvent(user: UserId)

  datatype Change<P, A> = Change(key: Key, mark: Fingerprint<P>, answer: A)

  /** A store together with the history of the changes each document accepted. */
  datatype Traced<P, A> = Traced(store: Store<P, A>, log: map<Doc, seq<Change<P, A>>>)

  function Log<P, A>(t: Traced<P, A>, doc: Doc): seq<Change<P, A>> {
    if doc in t.log then t.log[doc] else []
  }

  function Step<P(==), A>(t: Traced<P, A>, keep: nat, e: Event<P, A>): Traced<P, A> {
    match e
    case SaveEvent(key, mark, answer) =>
      // The receipt and the document of a request belong to the same authenticated user.
      if key.user != mark.doc.user then t
      else
        var (store, reply) := Save(t.store, keep, key, mark, answer);
        if reply.Accepted?
        then Traced(store, t.log[mark.doc := Log(t, mark.doc) + [Change(key, mark, answer)]])
        else Traced(store, t.log)
    case TombstoneEvent(user) => t.(store := t.store.(erased := t.store.erased + {user}))
    case EraseEvent(user) =>
      Traced(Erase(t.store, user), map d | d in t.log && d.user != user :: t.log[d])
  }

  function Run<P(==), A>(t: Traced<P, A>, keep: nat, events: seq<Event<P, A>>): Traced<P, A>
    decreases events
  {
    if events == [] then t else Run(Step(t, keep, events[0]), keep, events[1..])
  }

  lemma OneStep<P, A>(t: Traced<P, A>, keep: nat, e: Event<P, A>)
    ensures Run(t, keep, [e]) == Step(t, keep, e)
  {
    assert Run(Step(t, keep, e), keep, [e][1..]) == Step(t, keep, e);
  }

  lemma {:induction false} RunAppend<P, A>(t: Traced<P, A>, keep: nat, a: seq<Event<P, A>>, b: seq<Event<P, A>>)
    ensures Run(t, keep, a + b) == Run(Run(t, keep, a), keep, b)
    decreases |a|
  {
    if a == [] {
      assert a + b == b;
    } else {
      assert (a + b)[0] == a[0] && (a + b)[1..] == a[1..] + b;
      RunAppend(Step(t, keep, a[0]), keep, a[1..], b);
    }
  }

  function Empty<P, A>(): Traced<P, A> {
    Traced(Store({}, map[], map[]), map[])
  }

  // ----- The invariant ------------------------------------------------------------------------------------

  /** The revision counts the accepted changes, and change number i expected revision i. */
  ghost predicate LogOk<P, A>(t: Traced<P, A>) {
    && (forall d | d in t.log :: Revision(t.store.revisions, d) == |t.log[d]|)
    && (forall d | d in t.store.revisions :: d in t.log)
    && (forall d, i | d in t.log && 0 <= i < |t.log[d]| ::
          t.log[d][i].mark.doc == d && t.log[d][i].mark.expected == i && t.log[d][i].key.user == d.user)
  }

  /** The receipt is that of one of the last `keep` changes of its document. */
  ghost predicate ReceiptOk<P, A>(t: Traced<P, A>, keep: nat, k: Key)
    requires k in t.store.receipts
  {
    var r := t.store.receipts[k];
    var log := Log(t, r.fingerprint.doc);
    && |log| - keep < r.revision <= |log| && 1 <= r.revision
    && log[r.revision - 1] == Change(k, r.fingerprint, r.answer)
  }

  ghost predicate ReceiptsOk<P, A>(t: Traced<P, A>, keep: nat) {
    forall k | k in t.store.receipts :: ReceiptOk(t, keep, k)
  }

  /** Change number `i` of a document still has its receipt. */
  ghost predicate HasReceipt<P, A>(t: Traced<P, A>, d: Doc, i: nat)
    requires d in t.log && i < |t.log[d]|
  {
    var c := t.log[d][i];
    c.key in t.store.receipts && t.store.receipts[c.key] == Receipt(i + 1, c.mark, c.answer)
  }

  /** Each of the last `keep` changes of a document has its receipt. */
  ghost predicate KeptOk<P, A>(t: Traced<P, A>, keep: nat) {
    forall d, i | d in t.log && 0 <= i < |t.log[d]| && i >= |t.log[d]| - keep :: HasReceipt(t, d, i)
  }

  ghost predicate Inv<P, A>(t: Traced<P, A>, keep: nat) {
    LogOk(t) && ReceiptsOk(t, keep) && KeptOk(t, keep)
  }

  // ----- The invariant is kept --------------------------------------------------------------------------

  /** The keys of the changes from position `from` on. */
  ghost function KeysFrom<P, A>(log: seq<Change<P, A>>, from: nat): set<Key> {
    set i | from <= i < |log| :: log[i].key
  }

  lemma {:induction false} CountKeys<P, A>(log: seq<Change<P, A>>, from: nat)
    requires from <= |log|
    requires forall i, j | from <= i < j < |log| :: log[i].key != log[j].key
    ensures |KeysFrom(log, from)| == |log| - from
    decreases |log| - from
  {
    if from < |log| {
      CountKeys(log, from + 1);
      assert KeysFrom(log, from) == {log[from].key} + KeysFrom(log, from + 1);
    }
  }

  /** The receipt `k`, if it is one of `doc`, is that of a change after position `low`. */
  ghost predicate Linked<P, A>(receipts: map<Key, Receipt<P, A>>, doc: Doc, log: seq<Change<P, A>>, low: nat, k: Key) {
    k in receipts && receipts[k].fingerprint.doc == doc ==>
      low < receipts[k].revision <= |log| && log[receipts[k].revision - 1].key == k
  }

  /** Change number `i` has its receipt. */
  ghost predicate Present<P, A>(receipts: map<Key, Receipt<P, A>>, doc: Doc, log: seq<Change<P, A>>, i: nat)
    requires i < |log|
  {
    var k := log[i].key;
    k in receipts && receipts[k].fingerprint.doc == doc && receipts[k].revision == i + 1
  }

  /** The receipts of `doc` are exactly those of the changes after position `low`. */
  ghost predicate Matched<P, A>(receipts: map<Key, Receipt<P, A>>, doc: Doc, log: seq<Change<P, A>>, low: nat) {
    && (forall k {:trigger Linked(receipts, doc, log, low, k)} :: Linked(receipts, doc, log, low, k))
    && (forall i {:trigger Present(receipts, doc, log, i)} | low <= i < |log| :: Present(receipts, doc, log, i))
  }

  /** With exactly one receipt for each change after `low`, the newer ones are counted by the revision. */
  lemma CountNewer<P, A>(receipts: map<Key, Receipt<P, A>>, doc: Doc, log: seq<Change<P, A>>, low: nat, key: Key)
    requires key in receipts && receipts[key].fingerprint.doc == doc
    requires Matched(receipts, doc, log, low)
    ensures low < receipts[key].revision <= |log|
    ensures |Newer(receipts, doc, key)| == |log| - receipts[key].revision
  {
    assert Linked(receipts, doc, log, low, key);
    var from := receipts[key].revision;
    forall i, j | from <= i < j < |log| ensures log[i].key != log[j].key {
      assert Present(receipts, doc, log, i) && Present(receipts, doc, log, j);
    }
    CountKeys(log, from);
    forall k | k in Newer(receipts, doc, key) ensures k in KeysFrom(log, from) {
      assert Linked(receipts, doc, log, low, k);
    }
    forall k | k in KeysFrom(log, from) ensures k in Newer(receipts, doc, key) {
      var i :| from <= i < |log| && log[i].key == k;
      assert Present(receipts, doc, log, i);
    }
    assert Newer(receipts, doc, key) == KeysFrom(log, from);
  }

  /** The position below which the changes of a history of this length have lost their receipts. */
  function Low(length: nat, keep: nat): nat {
    if length > keep then length - keep else 0
  }

  lemma ReceiptsMatch<P, A>(t: Traced<P, A>, keep: nat, doc: Doc)
    requires Inv(t, keep)
    ensures Matched(t.store.receipts, doc, Log(t, doc), Low(|Log(t, doc)|, keep))
  {
    var receipts, log := t.store.receipts, Log(t, doc);
    var low := Low(|log|, keep);
    forall k ensures Linked(receipts, doc, log, low, k) {
      if k in receipts { assert ReceiptOk(t, keep, k); }
    }
    forall i | low <= i < |log| ensures Present(receipts, doc, log, i) {
      assert HasReceipt(t, doc, i) && t.log[doc][i].mark.doc == doc;
    }
  }

  /** The receipts with the new one, before pruning. */
  function WithNew<P, A>(t: Traced<P, A>, key: Key, mark: Fingerprint<P>, answer: A): map<Key, Receipt<P, A>> {
    t.store.receipts[key := Receipt(mark.expected + 1, mark, answer)]
  }

  function AfterSave<P, A>(t: Traced<P, A>, keep: nat, key: Key, mark: Fingerprint<P>, answer: A): Traced<P, A> {
    Traced(Advance(t.store, keep, key, mark, answer),
           t.log[mark.doc := Log(t, mark.doc) + [Change(key, mark, answer)]])
  }

  lemma NewReceiptsMatch<P, A>(t: Traced<P, A>, keep: nat, key: Key, mark: Fingerprint<P>, answer: A)
    requires Inv(t, keep) && key !in t.store.receipts && |Log(t, mark.doc)| == mark.expected
    ensures Matched(WithNew(t, key, mark, answer), mark.doc, Log(t, mark.doc) + [Change(key, mark, answer)],
                    Low(mark.expected, keep))
  {
    var all, doc := WithNew(t, key, mark, answer), mark.doc;
    var before, log := Log(t, doc), Log(t, doc) + [Change(key, mark, answer)];
    var low := Low(mark.expected, keep);
    ReceiptsMatch(t, keep, doc);
    forall k ensures Linked(all, doc, log, low, k) {
      assert Linked(t.store.receipts, doc, before, low, k);
    }
    forall i | low <= i < |log| ensures Present(all, doc, log, i) {
      if i < |before| { assert Present(t.store.receipts, doc, before, i); }
    }
  }

  /** Pruning after a save drops exactly the receipts that are no longer among the last `keep` revisions. */
  lemma PruneKeepsLast<P, A>(t: Traced<P, A>, keep: nat, key: Key, mark: Fingerprint<P>, answer: A)
    requires Inv(t, keep) && key !in t.store.receipts && |Log(t, mark.doc)| == mark.expected
    ensures var all, left := WithNew(t, key, mark, answer), AfterSave(t, keep, key, mark, answer).store.receipts;
            forall k :: k in left <==>
              k in all && (all[k].fingerprint.doc == mark.doc ==> all[k].revision > mark.expected + 1 - keep)
  {
    var all := WithNew(t, key, mark, answer);
    var log := Log(t, mark.doc) + [Change(key, mark, answer)];
    NewReceiptsMatch(t, keep, key, mark, answer);
    assert AfterSave(t, keep, key, mark, answer).store.receipts == Prune(all, mark.doc, keep);
    forall k | k in all && all[k].fingerprint.doc == mark.doc
      ensures k in Prune(all, mark.doc, keep) <==> all[k].revision > mark.expected + 1 - keep
    {
      CountNewer(all, mark.doc, log, Low(mark.expected, keep), k);
    }
  }

  lemma SaveKeepsReceipts<P, A>(t: Traced<P, A>, keep: nat, key: Key, mark: Fingerprint<P>, answer: A)
    requires Inv(t, keep) && key !in t.store.receipts && |Log(t, mark.doc)| == mark.expected
    ensures ReceiptsOk(AfterSave(t, keep, key, mark, answer), keep)
  {
    var t' := AfterSave(t, keep, key, mark, answer);
    PruneKeepsLast(t, keep, key, mark, answer);
    forall k | k in t'.store.receipts ensures ReceiptOk(t', keep, k) {
      if k != key { ReceiptSurvives(t, t', keep, mark.doc, k); }
    }
  }

  lemma SaveKeepsKept<P, A>(t: Traced<P, A>, keep: nat, key: Key, mark: Fingerprint<P>, answer: A)
    requires Inv(t, keep) && key !in t.store.receipts && |Log(t, mark.doc)| == mark.expected
    ensures KeptOk(AfterSave(t, keep, key, mark, answer), keep)
  {
    var t' := AfterSave(t, keep, key, mark, answer);
    PruneKeepsLast(t, keep, key, mark, answer);
    forall d, i | d in t'.log && 0 <= i < |t'.log[d]| && i >= |t'.log[d]| - keep ensures HasReceipt(t', d, i) {
      var c := t'.log[d][i];
      if i < |Log(t, d)| {
        assert HasReceipt(t, d, i) && c == t.log[d][i] && c.mark.doc == d;
      }
      assert c.key in WithNew(t, key, mark, answer);
    }
  }

  /** An accepted save keeps exactly the receipts of the last `keep` changes. */
  lemma SaveKeepsInv<P, A>(t: Traced<P, A>, keep: nat, key: Key, mark: Fingerprint<P>, answer: A)
    requires Inv(t, keep) && key.user == mark.doc.user && mark.doc.user !in t.store.erased
    requires key !in t.store.receipts && Revision(t.store.revisions, mark.doc) == mark.expected
    ensures Inv(AfterSave(t, keep, key, mark, answer), keep)
  {
    SaveKeepsReceipts(t, keep, key, mark, answer);
    SaveKeepsKept(t, keep, key, mark, answer);
  }

  /** A receipt that is still there after a save of `doc` is still one of the last `keep`. */
  lemma ReceiptSurvives<P, A>(t: Traced<P, A>, t': Traced<P, A>, keep: nat, doc: Doc, k: Key)
    requires Inv(t, keep) && k in t.store.receipts && k in t'.store.receipts
    requires t'.store.receipts[k] == t.store.receipts[k]
    requires |Log(t', doc)| == |Log(t, doc)| + 1 && Log(t, doc) <= Log(t', doc)
    requires forall d | d != doc :: Log(t', d) == Log(t, d)
    requires t.store.receipts[k].fingerprint.doc == doc ==> t.store.receipts[k].revision > |Log(t', doc)| - keep
    ensures ReceiptOk(t', keep, k)
  {
    assert ReceiptOk(t, keep, k);
  }

  lemma EraseKeepsInv<P, A>(t: Traced<P, A>, keep: nat, user: UserId)
    requires Inv(t, keep)
    ensures Inv(Step(t, keep, EraseEvent(user)), keep)
  {
    var t' := Step(t, keep, EraseEvent(user));
    forall k | k in t'.store.receipts ensures ReceiptOk(t', keep, k) {
      assert ReceiptOk(t, keep, k);
    }
    forall d, i | d in t'.log && 0 <= i < |t'.log[d]| && i >= |t'.log[d]| - keep ensures HasReceipt(t', d, i) {
      assert HasReceipt(t, d, i);
    }
  }

  lemma StepKeepsInv<P, A>(t: Traced<P, A>, keep: nat, e: Event<P, A>)
    requires Inv(t, keep)
    ensures Inv(Step(t, keep, e), keep)
  {
    match e
    case SaveEvent(key, mark, answer) =>
      if key.user == mark.doc.user && Save(t.store, keep, key, mark, answer).1.Accepted? {
        SaveKeepsInv(t, keep, key, mark, answer);
      }
    case TombstoneEvent(user) =>
      var t' := Step(t, keep, e);
      forall k | k in t'.store.receipts ensures ReceiptOk(t', keep, k) { assert ReceiptOk(t, keep, k); }
      forall d, i | d in t'.log && 0 <= i < |t'.log[d]| && i >= |t'.log[d]| - keep ensures HasReceipt(t', d, i) {
        assert HasReceipt(t, d, i);
      }
    case EraseEvent(user) => EraseKeepsInv(t, keep, user);
  }

  lemma {:induction false} RunKeepsInv<P, A>(t: Traced<P, A>, keep: nat, events: seq<Event<P, A>>)
    requires Inv(t, keep)
    ensures Inv(Run(t, keep, events), keep)
    decreases events
  {
    if events != [] {
      StepKeepsInv(t, keep, events[0]);
      RunKeepsInv(Step(t, keep, events[0]), keep, events[1..]);
    }
  }

  // ----- Exactly once ---------------------------------------------------------------------------------------

  /** Every history of an erasable service starts empty and keeps the invariant. */
  lemma ReachableInv<P, A>(keep: nat, events: seq<Event<P, A>>)
    ensures Inv(Run(Empty<P, A>(), keep, events), keep)
  {
    RunKeepsInv(Empty<P, A>(), keep, events);
  }

  /** In every reachable store the receipts of a document are those of its last min(`keep`, n) changes, and no other. */
  lemma KeptAreTheLast<P, A>(keep: nat, events: seq<Event<P, A>>, doc: Doc, k: Key)
    ensures var t := Run(Empty<P, A>(), keep, events);
            && Revision(t.store.revisions, doc) == |Log(t, doc)|
            && ((k in t.store.receipts && t.store.receipts[k].fingerprint.doc == doc)
                <==> exists i | Low(|Log(t, doc)|, keep) <= i < |Log(t, doc)| :: Log(t, doc)[i].key == k)
  {
    var t := Run(Empty<P, A>(), keep, events);
    ReachableInv(keep, events);
    var low := Low(|Log(t, doc)|, keep);
    ReceiptsMatch(t, keep, doc);
    assert Linked(t.store.receipts, doc, Log(t, doc), low, k);
    if i :| low <= i < |Log(t, doc)| && Log(t, doc)[i].key == k {
      assert Present(t.store.receipts, doc, Log(t, doc), i);
    }
    if k in t.store.receipts && t.store.receipts[k].fingerprint.doc == doc {
      var i := t.store.receipts[k].revision - 1;
      assert Log(t, doc)[i].key == k;
    }
  }

  /** The kept receipts of a document carry its last min(`keep`, n) revisions, each exactly once. */
  lemma KeptRevisions<P, A>(keep: nat, events: seq<Event<P, A>>, doc: Doc, r: nat)
    ensures var s := Run(Empty<P, A>(), keep, events).store;
            var n := Revision(s.revisions, doc);
            && ((exists k :: k in s.receipts && s.receipts[k].fingerprint.doc == doc && s.receipts[k].revision == r)
                <==> Low(n, keep) < r <= n)
            && (forall a, b | a in s.receipts && b in s.receipts && s.receipts[a].fingerprint.doc == doc
                              && s.receipts[b].fingerprint.doc == doc && s.receipts[a].revision == s.receipts[b].revision ::
                  a == b)
  {
    var t := Run(Empty<P, A>(), keep, events);
    ReachableInv<P, A>(keep, events);
    var log := Log(t, doc);
    var low := Low(|log|, keep);
    ReceiptsMatch(t, keep, doc);
    forall k ensures Linked(t.store.receipts, doc, log, low, k) {}
    if low < r <= |log| {
      assert Present(t.store.receipts, doc, log, r - 1);
    }
  }

  /** A receipt's revision is the one its request asked to follow. */
  lemma ReceiptFollowsRequest<P, A>(keep: nat, events: seq<Event<P, A>>, k: Key)
    requires k in Run(Empty<P, A>(), keep, events).store.receipts
    ensures var r := Run(Empty<P, A>(), keep, events).store.receipts[k];
            r.revision == r.fingerprint.expected + 1 && k.user == r.fingerprint.doc.user
  {
    var t := Run(Empty<P, A>(), keep, events);
    ReachableInv<P, A>(keep, events);
    assert ReceiptOk(t, keep, k);
    var r := t.store.receipts[k];
    assert t.log[r.fingerprint.doc][r.revision - 1].mark.expected == r.revision - 1;
  }

  /** What an earlier history of a document says stays true, unless the account is erased with its data. */
  ghost predicate Remembers<P, A>(t: Traced<P, A>, t': Traced<P, A>) {
    && t.store.erased <= t'.store.erased
    && forall d | d in t.log :: d.user in t'.store.erased || (d in t'.log && t.log[d] <= t'.log[d])
  }

  lemma {:induction false} RunRemembers<P, A>(t: Traced<P, A>, keep: nat, events: seq<Event<P, A>>)
    ensures Remembers(t, Run(t, keep, events))
    decreases events
  {
    if events != [] {
      RunRemembers(Step(t, keep, events[0]), keep, events[1..]);
    }
  }

  /** The retry of a change that the history holds: replayed exactly while it is one of the last `keep`. */
  lemma RetryOfLogged<P, A>(t: Traced<P, A>, keep: nat, doc: Doc, i: nat, other: A)
    requires Inv(t, keep) && doc in t.log && i < |t.log[doc]| && doc.user !in t.store.erased
    ensures var c := t.log[doc][i];
            var (store, reply) := Save(t.store, keep, c.key, c.mark, other);
            && store == t.store
            && (if i >= |t.log[doc]| - keep then reply == Replayed(c.answer) else reply == Reused || reply == Stale)
  {
    var c := t.log[doc][i];
    if i >= |t.log[doc]| - keep {
      assert HasReceipt(t, doc, i);
    } else if c.key in t.store.receipts {
      assert ReceiptOk(t, keep, c.key);
    }
  }

  /** An accepted change stands in every later history, unless the account is erased. */
  lemma AcceptedIsRemembered<P, A>(t: Traced<P, A>, keep: nat, key: Key, mark: Fingerprint<P>, answer: A,
                                   later: seq<Event<P, A>>)
    requires Inv(t, keep) && key.user == mark.doc.user
    requires Save(t.store, keep, key, mark, answer).1.Accepted?
    ensures var now := Run(Step(t, keep, SaveEvent(key, mark, answer)), keep, later);
            && Inv(now, keep)
            && (mark.doc.user !in now.store.erased ==>
                  && mark.doc in now.log && mark.expected < |now.log[mark.doc]|
                  && now.log[mark.doc][mark.expected] == Change(key, mark, answer))
  {
    var first := Step(t, keep, SaveEvent(key, mark, answer));
    StepKeepsInv(t, keep, SaveEvent(key, mark, answer));
    RunKeepsInv(first, keep, later);
    RunRemembers(first, keep, later);
    assert first.log[mark.doc][mark.expected] == Change(key, mark, answer);
  }

  /**
   Once accepted, a change is never applied again: in every later state its exact retry changes nothing. It
   gets the original answer exactly while it is one of the last `keep` changes of its document; after that, and
   after an erasure, it is refused. `other` is the answer a fresh application would have produced.
   */
  lemma RetryIsExactlyOnce<P, A>(keep: nat, earlier: seq<Event<P, A>>, key: Key, mark: Fingerprint<P>, answer: A,
                                 later: seq<Event<P, A>>, other: A)
    requires key.user == mark.doc.user
    requires Save(Run(Empty(), keep, earlier).store, keep, key, mark, answer).1.Accepted?
    ensures var now := Run(Step(Run(Empty(), keep, earlier), keep, SaveEvent(key, mark, answer)), keep, later);
            var (store, reply) := Save(now.store, keep, key, mark, other);
            && store == now.store
            && if mark.doc.user in now.store.erased then reply == Gone
               else if mark.expected >= Revision(now.store.revisions, mark.doc) - keep then reply == Replayed(answer)
               else reply == Reused || reply == Stale
  {
    var t := Run(Empty(), keep, earlier);
    var now := Run(Step(t, keep, SaveEvent(key, mark, answer)), keep, later);
    ReachableInv(keep, earlier);
    AcceptedIsRemembered(t, keep, key, mark, answer, later);
    if mark.doc.user !in now.store.erased {
      RetryOfLogged(now, keep, mark.doc, mark.expected, other);
    }
  }

  /** At most one change is accepted per document and expected revision, and each raises the revision by one. */
  lemma OneChangePerRevision<P, A>(keep: nat, earlier: seq<Event<P, A>>, key: Key, mark: Fingerprint<P>, answer: A,
                                   later: seq<Event<P, A>>, key2: Key, mark2: Fingerprint<P>, answer2: A)
    requires key.user == mark.doc.user
    requires Save(Run(Empty(), keep, earlier).store, keep, key, mark, answer).1.Accepted?
    requires mark2.doc == mark.doc && mark2.expected == mark.expected
    ensures var t := Run(Empty(), keep, earlier);
            var first := Step(t, keep, SaveEvent(key, mark, answer));
            && Revision(first.store.revisions, mark.doc) == Revision(t.store.revisions, mark.doc) + 1
            && !Save(Run(first, keep, later).store, keep, key2, mark2, answer2).1.Accepted?
  {
    var t := Run(Empty(), keep, earlier);
    ReachableInv(keep, earlier);
    AcceptedIsRemembered(t, keep, key, mark, answer, later);
  }

  /** No document and no receipt of the user, and the tombstone that keeps it so. */
  ghost predicate IsErased<P, A>(s: Store<P, A>, user: UserId) {
    && user in s.erased
    && (forall d | d in s.revisions :: d.user != user)
    && (forall k | k in s.receipts :: k.user != user)
  }

  /** After the erasure of an account no later step gives it a document or a receipt. */
  lemma ErasureIsFinal<P, A>(t: Traced<P, A>, keep: nat, user: UserId, later: seq<Event<P, A>>)
    ensures IsErased(Run(Step(t, keep, EraseEvent(user)), keep, later).store, user)
  {
    ErasedStays(Step(t, keep, EraseEvent(user)), keep, user, later);
  }

  lemma {:induction false} ErasedStays<P, A>(t: Traced<P, A>, keep: nat, user: UserId, later: seq<Event<P, A>>)
    requires IsErased(t.store, user)
    ensures IsErased(Run(t, keep, later).store, user)
    decreases later
  {
    if later != [] { ErasedStays(Step(t, keep, later[0]), keep, user, later[1..]); }
  }
}
