/** Groups of advisory names that records connect by aliases (scripts/audit_dependencies.py). */
module AliasGroups {
  type Name = string

  /** The names of a record: its id and its aliases. */
  function Record(aliases: map<Name, set<Name>>, id: Name): set<Name> {
    {id} + if id in aliases then aliases[id] else {}
  }

  /** A chain of records, each sharing a name with the next, from one with `a` to one with `b`. */
  ghost predicate IsChain(aliases: map<Name, set<Name>>, ids: set<Name>, chain: seq<Name>, a: Name, b: Name) {
    && chain != [] && (forall i | 0 <= i < |chain| :: chain[i] in ids)
    && a in Record(aliases, chain[0]) && b in Record(aliases, chain[|chain| - 1])
    && (forall i | 0 <= i < |chain| - 1 :: Record(aliases, chain[i]) * Record(aliases, chain[i + 1]) != {})
  }

  ghost predicate Linked(aliases: map<Name, set<Name>>, ids: set<Name>, a: Name, b: Name) {
    exists chain :: IsChain(aliases, ids, chain, a, b)
  }

  lemma LinkedTransitively(aliases: map<Name, set<Name>>, ids: set<Name>, a: Name, b: Name, c: Name)
    requires Linked(aliases, ids, a, b) && Linked(aliases, ids, b, c)
    ensures Linked(aliases, ids, a, c)
  {
    var p :| IsChain(aliases, ids, p, a, b);
    var q :| IsChain(aliases, ids, q, b, c);
    assert b in Record(aliases, p[|p| - 1]) * Record(aliases, q[0]);
    assert IsChain(aliases, ids, p + q, a, c);
  }

  lemma LinkedByRecord(aliases: map<Name, set<Name>>, ids: set<Name>, id: Name, a: Name, b: Name)
    requires id in ids && a in Record(aliases, id) && b in Record(aliases, id)
    ensures Linked(aliases, ids, a, b)
  {
    assert IsChain(aliases, ids, [id], a, b);
  }

  lemma LinkedStays(aliases: map<Name, set<Name>>, ids: set<Name>, more: set<Name>, a: Name, b: Name)
    requires Linked(aliases, ids, a, b) && ids <= more
    ensures Linked(aliases, more, a, b)
  {
    var p :| IsChain(aliases, ids, p, a, b);
    assert IsChain(aliases, more, p, a, b);
  }

  // ----- Groups -----------------------------------------------------------------------------------------------

  predicate Apart(groups: seq<set<Name>>, i: nat, j: nat)
    requires i < |groups| && j < |groups|
  {
    groups[i] !! groups[j]
  }

  predicate Disjoint(groups: seq<set<Name>>) {
    forall i, j {:trigger Apart(groups, i, j)} | 0 <= i < j < |groups| :: Apart(groups, i, j)
  }

  lemma InNoOther(groups: seq<set<Name>>, i: nat, k: nat, a: Name)
    requires Disjoint(groups) && i < |groups| && k < |groups| && i != k && a in groups[i]
    ensures a !in groups[k]
  {
    if i < k { assert Apart(groups, i, k); } else { assert Apart(groups, k, i); }
  }

  /** The names of a group are linked. */
  ghost predicate IsLinkedGroup(aliases: map<Name, set<Name>>, ids: set<Name>, group: set<Name>) {
    group != {} && forall a, b | a in group && b in group :: Linked(aliases, ids, a, b)
  }

  predicate HoldsRecord(aliases: map<Name, set<Name>>, groups: seq<set<Name>>, id: Name) {
    exists i :: 0 <= i < |groups| && Record(aliases, id) <= groups[i]
  }

  ghost predicate AreGroups(aliases: map<Name, set<Name>>, ids: set<Name>, groups: seq<set<Name>>) {
    && Disjoint(groups)
    && (forall i {:trigger IsLinkedGroup(aliases, ids, groups[i])} | 0 <= i < |groups| ::
          IsLinkedGroup(aliases, ids, groups[i]))
    && (forall id {:trigger HoldsRecord(aliases, groups, id)} | id in ids :: HoldsRecord(aliases, groups, id))
  }

  /** Linked names stay in one group, record by record along the chain. */
  lemma {:induction false} ChainInGroup(aliases: map<Name, set<Name>>, ids: set<Name>, groups: seq<set<Name>>,
                                        chain: seq<Name>, a: Name, b: Name, i: nat)
    requires AreGroups(aliases, ids, groups) && IsChain(aliases, ids, chain, a, b)
    requires i < |groups| && a in groups[i]
    ensures b in groups[i]
    decreases |chain|
  {
    assert HoldsRecord(aliases, groups, chain[0]);
    var k :| 0 <= k < |groups| && Record(aliases, chain[0]) <= groups[k];
    if k != i { InNoOther(groups, i, k, a); }
    if |chain| > 1 {
      var x :| x in Record(aliases, chain[0]) * Record(aliases, chain[1]);
      assert IsChain(aliases, ids, chain[1..], x, b);
      ChainInGroup(aliases, ids, groups, chain[1..], x, b, i);
    }
  }

  /** The groups are disjoint, cover every id and alias and nothing else, and hold exactly the linked names together. */
  lemma GroupsAreClasses(aliases: map<Name, set<Name>>, ids: set<Name>, groups: seq<set<Name>>, a: Name, b: Name)
    requires AreGroups(aliases, ids, groups)
    ensures (exists i :: 0 <= i < |groups| && a in groups[i] && b in groups[i]) <==> Linked(aliases, ids, a, b)
    ensures (exists i :: 0 <= i < |groups| && a in groups[i]) <==> (exists id :: id in ids && a in Record(aliases, id))
  {
    if i :| 0 <= i < |groups| && a in groups[i] {
      assert IsLinkedGroup(aliases, ids, groups[i]);
      assert Linked(aliases, ids, a, a);
      var p :| IsChain(aliases, ids, p, a, a);
      assert p[0] in ids && a in Record(aliases, p[0]);
    }
    if i :| 0 <= i < |groups| && a in groups[i] && b in groups[i] {
      assert IsLinkedGroup(aliases, ids, groups[i]);
    }
    if id :| id in ids && a in Record(aliases, id) { assert HoldsRecord(aliases, groups, id); }
    if Linked(aliases, ids, a, b) {
      var p :| IsChain(aliases, ids, p, a, b);
      assert HoldsRecord(aliases, groups, p[0]);
      var i :| 0 <= i < |groups| && Record(aliases, p[0]) <= groups[i];
      ChainInGroup(aliases, ids, groups, p, a, b, i);
    }
  }

  /** Any two ways to process the records give the same groups. */
  lemma GroupsAreUnique(aliases: map<Name, set<Name>>, ids: set<Name>, groups: seq<set<Name>>, others: seq<set<Name>>,
                        i: nat)
    requires AreGroups(aliases, ids, groups) && AreGroups(aliases, ids, others) && i < |groups|
    ensures groups[i] in others
  {
    assert IsLinkedGroup(aliases, ids, groups[i]);
    var a :| a in groups[i];
    GroupsAreClasses(aliases, ids, groups, a, a);
    GroupsAreClasses(aliases, ids, others, a, a);
    var j :| 0 <= j < |others| && a in others[j];
    forall b ensures b in groups[i] <==> b in others[j] {
      if b in groups[i] { SameGroup(aliases, ids, others, a, b, j); }
      if b in others[j] {
        assert IsLinkedGroup(aliases, ids, others[j]);
        SameGroup(aliases, ids, groups, a, b, i);
      }
    }
    assert groups[i] == others[j];
  }

  lemma SameGroup(aliases: map<Name, set<Name>>, ids: set<Name>, groups: seq<set<Name>>, a: Name, b: Name, i: nat)
    requires AreGroups(aliases, ids, groups) && i < |groups| && a in groups[i] && Linked(aliases, ids, a, b)
    ensures b in groups[i]
  {
    var p :| IsChain(aliases, ids, p, a, b);
    ChainInGroup(aliases, ids, groups, p, a, b, i);
  }

  // ----- The merge loop -----------------------------------------------------------------------------------------

  /** The new group so far: linked with the new record in both directions. */
  ghost predicate Around(aliases: map<Name, set<Name>>, ids: set<Name>, id: Name, group: set<Name>) {
    id in group && forall a | a in group :: Linked(aliases, ids, a, id) && Linked(aliases, ids, id, a)
  }

  lemma AroundIsLinked(aliases: map<Name, set<Name>>, ids: set<Name>, id: Name, group: set<Name>)
    requires Around(aliases, ids, id, group)
    ensures IsLinkedGroup(aliases, ids, group)
  {
    forall a, b | a in group && b in group ensures Linked(aliases, ids, a, b) {
      LinkedTransitively(aliases, ids, a, id, b);
    }
  }

  lemma AroundGrows(aliases: map<Name, set<Name>>, ids: set<Name>, id: Name, group: set<Name>, existing: set<Name>)
    requires Around(aliases, ids, id, group) && IsLinkedGroup(aliases, ids, existing) && group * existing != {}
    ensures Around(aliases, ids, id, group + existing)
  {
    var x :| x in group * existing;
    forall a | a in existing ensures Linked(aliases, ids, a, id) && Linked(aliases, ids, id, a) {
      LinkedTransitively(aliases, ids, a, x, id);
      LinkedTransitively(aliases, ids, id, x, a);
    }
  }

  /** The group is one of the first `i`, and has nothing to do with the new one. */
  ghost predicate IsSeparate(groups: seq<set<Name>>, i: nat, group: set<Name>, s: set<Name>)
    requires i <= |groups|
  {
    s !! group && exists k :: 0 <= k < i && groups[k] == s
  }

  predicate IsPlaced(groups: seq<set<Name>>, k: nat, group: set<Name>, separate: seq<set<Name>>)
    requires k < |groups|
  {
    groups[k] <= group || groups[k] in separate
  }

  /** Where the first `i` groups went: into the new group, or beside it. */
  ghost predicate Merging(groups: seq<set<Name>>, i: nat, group: set<Name>, separate: seq<set<Name>>)
    requires i <= |groups|
  {
    && Disjoint(separate)
    && (forall m {:trigger IsSeparate(groups, i, group, separate[m])} | 0 <= m < |separate| ::
          IsSeparate(groups, i, group, separate[m]))
    && (forall k {:trigger IsPlaced(groups, k, group, separate)} | 0 <= k < i :: IsPlaced(groups, k, group, separate))
  }

  lemma Join(groups: seq<set<Name>>, i: nat, group: set<Name>, separate: seq<set<Name>>)
    requires Disjoint(groups) && i < |groups| && Merging(groups, i, group, separate)
    ensures Merging(groups, i + 1, group + groups[i], separate)
  {
    forall m | 0 <= m < |separate| ensures IsSeparate(groups, i + 1, group + groups[i], separate[m]) {
      assert IsSeparate(groups, i, group, separate[m]);
      var k :| 0 <= k < i && groups[k] == separate[m];
      assert Apart(groups, k, i);
    }
    forall k | 0 <= k < i + 1 ensures IsPlaced(groups, k, group + groups[i], separate) {
      if k < i { assert IsPlaced(groups, k, group, separate); }
    }
  }

  lemma SetAside(groups: seq<set<Name>>, i: nat, group: set<Name>, separate: seq<set<Name>>)
    requires Disjoint(groups) && i < |groups| && Merging(groups, i, group, separate) && groups[i] !! group
    ensures Merging(groups, i + 1, group, separate + [groups[i]])
  {
    var longer := separate + [groups[i]];
    forall m | 0 <= m < |longer| ensures IsSeparate(groups, i + 1, group, longer[m]) {
      if m < |separate| {
        assert IsSeparate(groups, i, group, separate[m]);
      } else {
        assert groups[i] == longer[m];
      }
    }
    forall a, b | 0 <= a < b < |longer| ensures Apart(longer, a, b) {
      if b < |separate| {
        assert Apart(separate, a, b);
      } else {
        assert IsSeparate(groups, i, group, separate[a]);
        var k :| 0 <= k < i && groups[k] == separate[a];
        assert Apart(groups, k, i);
      }
    }
    forall k | 0 <= k < i + 1 ensures IsPlaced(groups, k, group, longer) {
      if k < i { assert IsPlaced(groups, k, group, separate); }
    }
  }

  /** Merges one record into the groups: the groups that touch it become one with it. */
  method Merge(aliases: map<Name, set<Name>>, ghost ids: set<Name>, groups: seq<set<Name>>, id: Name)
    returns (merged: seq<set<Name>>)
    requires AreGroups(aliases, ids, groups)
    ensures AreGroups(aliases, ids + {id}, merged)
  {
    var group := Record(aliases, id);
    var separate := [];
    RecordIsAround(aliases, ids + {id}, id);
    for i := 0 to |groups|
      invariant Around(aliases, ids + {id}, id, group) && Record(aliases, id) <= group
      invariant Merging(groups, i, group, separate)
    {
      var existing := groups[i];
      if existing * group != {} {
        StaysLinked(aliases, ids, id, existing);
        AroundGrows(aliases, ids + {id}, id, group, existing);
        Join(groups, i, group, separate);
        group := group + existing;
      } else {
        SetAside(groups, i, group, separate);
        separate := separate + [existing];
      }
    }
    merged := separate + [group];
    MergedAreGroups(aliases, ids, groups, id, separate, group);
  }

  lemma RecordIsAround(aliases: map<Name, set<Name>>, ids: set<Name>, id: Name)
    requires id in ids
    ensures Around(aliases, ids, id, Record(aliases, id))
  {
    forall a | a in Record(aliases, id) ensures Linked(aliases, ids, a, id) && Linked(aliases, ids, id, a) {
      LinkedByRecord(aliases, ids, id, a, id);
      LinkedByRecord(aliases, ids, id, id, a);
    }
  }

  lemma StaysLinked(aliases: map<Name, set<Name>>, ids: set<Name>, id: Name, group: set<Name>)
    requires IsLinkedGroup(aliases, ids, group)
    ensures IsLinkedGroup(aliases, ids + {id}, group)
  {
    forall a, b | a in group && b in group ensures Linked(aliases, ids + {id}, a, b) {
      LinkedStays(aliases, ids, ids + {id}, a, b);
    }
  }

  lemma RecordIsPlaced(aliases: map<Name, set<Name>>, groups: seq<set<Name>>, separate: seq<set<Name>>,
                       group: set<Name>, other: Name)
    requires HoldsRecord(aliases, groups, other) && Merging(groups, |groups|, group, separate)
    ensures HoldsRecord(aliases, separate + [group], other)
  {
    var merged := separate + [group];
    var k :| 0 <= k < |groups| && Record(aliases, other) <= groups[k];
    assert IsPlaced(groups, k, group, separate);
    if groups[k] <= group {
      assert Record(aliases, other) <= merged[|separate|];
    } else {
      var m :| 0 <= m < |separate| && separate[m] == groups[k];
      assert Record(aliases, other) <= merged[m];
    }
  }

  lemma MergedAreGroups(aliases: map<Name, set<Name>>, ids: set<Name>, groups: seq<set<Name>>, id: Name,
                        separate: seq<set<Name>>, group: set<Name>)
    requires AreGroups(aliases, ids, groups) && Merging(groups, |groups|, group, separate)
    requires Around(aliases, ids + {id}, id, group) && Record(aliases, id) <= group
    ensures AreGroups(aliases, ids + {id}, separate + [group])
  {
    var merged := separate + [group];
    AroundIsLinked(aliases, ids + {id}, id, group);
    forall i | 0 <= i < |merged| ensures IsLinkedGroup(aliases, ids + {id}, merged[i]) {
      if i < |separate| {
        assert IsSeparate(groups, |groups|, group, separate[i]);
        var k :| 0 <= k < |groups| && groups[k] == separate[i];
        assert IsLinkedGroup(aliases, ids, groups[k]);
        StaysLinked(aliases, ids, id, merged[i]);
      }
    }
    forall a, b | 0 <= a < b < |merged| ensures Apart(merged, a, b) {
      assert IsSeparate(groups, |groups|, group, separate[a]);
      if b < |separate| { assert Apart(separate, a, b); }
    }
    forall other | other in ids + {id} ensures HoldsRecord(aliases, merged, other) {
      if other == id {
        assert merged[|separate|] == group;
      } else {
        RecordIsPlaced(aliases, groups, separate, group, other);
      }
    }
  }

  function IdsOf(order: seq<Name>): set<Name> {
    set id | id in order
  }

  /** `alias_groups`, for the ids in any order. */
  method Groups(aliases: map<Name, set<Name>>, order: seq<Name>) returns (groups: seq<set<Name>>)
    ensures AreGroups(aliases, IdsOf(order), groups)
  {
    groups := [];
    for i := 0 to |order|
      invariant AreGroups(aliases, IdsOf(order[..i]), groups)
    {
      groups := Merge(aliases, IdsOf(order[..i]), groups, order[i]);
      assert order[..i + 1] == order[..i] + [order[i]];
      assert IdsOf(order[..i + 1]) == IdsOf(order[..i]) + {order[i]};
    }
    assert order[..|order|] == order;
  }
}
