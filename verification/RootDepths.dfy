/**
 The memoised depths of root skills (api/services/recommendations.py): real dependency chains on every graph and in
 every processing order, and the longest ones in every order exactly where no cycle of several roots exists.
 */
module RootDepths {
  import opened FiniteSets
  import opened Ids
  import opened Options

  /** The dependencies of each root in the order they are followed; a root without an entry has none. */
  type Dependencies = map<SkillId, seq<SkillId>>

  function Below(g: Dependencies, root: SkillId): seq<SkillId> {
    if root in g then g[root] else []
  }

  /** Another root that this one depends on; a dependency of a root on itself is skipped. */
  predicate DependsOn(g: Dependencies, root: SkillId, d: SkillId) {
    d in Below(g, root) && d != root
  }

  /** A chain in which each root depends on the next. */
  predicate IsChain(g: Dependencies, p: seq<SkillId>) {
    p != [] && forall i | 0 <= i < |p| - 1 :: DependsOn(g, p[i], p[i + 1])
  }

  predicate IsSimple(p: seq<SkillId>) {
    forall i, j | 0 <= i < j < |p| :: p[i] != p[j]
  }

  /** There is no cycle of two or more roots. */
  ghost predicate Acyclic(g: Dependencies) {
    forall p | IsChain(g, p) && |p| > 1 :: p[0] != p[|p| - 1]
  }

  type Depths = map<SkillId, nat>

  /** This many dependencies are in the longest simple chain below the root. */
  ghost predicate IsLongest(g: Dependencies, root: SkillId, depth: nat) {
    && (exists p :: IsSimpleChain(g, p, root) && |p| == depth + 1)
    && (forall p | IsSimpleChain(g, p, root) :: |p| <= depth + 1)
  }

  predicate IsSimpleChain(g: Dependencies, p: seq<SkillId>, root: SkillId) {
    IsChain(g, p) && IsSimple(p) && p[0] == root
  }

  // ----- The depths, as a function of the order --------------------------------------------------------------------

  /** All roots that occur. */
  function Nodes(g: Dependencies): set<SkillId> {
    g.Keys + set root, d | root in g && d in g[root] :: d
  }

  /** The memo after `depth`. The recursion ends on every graph, since `visiting` grows within the finite set of roots. */
  function Visit(g: Dependencies, memo: Depths, root: SkillId, visiting: set<SkillId>): (after: Depths)
    requires root in Nodes(g) && root !in visiting
    ensures root in after
    decreases |Nodes(g) - visiting|, 1, 0
  {
    if root in memo then memo
    else
      var (after, most) := VisitBelow(g, memo, root, visiting, 0, None);
      after[root := if most.Some? then most.value + 1 else 0]
  }

  /** The memo and the highest depth after the dependencies from the i-th on, skipping those being visited. */
  function VisitBelow(g: Dependencies, memo: Depths, root: SkillId, visiting: set<SkillId>, i: nat, most: Option<nat>):
    (Depths, Option<nat>)
    requires root in Nodes(g) && root !in visiting && i <= |Below(g, root)|
    decreases |Nodes(g) - visiting|, 0, |Below(g, root)| - i
  {
    if i == |Below(g, root)| then (memo, most)
    else
      var d := Below(g, root)[i];
      if d in visiting || d == root then VisitBelow(g, memo, root, visiting, i + 1, most)
      else
        DependencyIsNode(g, root, i);
        VisitingGrows(g, visiting, root);
        var after := Visit(g, memo, d, visiting + {root});
        VisitBelow(g, after, root, visiting, i + 1, Highest(most, after[d]))
  }

  function Highest(most: Option<nat>, depth: nat): Option<nat> {
    if most.None? || depth > most.value then Some(depth) else most
  }

  /** The depths after the roots in this order. */
  function DepthsAfter(g: Dependencies, memo: Depths, order: seq<SkillId>): Depths
    requires forall root | root in order :: root in g
    decreases |order|
  {
    if order == [] then memo else DepthsAfter(g, Visit(g, memo, order[0], {}), order[1..])
  }

  lemma DependencyIsNode(g: Dependencies, root: SkillId, i: nat)
    requires i < |Below(g, root)|
    ensures Below(g, root)[i] in Nodes(g)
  {
    assert Below(g, root)[i] in g[root];
  }

  lemma VisitingGrows(g: Dependencies, visiting: set<SkillId>, root: SkillId)
    requires root in Nodes(g) && root !in visiting
    ensures |Nodes(g) - (visiting + {root})| < |Nodes(g) - visiting|
  {
    assert root in Nodes(g) - visiting;
    ProperSubsetIsSmaller(Nodes(g) - (visiting + {root}), Nodes(g) - visiting);
  }

  // ----- The memo, step by step ----------------------------------------------------------------------------------------

  /** The memo `depths` of one call, which the nested calls fill. */
  class Memo {
    var depths: Depths

    constructor ()
      ensures depths == map[]
    {
      depths := map[];
    }

    /** `depth` */
    method Depth(g: Dependencies, root: SkillId, visiting: set<SkillId>) returns (depth: nat)
      requires root in Nodes(g) && root !in visiting
      modifies this
      ensures depths == Visit(g, old(depths), root, visiting) && depth == depths[root]
      decreases |Nodes(g) - visiting|, 1
    {
      if root !in depths {
        var most := HighestBelow(g, root, visiting);
        depths := depths[root := if most.Some? then most.value + 1 else 0];
      }
      return depths[root];
    }

    method HighestBelow(g: Dependencies, root: SkillId, visiting: set<SkillId>) returns (most: Option<nat>)
      requires root in Nodes(g) && root !in visiting
      modifies this
      ensures (depths, most) == VisitBelow(g, old(depths), root, visiting, 0, None)
      decreases |Nodes(g) - visiting|, 0
    {
      most := None;
      var below := Below(g, root);
      VisitingGrows(g, visiting, root);
      for i := 0 to |below|
        invariant VisitBelow(g, old(depths), root, visiting, 0, None) == VisitBelow(g, depths, root, visiting, i, most)
      {
        var d := below[i];
        DependencyIsNode(g, root, i);
        if d !in visiting && d != root {
          var depth := Depth(g, d, visiting + {root});
          most := Highest(most, depth);
        }
      }
    }
  }

  /** `root_depths`, for the roots in any order. */
  method RootDepths(g: Dependencies, order: seq<SkillId>) returns (depths: Depths)
    requires forall root | root in order :: root in g
    ensures depths == DepthsAfter(g, map[], order)
  {
    var memo := new Memo();
    for i := 0 to |order|
      invariant fresh(memo)
      invariant DepthsAfter(g, map[], order) == DepthsAfter(g, memo.depths, order[i..])
    {
      assert order[i] in order && order[i..][0] == order[i] && order[i..][1..] == order[i + 1..];
      var depth := memo.Depth(g, order[i], {});
    }
    return memo.depths;
  }

  // ----- Every depth is a chain ---------------------------------------------------------------------------------------

  /** Each depth above 0 is one more than that of some dependency. */
  ghost predicate Tight(g: Dependencies, depths: Depths) {
    forall root {:trigger HasStep(g, depths, root)} | root in depths && depths[root] > 0 :: HasStep(g, depths, root)
  }

  ghost predicate HasStep(g: Dependencies, depths: Depths, root: SkillId)
    requires root in depths
  {
    exists d :: DependsOn(g, root, d) && d in depths && depths[root] == depths[d] + 1
  }

  predicate Extends(before: Depths, after: Depths) {
    forall root | root in before :: root in after && after[root] == before[root]
  }

  /** None of these roots was memoised in between. */
  predicate NoneOf(roots: set<SkillId>, before: Depths, after: Depths) {
    forall v | v in roots && v !in before :: v !in after
  }

  /** The highest depth so far is that of some dependency. */
  ghost predicate IsSome(g: Dependencies, depths: Depths, root: SkillId, most: Option<nat>) {
    most.Some? ==> exists d :: DependsOn(g, root, d) && d in depths && depths[d] == most.value
  }

  lemma SomeStays(g: Dependencies, before: Depths, after: Depths, root: SkillId, most: Option<nat>)
    requires IsSome(g, before, root, most) && Extends(before, after)
    ensures IsSome(g, after, root, most)
  {
    if most.Some? {
      var d :| DependsOn(g, root, d) && d in before && before[d] == most.value;
      assert after[d] == most.value;
    }
  }

  lemma StepIsTight(g: Dependencies, before: Depths, root: SkillId, most: Option<nat>)
    requires Tight(g, before) && root !in before && IsSome(g, before, root, most)
    ensures Tight(g, before[root := if most.Some? then most.value + 1 else 0])
  {
    var after := before[root := if most.Some? then most.value + 1 else 0];
    forall other | other in after && after[other] > 0 ensures HasStep(g, after, other) {
      var d: SkillId;
      if other == root {
        d :| DependsOn(g, root, d) && d in before && before[d] == most.value;
      } else {
        assert HasStep(g, before, other);
        d :| DependsOn(g, other, d) && d in before && before[other] == before[d] + 1;
      }
      assert after[d] == before[d];
    }
  }

  /** Roots being visited are never memoised by a nested call, so no chain comes back to them. */
  lemma {:induction false} VisitIsTight(g: Dependencies, memo: Depths, root: SkillId, visiting: set<SkillId>)
    requires root in Nodes(g) && root !in visiting && Tight(g, memo)
    ensures var after := Visit(g, memo, root, visiting);
            Tight(g, after) && Extends(memo, after) && NoneOf(visiting, memo, after)
    decreases |Nodes(g) - visiting|, 1, 0
  {
    if root !in memo {
      VisitBelowIsTight(g, memo, root, visiting, 0, None);
      var (after, most) := VisitBelow(g, memo, root, visiting, 0, None);
      StepIsTight(g, after, root, most);
    }
  }

  lemma {:induction false} VisitBelowIsTight(g: Dependencies, memo: Depths, root: SkillId, visiting: set<SkillId>, i: nat,
                                             most: Option<nat>)
    requires root in Nodes(g) && root !in visiting && i <= |Below(g, root)|
    requires Tight(g, memo) && root !in memo && IsSome(g, memo, root, most)
    ensures var (after, most') := VisitBelow(g, memo, root, visiting, i, most);
            && Tight(g, after) && Extends(memo, after) && NoneOf(visiting, memo, after)
            && root !in after && IsSome(g, after, root, most')
    ensures forall k | i <= k < |Below(g, root)| && Below(g, root)[k] !in visiting && Below(g, root)[k] != root ::
              Below(g, root)[k] in VisitBelow(g, memo, root, visiting, i, most).0
    decreases |Nodes(g) - visiting|, 0, |Below(g, root)| - i
  {
    if i < |Below(g, root)| {
      var d := Below(g, root)[i];
      if d in visiting || d == root {
        VisitBelowIsTight(g, memo, root, visiting, i + 1, most);
      } else {
        DependencyIsNode(g, root, i);
        VisitingGrows(g, visiting, root);
        VisitIsTight(g, memo, d, visiting + {root});
        var after := Visit(g, memo, d, visiting + {root});
        SomeStays(g, memo, after, root, most);
        VisitBelowIsTight(g, after, root, visiting, i + 1, Highest(most, after[d]));
      }
    }
  }

  /** In every order all roots get a depth, and all depths are tight. */
  lemma {:induction false} DepthsAreTight(g: Dependencies, memo: Depths, order: seq<SkillId>)
    requires Tight(g, memo) && forall root | root in order :: root in g
    ensures var depths := DepthsAfter(g, memo, order);
            && Tight(g, depths) && Extends(memo, depths)
            && (forall root | root in order :: root in depths)
    decreases |order|
  {
    if order != [] {
      VisitIsTight(g, memo, order[0], {});
      DepthsAreTight(g, Visit(g, memo, order[0], {}), order[1..]);
    }
  }

  /** Every memoised depth is the length of a simple dependency chain of memoised roots. */
  lemma {:induction false} TightIsChain(g: Dependencies, depths: Depths, root: SkillId) returns (p: seq<SkillId>)
    requires Tight(g, depths) && root in depths
    ensures IsSimpleChain(g, p, root) && |p| == depths[root] + 1
    ensures forall i | 0 <= i < |p| :: p[i] in depths && depths[p[i]] == depths[root] - i
    decreases depths[root]
  {
    if depths[root] == 0 {
      p := [root];
    } else {
      assert HasStep(g, depths, root);
      var d :| DependsOn(g, root, d) && d in depths && depths[root] == depths[d] + 1;
      var rest := TightIsChain(g, depths, d);
      p := [root] + rest;
    }
  }

  /** On every graph and in every order each depth is the length of a real simple chain. */
  lemma DepthIsAChain(g: Dependencies, order: seq<SkillId>, root: SkillId) returns (p: seq<SkillId>)
    requires (forall r | r in order :: r in g) && root in DepthsAfter(g, map[], order)
    ensures IsSimpleChain(g, p, root) && |p| == DepthsAfter(g, map[], order)[root] + 1
  {
    DepthsAreTight(g, map[], order);
    p := TightIsChain(g, DepthsAfter(g, map[], order), root);
  }

  // ----- Without a cycle: the longest chains ------------------------------------------------------------------------

  /** Each depth is above those of all other dependencies. */
  ghost predicate Full(g: Dependencies, depths: Depths) {
    forall root {:trigger Exceeds(g, depths, root)} | root in depths :: Exceeds(g, depths, root)
  }

  ghost predicate Exceeds(g: Dependencies, depths: Depths, root: SkillId)
    requires root in depths
  {
    forall d | DependsOn(g, root, d) :: d in depths && depths[d] < depths[root]
  }

  ghost predicate Reaches(g: Dependencies, from: SkillId, to: SkillId) {
    exists p :: IsChain(g, p) && p[0] == from && p[|p| - 1] == to
  }

  /** The roots being visited all depend on this one. */
  ghost predicate Ordered(g: Dependencies, visiting: set<SkillId>, root: SkillId) {
    Acyclic(g) && forall v | v in visiting :: Reaches(g, v, root)
  }

  /** Without a cycle no dependency of a root is being visited above it. */
  lemma DependencyIsOrdered(g: Dependencies, visiting: set<SkillId>, root: SkillId, d: SkillId)
    requires Ordered(g, visiting, root) && DependsOn(g, root, d)
    ensures d !in visiting && Ordered(g, visiting + {root}, d)
  {
    assert IsChain(g, [root]) && Reaches(g, root, root);
    forall v | Reaches(g, v, root) ensures Reaches(g, v, d) && v != d {
      var p :| IsChain(g, p) && p[0] == v && p[|p| - 1] == root;
      assert IsChain(g, p + [d]);
    }
  }

  /** The highest depth is at least that of the first i dependencies. */
  predicate IsHighest(g: Dependencies, depths: Depths, root: SkillId, i: nat, most: Option<nat>)
    requires i <= |Below(g, root)|
  {
    forall k | 0 <= k < i && Below(g, root)[k] != root ::
      most.Some? && Below(g, root)[k] in depths && depths[Below(g, root)[k]] <= most.value
  }

  lemma {:induction false} VisitIsFull(g: Dependencies, memo: Depths, root: SkillId, visiting: set<SkillId>)
    requires root in Nodes(g) && root !in visiting && Ordered(g, visiting, root)
    requires Tight(g, memo) && Full(g, memo)
    ensures Full(g, Visit(g, memo, root, visiting))
    decreases |Nodes(g) - visiting|, 1, 0
  {
    if root !in memo {
      VisitBelowIsFull(g, memo, root, visiting, 0, None);
      VisitBelowIsTight(g, memo, root, visiting, 0, None);
      var (after, most) := VisitBelow(g, memo, root, visiting, 0, None);
      StepIsFull(g, after, root, most);
    }
  }

  lemma StepIsFull(g: Dependencies, before: Depths, root: SkillId, most: Option<nat>)
    requires Full(g, before) && root !in before && IsHighest(g, before, root, |Below(g, root)|, most)
    ensures Full(g, before[root := if most.Some? then most.value + 1 else 0])
  {
    var after := before[root := if most.Some? then most.value + 1 else 0];
    forall other | other in after ensures Exceeds(g, after, other) {
      if other != root { assert Exceeds(g, before, other); }
    }
  }

  lemma HighestOneMore(g: Dependencies, before: Depths, after: Depths, root: SkillId, i: nat, most: Option<nat>)
    requires i < |Below(g, root)| && Extends(before, after) && IsHighest(g, before, root, i, most)
    ensures Below(g, root)[i] == root ==> IsHighest(g, after, root, i + 1, most)
    ensures Below(g, root)[i] in after ==> IsHighest(g, after, root, i + 1, Highest(most, after[Below(g, root)[i]]))
  {}

  lemma {:induction false} VisitBelowIsFull(g: Dependencies, memo: Depths, root: SkillId, visiting: set<SkillId>, i: nat,
                                            most: Option<nat>)
    requires root in Nodes(g) && root !in visiting && i <= |Below(g, root)| && Ordered(g, visiting, root)
    requires Tight(g, memo) && Full(g, memo) && root !in memo && IsHighest(g, memo, root, i, most)
    ensures var (after, most') := VisitBelow(g, memo, root, visiting, i, most);
            Full(g, after) && IsHighest(g, after, root, |Below(g, root)|, most')
    decreases |Nodes(g) - visiting|, 0, |Below(g, root)| - i
  {
    if i < |Below(g, root)| {
      var d := Below(g, root)[i];
      if d == root {
        HighestOneMore(g, memo, memo, root, i, most);
        VisitBelowIsFull(g, memo, root, visiting, i + 1, most);
      } else {
        VisitNextIsFull(g, memo, root, visiting, i);
        var after := Visit(g, memo, d, visiting + {root});
        HighestOneMore(g, memo, after, root, i, most);
        VisitBelowIsFull(g, after, root, visiting, i + 1, Highest(most, after[d]));
      }
    }
  }

  lemma {:induction false} VisitNextIsFull(g: Dependencies, memo: Depths, root: SkillId, visiting: set<SkillId>, i: nat)
    requires root in Nodes(g) && root !in visiting && Ordered(g, visiting, root)
    requires Tight(g, memo) && Full(g, memo) && root !in memo && i < |Below(g, root)| && Below(g, root)[i] != root
    ensures var d := Below(g, root)[i];
            && d in Nodes(g) && d !in visiting
            && var after := Visit(g, memo, d, visiting + {root});
               Tight(g, after) && Full(g, after) && Extends(memo, after) && root !in after
    decreases |Nodes(g) - visiting|, 0, |Below(g, root)| - i - 1
  {
    var d := Below(g, root)[i];
    DependencyIsNode(g, root, i);
    DependencyIsOrdered(g, visiting, root, d);
    VisitingGrows(g, visiting, root);
    VisitIsTight(g, memo, d, visiting + {root});
    VisitIsFull(g, memo, d, visiting + {root});
  }

  lemma {:induction false} DepthsAreFull(g: Dependencies, memo: Depths, order: seq<SkillId>)
    requires Tight(g, memo) && Full(g, memo) && Acyclic(g) && forall root | root in order :: root in g
    ensures Full(g, DepthsAfter(g, memo, order))
    decreases |order|
  {
    if order != [] {
      VisitIsTight(g, memo, order[0], {});
      VisitIsFull(g, memo, order[0], {});
      DepthsAreFull(g, Visit(g, memo, order[0], {}), order[1..]);
    }
  }

  /** No chain is longer. */
  lemma {:induction false} NoChainIsLonger(g: Dependencies, depths: Depths, p: seq<SkillId>)
    requires Full(g, depths) && IsChain(g, p) && p[0] in depths
    ensures |p| <= depths[p[0]] + 1
    decreases |p|
  {
    if |p| > 1 {
      assert Exceeds(g, depths, p[0]);
      assert IsChain(g, p[1..]);
      NoChainIsLonger(g, depths, p[1..]);
    }
  }

  // ----- The exact condition ------------------------------------------------------------------------------------------

  /** Every root once. */
  ghost predicate IsOrder(g: Dependencies, order: seq<SkillId>) {
    IsSimple(order) && forall root :: root in order <==> root in g
  }

  /** In this order every depth is that of the longest simple chain. */
  ghost predicate AllLongest(g: Dependencies, order: seq<SkillId>)
    requires IsOrder(g, order)
  {
    var depths := DepthsAfter(g, map[], order);
    forall root | root in depths :: IsLongest(g, root, depths[root])
  }

  /**
   The depths are the longest simple chains in every processing order if and only if no cycle of two or more roots
   exists. (Roots are processed by their ids, so every order is that of some naming of the roots.)
   */
  lemma LongestUnlessCyclic(g: Dependencies)
    ensures Acyclic(g) <==> forall order | IsOrder(g, order) :: AllLongest(g, order)
  {
    if Acyclic(g) {
      forall order | IsOrder(g, order) ensures AllLongest(g, order) { AcyclicIsLongest(g, order); }
    }
    if forall order | IsOrder(g, order) :: AllLongest(g, order) {
      forall p | IsChain(g, p) && |p| > 1 ensures p[0] != p[|p| - 1] {
        if p[0] == p[|p| - 1] {
          assert DependsOn(g, p[0], p[1]);
          var first, last := ChainDrops(g, p);
        }
      }
    }
  }

  lemma AcyclicIsLongest(g: Dependencies, order: seq<SkillId>)
    requires Acyclic(g) && IsOrder(g, order)
    ensures AllLongest(g, order)
  {
    var depths := DepthsAfter(g, map[], order);
    DepthsAreTight(g, map[], order);
    DepthsAreFull(g, map[], order);
    forall root | root in depths ensures IsLongest(g, root, depths[root]) {
      var p := TightIsChain(g, depths, root);
      forall q | IsSimpleChain(g, q, root) ensures |q| <= depths[root] + 1 { NoChainIsLonger(g, depths, q); }
    }
  }

  lemma {:induction false} OrderOf(roots: set<SkillId>) returns (order: seq<SkillId>)
    ensures IsSimple(order) && forall root :: root in order <==> root in roots
    decreases roots
  {
    if roots == {} {
      order := [];
    } else {
      var root :| root in roots;
      var rest := OrderOf(roots - {root});
      order := [root] + rest;
    }
  }

  /** When a root is processed first, each dependency gets the length of a chain that does not come back to it. */
  lemma FirstIsAvoided(g: Dependencies, root: SkillId, d: SkillId) returns (p: seq<SkillId>)
    requires DependsOn(g, root, d)
    ensures root in Nodes(g) && d in Visit(g, map[], root, {})
    ensures IsSimpleChain(g, p, d) && root !in p && |p| == Visit(g, map[], root, {})[d] + 1
  {
    VisitBelowIsTight(g, map[], root, {}, 0, None);
    var k :| 0 <= k < |Below(g, root)| && Below(g, root)[k] == d;
    p := TightIsChain(g, VisitBelow(g, map[], root, {}, 0, None).0, d);
  }

  /** So the root gets more than the dependency, if it gets the longest chain. */
  lemma FirstExceeds(g: Dependencies, order: seq<SkillId>, d: SkillId)
    requires IsOrder(g, order) && order != [] && DependsOn(g, order[0], d) && AllLongest(g, order)
    ensures var depths := DepthsAfter(g, map[], order);
            order[0] in depths && d in depths && depths[order[0]] > depths[d]
  {
    var root := order[0];
    var p := FirstIsAvoided(g, root, d);
    VisitIsTight(g, map[], root, {});
    DepthsAreTight(g, Visit(g, map[], root, {}), order[1..]);
    var q := [root] + p;
    assert IsSimpleChain(g, q, root) by { assert forall i | 0 < i < |q| :: q[i] == p[i - 1] && p[i - 1] in p; }
  }

  lemma LongestIsUnique(g: Dependencies, root: SkillId, other: SkillId, a: nat, b: nat)
    requires IsLongest(g, root, a) && IsLongest(g, other, b)
    ensures root == other ==> a == b
  {}

  /** The depth of a root in an order that begins with it. */
  lemma OwnDepth(g: Dependencies, root: SkillId) returns (order: seq<SkillId>, depth: nat)
    requires root in g && forall order | IsOrder(g, order) :: AllLongest(g, order)
    ensures IsOrder(g, order) && order != [] && order[0] == root
    ensures root in DepthsAfter(g, map[], order) && depth == DepthsAfter(g, map[], order)[root]
    ensures IsLongest(g, root, depth)
  {
    var rest := OrderOf(g.Keys - {root});
    order := [root] + rest;
    assert IsOrder(g, order);
    DepthsAreTight(g, map[], order);
    depth := DepthsAfter(g, map[], order)[root];
    assert AllLongest(g, order);
  }

  /** If every order found the longest chains, they would get shorter along every chain, and none would come back. */
  lemma {:induction false} ChainDrops(g: Dependencies, p: seq<SkillId>) returns (first: nat, last: nat)
    requires IsChain(g, p) && p[|p| - 1] in g && forall order | IsOrder(g, order) :: AllLongest(g, order)
    ensures IsLongest(g, p[0], first) && IsLongest(g, p[|p| - 1], last) && first >= last + |p| - 1
    ensures |p| > 1 ==> p[0] != p[|p| - 1]
    decreases |p|
  {
    var order;
    if |p| == 1 {
      order, first := OwnDepth(g, p[0]);
      last := first;
    } else {
      assert IsChain(g, p[1..]);
      var next;
      next, last := ChainDrops(g, p[1..]);
      order, first := OwnDepth(g, p[0]);
      FirstExceeds(g, order, p[1]);
      LongestIsUnique(g, p[1], p[1], next, DepthsAfter(g, map[], order)[p[1]]);
      LongestIsUnique(g, p[0], p[|p| - 1], first, last);
    }
  }

  /** Two roots that depend on each other: the one processed second gets 0 although it depends on the other. */
  lemma TwoRootsInACycle()
    ensures var g: Dependencies := map["a" := ["b"], "b" := ["a"]];
            && IsOrder(g, ["a", "b"]) && DepthsAfter(g, map[], ["a", "b"]) == map["a" := 1, "b" := 0]
            && IsSimpleChain(g, ["b", "a"], "b") && !AllLongest(g, ["a", "b"])
  {
    var g: Dependencies := map["a" := ["b"], "b" := ["a"]];
    assert VisitBelow(g, map[], "b", {"a"}, 0, None) == (map[], None);
    assert {} + {"a"} == {"a"};
    assert Visit(g, map[], "b", {"a"}) == map["b" := 0];
    assert VisitBelow(g, map["b" := 0], "a", {}, 1, Some(0)) == (map["b" := 0], Some(0));
    assert Visit(g, map[], "a", {}) == map["a" := 1, "b" := 0];
    assert ["a", "b"][1..] == ["b"] && ["b"][1..] == [];
    assert DepthsAfter(g, map["a" := 1, "b" := 0], ["b"]) == map["a" := 1, "b" := 0];
    assert IsSimpleChain(g, ["b", "a"], "b");
  }
}
