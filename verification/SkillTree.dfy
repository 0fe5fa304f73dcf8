/** The operations on the skill tree, and that no run of them makes a cycle or ties sub-skills of two roots together. */
module SkillTree {
  import opened Options
  import opened Ids
  import opened SkillGraph

  // ----- Ranks ---------------------------------------------------------------------------------------------------

  /** A rank that every skill exceeds its dependencies in. */
  predicate IsRank(g: Graph, rank: map<SkillId, nat>) {
    rank.Keys == g.Keys && forall id, d | id in g && d in g[id] && d in g :: rank[d] < rank[id]
  }

  ghost predicate Ranked(g: Graph) {
    exists rank :: IsRank(g, rank)
  }

  lemma {:induction false} RankRises(g: Graph, rank: map<SkillId, nat>, p: seq<SkillId>, i: nat)
    requires IsRank(g, rank) && IsChain(g, p) && 0 < i < |p|
    ensures rank[p[0]] < rank[p[i]]
  {
    assert p[i - 1] in g[p[i]];
    if i > 1 { RankRises(g, rank, p, i - 1); }
  }

  lemma DependsOnHigher(g: Graph, rank: map<SkillId, nat>, to: SkillId, from: SkillId)
    requires IsRank(g, rank) && to in g && from in g && to != from
    ensures DependsOn(g, to, from) ==> rank[from] < rank[to]
  {
    if p :| IsChain(g, p) && p[0] == from && p[|p| - 1] == to { RankRises(g, rank, p, |p| - 1); }
  }

  lemma RankedIsAcyclic(g: Graph)
    requires Ranked(g)
    ensures Acyclic(g)
  {
    var rank :| IsRank(g, rank);
    forall p | IsChain(g, p) && |p| > 1 ensures p[0] != p[|p| - 1] {
      RankRises(g, rank, p, |p| - 1);
    }
  }

  lemma {:induction false} Bounded(rank: map<SkillId, nat>, ids: set<SkillId>) returns (bound: nat)
    requires ids <= rank.Keys
    ensures forall id | id in ids :: rank[id] < bound
    decreases |ids|
  {
    if ids == {} {
      bound := 0;
    } else {
      var id :| id in ids;
      var rest := Bounded(rank, ids - {id});
      bound := if rest > rank[id] then rest else rank[id] + 1;
    }
  }

  // ----- One change of a graph ---------------------------------------------------------------------------------------

  lemma CreateKeepsRank(g: Graph, id: SkillId, dependencies: set<SkillId>)
    requires Ranked(g) && Closed(g) && id !in g && dependencies <= g.Keys
    ensures Ranked(g[id := dependencies])
  {
    var rank :| IsRank(g, rank);
    var top := Bounded(rank, rank.Keys);
    assert IsRank(g[id := dependencies], rank[id := top]);
  }

  /** Moving everything that depends on a skill up leaves room below it for dependencies that do not depend on it. */
  lemma UpdateKeepsRank(g: Graph, id: SkillId, dependencies: set<SkillId>)
    requires Ranked(g) && id in g && dependencies <= g.Keys
    requires forall d | d in dependencies :: !DependsOn(g, d, id)
    ensures Ranked(g[id := dependencies])
  {
    var rank :| IsRank(g, rank);
    var top := Bounded(rank, rank.Keys);
    var moved := map other | other in g :: if DependsOn(g, other, id) then rank[other] + top else rank[other];
    assert IsChain(g, [id]);
    forall other, d | other in g && other != id && d in g[other] && d in g ensures moved[d] < moved[other] {
      if DependsOn(g, d, id) { Extend(g, id, d, other); }
    }
    assert IsRank(g[id := dependencies], moved);
  }

  lemma ChainWithoutLast(g: Graph, p: seq<SkillId>)
    requires IsChain(g, p) && |p| > 1
    ensures IsChain(g, p[..|p| - 1])
  {
    var q := p[..|p| - 1];
    forall i | 0 <= i < |q| - 1 ensures q[i] in g[q[i + 1]] { assert p[i] in g[p[i + 1]]; }
  }

  /** A chain from a skill keeps standing, cut at its last visit there, whatever the skill depends on afterwards. */
  lemma {:induction false} ChainAfterUpdate(g: Graph, id: SkillId, dependencies: set<SkillId>, p: seq<SkillId>)
    requires id in g && IsChain(g, p) && p[0] == id
    ensures DependsOn(g[id := dependencies], p[|p| - 1], id)
    decreases |p|
  {
    var g' := g[id := dependencies];
    if |p| == 1 {
      assert IsChain(g', p);
    } else if p[|p| - 1] == id {
      assert IsChain(g', [id]);
    } else {
      var q := p[..|p| - 1];
      ChainWithoutLast(g, p);
      ChainAfterUpdate(g, id, dependencies, q);
      Extend(g', id, q[|q| - 1], p[|p| - 1]);
    }
  }

  /** The check of an update is exact: new dependencies are refused if and only if they would close a cycle. */
  lemma UpdateIsExact(g: Graph, id: SkillId, dependencies: set<SkillId>)
    requires Ranked(g) && id in g && dependencies <= g.Keys
    ensures Acyclic(g[id := dependencies]) <==> forall d | d in dependencies :: !DependsOn(g, d, id)
  {
    var g' := g[id := dependencies];
    if forall d | d in dependencies :: !DependsOn(g, d, id) {
      UpdateKeepsRank(g, id, dependencies);
      RankedIsAcyclic(g');
    } else {
      var d :| d in dependencies && DependsOn(g, d, id);
      var p :| IsChain(g, p) && p[0] == id && p[|p| - 1] == d;
      ChainAfterUpdate(g, id, dependencies, p);
      var q :| IsChain(g', q) && q[0] == id && q[|q| - 1] == d;
      assert IsChain(g', q + [id]);
    }
  }

  /** Deletes skills with every row that names them. */
  function Without(g: Graph, gone: set<SkillId>): Graph {
    map id | id in g && id !in gone :: g[id] - gone
  }

  lemma DeleteKeepsRank(g: Graph, gone: set<SkillId>)
    requires Ranked(g)
    ensures Ranked(Without(g, gone))
  {
    var rank :| IsRank(g, rank);
    assert IsRank(Without(g, gone), map id | id in g && id !in gone :: rank[id]);
  }

  // ----- The tree -------------------------------------------------------------------------------------------------------

  datatype Sub = Sub(root: SkillId, dependencies: set<SkillId>)
  datatype Tree = Tree(roots: Graph, subs: map<SkillId, Sub>)
  datatype Reply = Done | AlreadyExists | NotFound | CycleFound

  /** The sub-skills of one root. */
  function SubGraph(subs: map<SkillId, Sub>, root: SkillId): Graph {
    map id | id in subs && subs[id].root == root :: subs[id].dependencies
  }

  ghost function Updated(g: Graph, id: SkillId, dependencies: set<SkillId>): (Graph, Reply) {
    if id !in g then (g, NotFound)
    else if dependencies == g[id] then (g, Done)
    else if !(dependencies <= g.Keys) then (g, NotFound)
    else if exists d :: d in dependencies && DependsOn(g, d, id) then (g, CycleFound)
    else (g[id := dependencies], Done)
  }

  /**
   The endpoints take no lock. Two accepted updates of different skills that both read before either writes leave no
   cycle if and only if the second would have been accepted after the first as well.
   */
  lemma OverlappingUpdates(g: Graph, a: SkillId, forA: set<SkillId>, b: SkillId, forB: set<SkillId>)
    requires Closed(g) && Ranked(g) && a != b && Updated(g, a, forA).1 == Done && Updated(g, b, forB).1 == Done
    ensures Acyclic(g[a := forA][b := forB]) <==> Updated(g[a := forA], b, forB).1 == Done
  {
    if forA == g[a] { assert g[a := forA] == g; } else { UpdateKeepsRank(g, a, forA); }
    UpdateIsExact(g[a := forA], b, forB);
    if forB == g[b] {
      assert g[a := forA][b := forB] == g[a := forA];
      RankedIsAcyclic(g[a := forA]);
    }
  }

  /** Two such updates that close a cycle: each skill is made to depend on the other. */
  lemma OverlappingUpdatesCloseACycle()
    ensures var g: Graph := map["a" := {}, "b" := {}];
            && Ranked(g) && Updated(g, "a", {"b"}).1 == Done && Updated(g, "b", {"a"}).1 == Done
            && !Acyclic(g["a" := {"b"}]["b" := {"a"}])
  {
    var g: Graph := map["a" := {}, "b" := {}];
    DependsOnHigher(g, map["a" := 0, "b" := 0], "a", "b");
    DependsOnHigher(g, map["a" := 0, "b" := 0], "b", "a");
    assert IsChain(g["a" := {"b"}]["b" := {"a"}], ["a", "b", "a"]);
  }

  datatype Event =
    | CreateRoot(id: SkillId, dependencies: set<SkillId>)
    | UpdateRoot(id: SkillId, dependencies: set<SkillId>)
    | DeleteRoot(id: SkillId)
    | CreateSub(root: SkillId, id: SkillId, dependencies: set<SkillId>)
    | UpdateSub(root: SkillId, id: SkillId, dependencies: set<SkillId>)
    | DeleteSub(root: SkillId, id: SkillId)

  ghost function Step(t: Tree, e: Event): (Tree, Reply) {
    match e
    case CreateRoot(id, dependencies) =>
      if id in t.roots then (t, AlreadyExists)
      else if !(dependencies <= t.roots.Keys) then (t, NotFound)
      else (t.(roots := t.roots[id := dependencies]), Done)
    case UpdateRoot(id, dependencies) =>
      var (roots, reply) := Updated(t.roots, id, dependencies);
      (t.(roots := roots), reply)
    case DeleteRoot(id) =>
      if id !in t.roots then (t, NotFound)
      else (Tree(Without(t.roots, {id}), map s | s in t.subs && t.subs[s].root != id :: t.subs[s]), Done)
    case CreateSub(root, id, dependencies) =>
      if root !in t.roots then (t, NotFound)
      else if id in t.subs then (t, AlreadyExists)
      else if !(dependencies <= SubGraph(t.subs, root).Keys) then (t, NotFound)
      else (t.(subs := t.subs[id := Sub(root, dependencies)]), Done)
    case UpdateSub(root, id, dependencies) =>
      var (graph, reply) := Updated(SubGraph(t.subs, root), id, dependencies);
      if reply == Done then (t.(subs := t.subs[id := Sub(root, dependencies)]), reply) else (t, reply)
    case DeleteSub(root, id) =>
      if id !in t.subs || t.subs[id].root != root then (t, NotFound)
      else
        (t.(subs := map s | s in t.subs && s != id :: t.subs[s].(dependencies := t.subs[s].dependencies - {id})), Done)
  }

  ghost function Run(t: Tree, events: seq<Event>): Tree
    decreases events
  {
    if events == [] then t else Run(Step(t, events[0]).0, events[1..])
  }

  // ----- What the operations store ---------------------------------------------------------------------------------------

  /** The skills that an operation on the roots, or on the sub-skills of one root, is about. */
  function GraphOf(t: Tree, root: Option<SkillId>): Graph {
    if root.None? then t.roots else SubGraph(t.subs, root.value)
  }

  ghost predicate OthersStay(t: Tree, t': Tree, root: Option<SkillId>) {
    && (root.Some? ==> t'.roots == t.roots)
    && (forall other {:trigger SubGraph(t'.subs, other)} :: root != Some(other) ==>
          SubGraph(t'.subs, other) == SubGraph(t.subs, other))
  }

  /**
   A skill is created exactly if its id is new, its root exists, and it depends on known skills beside it only; then it has
   the dependencies that were given, and nothing else changes.
   */
  lemma CreateIsExact(t: Tree, root: Option<SkillId>, id: SkillId, dependencies: set<SkillId>)
    ensures var e := if root.Some? then CreateSub(root.value, id, dependencies) else CreateRoot(id, dependencies);
            var (t', reply) := Step(t, e);
            && (reply == Done <==>
                  && (if root.Some? then root.value in t.roots && id !in t.subs else id !in t.roots)
                  && forall d | d in dependencies :: d in GraphOf(t, root))
            && (reply != Done ==> t' == t)
            && (reply == Done ==> GraphOf(t', root) == GraphOf(t, root)[id := dependencies] && OthersStay(t, t', root))
  {}

  /** An update that is taken leaves exactly the dependencies that were given, and nothing else changes. */
  lemma UpdateStores(t: Tree, root: Option<SkillId>, id: SkillId, dependencies: set<SkillId>)
    ensures var e := if root.Some? then UpdateSub(root.value, id, dependencies) else UpdateRoot(id, dependencies);
            var (t', reply) := Step(t, e);
            && (reply != Done ==> t' == t)
            && (reply == Done ==>
                  && id in GraphOf(t, root) && GraphOf(t', root) == GraphOf(t, root)[id := dependencies]
                  && OthersStay(t, t', root))
  {
    if root.Some? {
      var subs := t.subs[id := Sub(root.value, dependencies)];
      if id in SubGraph(t.subs, root.value) {
        forall other ensures SubGraph(subs, other)
                          == if other == root.value then SubGraph(t.subs, other)[id := dependencies] else SubGraph(t.subs, other)
        {
          SubGraphAfterUpdate(t.subs, root.value, id, dependencies, other);
        }
      }
    } else if id in t.roots {
      assert t.roots[id := t.roots[id]] == t.roots;
    }
  }

  /** An update is taken unless it names something unknown, or closes a cycle, which the answer tells apart. */
  lemma UpdateRefusals(g: Graph, id: SkillId, dependencies: set<SkillId>)
    requires Closed(g) && Ranked(g)
    ensures var reply := Updated(g, id, dependencies).1;
            && (reply == NotFound <==> id !in g || exists d :: d in dependencies && d !in g)
            && (reply == CycleFound <==> id in g && dependencies <= g.Keys && !Acyclic(g[id := dependencies]))
            && (reply == Done <==> id in g && dependencies <= g.Keys && Acyclic(g[id := dependencies]))
  {
    if id in g && dependencies <= g.Keys {
      UpdateIsExact(g, id, dependencies);
      if dependencies == g[id] {
        assert g[id := dependencies] == g;
        RankedIsAcyclic(g);
      }
    }
  }

  /** A deletion takes the skill and every mention of it among the skills beside it, and the sub-skills of a root with it. */
  lemma DeleteIsExact(t: Tree, root: Option<SkillId>, id: SkillId)
    ensures var (t', reply) := Step(t, if root.Some? then DeleteSub(root.value, id) else DeleteRoot(id));
            var before, after := GraphOf(t, root), GraphOf(t', root);
            && (reply == Done <==> id in before)
            && (reply != Done ==> t' == t)
            && (reply == Done ==> after.Keys == before.Keys - {id} && forall o | o in after :: after[o] == before[o] - {id})
            && (reply == Done && root.None? ==>
                  && SubGraph(t'.subs, id) == map[]
                  && forall other {:trigger SubGraph(t'.subs, other)} | other != id ::
                       SubGraph(t'.subs, other) == SubGraph(t.subs, other))
  {}

  // ----- The operations, step by step -----------------------------------------------------------------------------------

  class Skills {
    var roots: Graph
    var subs: map<SkillId, Sub>

    ghost function Contents(): Tree
      reads this
    {
      Tree(roots, subs)
    }

    constructor ()
      ensures Contents() == Tree(map[], map[])
    {
      roots, subs := map[], map[];
    }

    method Create(root: Option<SkillId>, id: SkillId, dependencies: set<SkillId>) returns (reply: Reply)
      modifies this
      ensures (Contents(), reply)
           == Step(old(Contents()), if root.Some? then CreateSub(root.value, id, dependencies) else CreateRoot(id, dependencies))
    {
      if root.None? {
        if id in roots { return AlreadyExists; }
        if !(dependencies <= roots.Keys) { return NotFound; }
        roots := roots[id := dependencies];
      } else {
        if root.value !in roots { return NotFound; }
        if id in subs { return AlreadyExists; }
        if !(dependencies <= SubGraph(subs, root.value).Keys) { return NotFound; }
        subs := subs[id := Sub(root.value, dependencies)];
      }
      return Done;
    }

    method UpdateRoot(id: SkillId, dependencies: set<SkillId>) returns (reply: Reply)
      modifies this`roots
      ensures (Contents(), reply) == Step(old(Contents()), Event.UpdateRoot(id, dependencies))
    {
      if id !in roots { return NotFound; }
      if dependencies != roots[id] {
        if !(dependencies <= roots.Keys) { return NotFound; }
        var dependents := GetSkillDependents(roots, id);
        if dependents * dependencies != {} {
          ghost var d :| d in dependents * dependencies;
          assert d in dependencies && DependsOn(roots, d, id);
          return CycleFound;
        }
        assert forall d | d in dependencies :: d !in dependents * dependencies;
        roots := roots[id := dependencies];
      }
      return Done;
    }

    method UpdateSub(root: SkillId, id: SkillId, dependencies: set<SkillId>) returns (reply: Reply)
      modifies this`subs
      ensures (Contents(), reply) == Step(old(Contents()), Event.UpdateSub(root, id, dependencies))
    {
      var skills := SubGraph(subs, root);
      if id !in skills { return NotFound; }
      if dependencies != skills[id] {
        if !(dependencies <= skills.Keys) { return NotFound; }
        var dependents := GetSkillDependents(skills, id);
        if dependents * dependencies != {} {
          ghost var d :| d in dependents * dependencies;
          assert d in dependencies && DependsOn(skills, d, id);
          return CycleFound;
        }
        assert forall d | d in dependencies :: d !in dependents * dependencies;
        subs := subs[id := Sub(root, dependencies)];
      } else {
        assert subs[id := Sub(root, dependencies)] == subs;
      }
      return Done;
    }

    method Delete(root: Option<SkillId>, id: SkillId) returns (reply: Reply)
      modifies this
      ensures (Contents(), reply)
           == Step(old(Contents()), if root.Some? then DeleteSub(root.value, id) else DeleteRoot(id))
    {
      if root.None? {
        if id !in roots { return NotFound; }
        // Deleting a root deletes its sub-skills with it.
        subs := map s | s in subs && subs[s].root != id :: subs[s];
        roots := Without(roots, {id});
      } else {
        if id !in subs || subs[id].root != root.value { return NotFound; }
        subs := map s | s in subs && s != id :: subs[s].(dependencies := subs[s].dependencies - {id});
      }
      return Done;
    }
  }

  // ----- Every run ------------------------------------------------------------------------------------------------------------

  ghost predicate SubsOk(t: Tree, root: SkillId) {
    Closed(SubGraph(t.subs, root)) && Ranked(SubGraph(t.subs, root))
  }

  ghost predicate Inv(t: Tree) {
    && Closed(t.roots) && Ranked(t.roots)
    && (forall root {:trigger SubsOk(t, root)} :: SubsOk(t, root))
    && (forall id | id in t.subs :: t.subs[id].root in t.roots)
  }

  lemma UpdatedIsOk(g: Graph, id: SkillId, dependencies: set<SkillId>)
    requires Closed(g) && Ranked(g)
    ensures Closed(Updated(g, id, dependencies).0) && Ranked(Updated(g, id, dependencies).0)
    ensures Updated(g, id, dependencies).0.Keys == g.Keys
  {
    if Updated(g, id, dependencies).0 != g { UpdateKeepsRank(g, id, dependencies); }
  }

  lemma SubGraphAfterUpdate(subs: map<SkillId, Sub>, root: SkillId, id: SkillId, dependencies: set<SkillId>, other: SkillId)
    requires id in subs ==> subs[id].root == root
    ensures SubGraph(subs[id := Sub(root, dependencies)], other)
         == if other == root then SubGraph(subs, root)[id := dependencies] else SubGraph(subs, other)
  {}

  lemma CreateSubKeepsInv(t: Tree, root: SkillId, id: SkillId, dependencies: set<SkillId>)
    requires Inv(t)
    ensures Inv(Step(t, CreateSub(root, id, dependencies)).0)
  {
    var t' := Step(t, CreateSub(root, id, dependencies)).0;
    if Step(t, CreateSub(root, id, dependencies)).1 == Done {
      assert SubsOk(t, root);
      CreateKeepsRank(SubGraph(t.subs, root), id, dependencies);
      forall other ensures SubsOk(t', other) {
        assert SubsOk(t, other);
        SubGraphAfterUpdate(t.subs, root, id, dependencies, other);
      }
    }
  }

  lemma UpdateSubKeepsInv(t: Tree, root: SkillId, id: SkillId, dependencies: set<SkillId>)
    requires Inv(t)
    ensures Inv(Step(t, Event.UpdateSub(root, id, dependencies)).0)
  {
    var g, t' := SubGraph(t.subs, root), Step(t, Event.UpdateSub(root, id, dependencies)).0;
    if Step(t, Event.UpdateSub(root, id, dependencies)).1 == Done {
      assert SubsOk(t, root);
      UpdatedIsOk(g, id, dependencies);
      forall other ensures SubsOk(t', other) {
        assert SubsOk(t, other);
        SubGraphAfterUpdate(t.subs, root, id, dependencies, other);
        assert g[id := dependencies] == Updated(g, id, dependencies).0;
      }
    }
  }

  lemma DeleteSubKeepsInv(t: Tree, root: SkillId, id: SkillId)
    requires Inv(t)
    ensures Inv(Step(t, DeleteSub(root, id)).0)
  {
    var t' := Step(t, DeleteSub(root, id)).0;
    if id in t.subs && t.subs[id].root == root {
      forall other ensures SubsOk(t', other) {
        assert SubsOk(t, other);
        DeleteKeepsRank(SubGraph(t.subs, other), {id});
        assert SubGraph(t'.subs, other) == Without(SubGraph(t.subs, other), {id});
      }
    }
  }

  lemma DeleteRootKeepsInv(t: Tree, id: SkillId)
    requires Inv(t)
    ensures Inv(Step(t, DeleteRoot(id)).0)
  {
    var t' := Step(t, DeleteRoot(id)).0;
    if id in t.roots {
      DeleteKeepsRank(t.roots, {id});
      forall other ensures SubsOk(t', other) {
        assert SubsOk(t, other);
        if other == id {
          assert SubGraph(t'.subs, other) == map[];
          assert IsRank(map[], map[]);
        } else {
          assert SubGraph(t'.subs, other) == SubGraph(t.subs, other);
        }
      }
    }
  }

  lemma StepKeepsInv(t: Tree, e: Event)
    requires Inv(t)
    ensures Inv(Step(t, e).0)
  {
    match e
    case CreateRoot(id, dependencies) =>
      if Step(t, e).1 == Done {
        CreateKeepsRank(t.roots, id, dependencies);
        SameSubs(t, t.roots[id := dependencies]);
      }
    case UpdateRoot(id, dependencies) =>
      UpdatedIsOk(t.roots, id, dependencies);
      SameSubs(t, Updated(t.roots, id, dependencies).0);
    case DeleteRoot(id) => DeleteRootKeepsInv(t, id);
    case CreateSub(root, id, dependencies) => CreateSubKeepsInv(t, root, id, dependencies);
    case UpdateSub(root, id, dependencies) => UpdateSubKeepsInv(t, root, id, dependencies);
    case DeleteSub(root, id) => DeleteSubKeepsInv(t, root, id);
  }

  lemma SameSubs(t: Tree, roots: Graph)
    requires Inv(t)
    ensures forall root {:trigger SubsOk(t.(roots := roots), root)} :: SubsOk(t.(roots := roots), root)
  {
    forall root ensures SubsOk(t.(roots := roots), root) { assert SubsOk(t, root); }
  }

  lemma {:induction false} RunKeepsInv(t: Tree, events: seq<Event>)
    requires Inv(t)
    ensures Inv(Run(t, events))
    decreases events
  {
    if events != [] {
      StepKeepsInv(t, events[0]);
      RunKeepsInv(Step(t, events[0]).0, events[1..]);
    }
  }

  /** Over every run the skill tree has no cycle, and the dependencies of a sub-skill are sub-skills of its own root. */
  lemma TreeStaysAcyclic(events: seq<Event>, root: SkillId)
    ensures var t := Run(Tree(map[], map[]), events);
            && Acyclic(t.roots) && Closed(t.roots)
            && Acyclic(SubGraph(t.subs, root)) && Closed(SubGraph(t.subs, root))
            && (forall id | id in t.subs :: t.subs[id].root in t.roots)
  {
    assert IsRank(map[], map[]);
    forall other ensures SubsOk(Tree(map[], map[]), other) { assert SubGraph(map[], other) == map[]; }
    RunKeepsInv(Tree(map[], map[]), events);
    var t := Run(Tree(map[], map[]), events);
    RankedIsAcyclic(t.roots);
    assert SubsOk(t, root);
    RankedIsAcyclic(SubGraph(t.subs, root));
  }
}
