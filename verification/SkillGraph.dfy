/**
 The skill tree (api/endpoints/skill.py): the worklist that collects the dependents of a skill, and the create, update
 and delete operations that keep root skills and the sub-skills of each root free of cycles.
 */
module SkillGraph {
  import opened FiniteSets
  import opened Ids

  /** The dependencies of each skill. */
  type Graph = map<SkillId, set<SkillId>>

  /** Every dependency is a skill of the graph. */
  predicate Closed(g: Graph) {
    forall id | id in g :: g[id] <= g.Keys
  }

  /** The ORM's `dependents`: the other side of the same rows. */
  function Dependents(g: Graph, id: SkillId): set<SkillId> {
    set other | other in g && id in g[other]
  }

  /** A chain of skills in which each depends on the one before it. */
  predicate IsChain(g: Graph, p: seq<SkillId>) {
    && p != []
    && (forall i | 0 <= i < |p| :: p[i] in g)
    && (forall i | 0 <= i < |p| - 1 :: p[i] in g[p[i + 1]])
  }

  /** `to` depends on `from`, directly or through other skills, or is the same skill. */
  ghost predicate DependsOn(g: Graph, to: SkillId, from: SkillId) {
    exists p :: IsChain(g, p) && p[0] == from && p[|p| - 1] == to
  }

  /** No skill depends on itself. */
  ghost predicate Acyclic(g: Graph) {
    forall p | IsChain(g, p) && |p| > 1 :: p[0] != p[|p| - 1]
  }

  // ----- The worklist -------------------------------------------------------------------------------------------

  /**
   A skill that was already visited pushes nothing again: each of its dependents was visited too, or lies above it
   on the stack. So the loop ends although the stack may hold a skill more than once and the graph may have cycles.
   */
  ghost predicate Above(g: Graph, visited: set<SkillId>, stack: seq<SkillId>, i: nat)
    requires i < |stack|
  {
    stack[i] in visited ==> forall d | d in Dependents(g, stack[i]) :: d in visited || d in stack[i + 1..]
  }

  ghost predicate Pending(g: Graph, visited: set<SkillId>, stack: seq<SkillId>, id: SkillId) {
    forall d | d in Dependents(g, id) :: d in visited || d in stack
  }

  lemma Extend(g: Graph, skill: SkillId, id: SkillId, dependent: SkillId)
    requires DependsOn(g, id, skill) && dependent in Dependents(g, id)
    ensures DependsOn(g, dependent, skill)
  {
    var p :| IsChain(g, p) && p[0] == skill && p[|p| - 1] == id;
    assert IsChain(g, p + [dependent]);
  }

  /** A set that is closed under dependents and holds the skill holds everything that depends on it. */
  lemma {:induction false} ClosedHolds(g: Graph, visited: set<SkillId>, p: seq<SkillId>, i: nat)
    requires forall id | id in visited :: Dependents(g, id) <= visited
    requires IsChain(g, p) && p[0] in visited && i < |p|
    ensures p[i] in visited
  {
    if i > 0 {
      ClosedHolds(g, visited, p, i - 1);
      assert p[i] in Dependents(g, p[i - 1]);
    }
  }

  /** The inner loop: appends the dependents that were not visited yet. */
  method PushAll(queue: seq<SkillId>, found: set<SkillId>) returns (longer: seq<SkillId>)
    ensures |longer| >= |queue| && longer[..|queue|] == queue
    ensures forall d :: d in longer[|queue|..] <==> d in found
    ensures found == {} ==> longer == queue
  {
    longer := queue;
    var todo := found;
    while todo != {}
      invariant todo <= found && |longer| >= |queue| && longer[..|queue|] == queue
      invariant forall d :: d in longer[|queue|..] <==> d in found - todo
      invariant found == {} ==> longer == queue
      decreases todo
    {
      var d :| d in todo;
      ghost var before := longer;
      longer := longer + [d];
      assert longer[|queue|..] == before[|queue|..] + [d];
      todo := todo - {d};
    }
  }

  /** What the stack invariants say after a pop and its pushes. */
  lemma Popped(g: Graph, before: set<SkillId>, stack: seq<SkillId>, queue: seq<SkillId>, id: SkillId, found: set<SkillId>)
    requires stack != [] && id == stack[|stack| - 1] && found == Dependents(g, id) - (before + {id})
    requires |queue| >= |stack| - 1 && queue[..|stack| - 1] == stack[..|stack| - 1]
    requires forall d :: d in queue[|stack| - 1..] <==> d in found
    requires forall x | x in before :: Pending(g, before, stack, x)
    requires forall i | 0 <= i < |stack| :: Above(g, before, stack, i)
    ensures forall x | x in before + {id} :: Pending(g, before + {id}, queue, x)
    ensures forall i | 0 <= i < |queue| :: Above(g, before + {id}, queue, i)
  {
    var top := |stack| - 1;
    var after := before + {id};
    assert queue == queue[..top] + queue[top..];
    forall i | 0 <= i < |queue| ensures Above(g, after, queue, i) {
      if i < top {
        assert queue[i] == queue[..top][i] == stack[i];
        assert queue[i + 1..] == queue[i + 1..top] + queue[top..];
        AboveStays(g, before, stack, queue, id, found, i);
      } else {
        assert queue[i] in queue[top..];
      }
    }
    forall x, d | x in after && d in Dependents(g, x) ensures d in after || d in queue {
      if x in before && d !in before {
        assert Pending(g, before, stack, x);
        assert stack == stack[..top] + [id];
      } else {
        assert d in after || d in found;
      }
    }
  }

  lemma AboveStays(g: Graph, before: set<SkillId>, stack: seq<SkillId>, queue: seq<SkillId>, id: SkillId,
                   found: set<SkillId>, i: nat)
    requires stack != [] && id == stack[|stack| - 1] && found == Dependents(g, id) - (before + {id})
    requires |queue| >= |stack| - 1 && queue[..|stack| - 1] == stack[..|stack| - 1]
    requires forall d :: d in queue[|stack| - 1..] <==> d in found
    requires i < |stack| - 1 && Above(g, before, stack, i) && queue[i] == stack[i]
    requires queue[i + 1..] == queue[i + 1..|stack| - 1] + queue[|stack| - 1..]
    ensures Above(g, before + {id}, queue, i)
  {
    var top := |stack| - 1;
    forall d | queue[i] in before + {id} && d in Dependents(g, queue[i]) ensures d in before + {id} || d in queue[i + 1..] {
      if queue[i] == id {
        assert d in before + {id} || d in found;
      } else if d !in before + {id} {
        assert d in stack[i + 1..];
        assert stack[i + 1..] == queue[..top][i + 1..] + [id];
        assert queue[..top][i + 1..] == queue[i + 1..top];
      }
    }
  }

  /** A skill visited for the first time leaves fewer to visit; any other pop pushes nothing. */
  lemma Progress(g: Graph, before: set<SkillId>, stack: seq<SkillId>, id: SkillId, found: set<SkillId>)
    requires stack != [] && id == stack[|stack| - 1] && id in g && found == Dependents(g, id) - (before + {id})
    requires Above(g, before, stack, |stack| - 1)
    ensures if id in before then found == {} && before + {id} == before
            else |g.Keys - (before + {id})| < |g.Keys - before|
  {
    if id in before {
      forall d | d in Dependents(g, id) ensures d in before {}
    } else {
      assert id in (g.Keys - before) && id !in g.Keys - (before + {id});
      ProperSubsetIsSmaller(g.Keys - (before + {id}), g.Keys - before);
    }
  }

  /** What the loop keeps: all it has seen depends on the skill, and what it has not followed yet lies on the stack. */
  ghost predicate Work(g: Graph, skill: SkillId, visited: set<SkillId>, stack: seq<SkillId>) {
    && visited <= g.Keys && (skill in visited || skill in stack)
    && (forall id | id in visited :: DependsOn(g, id, skill))
    && (forall id | id in stack :: id in g && DependsOn(g, id, skill))
    && (forall id | id in visited :: Pending(g, visited, stack, id))
    && (forall i | 0 <= i < |stack| :: Above(g, visited, stack, i))
  }

  lemma WorkStep(g: Graph, skill: SkillId, before: set<SkillId>, stack: seq<SkillId>, queue: seq<SkillId>, id: SkillId,
                 found: set<SkillId>)
    requires Work(g, skill, before, stack)
    requires stack != [] && id == stack[|stack| - 1] && found == Dependents(g, id) - (before + {id})
    requires |queue| >= |stack| - 1 && queue[..|stack| - 1] == stack[..|stack| - 1]
    requires forall d :: d in queue[|stack| - 1..] <==> d in found
    ensures Work(g, skill, before + {id}, queue)
  {
    Popped(g, before, stack, queue, id, found);
    assert queue == queue[..|stack| - 1] + queue[|stack| - 1..];
    assert stack == queue[..|stack| - 1] + [id];
    forall d | d in queue ensures d in g && DependsOn(g, d, skill) {
      if d in found { Extend(g, skill, id, d); } else { assert d in stack; }
    }
  }

  lemma WorkDone(g: Graph, skill: SkillId, visited: set<SkillId>)
    requires Work(g, skill, visited, [])
    ensures forall id :: id in visited <==> DependsOn(g, id, skill)
  {
    forall d | d in visited ensures Dependents(g, d) <= visited { assert Pending(g, visited, [], d); }
    forall id | DependsOn(g, id, skill) ensures id in visited {
      var p :| IsChain(g, p) && p[0] == skill && p[|p| - 1] == id;
      ClosedHolds(g, visited, p, |p| - 1);
    }
  }

  /** `get_skill_dependents`: exactly the skills that depend on `skill`, itself included. */
  method GetSkillDependents(g: Graph, skill: SkillId) returns (dependents: set<SkillId>)
    requires skill in g
    ensures forall id :: id in dependents <==> DependsOn(g, id, skill)
  {
    assert IsChain(g, [skill]);
    dependents := {};
    var queue := [skill];
    while queue != []
      invariant Work(g, skill, dependents, queue)
      decreases |g.Keys - dependents|, |queue|
    {
      var id := queue[|queue| - 1];
      ghost var before, stack := dependents, queue;
      assert Above(g, before, stack, |stack| - 1) && id in stack;
      queue := queue[..|queue| - 1];
      dependents := dependents + {id};
      var found := Dependents(g, id) - dependents;
      queue := PushAll(queue, found);
      WorkStep(g, skill, before, stack, queue, id, found);
      Progress(g, before, stack, id, found);
    }
    WorkDone(g, skill, dependents);
  }
}
