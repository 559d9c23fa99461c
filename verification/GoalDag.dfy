/**
 * The typed goal graph: construction with cycle detection by depth-first
 * search, the ready tasks and the transitive descendants of a task.
 */
module GoalDag {
  import opened Outcomes
  import opened TextOrder
  import Judgment

  datatype TaskNode = TaskNode(taskId: string, dependencies: seq<string>, evidence: seq<Judgment.EvidenceSpec>)

  type Tasks = map<string, TaskNode>

  datatype DagError = UnknownDependency | Cycle | Malformed

  datatype GoalDag = GoalDag(goalId: string, tasks: Tasks)

  // ---------- reachability ----------

  predicate DependsOn(tasks: Tasks, a: string, b: string) {
    a in tasks && b in tasks[a].dependencies
  }

  predicate IsPath(tasks: Tasks, p: seq<string>) {
    forall i | 0 <= i < |p| - 1 :: DependsOn(tasks, p[i], p[i + 1])
  }

  /** `p` leads from `a` to `b` through at least one dependency. */
  predicate Leads(tasks: Tasks, p: seq<string>, a: string, b: string) {
    |p| >= 2 && IsPath(tasks, p) && p[0] == a && p[|p| - 1] == b
  }

  /** `a` depends on `b`, directly or through other tasks. */
  ghost predicate Reaches(tasks: Tasks, a: string, b: string) {
    exists p :: Leads(tasks, p, a, b)
  }

  ghost predicate Acyclic(tasks: Tasks) {
    forall t :: !Reaches(tasks, t, t)
  }

  lemma ReachesDirectly(tasks: Tasks, a: string, b: string)
    requires DependsOn(tasks, a, b)
    ensures Reaches(tasks, a, b)
  {
    assert Leads(tasks, [a, b], a, b);
  }

  lemma ReachesThrough(tasks: Tasks, a: string, b: string, c: string)
    requires DependsOn(tasks, a, b) && Reaches(tasks, b, c)
    ensures Reaches(tasks, a, c)
  {
    var p :| Leads(tasks, p, b, c);
    assert Leads(tasks, [a] + p, a, c);
  }

  lemma ReachesTransitive(tasks: Tasks, a: string, b: string, c: string)
    requires Reaches(tasks, a, b) && Reaches(tasks, b, c)
    ensures Reaches(tasks, a, c)
  {
    var p :| Leads(tasks, p, a, b);
    var q :| Leads(tasks, q, b, c);
    var r := p + q[1..];
    forall i | 0 <= i < |r| - 1 ensures DependsOn(tasks, r[i], r[i + 1]) {
      if i >= |p| - 1 {
        assert r[i] == q[i - |p| + 1] && r[i + 1] == q[i - |p| + 2];
      }
    }
    assert Leads(tasks, r, a, c);
  }

  // ---------- validation ----------

  /** Every dependency names a task. */
  predicate Known(tasks: Tasks) {
    forall t | t in tasks :: forall d | d in tasks[t].dependencies :: d in tasks
  }

  /** A list of tasks in which each one's dependencies come before it. */
  predicate Topological(tasks: Tasks, order: seq<string>) {
    forall i | 0 <= i < |order| ::
      order[i] in tasks && order[i] !in order[..i] && forall d | d in tasks[order[i]].dependencies :: d in order[..i]
  }

  function Elements(s: seq<string>): set<string> {
    set x | x in s
  }

  lemma DeeperElements(s: seq<string>, x: string)
    ensures Elements(s + [x]) == Elements(s) + {x}
    ensures x in Elements(s) <==> x in s
  {
  }

  lemma KnownTasks(tasks: Tasks, t: string)
    requires Known(tasks) && t in tasks
    ensures forall d | d in tasks[t].dependencies :: d in tasks && DependsOn(tasks, t, d)
  {
  }

  lemma TopologicalSnoc(tasks: Tasks, order: seq<string>, t: string)
    requires Topological(tasks, order) && t in tasks && t !in order
    requires forall d | d in tasks[t].dependencies :: d in order
    ensures Topological(tasks, order + [t])
  {
    var longer := order + [t];
    forall i | 0 <= i < |longer|
      ensures longer[i] in tasks && longer[i] !in longer[..i] && forall d | d in tasks[longer[i]].dependencies ::
              d in longer[..i]
    {
      assert longer[..i] == order[..i];
      if i == |order| {
        assert order[..i] == order;
      }
    }
  }

  /** Along a path, positions in a topological order only go down. */
  lemma {:induction false} PathDescends(tasks: Tasks, order: seq<string>, i: nat, p: seq<string>)
    requires Topological(tasks, order) && i < |order| && |p| >= 2 && IsPath(tasks, p) && p[0] == order[i]
    ensures p[|p| - 1] in order[..i]
    decreases |p|
  {
    assert DependsOn(tasks, p[0], p[1]);
    assert p[1] in order[..i];
    if |p| > 2 {
      var j :| 0 <= j < i && order[j] == p[1];
      PathDescends(tasks, order, j, p[1..]);
      assert order[..j] <= order[..i];
    }
  }

  lemma {:induction false} TopologicalIsAcyclic(tasks: Tasks, order: seq<string>)
    requires Topological(tasks, order) && forall t | t in tasks :: t in order
    ensures Acyclic(tasks)
  {
    forall t ensures !Reaches(tasks, t, t) {
      if Reaches(tasks, t, t) {
        var p :| Leads(tasks, p, t, t);
        assert DependsOn(tasks, p[0], p[1]);
        var i :| 0 <= i < |order| && order[i] == t;
        PathDescends(tasks, order, i, p);
      }
    }
  }

  /**
   * Depth-first search below one task. `visiting` holds the tasks on the
   * current path (the ghost `stack`), `done` those fully explored, in a
   * topological order.
   */
  method Visit(tasks: Tasks, taskId: string, visiting: set<string>, done: set<string>, ghost stack: seq<string>,
      ghost order: seq<string>)
    returns (ok: bool, visiting': set<string>, done': set<string>, ghost order': seq<string>)
    requires Known(tasks) && taskId in tasks && visiting <= tasks.Keys
    requires visiting == Elements(stack) && IsPath(tasks, stack + [taskId])
    requires Topological(tasks, order) && done == Elements(order) && done !! visiting
    ensures ok ==> visiting' == visiting && done + {taskId} <= done' && done' !! visiting
    ensures ok ==> Topological(tasks, order') && done' == Elements(order')
    ensures !ok ==> !Acyclic(tasks)
    decreases |tasks.Keys - visiting|
  {
    hide Topological, IsPath, Acyclic;
    visiting', done', order' := visiting, done, order;
    if taskId in done {
      return true, visiting', done', order';
    }
    if taskId in visiting {
      BackEdgeIsCycle(tasks, stack, taskId);
      return false, visiting', done', order';
    }
    hide Elements, Known, DependsOn;
    DeeperElements(stack, taskId);
    KnownTasks(tasks, taskId);
    visiting' := visiting + {taskId};
    assert tasks.Keys - visiting' < tasks.Keys - visiting;
    SmallerSet(tasks.Keys - visiting', tasks.Keys - visiting);
    var dependencies, i := tasks[taskId].dependencies, 0;
    while i < |dependencies|
      invariant 0 <= i <= |dependencies|
      invariant visiting' == visiting + {taskId}
      invariant done <= done' && done' !! visiting'
      invariant Topological(tasks, order') && done' == Elements(order')
      invariant forall j | 0 <= j < i :: dependencies[j] in done'
    {
      ghost var deeper := stack + [taskId];
      PathSnoc(tasks, deeper, dependencies[i]);
      ok, visiting', done', order' := Visit(tasks, dependencies[i], visiting', done', deeper, order');
      if !ok {
        return;
      }
      i := i + 1;
    }
    visiting' := visiting' - {taskId};
    done' := done' + {taskId};
    TopologicalSnoc(tasks, order', taskId);
    DeeperElements(order', taskId);
    order' := order' + [taskId];
    assert visiting' == visiting;
    ok := true;
  }

  lemma SmallerSet(a: set<string>, b: set<string>)
    requires a < b
    ensures |a| < |b|
  {
    assert b == a + (b - a);
  }

  lemma PathSnoc(tasks: Tasks, p: seq<string>, t: string)
    requires p != [] && IsPath(tasks, p) && DependsOn(tasks, p[|p| - 1], t)
    ensures IsPath(tasks, p + [t])
  {
    var longer := p + [t];
    forall i | 0 <= i < |longer| - 1 ensures DependsOn(tasks, longer[i], longer[i + 1]) {
      if i < |p| - 1 {
        assert longer[i + 1] == p[i + 1];
      }
    }
  }

  lemma BackEdgeIsCycle(tasks: Tasks, stack: seq<string>, taskId: string)
    requires taskId in stack && IsPath(tasks, stack + [taskId])
    ensures !Acyclic(tasks)
  {
    var longer := stack + [taskId];
    var k :| 0 <= k < |stack| && stack[k] == taskId;
    var p := longer[k..];
    forall i | 0 <= i < |p| - 1 ensures DependsOn(tasks, p[i], p[i + 1]) {
      assert p[i] == longer[k + i] && p[i + 1] == longer[k + i + 1];
    }
    assert Leads(tasks, p, taskId, taskId);
    assert Reaches(tasks, taskId, taskId);
  }

  lemma EmptyPaths(tasks: Tasks)
    ensures Topological(tasks, []) && IsPath(tasks, [])
  {
  }

  lemma OnePath(tasks: Tasks, t: string)
    ensures IsPath(tasks, [] + [t])
  {
  }

  method DependenciesKnown(tasks: Tasks, ids: seq<string>) returns (known: bool)
    requires forall x :: x in ids <==> x in tasks
    ensures known == Known(tasks)
  {
    var i := 0;
    while i < |ids|
      invariant 0 <= i <= |ids|
      invariant forall j | 0 <= j < i :: forall d | d in tasks[ids[j]].dependencies :: d in tasks
    {
      assert ids[i] in ids;
      if exists d :: d in tasks[ids[i]].dependencies && d !in tasks {
        return false;
      }
      i := i + 1;
    }
    forall t | t in tasks ensures forall d | d in tasks[t].dependencies :: d in tasks {
      assert t in ids;
    }
    return true;
  }

  lemma FullOrder(tasks: Tasks, ids: seq<string>, order: seq<string>)
    requires Topological(tasks, order) && forall i | 0 <= i < |ids| :: ids[i] in order
    requires forall x :: x in ids <==> x in tasks
    ensures Acyclic(tasks)
  {
    forall t | t in tasks ensures t in order {
      assert t in ids;
    }
    TopologicalIsAcyclic(tasks, order);
  }

  method Validate(tasks: Tasks) returns (r: Result<(), DagError>)
    ensures r == if !Known(tasks) then Err(UnknownDependency) else if !Acyclic(tasks) then Err(Cycle) else Ok(())
  {
    hide Acyclic, Topological, InOrder, IsPath;
    ghost var order: seq<string> := [];
    assert Topological(tasks, []) && IsPath(tasks, []) by { EmptyPaths(tasks); }
    var ids := InOrder(tasks.Keys);
    var known := DependenciesKnown(tasks, ids);
    if !known {
      return Err(UnknownDependency);
    }
    var visiting: set<string>, done: set<string>, i := {}, {}, 0;
    while i < |ids|
      invariant 0 <= i <= |ids|
      invariant visiting == {} && Topological(tasks, order) && done == Elements(order)
      invariant forall j | 0 <= j < i :: ids[j] in done
    {
      assert ids[i] in ids;
      OnePath(tasks, ids[i]);
      var ok;
      ok, visiting, done, order := Visit(tasks, ids[i], visiting, done, [], order);
      if !ok {
        return Err(Cycle);
      }
      i := i + 1;
    }
    FullOrder(tasks, ids, order);
    return Ok(());
  }

  /** Task identifiers are non-empty and distinct. */
  predicate WellNamed(nodes: seq<TaskNode>) {
    && (forall i | 0 <= i < |nodes| :: nodes[i].taskId != "")
    && (forall i, j | 0 <= i < j < |nodes| :: nodes[i].taskId != nodes[j].taskId)
  }

  function ById(nodes: seq<TaskNode>): Tasks {
    if nodes == [] then map[] else ById(nodes[..|nodes| - 1])[nodes[|nodes| - 1].taskId := nodes[|nodes| - 1]]
  }

  lemma {:induction false} ByIdHas(nodes: seq<TaskNode>, id: string)
    ensures id in ById(nodes) <==> exists i :: 0 <= i < |nodes| && nodes[i].taskId == id
  {
    if nodes == [] {
    } else {
      var init := nodes[..|nodes| - 1];
      ByIdHas(init, id);
      if i :| 0 <= i < |init| && init[i].taskId == id {
        assert nodes[i].taskId == id;
      }
      assert forall i | 0 <= i < |init| :: nodes[i] == init[i];
    }
  }

  lemma {:induction false} ByIdFinds(nodes: seq<TaskNode>, i: nat)
    requires WellNamed(nodes) && i < |nodes|
    ensures nodes[i].taskId in ById(nodes) && ById(nodes)[nodes[i].taskId] == nodes[i]
    decreases |nodes|
  {
    if i < |nodes| - 1 {
      assert nodes[..|nodes| - 1][i] == nodes[i];
      ByIdFinds(nodes[..|nodes| - 1], i);
    }
  }

  /** The graph's tasks are the given ones, each under its identifier. */
  ghost predicate FiledUnder(tasks: Tasks, nodes: seq<TaskNode>) {
    && (forall i | 0 <= i < |nodes| :: nodes[i].taskId in tasks && tasks[nodes[i].taskId] == nodes[i])
    && (forall id | id in tasks :: exists i :: 0 <= i < |nodes| && nodes[i].taskId == id)
  }

  lemma ByIdFiles(nodes: seq<TaskNode>)
    requires WellNamed(nodes)
    ensures FiledUnder(ById(nodes), nodes)
  {
    forall i: nat | i < |nodes| ensures nodes[i].taskId in ById(nodes) && ById(nodes)[nodes[i].taskId] == nodes[i] {
      ByIdFinds(nodes, i);
    }
    forall id | id in ById(nodes) ensures exists i :: 0 <= i < |nodes| && nodes[i].taskId == id {
      ByIdHas(nodes, id);
    }
  }

  lemma WellNamedSnoc(nodes: seq<TaskNode>, node: TaskNode)
    requires WellNamed(nodes) && node.taskId != "" && node.taskId !in ById(nodes)
    ensures WellNamed(nodes + [node])
  {
    ByIdHas(nodes, node.taskId);
  }

  /**
   * Construction succeeds exactly for a named goal over distinctly named tasks
   * with known dependencies in which no task reaches itself, and reports the
   * first of these that fails. The graph then has each of the tasks under its
   * identifier, and no other.
   */
  method New(goalId: string, nodes: seq<TaskNode>) returns (r: Result<GoalDag, DagError>)
    ensures r == if goalId == "" || !WellNamed(nodes) then Err(Malformed)
                 else if !Known(ById(nodes)) then Err(UnknownDependency)
                 else if !Acyclic(ById(nodes)) then Err(Cycle)
                 else Ok(GoalDag(goalId, ById(nodes)))
    ensures r.Ok? ==> FiledUnder(r.value.tasks, nodes)
  {
    if goalId == "" {
      return Err(Malformed);
    }
    var tasks: Tasks, i := map[], 0;
    while i < |nodes|
      invariant 0 <= i <= |nodes|
      invariant tasks == ById(nodes[..i]) && WellNamed(nodes[..i])
    {
      ByIdHas(nodes[..i], nodes[i].taskId);
      if nodes[i].taskId == "" || nodes[i].taskId in tasks {
        assert !WellNamed(nodes) by {
          if nodes[i].taskId != "" {
            var j :| 0 <= j < i && nodes[..i][j].taskId == nodes[i].taskId;
            assert nodes[j].taskId == nodes[i].taskId;
          }
        }
        return Err(Malformed);
      }
      assert nodes[..i + 1] == nodes[..i] + [nodes[i]] && nodes[..i + 1][..i] == nodes[..i];
      WellNamedSnoc(nodes[..i], nodes[i]);
      tasks := tasks[nodes[i].taskId := nodes[i]];
      i := i + 1;
    }
    assert nodes[..i] == nodes;
    ByIdFiles(nodes);
    var valid := Validate(tasks);
    return if valid.Ok? then Ok(GoalDag(goalId, tasks)) else Err(valid.error);
  }

  // ---------- acyclic graphs have sources ----------

  /** Some task of every non-empty set of tasks depends on no other task of the set. */
  lemma SourceExists(tasks: Tasks, s: set<string>) returns (m: string)
    requires Acyclic(tasks) && s != {} && s <= tasks.Keys
    ensures m in s && forall d | d in tasks[m].dependencies :: d !in s
  {
    var t :| t in s;
    m := SourceFrom(tasks, s, [t]);
  }

  lemma {:induction false} SourceFrom(tasks: Tasks, s: set<string>, p: seq<string>) returns (m: string)
    requires Acyclic(tasks) && s <= tasks.Keys && p != [] && IsPath(tasks, p) && Elements(p) <= s
    ensures m in s && forall d | d in tasks[m].dependencies :: d !in s
    decreases s - Elements(p)
  {
    hide Acyclic, IsPath;
    m := p[|p| - 1];
    if d :| d in tasks[m].dependencies && d in s {
      PathSnoc(tasks, p, d);
      if d in p {
        BackEdgeIsCycle(tasks, p, d);
      }
      assert d in Elements(p + [d]);
      m := SourceFrom(tasks, s, p + [d]);
    }
  }

  // ---------- readiness ----------

  predicate Ready(tasks: Tasks, completed: set<string>, id: string) {
    id in tasks && forall d | d in tasks[id].dependencies :: d in completed
  }

  function KeepReady(tasks: Tasks, completed: set<string>, ids: seq<string>): (ready: seq<string>)
    ensures forall x :: x in ready <==> x in ids && Ready(tasks, completed, x)
    ensures Sorted(ids) ==> Sorted(ready)
  {
    if ids == [] then []
    else
      var init, last := KeepReady(tasks, completed, ids[..|ids| - 1]), ids[|ids| - 1];
      assert ids == ids[..|ids| - 1] + [last];
      assert Sorted(ids) ==> forall x | x in ids[..|ids| - 1] :: Less(x, last);
      if Ready(tasks, completed, last) then init + [last] else init
  }

  /** Tasks whose dependencies are all completed, in sorted order. */
  function ReadyTasks(tasks: Tasks, completed: set<string>): (ready: seq<string>)
    ensures Sorted(ready) && forall x :: x in ready <==> Ready(tasks, completed, x)
  {
    KeepReady(tasks, completed, InOrder(tasks.Keys))
  }

  /** No other sorted list has exactly the ready tasks. */
  lemma ReadyTasksAreDetermined(tasks: Tasks, completed: set<string>, listed: seq<string>)
    requires Sorted(listed) && forall x :: x in listed <==> Ready(tasks, completed, x)
    ensures listed == ReadyTasks(tasks, completed)
  {
    SortedUnique(listed, ReadyTasks(tasks, completed));
  }

  // ---------- descendants ----------

  /** The tasks that depend on `id`, directly or transitively. */
  ghost function Descendants(tasks: Tasks, id: string): set<string> {
    set t | t in tasks && Reaches(tasks, t, id)
  }

  /** Every dependent of `id` or of a found task is found, except those of tasks still to be examined. */
  ghost predicate ClosedBut(tasks: Tasks, id: string, found: set<string>, frontier: seq<string>) {
    forall x | (x == id || x in found) && x !in frontier :: DependentsIn(tasks, x, found)
  }

  predicate DependentsIn(tasks: Tasks, x: string, found: set<string>) {
    forall t | t in tasks && x in tasks[t].dependencies :: t in found
  }

  /** Worklist closure over the reversed dependencies. */
  method FindDescendants(tasks: Tasks, taskId: string) returns (found: set<string>)
    ensures found == Descendants(tasks, taskId)
  {
    hide Reaches, InOrder;
    found := {};
    var frontier := [taskId];
    while frontier != []
      invariant found <= Descendants(tasks, taskId)
      invariant forall x | x in frontier :: x == taskId || x in found
      invariant ClosedBut(tasks, taskId, found, frontier)
      decreases |tasks.Keys - found|, |frontier|
    {
      var current := frontier[|frontier| - 1];
      ghost var popped, before := frontier[..|frontier| - 1], found;
      assert current in frontier && frontier == popped + [current];
      frontier := frontier[..|frontier| - 1];
      found, frontier := AddDependents(tasks, taskId, current, found, frontier);
      assert ClosedBut(tasks, taskId, found, frontier) by {
        forall x | (x == taskId || x in found) && x !in frontier ensures DependentsIn(tasks, x, found) {
          if x != current {
            assert x == taskId || x in before;
            assert x !in popped + [current];
            assert DependentsIn(tasks, x, before);
          }
        }
      }
      if found != before {
        SmallerSet(tasks.Keys - found, tasks.Keys - before);
      }
    }
    forall t | t in tasks && Reaches(tasks, t, taskId) ensures t in found {
      ClosedHasAncestors(tasks, taskId, found, t);
    }
  }

  /** One pass over the tasks in order: dependents of `current` that are new are found and queued. */
  method AddDependents(tasks: Tasks, taskId: string, current: string, found: set<string>, frontier: seq<string>)
    returns (found': set<string>, frontier': seq<string>)
    requires found <= Descendants(tasks, taskId) && (current == taskId || current in found)
    ensures found <= found' <= Descendants(tasks, taskId)
    ensures DependentsIn(tasks, current, found')
    ensures forall x :: x in frontier' <==> x in frontier || x in found' - found
    ensures found' == found ==> frontier' == frontier
  {
    hide Reaches;
    found', frontier' := found, frontier;
    var ids, i := InOrder(tasks.Keys), 0;
    hide InOrder;
    while i < |ids|
      invariant 0 <= i <= |ids|
      invariant found <= found' <= Descendants(tasks, taskId)
      invariant forall x :: x in frontier' <==> x in frontier || x in found' - found
      invariant found' == found ==> frontier' == frontier
      invariant forall j | 0 <= j < i && current in tasks[ids[j]].dependencies :: ids[j] in found'
    {
      assert ids[i] in ids;
      if current in tasks[ids[i]].dependencies && ids[i] !in found' {
        assert DependsOn(tasks, ids[i], current);
        if current == taskId {
          ReachesDirectly(tasks, ids[i], taskId);
        } else {
          ReachesThrough(tasks, ids[i], current, taskId);
        }
        found', frontier' := found' + {ids[i]}, frontier' + [ids[i]];
      }
      i := i + 1;
    }
    forall t | t in tasks && current in tasks[t].dependencies ensures t in found' {
      assert t in ids;
    }
  }

  lemma ClosedHasAncestors(tasks: Tasks, id: string, found: set<string>, t: string)
    requires ClosedBut(tasks, id, found, []) && Reaches(tasks, t, id)
    ensures t in found
  {
    var p :| Leads(tasks, p, t, id);
    ClosedHasPaths(tasks, id, found, p);
  }

  lemma {:induction false} ClosedHasPaths(tasks: Tasks, id: string, found: set<string>, p: seq<string>)
    requires |p| >= 2 && IsPath(tasks, p) && p[|p| - 1] == id && ClosedBut(tasks, id, found, [])
    ensures p[0] in found
    decreases |p|
  {
    assert DependsOn(tasks, p[0], p[1]);
    if |p| > 2 {
      ClosedHasPaths(tasks, id, found, p[1..]);
    }
    assert DependentsIn(tasks, p[1], found);
  }

  /** Descendants of a descendant are descendants. */
  lemma DescendantsClosed(tasks: Tasks, id: string, d: string)
    requires d == id || d in Descendants(tasks, id)
    ensures Descendants(tasks, d) <= Descendants(tasks, id)
  {
    forall t | t in Descendants(tasks, d) ensures t in Descendants(tasks, id) {
      if d != id {
        ReachesTransitive(tasks, t, d, id);
      }
    }
  }
}
