/** The validator of collaboration task graphs: unique ids, existing dependencies and
    a depth-first search for cycles. */
module TaskGraph {
  import opened Prelude

  datatype Task = Task(id: Option<string>, dependsOn: seq<string>)

  datatype GraphError =
    | DuplicateTask(id: string)
    | SelfDependency(id: string)
    | MissingDependency(id: string, dependency: string)
    | DependencyCycle(id: string)

  type Graph = map<string, Task>

  /** A task without an id answers to the empty name. */
  function Name(task: Task): string {
    if task.id.Some? then task.id.value else ""
  }

  /** The tasks that can be depended on; a task without an id is not one of them. */
  function ById(tasks: seq<Task>): (graph: Graph)
    ensures forall id :: id in graph <==> exists i :: 0 <= i < |tasks| && tasks[i].id == Some(id)
    ensures forall id :: id in graph ==> graph[id] in tasks && graph[id].id == Some(id)
  {
    if tasks == [] then map[]
    else if Last(tasks).id.None? then ById(Init(tasks))
    else ById(Init(tasks))[Last(tasks).id.value := Last(tasks)]
  }

  ghost predicate UniqueNames(tasks: seq<Task>) {
    forall i, j :: 0 <= i < j < |tasks| ==> Name(tasks[i]) != Name(tasks[j])
  }

  predicate GoodDependency(tasks: seq<Task>, task: Task, dependency: string) {
    dependency != Name(task) && dependency in ById(tasks)
  }

  ghost predicate GoodDependencies(tasks: seq<Task>, task: Task, count: nat)
    requires count <= |task.dependsOn|
  {
    forall j :: 0 <= j < count ==> GoodDependency(tasks, task, task.dependsOn[j])
  }

  ghost predicate GoodTasks(tasks: seq<Task>, count: nat)
    requires count <= |tasks|
  {
    forall i :: 0 <= i < count ==> GoodDependencies(tasks, tasks[i], |tasks[i].dependsOn|)
  }

  // ----- edges, cycles and orders ---------------------------------------------------------

  ghost predicate Edge(graph: Graph, from: string, to: string) {
    from in graph && to in graph[from].dependsOn
  }

  ghost predicate Path(graph: Graph, nodes: seq<string>) {
    forall i :: 0 <= i < |nodes| - 1 ==> Edge(graph, nodes[i], nodes[i + 1])
  }

  ghost predicate Cycle(graph: Graph, nodes: seq<string>) {
    |nodes| >= 2 && Path(graph, nodes) && nodes[0] == Last(nodes)
  }

  ghost predicate Acyclic(graph: Graph) {
    forall nodes :: !Cycle(graph, nodes)
  }

  /** Every task comes after the tasks it depends on. */
  ghost predicate Topological(graph: Graph, order: seq<string>) {
    forall i, d :: 0 <= i < |order| && Edge(graph, order[i], d) ==> d in order[..i]
  }

  ghost predicate Valid(tasks: seq<Task>) {
    UniqueNames(tasks) && GoodTasks(tasks, |tasks|) && Acyclic(ById(tasks))
  }

  /** A cycle can be unrolled past any position of an order, so an order excludes cycles. */
  lemma {:induction false} OrderBoundsPaths(graph: Graph, order: seq<string>, nodes: seq<string>, k: nat)
    requires Topological(graph, order) && Path(graph, nodes) && 0 < |nodes|
    requires k <= |order| && nodes[0] in order[..k]
    ensures Last(nodes) in order[..k] && (|nodes| > 1 ==> exists m :: 0 <= m < k && Last(nodes) in order[..m])
    decreases |nodes|
  {
    if |nodes| > 1 {
      var i :| 0 <= i < k && order[i] == nodes[0];
      assert Edge(graph, nodes[0], nodes[1]);
      var rest := nodes[1..];
      forall j | 0 <= j < |rest| - 1 ensures Edge(graph, rest[j], rest[j + 1]) {
        assert Edge(graph, nodes[j + 1], nodes[j + 2]);
      }
      OrderBoundsPaths(graph, order, rest, i);
    }
  }

  lemma {:induction false} NoCycleFrom(graph: Graph, order: seq<string>, nodes: seq<string>, k: nat)
    requires Topological(graph, order) && Cycle(graph, nodes) && k <= |order|
    ensures nodes[0] !in order[..k]
    decreases k
  {
    if nodes[0] in order[..k] {
      OrderBoundsPaths(graph, order, nodes, k);
      var m :| 0 <= m < k && Last(nodes) in order[..m];
      NoCycleFrom(graph, order, nodes, m);
    }
  }

  /** A topological order of all tasks rules out every cycle. */
  lemma OrderMeansAcyclic(graph: Graph, order: seq<string>)
    requires Topological(graph, order) && graph.Keys <= Elements(order)
    ensures Acyclic(graph)
  {
    assert order[..|order|] == order;
    forall nodes ensures !Cycle(graph, nodes) {
      if Cycle(graph, nodes) {
        assert Edge(graph, nodes[0], nodes[1]);
        NoCycleFrom(graph, order, nodes, |order|);
      }
    }
  }

  // ----- the validator ----------------------------------------------------------------------

  /** Depth-first search below one id. `stack` lists the ids being visited, outermost
      first, and `order` the finished ones in the order they were finished. */
  method Visit(id: string, graph: Graph, visiting0: set<string>, visited0: set<string>,
               ghost universe: set<string>, ghost stack: seq<string>, ghost order0: seq<string>)
    returns (visiting: set<string>, visited: set<string>, error: Option<string>,
             ghost order: seq<string>, ghost cycle: seq<string>)
    requires id in universe && forall a, d :: Edge(graph, a, d) ==> d in universe
    requires visiting0 == Elements(stack) && Path(graph, stack + [id])
    requires visited0 == Elements(order0) && Topological(graph, order0)
    ensures error.None? ==> visiting == visiting0 && visited0 + {id} <= visited
    ensures error.None? ==> visited == Elements(order) && Topological(graph, order)
    ensures error.Some? ==> Cycle(graph, cycle) && error.value in cycle
    decreases universe - visiting0
  {
    visiting, visited, order, cycle := visiting0, visited0, order0, [];
    if id in visited { return visiting, visited, None, order, cycle; }
    if id in visiting {
      ghost var k :| 0 <= k < |stack| && stack[k] == id;
      cycle := (stack + [id])[k..];
      forall i | 0 <= i < |cycle| - 1 ensures Edge(graph, cycle[i], cycle[i + 1]) {
        assert Edge(graph, (stack + [id])[k + i], (stack + [id])[k + i + 1]);
      }
      return visiting, visited, Some(id), order, cycle;
    }
    visiting := visiting + {id};
    ghost var below := stack + [id];
    assert Elements(below) == visiting;
    if id in graph {
      var dependencies := graph[id].dependsOn;
      for i := 0 to |dependencies|
        invariant visiting == visiting0 + {id} && visited0 <= visited
        invariant visited == Elements(order) && Topological(graph, order)
        invariant forall j :: 0 <= j < i ==> dependencies[j] in visited
      {
        assert Edge(graph, id, dependencies[i]);
        assert Path(graph, below + [dependencies[i]]);
        visiting, visited, error, order, cycle :=
          Visit(dependencies[i], graph, visiting, visited, universe, below, order);
        if error.Some? { return; }
      }
    }
    visiting := visiting - {id};
    visited := visited + {id};
    Finish(graph, order, id);
    order := order + [id];
    error := None;
  }

  lemma Finish(graph: Graph, order: seq<string>, id: string)
    requires Topological(graph, order)
    requires forall d :: Edge(graph, id, d) ==> d in order
    ensures Topological(graph, order + [id]) && Elements(order + [id]) == Elements(order) + {id}
  {
    var longer := order + [id];
    forall i, d | 0 <= i < |longer| && Edge(graph, longer[i], d) ensures d in longer[..i] {
      assert i < |order| ==> longer[..i] == order[..i] && Edge(graph, order[i], d);
      assert i == |order| ==> longer[..i] == order;
    }
  }

  method CheckNames(tasks: seq<Task>) returns (ids: set<string>, error: Option<GraphError>)
    ensures error.None? <==> UniqueNames(tasks)
    ensures error.None? ==> ids == set i | 0 <= i < |tasks| :: Name(tasks[i])
    ensures error.Some? ==>
              error.value.DuplicateTask? && exists i, j ::
                0 <= i < j < |tasks| && Name(tasks[i]) == Name(tasks[j]) == error.value.id && UniqueNames(tasks[..j])
  {
    ids := {};
    for j := 0 to |tasks|
      invariant UniqueNames(tasks[..j])
      invariant ids == set i | 0 <= i < j :: Name(tasks[i])
    {
      var id := Name(tasks[j]);
      if id in ids {
        return ids, Some(DuplicateTask(id));
      }
      ids := ids + {id};
    }
    return ids, None;
  }

  /** The first fault, in the order of the tasks and of their dependency lists. */
  method CheckDependencies(tasks: seq<Task>) returns (error: Option<GraphError>)
    ensures error.None? <==> GoodTasks(tasks, |tasks|)
    ensures error.Some? ==> exists i, j :: FirstFault(tasks, i, j, error.value)
  {
    var graph := ById(tasks);
    for i := 0 to |tasks|
      invariant GoodTasks(tasks, i)
    {
      var task := tasks[i];
      for j := 0 to |task.dependsOn|
        invariant GoodDependencies(tasks, task, j)
      {
        var dependency := task.dependsOn[j];
        if dependency == Name(task) {
          assert FirstFault(tasks, i, j, SelfDependency(Name(task)));
          return Some(SelfDependency(Name(task)));
        }
        if dependency !in graph {
          assert FirstFault(tasks, i, j, MissingDependency(Name(task), dependency));
          return Some(MissingDependency(Name(task), dependency));
        }
      }
    }
    return None;
  }

  ghost predicate FirstFault(tasks: seq<Task>, i: int, j: int, error: GraphError) {
    && 0 <= i < |tasks| && 0 <= j < |tasks[i].dependsOn|
    && GoodTasks(tasks, i) && GoodDependencies(tasks, tasks[i], j)
    && !GoodDependency(tasks, tasks[i], tasks[i].dependsOn[j])
    && error == (if tasks[i].dependsOn[j] == Name(tasks[i]) then SelfDependency(Name(tasks[i]))
                 else MissingDependency(Name(tasks[i]), tasks[i].dependsOn[j]))
  }

  /** Accepts exactly the valid task lists, whatever order the set of ids is walked in. */
  method ValidateTaskGraph(tasks: seq<Task>) returns (error: Option<GraphError>, ghost order: seq<string>)
    ensures error.None? <==> Valid(tasks)
    ensures error.None? ==> Topological(ById(tasks), order) && forall t :: t in tasks ==> Name(t) in order
    ensures !UniqueNames(tasks) <==> error.Some? && error.value.DuplicateTask?
    ensures error.Some? && (error.value.SelfDependency? || error.value.MissingDependency?) ==>
              exists i, j :: FirstFault(tasks, i, j, error.value)
    ensures error.Some? && error.value.DependencyCycle? ==>
              exists cycle :: Cycle(ById(tasks), cycle) && error.value.id in cycle
  {
    order := [];
    var ids: set<string>;
    ids, error := CheckNames(tasks);
    if error.Some? { return; }
    error := CheckDependencies(tasks);
    if error.Some? { return; }
    var graph := ById(tasks);
    NamesCoverGraph(tasks, ids);
    var visiting: set<string>, visited: set<string>, rest := {}, {}, ids;
    while rest != {}
      invariant visiting == {} && visited == Elements(order) && Topological(graph, order)
      invariant rest <= ids && ids - rest <= visited
      decreases rest
    {
      var id :| id in rest;
      var found: Option<string>;
      ghost var cycle: seq<string>;
      visiting, visited, found, order, cycle := Visit(id, graph, visiting, visited, ids, [], order);
      if found.Some? {
        assert Cycle(graph, cycle) && found.value in cycle;
        return Some(DependencyCycle(found.value)), order;
      }
      rest := rest - {id};
    }
    OrderMeansAcyclic(graph, order);
    forall t | t in tasks ensures Name(t) in order {
      assert Name(t) in ids - rest;
      assert Name(t) in Elements(order);
    }
    return None, order;
  }

  lemma NamesCoverGraph(tasks: seq<Task>, ids: set<string>)
    requires ids == (set i | 0 <= i < |tasks| :: Name(tasks[i])) && GoodTasks(tasks, |tasks|)
    ensures ById(tasks).Keys <= ids
    ensures forall a, d :: Edge(ById(tasks), a, d) ==> d in ids
  {
    var graph := ById(tasks);
    forall id | id in graph ensures id in ids {
      var i :| 0 <= i < |tasks| && tasks[i].id == Some(id);
      assert Name(tasks[i]) == id;
    }
    forall a, d | Edge(graph, a, d) ensures d in ids {
      var i :| 0 <= i < |tasks| && tasks[i] == graph[a];
      assert GoodDependencies(tasks, tasks[i], |tasks[i].dependsOn|);
    }
  }
}
