/** `start_run`: turn a checked definition into step and edge rows and ready the roots. */
module Materialize {
  import opened Options
  import opened Rows
  import opened Ledger
  import opened Graph
  import opened System

  /** `max(1, int(cfg.get("max_attempts", 1)))`, 1 when absent or unreadable. */
  function MaxAttempts(configured: Option<int>): (m: nat)
    ensures m >= 1
  {
    match configured
    case None => 1
    case Some(n) => if n >= 1 then n else 1
  }

  function NewStep(node: Node, seed: map<string, Dict>): RunStep {
    RunStep(node.id, Pending, 1, MaxAttempts(node.maxAttempts), 0, seed, None, None, None)
  }

  /** What `validate_graph` guarantees about the nodes it returns. */
  ghost predicate Arranged(nodes: seq<Node>, edges: seq<Edge>) {
    && nodes != [] && DistinctIds(nodes)
    && (forall i, j, e :: 0 <= i < |nodes| && 0 <= j < |nodes| && e in edges ==>
          e.source == nodes[i].id && e.target == nodes[j].id ==> i < j)
  }

  lemma SortedIsArranged(nodes: seq<Node>, edges: seq<Edge>, sorted: seq<Node>)
    requires nodes != [] && Sorted(nodes, edges, sorted)
    ensures Arranged(sorted, edges)
  {
  }

  /** Row `dep` stands for edge `e`. */
  predicate Stands(nodes: seq<Node>, dep: StepDep, e: Edge) {
    && dep.from < |nodes| && dep.to < |nodes|
    && nodes[dep.from].id == e.source && nodes[dep.to].id == e.target && dep.handle == e.handle
  }

  predicate SameKey(a: StepDep, b: StepDep) {
    a.from == b.from && a.to == b.to && a.handle == b.handle
  }

  /** One row for each distinct linking edge, and no others. */
  ghost predicate Represents(nodes: seq<Node>, edges: seq<Edge>, deps: seq<StepDep>) {
    && (forall k :: 0 <= k < |deps| ==> HasEdge(nodes, edges, deps[k]) && deps[k].live && !deps[k].satisfied)
    && (forall e :: e in edges && Links(IdsOf(nodes), e) ==> HasDep(nodes, deps, e))
    && (forall k, l :: 0 <= k < l < |deps| ==> !SameKey(deps[k], deps[l]))
  }

  ghost predicate HasEdge(nodes: seq<Node>, edges: seq<Edge>, dep: StepDep) {
    exists e :: e in edges && Stands(nodes, dep, e)
  }

  ghost predicate HasDep(nodes: seq<Node>, deps: seq<StepDep>, e: Edge) {
    exists k :: 0 <= k < |deps| && Stands(nodes, deps[k], e)
  }

  ghost predicate Indexed(nodes: seq<Node>, stepOf: map<string, nat>) {
    && stepOf.Keys == IdsOf(nodes)
    && (forall x :: x in stepOf ==> stepOf[x] < |nodes| && nodes[stepOf[x]].id == x)
  }

  lemma IndexNext(nodes: seq<Node>, stepOf: map<string, nat>, p: nat)
    requires p < |nodes| && Indexed(nodes[..p], stepOf)
    ensures Indexed(nodes[..p + 1], stepOf[nodes[p].id := p])
  {
  }

  /** `scheduler.py`, lines 166-189: one pending step per node. */
  method NewSteps(nodes: seq<Node>, seed: map<string, Dict>) returns (steps: seq<RunStep>, stepOf: map<string, nat>)
    ensures |steps| == |nodes| && (forall i :: 0 <= i < |nodes| ==> steps[i] == NewStep(nodes[i], seed))
    ensures Indexed(nodes, stepOf)
  {
    steps, stepOf := [], map[];
    for p := 0 to |nodes|
      invariant |steps| == p && (forall i :: 0 <= i < p ==> steps[i] == NewStep(nodes[i], seed))
      invariant Indexed(nodes[..p], stepOf)
    {
      IndexNext(nodes, stepOf, p);
      steps := steps + [NewStep(nodes[p], seed)];
      stepOf := stepOf[nodes[p].id := p];
    }
    assert nodes[..|nodes|] == nodes;
  }

  lemma OpenAfterAppend(deps: seq<StepDep>, dep: StepDep, i: nat)
    ensures |Open(deps + [dep], i)| == |Open(deps, i)| + (if Pends(dep, i) then 1 else 0)
  {
    assert Open(deps + [dep], i) == Open(deps, i) + (if Pends(dep, i) then {|deps|} else {});
    assert |deps| !in Open(deps, i);
  }

  /** The steps built so far, up to their join counters. */
  ghost predicate Counting(nodes: seq<Node>, seed: map<string, Dict>, steps: seq<RunStep>, deps: seq<StepDep>) {
    && |steps| == |nodes|
    && (forall i :: 0 <= i < |nodes| ==> steps[i] == NewStep(nodes[i], seed).(depsRemaining := |Open(deps, i)|))
  }

  /** `node_to_step[tgt].deps_remaining += 1` */
  function Joined(steps: seq<RunStep>, to: nat): seq<RunStep>
    requires to < |steps|
  {
    steps[to := steps[to].(depsRemaining := steps[to].depsRemaining + 1)]
  }

  lemma CountAppended(nodes: seq<Node>, seed: map<string, Dict>, steps: seq<RunStep>, deps: seq<StepDep>, dep: StepDep)
    requires Counting(nodes, seed, steps, deps) && dep.to < |steps| && dep.live && !dep.satisfied
    ensures Counting(nodes, seed, Joined(steps, dep.to), deps + [dep])
  {
    forall i | 0 <= i < |nodes| ensures |Open(deps + [dep], i)| == |Open(deps, i)| + (if dep.to == i then 1 else 0) {
      OpenAfterAppend(deps, dep, i);
    }
  }

  lemma RepresentAppended(nodes: seq<Node>, edges: seq<Edge>, deps: seq<StepDep>, e: Edge, dep: StepDep)
    requires Represents(nodes, edges, deps) && Stands(nodes, dep, e) && dep.live && !dep.satisfied
    requires forall k :: 0 <= k < |deps| ==> !SameKey(deps[k], dep)
    ensures Represents(nodes, edges + [e], deps + [dep])
  {
    var deps' := deps + [dep];
    forall f | f in edges + [e] && Links(IdsOf(nodes), f) ensures HasDep(nodes, deps', f) {
      if f in edges {
        assert HasDep(nodes, deps, f);
        var k :| 0 <= k < |deps| && Stands(nodes, deps[k], f);
        assert Stands(nodes, deps'[k], f);
      } else {
        assert Stands(nodes, deps'[|deps|], f);
      }
    }
    forall k | 0 <= k < |deps'| ensures HasEdge(nodes, edges + [e], deps'[k]) {
      if k < |deps| {
        assert HasEdge(nodes, edges, deps[k]);
        var f :| f in edges && Stands(nodes, deps[k], f);
        assert f in edges + [e];
      } else {
        assert e in edges + [e];
      }
    }
  }

  /** The rows for the first p edges. */
  ghost predicate Laid(nodes: seq<Node>, edges: seq<Edge>, p: nat, seed: map<string, Dict>,
                       steps: seq<RunStep>, deps: seq<StepDep>, seen: set<(nat, nat, string)>)
    requires p <= |edges|
  {
    && Counting(nodes, seed, steps, deps)
    && Represents(nodes, edges[..p], deps)
    && (forall key: (nat, nat, string) :: key in seen <==> Keyed(deps, key))
  }

  lemma LayEdge(nodes: seq<Node>, edges: seq<Edge>, p: nat, seed: map<string, Dict>,
                steps: seq<RunStep>, deps: seq<StepDep>, seen: set<(nat, nat, string)>, dep: StepDep)
    requires p < |edges| && Laid(nodes, edges, p, seed, steps, deps, seen)
    requires Stands(nodes, dep, edges[p]) && dep.live && !dep.satisfied
    requires (dep.from, dep.to, dep.handle) !in seen
    ensures Laid(nodes, edges, p + 1, seed, Joined(steps, dep.to), deps + [dep],
                 seen + {(dep.from, dep.to, dep.handle)})
  {
    assert edges[..p + 1] == edges[..p] + [edges[p]];
    var key := (dep.from, dep.to, dep.handle);
    forall k | 0 <= k < |deps| ensures !SameKey(deps[k], dep) {
      assert Keyed(deps, key) || !SameKey(deps[k], dep);
    }
    RepresentAppended(nodes, edges[..p], deps, edges[p], dep);
    CountAppended(nodes, seed, steps, deps, dep);
    KeyedAppended(deps, dep);
  }

  lemma SkipEdge(nodes: seq<Node>, edges: seq<Edge>, p: nat, seed: map<string, Dict>,
                 steps: seq<RunStep>, deps: seq<StepDep>, seen: set<(nat, nat, string)>, dep: StepDep)
    requires p < |edges| && Laid(nodes, edges, p, seed, steps, deps, seen)
    requires Links(IdsOf(nodes), edges[p]) ==> Stands(nodes, dep, edges[p]) && (dep.from, dep.to, dep.handle) in seen
    ensures Laid(nodes, edges, p + 1, seed, steps, deps, seen)
  {
  }

  /** One turn of the loop below: an edge between two nodes gets a row unless its key was seen. */
  method NewDep(nodes: seq<Node>, edges: seq<Edge>, p: nat, ghost seed: map<string, Dict>,
                steps: seq<RunStep>, deps: seq<StepDep>, seen: set<(nat, nat, string)>, stepOf: map<string, nat>)
    returns (steps': seq<RunStep>, deps': seq<StepDep>, seen': set<(nat, nat, string)>)
    requires Indexed(nodes, stepOf) && p < |edges| && Laid(nodes, edges, p, seed, steps, deps, seen)
    ensures Laid(nodes, edges, p + 1, seed, steps', deps', seen')
  {
    steps', deps', seen' := steps, deps, seen;
    var e := edges[p];
    if e.source !in stepOf || e.target !in stepOf {
      SkipEdge(nodes, edges, p, seed, steps, deps, seen, StepDep(0, 0, "", false, true));
      return;
    }
    var dep := StepDep(stepOf[e.source], stepOf[e.target], e.handle, false, true);
    var key := (dep.from, dep.to, dep.handle);
    if key in seen {
      SkipEdge(nodes, edges, p, seed, steps, deps, seen, dep);
      return;
    }
    LayEdge(nodes, edges, p, seed, steps, deps, seen, dep);
    steps', deps', seen' := Joined(steps, dep.to), deps + [dep], seen + {key};
  }

  /** `scheduler.py`, lines 192-205: one row per distinct (from, to, handle), counting each target's joins. */
  method NewDeps(nodes: seq<Node>, edges: seq<Edge>, ghost seed: map<string, Dict>, steps0: seq<RunStep>,
                 stepOf: map<string, nat>)
    returns (steps: seq<RunStep>, deps: seq<StepDep>)
    requires Indexed(nodes, stepOf) && Counting(nodes, seed, steps0, [])
    ensures Counting(nodes, seed, steps, deps)
    ensures Represents(nodes, edges, deps)
  {
    steps, deps := steps0, [];
    var seen: set<(nat, nat, string)> := {};
    for p := 0 to |edges|
      invariant Laid(nodes, edges, p, seed, steps, deps, seen)
    {
      steps, deps, seen := NewDep(nodes, edges, p, seed, steps, deps, seen, stepOf);
    }
    assert edges[..|edges|] == edges;
  }

  ghost predicate Keyed(deps: seq<StepDep>, key: (nat, nat, string)) {
    exists k :: 0 <= k < |deps| && (deps[k].from, deps[k].to, deps[k].handle) == key
  }

  lemma KeyedAppended(deps: seq<StepDep>, dep: StepDep)
    ensures forall key: (nat, nat, string) ::
              Keyed(deps + [dep], key) <==> Keyed(deps, key) || key == (dep.from, dep.to, dep.handle)
  {
    var deps' := deps + [dep];
    assert deps'[|deps|] == dep;
    forall key: (nat, nat, string) | Keyed(deps, key) ensures Keyed(deps', key) {
      var k :| 0 <= k < |deps| && (deps[k].from, deps[k].to, deps[k].handle) == key;
      assert deps'[k] == deps[k];
    }
  }

  lemma RepresentedIsWired(nodes: seq<Node>, edges: seq<Edge>, seed: map<string, Dict>, steps: seq<RunStep>,
                           deps: seq<StepDep>)
    requires Arranged(nodes, edges) && Counting(nodes, seed, steps, deps) && Represents(nodes, edges, deps)
    ensures Wired(steps, deps) && Root(deps, 0)
  {
  }

  lemma RootIffNoJoins(deps: seq<StepDep>, i: nat)
    requires forall k :: 0 <= k < |deps| ==> deps[k].live && !deps[k].satisfied
    ensures Root(deps, i) <==> |Open(deps, i)| == 0
  {
    if |Open(deps, i)| == 0 {
      forall k | 0 <= k < |deps| ensures deps[k].to != i {
        assert k !in Open(deps, i);
      }
    } else {
      var k :| k in Open(deps, i);
    }
  }

  /** `scheduler.py`, lines 207-213. */
  method ReadyRoots(counted: seq<RunStep>) returns (steps: seq<RunStep>, ready: seq<nat>)
    ensures |steps| == |counted|
    ensures forall i :: 0 <= i < |counted| ==>
              steps[i] == if counted[i].depsRemaining == 0 then counted[i].(status := Ready) else counted[i]
    ensures forall i: nat :: i in ready <==> i < |counted| && counted[i].depsRemaining == 0
  {
    steps, ready := counted, [];
    for p := 0 to |counted|
      invariant |steps| == |counted|
      invariant forall i :: 0 <= i < |counted| ==>
                  steps[i] == if i < p && counted[i].depsRemaining == 0
                              then counted[i].(status := Ready) else counted[i]
      invariant forall i: nat :: i in ready <==> i < p && counted[i].depsRemaining == 0
    {
      if steps[p].depsRemaining == 0 {
        steps := steps[p := steps[p].(status := Ready)];
        ready := ready + [p];
      }
    }
  }

  lemma RootsAreFresh(nodes: seq<Node>, edges: seq<Edge>, seed: map<string, Dict>, counted: seq<RunStep>,
                      deps: seq<StepDep>,
                      steps: seq<RunStep>, run: WorkflowRun)
    requires Arranged(nodes, edges) && Counting(nodes, seed, counted, deps) && Represents(nodes, edges, deps)
    requires |steps| == |counted|
    requires forall i :: 0 <= i < |counted| ==>
               steps[i] == if counted[i].depsRemaining == 0 then counted[i].(status := Ready) else counted[i]
    requires run.status.RunRunning? && run.result.None?
    ensures Started(Db(run, steps, deps, [], seed))
    ensures counted[0].depsRemaining == 0
  {
    forall i | 0 <= i < |nodes| ensures Fresh(steps[i], seed, Root(deps, i)) {
      RootIffNoJoins(deps, i);
    }
    RepresentedIsWired(nodes, edges, seed, counted, deps);
    assert Wired(steps, deps) && Counted(steps, deps);
    RootIffNoJoins(deps, 0);
  }

  /** The row that `start_run` leaves for a node: its configured number of attempts if that is at
      least one, else one; ready exactly without an incoming edge; the seed as inputs. */
  ghost predicate Begins(node: Node, i: nat, deps: seq<StepDep>, seed: map<string, Dict>, step: RunStep) {
    && step.nodeId == node.id
    && step.status == (if forall k :: 0 <= k < |deps| ==> deps[k].to != i then Ready else Pending)
    && step.attempt == 1
    && (if node.maxAttempts.Some? && node.maxAttempts.value >= 1 then step.maxAttempts == node.maxAttempts.value
        else step.maxAttempts == 1)
    && step.depsRemaining == |set k: nat | k < |deps| && deps[k].to == i|
    && step.inputs == seed
    && step.output == None && step.lease == None && step.completedAt == None
  }

  ghost predicate AllBegin(nodes: seq<Node>, deps: seq<StepDep>, seed: map<string, Dict>, steps: seq<RunStep>) {
    |steps| == |nodes| && forall i :: 0 <= i < |nodes| ==> Begins(nodes[i], i, deps, seed, steps[i])
  }

  lemma RowsBegin(nodes: seq<Node>, edges: seq<Edge>, seed: map<string, Dict>, counted: seq<RunStep>,
                  deps: seq<StepDep>, steps: seq<RunStep>)
    requires Counting(nodes, seed, counted, deps) && Represents(nodes, edges, deps) && |steps| == |counted|
    requires forall i :: 0 <= i < |counted| ==>
               steps[i] == if counted[i].depsRemaining == 0 then counted[i].(status := Ready) else counted[i]
    ensures AllBegin(nodes, deps, seed, steps)
  {
    forall i | 0 <= i < |nodes| ensures Begins(nodes[i], i, deps, seed, steps[i]) {
      StepBegins(nodes[i], i, deps, seed, counted[i], steps[i]);
    }
  }

  lemma StepBegins(node: Node, i: nat, deps: seq<StepDep>, seed: map<string, Dict>, counted: RunStep, step: RunStep)
    requires forall k :: 0 <= k < |deps| ==> deps[k].live && !deps[k].satisfied
    requires counted == NewStep(node, seed).(depsRemaining := |Open(deps, i)|)
    requires step == if counted.depsRemaining == 0 then counted.(status := Ready) else counted
    ensures Begins(node, i, deps, seed, step)
  {
    RootIffNoJoins(deps, i);
    assert Open(deps, i) == set k: nat | k < |deps| && deps[k].to == i;
  }

  /** `scheduler.py`, lines 166-215. The first node in topological order is a root, so some step is ready and
      the run is running. */
  method BuildRun(nodes: seq<Node>, edges: seq<Edge>, seed: map<string, Dict>, run: WorkflowRun)
    returns (db: Db, ready: seq<nat>)
    requires Arranged(nodes, edges) && run.result.None?
    ensures Started(db) && db.seed == seed && db.run == run.(status := RunRunning)
    ensures AllBegin(nodes, db.deps, seed, db.steps)
    ensures Represents(nodes, edges, db.deps)
    ensures forall i: nat :: i in ready <==> i < |db.steps| && db.steps[i].status.Ready?
    ensures 0 in ready
  {
    var steps, stepOf := NewSteps(nodes, seed);
    assert forall i :: 0 <= i < |nodes| ==> Open([], i) == {};
    var counted, deps := NewDeps(nodes, edges, seed, steps, stepOf);
    steps, ready := ReadyRoots(counted);
    var status := if ready != [] then RunRunning else RunPending;
    RowsBegin(nodes, edges, seed, counted, deps, steps);
    RootsAreFresh(nodes, edges, seed, counted, deps, steps, run.(status := RunRunning));
    db := Db(run.(status := status), steps, deps, [], seed);
  }
}
