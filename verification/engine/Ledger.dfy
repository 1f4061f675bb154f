/** What the engine's rows promise each other: the shape of the graph, the join
    counters, the delivered inputs, the edge flags and the suspend events. */
module Ledger {
  import opened Rows

  // ── shape ────────────────────────────────────────────────────────────────

  /** Edges run forward between existing steps, and node ids are distinct. */
  ghost predicate Wired(steps: seq<RunStep>, deps: seq<StepDep>) {
    && (forall k :: 0 <= k < |deps| ==> deps[k].from < deps[k].to < |steps|)
    && (forall i, j :: 0 <= i < j < |steps| ==> steps[i].nodeId != steps[j].nodeId)
  }

  ghost predicate Root(deps: seq<StepDep>, i: nat) {
    forall k :: 0 <= k < |deps| ==> deps[k].to != i
  }

  lemma SameTargets(deps: seq<StepDep>, deps': seq<StepDep>, i: nat)
    requires |deps'| == |deps|
    requires forall k :: 0 <= k < |deps| ==> deps'[k].to == deps[k].to
    ensures Root(deps', i) <==> Root(deps, i)
  {
  }

  // ── join counter ─────────────────────────────────────────────────────────

  predicate Pends(dep: StepDep, i: nat) {
    dep.to == i && dep.live && !dep.satisfied
  }

  /** The incoming edges of step i that are live and not yet satisfied. */
  ghost function Open(deps: seq<StepDep>, i: nat): set<nat> {
    set k: nat | k < |deps| && Pends(deps[k], i)
  }

  ghost predicate Counted(steps: seq<RunStep>, deps: seq<StepDep>) {
    forall i :: 0 <= i < |steps| ==> steps[i].depsRemaining == |Open(deps, i)|
  }

  /** `max(0, n - 1)` */
  function LessOne(n: nat): nat {
    if n > 0 then n - 1 else 0
  }

  /** Closing one edge of the join shrinks the counter of its target by one. */
  lemma OpenAfterClosing(deps: seq<StepDep>, k: nat, dep: StepDep, i: nat)
    requires k < |deps|
    requires dep.to == deps[k].to && !Pends(dep, dep.to)
    ensures Open(deps[k := dep], i) == Open(deps, i) - (if deps[k].to == i then {k} else {})
    ensures Pends(deps[k], i) ==> |Open(deps[k := dep], i)| == |Open(deps, i)| - 1
    ensures !Pends(deps[k], i) ==> Open(deps[k := dep], i) == Open(deps, i)
  {
  }

  // ── delivered inputs ─────────────────────────────────────────────────────

  /** Edge k has delivered its parent's output to step i. */
  predicate Feeds(steps: seq<RunStep>, deps: seq<StepDep>, k: nat, i: nat) {
    && k < |deps|
    && deps[k].to == i && deps[k].live && deps[k].satisfied
    && deps[k].from < |steps| && steps[deps[k].from].status.Succeeded?
  }

  ghost predicate Fed(steps: seq<RunStep>, deps: seq<StepDep>, i: nat) {
    exists k: nat :: Feeds(steps, deps, k, i)
  }

  /** `inputs` is the seed overlaid with the output of exactly the parents that feed step i. */
  ghost predicate Delivers(seed: map<string, Dict>, steps: seq<RunStep>, deps: seq<StepDep>, i: nat,
                           inputs: map<string, Dict>)
  {
    && (forall k: nat :: Feeds(steps, deps, k, i) ==>
          steps[deps[k].from].nodeId in inputs && inputs[steps[deps[k].from].nodeId] == OutputOf(steps[deps[k].from]))
    && (forall x :: x in inputs ==> (x in seed && inputs[x] == seed[x]) || NamedFeed(steps, deps, i, x))
    && (forall x :: x in seed ==> x in inputs)
  }

  ghost predicate NamedFeed(steps: seq<RunStep>, deps: seq<StepDep>, i: nat, x: string) {
    exists k: nat :: Feeds(steps, deps, k, i) && steps[deps[k].from].nodeId == x
  }

  lemma DeliversIsUnique(seed: map<string, Dict>, steps: seq<RunStep>, deps: seq<StepDep>, i: nat,
                         a: map<string, Dict>, b: map<string, Dict>)
    requires Delivers(seed, steps, deps, i, a) && Delivers(seed, steps, deps, i, b)
    ensures a == b
  {
  }

  /** Two sets of rows whose edges feed step i alike deliver the same inputs to it. */
  lemma DeliversAlike(seed: map<string, Dict>, steps: seq<RunStep>, deps: seq<StepDep>,
                      steps': seq<RunStep>, deps': seq<StepDep>, i: nat, inputs: map<string, Dict>)
    requires |steps'| == |steps| && |deps'| == |deps|
    requires Delivers(seed, steps, deps, i, inputs)
    requires forall k: nat :: Feeds(steps', deps', k, i) <==> Feeds(steps, deps, k, i)
    requires forall k: nat :: Feeds(steps, deps, k, i) ==>
               && deps'[k].from == deps[k].from
               && steps'[deps[k].from].nodeId == steps[deps[k].from].nodeId
               && OutputOf(steps'[deps[k].from]) == OutputOf(steps[deps[k].from])
    ensures Delivers(seed, steps', deps', i, inputs)
  {
  }

  ghost function FeedNames(steps: seq<RunStep>, deps: seq<StepDep>, i: nat): set<string> {
    set k: nat | k < |deps| && Feeds(steps, deps, k, i) :: steps[deps[k].from].nodeId
  }

  ghost function InputAt(seed: map<string, Dict>, steps: seq<RunStep>, deps: seq<StepDep>, i: nat, x: string): (d: Dict)
    requires x in seed.Keys + FeedNames(steps, deps, i)
    ensures x !in FeedNames(steps, deps, i) ==> d == seed[x]
    ensures x in FeedNames(steps, deps, i) ==>
              exists k: nat ::
                Feeds(steps, deps, k, i) && steps[deps[k].from].nodeId == x && OutputOf(steps[deps[k].from]) == d
  {
    if x in FeedNames(steps, deps, i) then
      var k: nat :| Feeds(steps, deps, k, i) && steps[deps[k].from].nodeId == x;
      OutputOf(steps[deps[k].from])
    else
      seed[x]
  }

  ghost function InputsOf(seed: map<string, Dict>, steps: seq<RunStep>, deps: seq<StepDep>, i: nat): map<string, Dict> {
    map x | x in seed.Keys + FeedNames(steps, deps, i) :: InputAt(seed, steps, deps, i, x)
  }

  lemma InputsOfDelivers(seed: map<string, Dict>, steps: seq<RunStep>, deps: seq<StepDep>, i: nat)
    requires Wired(steps, deps)
    ensures Delivers(seed, steps, deps, i, InputsOf(seed, steps, deps, i))
  {
    var inputs := InputsOf(seed, steps, deps, i);
    forall k: nat | Feeds(steps, deps, k, i)
      ensures steps[deps[k].from].nodeId in inputs
      ensures inputs[steps[deps[k].from].nodeId] == OutputOf(steps[deps[k].from])
    {
      var x := steps[deps[k].from].nodeId;
      assert x in FeedNames(steps, deps, i);
      var k': nat :| Feeds(steps, deps, k', i) && steps[deps[k'].from].nodeId == x
                     && OutputOf(steps[deps[k'].from]) == InputAt(seed, steps, deps, i, x);
      assert deps[k'].from == deps[k].from;
    }
  }

  /** Rows whose edges feed step i alike give it the same inputs. */
  lemma InputsOfAlike(seed: map<string, Dict>, steps: seq<RunStep>, deps: seq<StepDep>,
                      steps': seq<RunStep>, deps': seq<StepDep>, i: nat)
    requires |steps'| == |steps| && |deps'| == |deps| && Wired(steps, deps) && Wired(steps', deps')
    requires forall k: nat :: Feeds(steps', deps', k, i) <==> Feeds(steps, deps, k, i)
    requires forall k: nat :: Feeds(steps, deps, k, i) ==>
               && deps'[k].from == deps[k].from
               && steps'[deps[k].from].nodeId == steps[deps[k].from].nodeId
               && OutputOf(steps'[deps[k].from]) == OutputOf(steps[deps[k].from])
    ensures InputsOf(seed, steps, deps, i) == InputsOf(seed, steps', deps', i)
  {
    var a, b := InputsOf(seed, steps, deps, i), InputsOf(seed, steps', deps', i);
    InputsOfDelivers(seed, steps, deps, i);
    InputsOfDelivers(seed, steps', deps', i);
    DeliversAlike(seed, steps, deps, steps', deps', i, a);
    DeliversIsUnique(seed, steps', deps', i, a, b);
  }

  ghost predicate AllDelivered(seed: map<string, Dict>, steps: seq<RunStep>, deps: seq<StepDep>) {
    forall i :: 0 <= i < |steps| ==> Delivers(seed, steps, deps, i, steps[i].inputs)
  }

  // ── edge flags and step history ──────────────────────────────────────────

  /** An edge is satisfied only once its parent is terminal, and pruned only by a succeeded parent. */
  ghost predicate Flagged(steps: seq<RunStep>, deps: seq<StepDep>) {
    forall k :: 0 <= k < |deps| && deps[k].from < |steps| ==>
      && (deps[k].satisfied ==> Terminal(steps[deps[k].from].status))
      && (!deps[k].live ==> steps[deps[k].from].status.Succeeded?)
  }

  /** Every live incoming edge of step i comes from a parent that will never deliver. */
  ghost predicate CutOff(steps: seq<RunStep>, deps: seq<StepDep>, i: nat) {
    forall k :: 0 <= k < |deps| && deps[k].to == i && deps[k].live && deps[k].from < |steps| ==>
      DeadEnd(steps[deps[k].from].status)
  }

  ghost predicate History(steps: seq<RunStep>, deps: seq<StepDep>, i: nat)
    requires i < |steps|
  {
    match steps[i].status
    case Pending => !Root(deps, i)
    case Skipped => !Root(deps, i) && CutOff(steps, deps, i)
    case Cancelled => false
    case _ => Open(deps, i) == {} && (Root(deps, i) || Fed(steps, deps, i))
  }

  ghost predicate Histories(steps: seq<RunStep>, deps: seq<StepDep>) {
    forall i :: 0 <= i < |steps| ==> History(steps, deps, i)
  }
}
