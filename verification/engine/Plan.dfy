/** One sequential pass over the steps in topological order, with no workers, queue, counters
    or flags: what the whole engine is supposed to compute. */
module Plan {
  import opened Options
  import opened Rows
  import opened Ledger
  import opened System

  /** What a handler answers once it does not suspend. */
  datatype Answer =
    | Succeeds(data: Dict)
    | BranchesTo(data: Dict, liveHandles: seq<string>)
    | FailsWith(output: Dict)
    | Errors

  /** Handlers whose answer depends only on the step, its inputs and the attempt. */
  type Handlers = (nat, map<string, Dict>, nat) -> Answer

  /** `kept` lists the handles whose edges stay live; None keeps them all. */
  datatype Planned = Planned(
    status: StepStatus,
    inputs: map<string, Dict>,
    output: Option<Dict>,
    kept: Option<seq<string>>)

  predicate Keeps(p: Planned, handle: string) {
    p.kept.None? || handle in p.kept.value
  }

  /** Try attempt `a` and, while the handler errs, the following ones. */
  function Outcome(h: Handlers, i: nat, inputs: map<string, Dict>, a: nat, maxAttempts: nat): (p: Planned)
    requires a <= maxAttempts
    ensures p.inputs == inputs && (p.status.Succeeded? || p.status.Failed?)
    ensures p.status.Failed? ==> p.kept.None?
    decreases maxAttempts - a
  {
    match h(i, inputs, a)
    case Succeeds(data) => Planned(Succeeded, inputs, Some(data), None)
    case BranchesTo(data, liveHandles) => Planned(Succeeded, inputs, Some(data), Some(liveHandles))
    case FailsWith(output) => Planned(Failed, inputs, Some(output), None)
    case Errors =>
      if a < maxAttempts then Outcome(h, i, inputs, a + 1, maxAttempts)
      else Planned(Failed, inputs, None, None)
  }

  /** Edge k of the graph g carries an output to step i in the plan. */
  predicate Carries(g: Db, plan: seq<Planned>, k: nat, i: nat) {
    && k < |g.deps| && g.deps[k].to == i
    && g.deps[k].from < |plan| && plan[g.deps[k].from].status.Succeeded?
    && Keeps(plan[g.deps[k].from], g.deps[k].handle)
  }

  ghost predicate Reached(g: Db, plan: seq<Planned>, i: nat) {
    Root(g.deps, i) || exists k: nat :: Carries(g, plan, k, i)
  }

  /** The rows of g as the plan leaves them: used to read inputs off the plan. */
  ghost function PlanSteps(g: Db, plan: seq<Planned>): (steps: seq<RunStep>)
    ensures |steps| == |g.steps|
    ensures forall i :: 0 <= i < |g.steps| ==>
              steps[i] == if i < |plan|
                          then g.steps[i].(status := plan[i].status, output := plan[i].output)
                          else g.steps[i].(status := Pending)
  {
    seq(|g.steps|, i requires 0 <= i < |g.steps| =>
          if i < |plan|
          then g.steps[i].(status := plan[i].status, output := plan[i].output)
          else g.steps[i].(status := Pending))
  }

  predicate StaysLive(plan: seq<Planned>, dep: StepDep) {
    dep.from < |plan| ==> Keeps(plan[dep.from], dep.handle)
  }

  ghost function PlanDeps(g: Db, plan: seq<Planned>): (deps: seq<StepDep>)
    ensures |deps| == |g.deps|
    ensures forall k :: 0 <= k < |g.deps| ==>
              deps[k] == g.deps[k].(satisfied := true, live := StaysLive(plan, g.deps[k]))
  {
    seq(|g.deps|, k requires 0 <= k < |g.deps| =>
          g.deps[k].(satisfied := true, live := StaysLive(plan, g.deps[k])))
  }

  /** The seed overlaid with the outputs carried to step i. */
  ghost function PlanInputs(g: Db, plan: seq<Planned>, i: nat): map<string, Dict> {
    InputsOf(g.seed, PlanSteps(g, plan), PlanDeps(g, plan), i)
  }

  /** A step runs when it is a root or some edge carries an output to it, and is skipped otherwise. */
  ghost function PlanStep(g: Db, h: Handlers, plan: seq<Planned>, i: nat): Planned
    requires i < |g.steps| && g.steps[i].maxAttempts >= 1
  {
    if Reached(g, plan, i) then Outcome(h, i, PlanInputs(g, plan, i), 1, g.steps[i].maxAttempts)
    else Planned(Skipped, g.seed, None, None)
  }

  /** The sequential pass over the first n steps. */
  ghost function Pass(g: Db, h: Handlers, n: nat): (plan: seq<Planned>)
    requires Started(g) && n <= |g.steps|
    ensures |plan| == n
  {
    if n == 0 then []
    else
      assert Fresh(g.steps[n - 1], g.seed, Root(g.deps, n - 1));
      var before := Pass(g, h, n - 1);
      before + [PlanStep(g, h, before, n - 1)]
  }

  /** Every step of the plan is what the pass computes from the whole plan. */
  ghost predicate IsPlan(g: Db, h: Handlers, plan: seq<Planned>)
    requires Started(g)
  {
    && |plan| == |g.steps|
    && forall i :: 0 <= i < |plan| ==> Planlike(g, h, plan, i)
  }

  ghost predicate Planlike(g: Db, h: Handlers, plan: seq<Planned>, i: nat)
    requires Started(g) && i < |plan| <= |g.steps|
  {
    assert Fresh(g.steps[i], g.seed, Root(g.deps, i));
    plan[i] == PlanStep(g, h, plan, i)
  }

  /** Planning step i only looks at the plan of the steps before it. */
  lemma PlanStepIsLocal(g: Db, h: Handlers, plan: seq<Planned>, plan': seq<Planned>, i: nat)
    requires Started(g) && i < |g.steps| && i <= |plan| <= |g.steps| && i <= |plan'| <= |g.steps|
    requires forall j :: 0 <= j < i ==> plan[j] == plan'[j]
    requires g.steps[i].maxAttempts >= 1
    ensures PlanStep(g, h, plan, i) == PlanStep(g, h, plan', i)
  {
    forall k: nat ensures Carries(g, plan, k, i) <==> Carries(g, plan', k, i) {
      assert k < |g.deps| && g.deps[k].to == i ==> g.deps[k].from < i;
    }
    PlanInputsAreLocal(g, plan, plan', i);
  }

  lemma FeedsAreCarries(g: Db, plan: seq<Planned>, k: nat, i: nat)
    requires Wired(g.steps, g.deps) && i < |g.steps| && i <= |plan| <= |g.steps|
    ensures Feeds(PlanSteps(g, plan), PlanDeps(g, plan), k, i) <==> Carries(g, plan, k, i)
  {
  }

  lemma PlanInputsAreLocal(g: Db, plan: seq<Planned>, plan': seq<Planned>, i: nat)
    requires Wired(g.steps, g.deps) && i < |g.steps| && i <= |plan| <= |g.steps| && i <= |plan'| <= |g.steps|
    requires forall j :: 0 <= j < i ==> plan[j] == plan'[j]
    ensures PlanInputs(g, plan, i) == PlanInputs(g, plan', i)
  {
    var steps, deps := PlanSteps(g, plan), PlanDeps(g, plan);
    var steps', deps' := PlanSteps(g, plan'), PlanDeps(g, plan');
    forall k: nat
      ensures Feeds(steps', deps', k, i) <==> Feeds(steps, deps, k, i)
      ensures Feeds(steps, deps, k, i) ==> steps[deps[k].from] == steps'[deps[k].from]
    {
      FeedsAreCarries(g, plan, k, i);
      FeedsAreCarries(g, plan', k, i);
      assert k < |g.deps| && g.deps[k].to == i ==> g.deps[k].from < i;
    }
    InputsOfAlike(g.seed, steps, deps, steps', deps', i);
  }

  lemma {:induction false} PassIsPlanlike(g: Db, h: Handlers, n: nat, i: nat)
    requires Started(g) && i < n <= |g.steps|
    ensures Planlike(g, h, Pass(g, h, n), i)
    decreases n
  {
    var before, plan := Pass(g, h, n - 1), Pass(g, h, n);
    assert Fresh(g.steps[i], g.seed, Root(g.deps, i));
    if i == n - 1 {
      PlanStepIsLocal(g, h, before, plan, i);
    } else {
      PassIsPlanlike(g, h, n - 1, i);
      PlanStepIsLocal(g, h, before, plan, i);
    }
  }

  lemma PassIsPlan(g: Db, h: Handlers)
    requires Started(g)
    ensures IsPlan(g, h, Pass(g, h, |g.steps|))
  {
    forall i | 0 <= i < |g.steps| ensures Planlike(g, h, Pass(g, h, |g.steps|), i) {
      PassIsPlanlike(g, h, |g.steps|, i);
    }
  }
}
