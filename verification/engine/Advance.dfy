/** `advance_run`: the settled rows with the eligible steps readied and the run completed
    when nothing is left, as a function of the rows and as the guarded loop that computes it. */
module Advance {
  import opened Options
  import opened Rows
  import opened Ledger
  import opened Fixpoint
  import opened RunResult

  ghost predicate Cleared(steps: seq<RunStep>, deps: seq<StepDep>, i: nat) {
    Open(deps, i) == {} && (Root(deps, i) || Fed(steps, deps, i))
  }

  ghost predicate Promotable(steps: seq<RunStep>, deps: seq<StepDep>, i: nat)
    requires i < |steps|
  {
    steps[i].status.Pending? && Cleared(steps, deps, i)
  }

  ghost function ReadiedSteps(steps: seq<RunStep>, deps: seq<StepDep>): (readied: seq<RunStep>)
    ensures |readied| == |steps|
    ensures forall i :: 0 <= i < |steps| ==>
              readied[i] == if Promotable(steps, deps, i) then steps[i].(status := Ready) else steps[i]
  {
    seq(|steps|, i requires 0 <= i < |steps| =>
          if Promotable(steps, deps, i) then steps[i].(status := Ready) else steps[i])
  }

  predicate AnyActive(steps: seq<RunStep>) {
    exists i | 0 <= i < |steps| :: Active(steps[i].status)
  }

  predicate AnyWaiting(steps: seq<RunStep>) {
    exists i | 0 <= i < |steps| :: steps[i].status.Waiting?
  }

  predicate AnyFailed(steps: seq<RunStep>) {
    exists i | 0 <= i < |steps| :: steps[i].status.Failed?
  }

  /** The completion rule; `result` is the result of a completed run. */
  function Completion(run: WorkflowRun, steps: seq<RunStep>, result: Option<Dict>, now: nat): WorkflowRun {
    if AnyActive(steps) then
      if run.status.RunPending? || run.status.RunWaiting? then run.(status := RunRunning) else run
    else if AnyWaiting(steps) then
      run.(status := RunWaiting)
    else if AnyFailed(steps) && run.failRun then
      run.(status := RunFailed, completedAt := Some(now))
    else
      run.(status := RunCompleted, result := result, completedAt := Some(now))
  }

  /** The rows after `advance_run`; `order` only matters for ties in the run's result. */
  ghost function AdvanceRun(db: Db, order: seq<nat>, now: nat): Db
    requires Wired(db.steps, db.deps) && Everything(order, |db.steps|)
  {
    if Over(db.run.status) then db
    else
      var deps := SettledDeps(db.steps, db.deps);
      var steps := ReadiedSteps(SettledSteps(db.seed, db.steps, db.deps, now), deps);
      db.(run := Completion(db.run, steps, PickResult(order, steps, deps), now), steps := steps, deps := deps)
  }

  // ── the loop ─────────────────────────────────────────────────────────────

  ghost function Unsatisfied(deps: seq<StepDep>): set<nat> {
    set k: nat | k < |deps| && !deps[k].satisfied
  }

  ghost function Undecided(steps: seq<RunStep>): set<nat> {
    set i: nat | i < |steps| && steps[i].status.Pending?
  }

  /** How many changes the loop can still make. */
  ghost function Left(steps: seq<RunStep>, deps: seq<StepDep>): nat {
    |Unsatisfied(deps)| + |Undecided(steps)|
  }

  lemma {:induction false} SubsetOfRange(s: set<nat>, n: nat)
    requires forall x :: x in s ==> x < n
    ensures |s| <= n
  {
    if n == 0 {
      assert s == {};
    } else {
      SubsetOfRange(s - {n - 1}, n - 1);
      if n - 1 in s { assert |s - {n - 1}| == |s| - 1; } else { assert s - {n - 1} == s; }
    }
  }

  lemma LeftIsBounded(steps: seq<RunStep>, deps: seq<StepDep>)
    ensures Left(steps, deps) <= |steps| + |deps|
  {
    SubsetOfRange(Unsatisfied(deps), |deps|);
    SubsetOfRange(Undecided(steps), |steps|);
  }

  lemma SatisfyLessens(steps: seq<RunStep>, deps: seq<StepDep>, k: nat)
    requires k < |deps| && !deps[k].satisfied && deps[k].from < |steps| && deps[k].to < |steps|
    ensures Left(steps[deps[k].to := SatisfyEdge(steps, deps[k])], deps[k := deps[k].(satisfied := true)])
            == Left(steps, deps) - 1
  {
    var steps' := steps[deps[k].to := SatisfyEdge(steps, deps[k])];
    assert Unsatisfied(deps[k := deps[k].(satisfied := true)]) == Unsatisfied(deps) - {k};
    assert Undecided(steps') == Undecided(steps);
  }

  lemma SkipLessens(steps: seq<RunStep>, deps: seq<StepDep>, i: nat, now: nat)
    requires i < |steps| && steps[i].status.Pending?
    ensures Left(steps[i := Skip(steps[i], now)], deps) == Left(steps, deps) - 1
  {
    assert Undecided(steps[i := Skip(steps[i], now)]) == Undecided(steps) - {i};
  }

  /** `scheduler.py`, lines 456-472: satisfy each unsatisfied edge whose parent is terminal. */
  method SatisfyPass(ghost seed: map<string, Dict>, ghost steps0: seq<RunStep>, ghost deps0: seq<StepDep>,
                     ghost now: nat, steps: seq<RunStep>, deps: seq<StepDep>, depOrder: seq<nat>)
    returns (steps': seq<RunStep>, deps': seq<StepDep>, changed: bool)
    requires Wired(steps0, deps0) && Between(seed, steps0, deps0, now, steps, deps)
    requires Everything(depOrder, |deps|)
    ensures Between(seed, steps0, deps0, now, steps', deps')
    ensures changed ==> Left(steps', deps') < Left(steps, deps)
    ensures !changed ==> steps' == steps && deps' == deps
    ensures !changed ==> forall k :: 0 <= k < |deps| && Terminal(steps[deps[k].from].status) ==> deps[k].satisfied
  {
    steps', deps', changed := steps, deps, false;
    for p := 0 to |depOrder|
      invariant Between(seed, steps0, deps0, now, steps', deps')
      invariant changed ==> Left(steps', deps') < Left(steps, deps)
      invariant !changed ==> steps' == steps && deps' == deps
      invariant !changed ==> forall q :: 0 <= q < p && Terminal(steps[deps[depOrder[q]].from].status) ==>
                                 deps[depOrder[q]].satisfied
    {
      var k := depOrder[p];
      var dep := deps'[k];
      if !dep.satisfied && Terminal(steps'[dep.from].status) {
        SatisfyKeepsBetween(seed, steps0, deps0, now, steps', deps', k);
        SatisfyLessens(steps', deps', k);
        steps', deps' := steps'[dep.to := SatisfyEdge(steps', dep)], deps'[k := dep.(satisfied := true)];
        changed := true;
      }
    }
    forall k | 0 <= k < |deps| && Terminal(steps[deps[k].from].status) && !changed ensures deps[k].satisfied {
      assert k in depOrder;
      var q :| 0 <= q < |depOrder| && depOrder[q] == k;
    }
  }

  /** `scheduler.py`, lines 476-489: skip each pending step that can never receive an input. */
  method SkipPass(ghost seed: map<string, Dict>, ghost steps0: seq<RunStep>, ghost deps0: seq<StepDep>, now: nat,
                  steps: seq<RunStep>, deps: seq<StepDep>, stepOrder: seq<nat>)
    returns (steps': seq<RunStep>, changed: bool)
    requires Wired(steps0, deps0) && Between(seed, steps0, deps0, now, steps, deps)
    requires Everything(stepOrder, |steps|)
    ensures Between(seed, steps0, deps0, now, steps', deps)
    ensures changed ==> Left(steps', deps) < Left(steps, deps)
    ensures !changed ==> steps' == steps
    ensures !changed ==> forall i :: 0 <= i < |steps| ==> !Skippable(steps, deps, i)
  {
    steps', changed := steps, false;
    for p := 0 to |stepOrder|
      invariant Between(seed, steps0, deps0, now, steps', deps)
      invariant changed ==> Left(steps', deps) < Left(steps, deps)
      invariant !changed ==> steps' == steps
      invariant !changed ==> forall q :: 0 <= q < p ==> !Skippable(steps, deps, stepOrder[q])
    {
      var i := stepOrder[p];
      var skip := CanSkip(steps', deps, i);
      if skip {
        SkipKeepsBetween(seed, steps0, deps0, now, steps', deps, i);
        SkipLessens(steps', deps, i, now);
        steps' := steps'[i := Skip(steps'[i], now)];
        changed := true;
      }
    }
    forall i | 0 <= i < |steps| && !changed ensures !Skippable(steps, deps, i) {
      assert i in stepOrder;
      var q :| 0 <= q < |stepOrder| && stepOrder[q] == i;
    }
  }

  /** The test of `scheduler.py`, lines 477-488, on one step. */
  method CanSkip(steps: seq<RunStep>, deps: seq<StepDep>, i: nat) returns (skip: bool)
    requires i < |steps|
    requires forall k :: 0 <= k < |deps| ==> deps[k].from < |steps|
    ensures skip <==> Skippable(steps, deps, i)
  {
    if !steps[i].status.Pending? {
      return false;
    }
    var inc := set k: nat | k < |deps| && deps[k].to == i;
    if inc == {} {
      assert Root(deps, i) by { assert forall k: nat :: k < |deps| && deps[k].to == i ==> k in inc; }
      return false;
    }
    var anyIn :| anyIn in inc;
    assert !Root(deps, i);
    var liveIn := set k | k in inc && deps[k].live;
    if liveIn == {} {
      assert forall k: nat :: k < |deps| && deps[k].to == i && deps[k].live ==> k in liveIn;
      return true;
    }
    var unsatisfiedLive := set k | k in liveIn && !deps[k].satisfied;
    var delivered := exists k :: k in liveIn && deps[k].satisfied && steps[deps[k].from].status.Succeeded?;
    assert unsatisfiedLive == Open(deps, i);
    assert delivered <==> Fed(steps, deps, i) by {
      if Fed(steps, deps, i) {
        var k: nat :| Feeds(steps, deps, k, i);
        assert k in liveIn;
      }
      if delivered {
        var k :| k in liveIn && deps[k].satisfied && steps[deps[k].from].status.Succeeded?;
        assert Feeds(steps, deps, k, i);
      }
    }
    var someLive :| someLive in liveIn;
    skip := unsatisfiedLive == {} && !delivered;
  }

  /** `scheduler.py`, lines 449-489. Whatever the row orders, the guarded loop reaches the settled rows. */
  method SettleRows(ghost seed: map<string, Dict>, steps0: seq<RunStep>, deps0: seq<StepDep>, now: nat,
                    stepOrder: seq<nat>, depOrder: seq<nat>)
    returns (steps: seq<RunStep>, deps: seq<StepDep>)
    requires Loadable(seed, steps0, deps0)
    requires Everything(stepOrder, |steps0|) && Everything(depOrder, |deps0|)
    ensures deps == SettledDeps(steps0, deps0)
    ensures steps == SettledSteps(seed, steps0, deps0, now)
  {
    steps, deps := steps0, deps0;
    var guard := |steps| + |deps| + 5;
    LeftIsBounded(steps, deps);
    var changed := true;
    while changed && guard >= 0
      invariant Between(seed, steps0, deps0, now, steps, deps)
      invariant guard >= Left(steps, deps) + if changed then 5 else 4
      invariant !changed ==> Wired(steps, deps) && Closed(steps, deps)
      decreases guard
    {
      guard := guard - 1;
      var satisfied, skipped;
      ghost var before, beforeDeps := steps, deps;
      steps, deps, satisfied := SatisfyPass(seed, steps0, deps0, now, steps, deps, depOrder);
      steps, skipped := SkipPass(seed, steps0, deps0, now, steps, deps, stepOrder);
      changed := satisfied || skipped;
      BetweenIsWired(seed, steps0, deps0, now, steps, deps);
    }
    BetweenIsWired(seed, steps0, deps0, now, steps, deps);
    ClosedIsSettled(seed, steps0, deps0, now, steps, deps);
  }

  /** The test of `scheduler.py`, lines 494-499, on one step. */
  method IsEligible(steps: seq<RunStep>, deps: seq<StepDep>, i: nat) returns (eligible: bool)
    requires i < |steps| && steps[i].depsRemaining == |Open(deps, i)|
    requires forall k :: 0 <= k < |deps| ==> deps[k].from < |steps|
    ensures eligible <==> Promotable(steps, deps, i)
  {
    if !steps[i].status.Pending? || steps[i].depsRemaining > 0 {
      return false;
    }
    var inc := set k: nat | k < |deps| && deps[k].to == i;
    var isRoot := |inc| == 0;
    var delivered := exists k :: k in inc && deps[k].live && deps[k].satisfied && steps[deps[k].from].status.Succeeded?;
    assert isRoot <==> Root(deps, i) by {
      assert forall k: nat :: k < |deps| && deps[k].to == i <==> k in inc;
      if isRoot { assert inc == {}; }
      if Root(deps, i) { assert inc == {}; }
    }
    assert delivered <==> Fed(steps, deps, i) by {
      if Fed(steps, deps, i) {
        var k: nat :| Feeds(steps, deps, k, i);
        assert k in inc;
      }
      if delivered {
        var k :| k in inc && deps[k].live && deps[k].satisfied && steps[deps[k].from].status.Succeeded?;
        assert Feeds(steps, deps, k, i);
      }
    }
    eligible := isRoot || delivered;
  }

  lemma SameSuccesses(steps: seq<RunStep>, steps': seq<RunStep>, deps: seq<StepDep>, i: nat)
    requires i < |steps| == |steps'| && steps[i] == steps'[i]
    requires forall j :: 0 <= j < |steps| ==> (steps[j].status.Succeeded? <==> steps'[j].status.Succeeded?)
    ensures Promotable(steps, deps, i) <==> Promotable(steps', deps, i)
  {
    assert forall k: nat :: Feeds(steps, deps, k, i) <==> Feeds(steps', deps, k, i);
  }

  /** `scheduler.py`, lines 491-502: ready the eligible pending steps and list them once each. */
  method ReadyRows(steps0: seq<RunStep>, deps: seq<StepDep>, stepOrder: seq<nat>)
    returns (steps: seq<RunStep>, newlyReady: seq<nat>)
    requires Counted(steps0, deps) && Everything(stepOrder, |steps0|) && Distinct(stepOrder)
    requires forall k :: 0 <= k < |deps| ==> deps[k].from < |steps0|
    ensures steps == ReadiedSteps(steps0, deps)
    ensures forall i: nat :: i in newlyReady <==> i < |steps0| && Promotable(steps0, deps, i)
    ensures Distinct(newlyReady)
  {
    steps, newlyReady := steps0, [];
    for p := 0 to |stepOrder|
      invariant |steps| == |steps0|
      invariant forall i :: 0 <= i < |steps| ==>
                  steps[i] == if i in stepOrder[..p] && Promotable(steps0, deps, i)
                              then steps0[i].(status := Ready) else steps0[i]
      invariant forall i: nat :: i in newlyReady <==> i in stepOrder[..p] && Promotable(steps0, deps, i)
      invariant Distinct(newlyReady)
    {
      var i := stepOrder[p];
      assert stepOrder[..p + 1] == stepOrder[..p] + [i];
      assert i !in stepOrder[..p];
      var eligible := IsEligible(steps, deps, i);
      SameSuccesses(steps, steps0, deps, i);
      if eligible {
        steps := steps[i := steps[i].(status := Ready)];
        newlyReady := newlyReady + [i];
      }
    }
    assert stepOrder[..|stepOrder|] == stepOrder;
  }
}
