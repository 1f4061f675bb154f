/** The satisfy/skip fixpoint of `advance_run`: what it reaches, defined by recursion
    over the graph, and the small steps by which the loop gets there. */
module Fixpoint {
  import opened Options
  import opened Rows
  import opened Ledger

  /** The status step i has once skips have been propagated: a pending non-root step is
      skipped exactly when no live incoming edge can still deliver. */
  ghost function Fate(steps: seq<RunStep>, deps: seq<StepDep>, i: nat): StepStatus
    requires Wired(steps, deps) && i < |steps|
    decreases i
  {
    if !steps[i].status.Pending? || Root(deps, i) then
      steps[i].status
    else if forall k :: 0 <= k < |deps| && deps[k].to == i && deps[k].live ==>
                          DeadEnd(Fate(steps, deps, deps[k].from)) then
      Skipped
    else
      Pending
  }

  ghost function SettledDep(steps: seq<RunStep>, deps: seq<StepDep>, k: nat): StepDep
    requires Wired(steps, deps) && k < |deps|
  {
    deps[k].(satisfied := deps[k].satisfied || Terminal(Fate(steps, deps, deps[k].from)))
  }

  ghost function SettledDeps(steps: seq<RunStep>, deps: seq<StepDep>): (settled: seq<StepDep>)
    requires Wired(steps, deps)
    ensures |settled| == |deps|
    ensures forall k :: 0 <= k < |deps| ==> settled[k] == SettledDep(steps, deps, k)
  {
    seq(|deps|, k requires 0 <= k < |deps| => SettledDep(steps, deps, k))
  }

  ghost function SettledStep(seed: map<string, Dict>, steps: seq<RunStep>, deps: seq<StepDep>, now: nat, i: nat)
    : RunStep
    requires Wired(steps, deps) && i < |steps|
  {
    var settled := SettledDeps(steps, deps);
    var fate := Fate(steps, deps, i);
    steps[i].(
      status := fate,
      depsRemaining := |Open(settled, i)|,
      inputs := InputsOf(seed, steps, settled, i),
      completedAt := if fate == steps[i].status then steps[i].completedAt else Some(now))
  }

  ghost function SettledSteps(seed: map<string, Dict>, steps: seq<RunStep>, deps: seq<StepDep>, now: nat)
    : (settled: seq<RunStep>)
    requires Wired(steps, deps)
    ensures |settled| == |steps|
    ensures forall i :: 0 <= i < |steps| ==> settled[i] == SettledStep(seed, steps, deps, now, i)
  {
    seq(|steps|, i requires 0 <= i < |steps| => SettledStep(seed, steps, deps, now, i))
  }

  // ── the states the loop passes through ───────────────────────────────────

  /** Step `s` is step i of the loaded rows `s0`, possibly skipped, with a new counter and inputs. */
  ghost predicate Touched(s0: RunStep, s: RunStep, fate: StepStatus, now: nat) {
    && s == s0.(status := s.status, depsRemaining := s.depsRemaining, inputs := s.inputs, completedAt := s.completedAt)
    && (|| (s.status == s0.status && s.completedAt == s0.completedAt)
        || (s0.status.Pending? && s.status.Skipped? && fate.Skipped? && s.completedAt == Some(now)))
  }

  ghost predicate Between(seed: map<string, Dict>, steps0: seq<RunStep>, deps0: seq<StepDep>, now: nat,
                          steps: seq<RunStep>, deps: seq<StepDep>)
    requires Wired(steps0, deps0)
  {
    && |steps| == |steps0| && |deps| == |deps0|
    && (forall i :: 0 <= i < |steps| ==> Touched(steps0[i], steps[i], Fate(steps0, deps0, i), now))
    && (forall k :: 0 <= k < |deps| ==> deps[k] == deps0[k].(satisfied := deps[k].satisfied))
    && (forall k :: 0 <= k < |deps| ==> deps0[k].satisfied ==> deps[k].satisfied)
    && (forall k :: 0 <= k < |deps| ==> deps[k].satisfied ==> Terminal(steps[deps[k].from].status))
    && Counted(steps, deps)
    && AllDelivered(seed, steps, deps)
  }

  /** The rows `advance_run` may be handed: what the ledger promises about them. */
  ghost predicate Loadable(seed: map<string, Dict>, steps: seq<RunStep>, deps: seq<StepDep>) {
    && Wired(steps, deps)
    && Counted(steps, deps)
    && AllDelivered(seed, steps, deps)
    && Flagged(steps, deps)
  }

  lemma FateOfTerminal(steps0: seq<RunStep>, deps0: seq<StepDep>, s: RunStep, i: nat, now: nat)
    requires Wired(steps0, deps0) && i < |steps0|
    requires Touched(steps0[i], s, Fate(steps0, deps0, i), now) && Terminal(s.status)
    ensures Fate(steps0, deps0, i) == s.status
  {
  }

  // ── first half of the loop body: satisfy one edge ────────────────────────

  /** `merged` is what `succ.inputs` becomes when edge k is satisfied. */
  function MergedInputs(steps: seq<RunStep>, dep: StepDep): map<string, Dict>
    requires dep.from < |steps| && dep.to < |steps|
  {
    var parent := steps[dep.from];
    if parent.status.Succeeded? then
      steps[dep.to].inputs[parent.nodeId := OutputOf(parent)]
    else
      steps[dep.to].inputs
  }

  function SatisfyEdge(steps: seq<RunStep>, dep: StepDep): RunStep
    requires dep.from < |steps| && dep.to < |steps|
  {
    var succ := steps[dep.to];
    if dep.live then
      succ.(depsRemaining := LessOne(succ.depsRemaining),
            inputs := MergedInputs(steps, dep))
    else
      succ
  }

  lemma SatisfyDelivers(seed: map<string, Dict>, steps: seq<RunStep>, deps: seq<StepDep>, k: nat, i: nat)
    requires Wired(steps, deps) && k < |deps| && i < |steps|
    requires !deps[k].satisfied
    requires Delivers(seed, steps, deps, i, steps[i].inputs)
    ensures var steps' := steps[deps[k].to := SatisfyEdge(steps, deps[k])];
            var deps' := deps[k := deps[k].(satisfied := true)];
            Delivers(seed, steps', deps', i, steps'[i].inputs)
  {
    var dep := deps[k];
    var steps' := steps[dep.to := SatisfyEdge(steps, dep)];
    var deps' := deps[k := dep.(satisfied := true)];
    var inputs := steps'[i].inputs;
    assert forall j :: 0 <= j < |steps| ==>
      steps'[j].nodeId == steps[j].nodeId && steps'[j].output == steps[j].output && steps'[j].status == steps[j].status;
    forall k': nat | Feeds(steps', deps', k', i)
      ensures steps'[deps'[k'].from].nodeId in inputs
      ensures inputs[steps'[deps'[k'].from].nodeId] == OutputOf(steps'[deps'[k'].from])
    {
      if k' != k {
        assert Feeds(steps, deps, k', i);
      }
    }
    forall x | x in inputs
      ensures (x in seed && inputs[x] == seed[x]) || NamedFeed(steps', deps', i, x)
    {
      if i == dep.to && dep.live && steps[dep.from].status.Succeeded? && x == steps[dep.from].nodeId {
        assert Feeds(steps', deps', k, i);
      } else if NamedFeed(steps, deps, i, x) {
        var k': nat :| Feeds(steps, deps, k', i) && steps[deps[k'].from].nodeId == x;
        assert Feeds(steps', deps', k', i);
      }
    }
  }

  lemma BetweenIsWired(seed: map<string, Dict>, steps0: seq<RunStep>, deps0: seq<StepDep>, now: nat,
                       steps: seq<RunStep>, deps: seq<StepDep>)
    requires Wired(steps0, deps0) && Between(seed, steps0, deps0, now, steps, deps)
    ensures Wired(steps, deps)
  {
  }

  lemma SatisfyKeepsCount(steps: seq<RunStep>, deps: seq<StepDep>, k: nat)
    requires Wired(steps, deps) && Counted(steps, deps)
    requires k < |deps| && !deps[k].satisfied
    ensures Counted(steps[deps[k].to := SatisfyEdge(steps, deps[k])], deps[k := deps[k].(satisfied := true)])
  {
    var dep := deps[k];
    var steps' := steps[dep.to := SatisfyEdge(steps, dep)];
    var deps' := deps[k := dep.(satisfied := true)];
    forall i | 0 <= i < |steps| ensures steps'[i].depsRemaining == |Open(deps', i)| {
      OpenAfterClosing(deps, k, dep.(satisfied := true), i);
    }
  }

  lemma SatisfyKeepsBetween(seed: map<string, Dict>, steps0: seq<RunStep>, deps0: seq<StepDep>, now: nat,
                            steps: seq<RunStep>, deps: seq<StepDep>, k: nat)
    requires Wired(steps0, deps0) && Between(seed, steps0, deps0, now, steps, deps)
    requires k < |deps| && !deps[k].satisfied && Terminal(steps[deps[k].from].status)
    ensures Between(seed, steps0, deps0, now,
                    steps[deps[k].to := SatisfyEdge(steps, deps[k])], deps[k := deps[k].(satisfied := true)])
  {
    var dep := deps[k];
    var steps' := steps[dep.to := SatisfyEdge(steps, dep)];
    var deps' := deps[k := dep.(satisfied := true)];
    BetweenIsWired(seed, steps0, deps0, now, steps, deps);
    SatisfyKeepsCount(steps, deps, k);
    forall i | 0 <= i < |steps| ensures Delivers(seed, steps', deps', i, steps'[i].inputs) {
      SatisfyDelivers(seed, steps, deps, k, i);
    }
  }

  // ── second half: skip one step ───────────────────────────────────────────

  /** The loop's own test: has incoming edges, none of them live, or every live one
      satisfied and none delivered. */
  ghost predicate Skippable(steps: seq<RunStep>, deps: seq<StepDep>, i: nat)
    requires i < |steps|
  {
    && steps[i].status.Pending?
    && !Root(deps, i)
    && ((forall k :: 0 <= k < |deps| && deps[k].to == i ==> !deps[k].live)
        || (Open(deps, i) == {} && !Fed(steps, deps, i)))
  }

  function Skip(step: RunStep, now: nat): RunStep {
    step.(status := Skipped, completedAt := Some(now))
  }

  lemma SkippableIsFated(seed: map<string, Dict>, steps0: seq<RunStep>, deps0: seq<StepDep>, now: nat,
                         steps: seq<RunStep>, deps: seq<StepDep>, i: nat)
    requires Wired(steps0, deps0) && Between(seed, steps0, deps0, now, steps, deps)
    requires i < |steps| && Skippable(steps, deps, i)
    ensures Fate(steps0, deps0, i).Skipped? && steps0[i].status.Pending?
  {
    assert !Root(deps0, i) by {
      var k :| 0 <= k < |deps| && deps[k].to == i;
      assert deps0[k].to == i;
    }
    forall k | 0 <= k < |deps0| && deps0[k].to == i && deps0[k].live
      ensures DeadEnd(Fate(steps0, deps0, deps0[k].from))
    {
      assert deps[k].to == i && deps[k].live;
      assert k !in Open(deps, i);
      assert !Feeds(steps, deps, k, i);
      FateOfTerminal(steps0, deps0, steps[deps[k].from], deps[k].from, now);
    }
  }

  lemma SkipKeepsBetween(seed: map<string, Dict>, steps0: seq<RunStep>, deps0: seq<StepDep>, now: nat,
                         steps: seq<RunStep>, deps: seq<StepDep>, i: nat)
    requires Wired(steps0, deps0) && Between(seed, steps0, deps0, now, steps, deps)
    requires i < |steps| && Skippable(steps, deps, i)
    ensures Between(seed, steps0, deps0, now, steps[i := Skip(steps[i], now)], deps)
  {
    var steps' := steps[i := Skip(steps[i], now)];
    SkippableIsFated(seed, steps0, deps0, now, steps, deps, i);
    forall j | 0 <= j < |steps| ensures Delivers(seed, steps', deps, j, steps'[j].inputs) {
      DeliversAlike(seed, steps, deps, steps', deps, j, steps[j].inputs);
    }
  }

  // ── when nothing more changes ────────────────────────────────────────────

  ghost predicate Closed(steps: seq<RunStep>, deps: seq<StepDep>)
    requires Wired(steps, deps)
  {
    && (forall k :: 0 <= k < |deps| && Terminal(steps[deps[k].from].status) ==> deps[k].satisfied)
    && (forall i :: 0 <= i < |steps| ==> !Skippable(steps, deps, i))
  }

  /** A step the loop has not skipped although its fate is to be skipped can be skipped now. */
  lemma FatedIsSkippable(seed: map<string, Dict>, steps0: seq<RunStep>, deps0: seq<StepDep>, now: nat,
                         steps: seq<RunStep>, deps: seq<StepDep>, i: nat)
    requires Wired(steps0, deps0) && Between(seed, steps0, deps0, now, steps, deps)
    requires i < |steps| && steps[i].status.Pending? && Fate(steps0, deps0, i).Skipped?
    requires forall j :: 0 <= j < i ==> steps[j].status == Fate(steps0, deps0, j)
    requires forall k :: 0 <= k < |deps| && Terminal(steps[deps[k].from].status) ==> deps[k].satisfied
    ensures Skippable(steps, deps, i)
  {
  }

  lemma {:induction false} ClosedIsFate(seed: map<string, Dict>, steps0: seq<RunStep>, deps0: seq<StepDep>, now: nat,
                     steps: seq<RunStep>, deps: seq<StepDep>, i: nat)
    requires Wired(steps0, deps0) && Between(seed, steps0, deps0, now, steps, deps)
    requires Wired(steps, deps) && Closed(steps, deps)
    requires i < |steps|
    ensures steps[i].status == Fate(steps0, deps0, i)
    decreases i
  {
    forall j | 0 <= j < i ensures steps[j].status == Fate(steps0, deps0, j) {
      ClosedIsFate(seed, steps0, deps0, now, steps, deps, j);
    }
    if steps[i].status.Pending? && Fate(steps0, deps0, i).Skipped? {
      FatedIsSkippable(seed, steps0, deps0, now, steps, deps, i);
    }
  }

  /** A closed state of the loop is exactly the settled rows. */
  lemma ClosedIsSettled(seed: map<string, Dict>, steps0: seq<RunStep>, deps0: seq<StepDep>, now: nat,
                        steps: seq<RunStep>, deps: seq<StepDep>)
    requires Wired(steps0, deps0) && Between(seed, steps0, deps0, now, steps, deps)
    requires Wired(steps, deps) && Closed(steps, deps)
    ensures deps == SettledDeps(steps0, deps0)
    ensures steps == SettledSteps(seed, steps0, deps0, now)
  {
    forall i | 0 <= i < |steps| ensures steps[i].status == Fate(steps0, deps0, i) {
      ClosedIsFate(seed, steps0, deps0, now, steps, deps, i);
    }
    forall k | 0 <= k < |deps| ensures deps[k] == SettledDep(steps0, deps0, k) {
      assert steps[deps[k].from].status == Fate(steps0, deps0, deps0[k].from);
      if deps0[k].satisfied { assert deps[k].satisfied; }
    }
    assert deps == SettledDeps(steps0, deps0);
    forall i | 0 <= i < |steps| ensures steps[i] == SettledStep(seed, steps0, deps0, now, i) {
      InputsOfDelivers(seed, steps0, deps, i);
      SettledInputs(seed, steps0, steps, deps, i);
    }
  }

  lemma SettledInputs(seed: map<string, Dict>, steps0: seq<RunStep>, steps: seq<RunStep>, deps: seq<StepDep>, i: nat)
    requires |steps| == |steps0| && i < |steps| && Wired(steps0, deps)
    requires forall j :: 0 <= j < |steps| ==>
               && steps[j].nodeId == steps0[j].nodeId && steps[j].output == steps0[j].output
               && (steps[j].status.Succeeded? <==> steps0[j].status.Succeeded?)
    requires Delivers(seed, steps, deps, i, steps[i].inputs)
    ensures steps[i].inputs == InputsOf(seed, steps0, deps, i)
  {
    assert forall k: nat :: Feeds(steps0, deps, k, i) <==> Feeds(steps, deps, k, i);
    DeliversAlike(seed, steps, deps, steps0, deps, i, steps[i].inputs);
    InputsOfDelivers(seed, steps0, deps, i);
    DeliversIsUnique(seed, steps0, deps, i, steps[i].inputs, InputsOf(seed, steps0, deps, i));
  }
}
