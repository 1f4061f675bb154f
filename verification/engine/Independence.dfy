/** Schedule independence: when the handlers' answers depend only on step, inputs and attempt,
    every interleaving of the engine's transactions that is not cancelled computes the plan. */
module Independence {
  import opened Options
  import opened Rows
  import opened Ledger
  import opened Fixpoint
  import opened RunResult
  import opened Advance
  import opened Transactions
  import opened Invariants
  import opened System
  import opened Guarantees
  import opened Plan

  /** The transaction reports what handlers `h` answer. A handler may suspend whenever it likes. */
  predicate Obeys(h: Handlers, s: Sys, l: Label) {
    match l
    case Commit(i, Output(data), _) =>
      i < |s.db.steps| && h(i, s.db.steps[i].inputs, s.db.steps[i].attempt) == Succeeds(data)
    case Commit(i, Branch(data, liveHandles), _) =>
      i < |s.db.steps| && h(i, s.db.steps[i].inputs, s.db.steps[i].attempt) == BranchesTo(data, liveHandles)
    case Raise(i, definitive, _) =>
      i < |s.db.steps| && !definitive && h(i, s.db.steps[i].inputs, s.db.steps[i].attempt) == Errors
    case RaiseWithOutput(i, output, _) =>
      i < |s.db.steps| && h(i, s.db.steps[i].inputs, s.db.steps[i].attempt) == FailsWith(output)
    case _ => true
  }

  ghost predicate AllObey(h: Handlers, s: Sys, trace: seq<Label>)
    decreases |trace|
  {
    trace != [] ==>
      && WellFormed(s) && Enabled(s, trace[0])
      && Obeys(h, s, trace[0])
      && AllObey(h, Next(s, trace[0]), trace[1..])
  }

  // ── agreement with the plan ──────────────────────────────────────────────

  /** db is a later state of the graph that g was materialized as. */
  ghost predicate SameGraph(g: Db, db: Db) {
    && |db.steps| == |g.steps| && |db.deps| == |g.deps| && db.seed == g.seed && db.run.failRun == g.run.failRun
    && (forall i :: 0 <= i < |g.steps| ==>
          db.steps[i].nodeId == g.steps[i].nodeId && db.steps[i].maxAttempts == g.steps[i].maxAttempts)
    && (forall k :: 0 <= k < |g.deps| ==>
          db.deps[k].from == g.deps[k].from && db.deps[k].to == g.deps[k].to && db.deps[k].handle == g.deps[k].handle)
  }

  ghost predicate StepAgrees(h: Handlers, plan: seq<Planned>, i: nat, step: RunStep)
    requires i < |plan|
  {
    if step.status.Pending? then
      step.attempt == 1 && step.output.None?
    else if Busy(step.status) then
      && step.output.None? && step.attempt <= step.maxAttempts
      && plan[i] == Outcome(h, i, step.inputs, step.attempt, step.maxAttempts)
    else
      step.status == plan[i].status && step.output == plan[i].output && step.inputs == plan[i].inputs
  }

  ghost predicate DepAgrees(plan: seq<Planned>, steps: seq<RunStep>, dep: StepDep)
    requires dep.from < |plan| && dep.from < |steps|
  {
    dep.live == (Terminal(steps[dep.from].status) ==> Keeps(plan[dep.from], dep.handle))
  }

  ghost predicate Judged(db: Db) {
    Over(db.run.status) ==> (db.run.status.RunFailed? <==> AnyFailed(db.steps) && db.run.failRun)
  }

  ghost predicate Agrees(g: Db, h: Handlers, plan: seq<Planned>, db: Db)
    requires Started(g) && IsPlan(g, h, plan)
  {
    && SameGraph(g, db)
    && (forall i :: 0 <= i < |db.steps| ==> StepAgrees(h, plan, i, db.steps[i]))
    && (forall k :: 0 <= k < |db.deps| ==> db.deps[k].from < |db.steps| && DepAgrees(plan, db.steps, db.deps[k]))
    && Judged(db)
  }

  lemma StartAgrees(g: Db, h: Handlers, plan: seq<Planned>)
    requires Started(g) && IsPlan(g, h, plan)
    ensures Agrees(g, h, plan, g)
  {
    forall i | 0 <= i < |g.steps| ensures StepAgrees(h, plan, i, g.steps[i]) {
      assert Fresh(g.steps[i], g.seed, Root(g.deps, i));
      if Root(g.deps, i) {
        assert Planlike(g, h, plan, i);
        RootInputs(g, plan, i);
      }
    }
  }

  lemma RootInputs(g: Db, plan: seq<Planned>, i: nat)
    requires Wired(g.steps, g.deps) && |plan| == |g.steps| && i < |g.steps|
    requires forall k: nat :: !Carries(g, plan, k, i)
    ensures PlanInputs(g, plan, i) == g.seed
  {
    var steps, deps := PlanSteps(g, plan), PlanDeps(g, plan);
    forall k: nat ensures !Feeds(steps, deps, k, i) {
      FeedsAreCarries(g, plan, k, i);
    }
    assert Delivers(g.seed, steps, deps, i, g.seed);
    assert Wired(steps, deps);
    InputsOfDelivers(g.seed, steps, deps, i);
    DeliversIsUnique(g.seed, steps, deps, i, g.seed, PlanInputs(g, plan, i));
  }

  // ── commits, failures, wake-ups ──────────────────────────────────────────

  lemma BusyMoveAgrees(g: Db, h: Handlers, plan: seq<Planned>, db: Db, db': Db)
    requires Started(g) && IsPlan(g, h, plan) && Agrees(g, h, plan, db)
    requires BusyMove(db.steps, db'.steps) && db'.deps == db.deps && db'.seed == db.seed
    requires db'.run.failRun == db.run.failRun && (Over(db'.run.status) ==> db'.run == db.run)
    requires forall i :: 0 <= i < |db.steps| && db'.steps[i] != db.steps[i] ==>
               db'.steps[i].attempt <= db.steps[i].maxAttempts &&
               Outcome(h, i, db.steps[i].inputs, db'.steps[i].attempt, db.steps[i].maxAttempts) == plan[i]
    ensures Agrees(g, h, plan, db')
  {
    forall i | 0 <= i < |db'.steps| ensures StepAgrees(h, plan, i, db'.steps[i]) {
      assert StepAgrees(h, plan, i, db.steps[i]);
    }
    forall k | 0 <= k < |db'.deps| ensures db'.deps[k].from < |db'.steps| && DepAgrees(plan, db'.steps, db'.deps[k]) {
      assert DepAgrees(plan, db.steps, db.deps[k]);
    }
    assert AnyFailed(db'.steps) <==> AnyFailed(db.steps) by {
      assert forall i :: 0 <= i < |db.steps| ==> (db'.steps[i].status.Failed? <==> db.steps[i].status.Failed?);
    }
  }

  lemma EndAgrees(g: Db, h: Handlers, plan: seq<Planned>, db: Db, i: nat, db': Db)
    requires Started(g) && IsPlan(g, h, plan) && Agrees(g, h, plan, db) && Coherent(db)
    requires Ends(db.steps, db.deps, i, db'.steps, db'.deps)
    requires db'.seed == db.seed && db'.run == db.run
    requires db'.steps[i].status == plan[i].status && db'.steps[i].output == plan[i].output
    requires plan[i] == Outcome(h, i, db.steps[i].inputs, db.steps[i].attempt, db.steps[i].maxAttempts)
    requires forall k :: 0 <= k < |db.deps| && db.deps[k].from == i ==>
               db'.deps[k].live == Keeps(plan[i], db.deps[k].handle)
    ensures Agrees(g, h, plan, db')
  {
    EndedStepsAgree(h, plan, db.steps, db.deps, i, db'.steps, db'.deps);
    assert !Over(db.run.status);
  }

  lemma EndedStepsAgree(h: Handlers, plan: seq<Planned>, steps: seq<RunStep>, deps: seq<StepDep>, i: nat,
                        steps': seq<RunStep>, deps': seq<StepDep>)
    requires |plan| == |steps| && Wired(steps, deps) && Ends(steps, deps, i, steps', deps')
    requires forall j: nat :: j < |steps| ==> StepAgrees(h, plan, j, steps[j])
    requires forall k :: 0 <= k < |deps| ==> DepAgrees(plan, steps, deps[k])
    requires steps'[i].status == plan[i].status && steps'[i].output == plan[i].output
    requires steps[i].attempt <= steps[i].maxAttempts
    requires plan[i] == Outcome(h, i, steps[i].inputs, steps[i].attempt, steps[i].maxAttempts)
    requires forall k :: 0 <= k < |deps| && deps[k].from == i ==> deps'[k].live == Keeps(plan[i], deps[k].handle)
    ensures forall j: nat :: j < |steps| ==> StepAgrees(h, plan, j, steps'[j])
    ensures forall k :: 0 <= k < |deps| ==> deps'[k].from < |steps'| && DepAgrees(plan, steps', deps'[k])
  {
    forall j: nat | j < |steps| ensures StepAgrees(h, plan, j, steps'[j]) {
      assert StepAgrees(h, plan, j, steps[j]);
    }
    forall k | 0 <= k < |deps| ensures DepAgrees(plan, steps', deps'[k]) {
      assert DepAgrees(plan, steps, deps[k]);
    }
  }

  lemma CommitAgrees(g: Db, h: Handlers, plan: seq<Planned>, db: Db, i: nat, result: HandlerResult, now: nat)
    requires Started(g) && IsPlan(g, h, plan) && Coherent(db) && Agrees(g, h, plan, db) && !Over(db.run.status)
    requires i < |db.steps| && db.steps[i].status.Running?
    requires match result
             case Output(data) => h(i, db.steps[i].inputs, db.steps[i].attempt) == Succeeds(data)
             case Branch(data, liveHandles) =>
               h(i, db.steps[i].inputs, db.steps[i].attempt) == BranchesTo(data, liveHandles)
             case Suspend(_, _, _, _) => false
    ensures Agrees(g, h, plan, CommitResult(db, i, result, now))
  {
    var db' := CommitResult(db, i, result, now);
    assert StepAgrees(h, plan, i, db.steps[i]);
    forall k | 0 <= k < |db.deps| && db.deps[k].from == i
      ensures db'.deps[k].live == Keeps(plan[i], db.deps[k].handle)
    {
      assert DepAgrees(plan, db.steps, db.deps[k]);
    }
    EndAgrees(g, h, plan, db, i, db');
  }

  lemma KeptByFailure(g: Db, h: Handlers, plan: seq<Planned>, db: Db, i: nat)
    requires Started(g) && IsPlan(g, h, plan) && Agrees(g, h, plan, db)
    requires i < |db.steps| && Busy(db.steps[i].status) && plan[i].kept.None?
    ensures forall k :: 0 <= k < |db.deps| && db.deps[k].from == i ==>
              db.deps[k].live == Keeps(plan[i], db.deps[k].handle)
  {
  }

  lemma RetryMoves(db: Db, i: nat, now: nat)
    requires i < |db.steps| && db.steps[i].status.Running? && Retries(db.steps[i], false)
    ensures var db' := FailStep(db, i, false, now);
            && BusyMove(db.steps, db'.steps) && db'.deps == db.deps && db'.seed == db.seed && db'.run == db.run
            && db'.steps[i].attempt == db.steps[i].attempt + 1
            && (forall j :: 0 <= j < |db.steps| && j != i ==> db'.steps[j] == db.steps[j])
  {
  }

  lemma RetryAgrees(g: Db, h: Handlers, plan: seq<Planned>, db: Db, i: nat, now: nat)
    requires Started(g) && IsPlan(g, h, plan) && Agrees(g, h, plan, db)
    requires i < |db.steps| && db.steps[i].status.Running? && Retries(db.steps[i], false)
    requires h(i, db.steps[i].inputs, db.steps[i].attempt) == Errors
    ensures Agrees(g, h, plan, FailStep(db, i, false, now))
  {
    assert StepAgrees(h, plan, i, db.steps[i]);
    RetryMoves(db, i, now);
    BusyMoveAgrees(g, h, plan, db, FailStep(db, i, false, now));
  }

  lemma ErrorAgrees(g: Db, h: Handlers, plan: seq<Planned>, db: Db, i: nat, now: nat)
    requires Started(g) && IsPlan(g, h, plan) && Coherent(db) && Agrees(g, h, plan, db) && !Over(db.run.status)
    requires i < |db.steps| && db.steps[i].status.Running?
    requires h(i, db.steps[i].inputs, db.steps[i].attempt) == Errors
    ensures Agrees(g, h, plan, FailStep(db, i, false, now))
  {
    if Retries(db.steps[i], false) {
      RetryAgrees(g, h, plan, db, i, now);
    } else {
      assert StepAgrees(h, plan, i, db.steps[i]);
      KeptByFailure(g, h, plan, db, i);
      EndAgrees(g, h, plan, db, i, FailStep(db, i, false, now));
    }
  }

  lemma FailureAgrees(g: Db, h: Handlers, plan: seq<Planned>, db: Db, i: nat, output: Dict, now: nat)
    requires Started(g) && IsPlan(g, h, plan) && Coherent(db) && Agrees(g, h, plan, db) && !Over(db.run.status)
    requires i < |db.steps| && db.steps[i].status.Running?
    requires h(i, db.steps[i].inputs, db.steps[i].attempt) == FailsWith(output)
    ensures Agrees(g, h, plan, FailWithOutput(db, i, output, now))
  {
    assert StepAgrees(h, plan, i, db.steps[i]);
    KeptByFailure(g, h, plan, db, i);
    EndAgrees(g, h, plan, db, i, FailWithOutput(db, i, output, now));
  }

  lemma RunningMeansLive(s: Sys, i: nat)
    requires SysInv(s) && !s.db.run.status.RunCancelled? && i in s.workers
    ensures i < |s.db.steps| && s.db.steps[i].status.Running? && !Over(s.db.run.status)
  {
  }

  lemma BusyStepsAgree(g: Db, h: Handlers, plan: seq<Planned>, db: Db, i: nat)
    requires Started(g) && IsPlan(g, h, plan) && Agrees(g, h, plan, db) && i < |db.steps| && Busy(db.steps[i].status)
    ensures db.steps[i].attempt <= db.steps[i].maxAttempts
    ensures Outcome(h, i, db.steps[i].inputs, db.steps[i].attempt, db.steps[i].maxAttempts) == plan[i]
  {
  }

  /** Moves between ready, running and waiting that keep the attempt. */
  lemma MoveAgrees(g: Db, h: Handlers, plan: seq<Planned>, db: Db, db': Db)
    requires Started(g) && IsPlan(g, h, plan) && Agrees(g, h, plan, db)
    requires StaysPut(db, db')
    ensures Agrees(g, h, plan, db')
  {
    forall i | 0 <= i < |db.steps| && db'.steps[i] != db.steps[i]
      ensures db.steps[i].attempt <= db.steps[i].maxAttempts
      ensures Outcome(h, i, db.steps[i].inputs, db'.steps[i].attempt, db.steps[i].maxAttempts) == plan[i]
    {
      BusyStepsAgree(g, h, plan, db, i);
    }
    BusyMoveAgrees(g, h, plan, db, db');
  }

  /** db' differs from db by moves between ready, running and waiting that keep the attempt. */
  ghost predicate StaysPut(db: Db, db': Db) {
    && BusyMove(db.steps, db'.steps) && db'.deps == db.deps && db'.seed == db.seed
    && db'.run.failRun == db.run.failRun && (Over(db'.run.status) ==> db'.run == db.run)
    && (forall i :: 0 <= i < |db.steps| ==> db'.steps[i].attempt == db.steps[i].attempt)
  }

  lemma ClaimMoves(db: Db, i: nat, now: nat)
    ensures StaysPut(db, Claim(db, i, now))
  {
  }

  lemma SetUpMoves(db: Db, i: nat, now: nat)
    requires i < |db.steps| && !db.run.status.RunCancelled?
    ensures StaysPut(db, SetUp(db, i, now))
  {
  }

  lemma SuspendMoves(db: Db, i: nat, result: HandlerResult, now: nat)
    requires i < |db.steps| && db.steps[i].status.Running? && result.Suspend?
    ensures StaysPut(db, CommitResult(db, i, result, now))
  {
  }

  lemma SignalMoves(db: Db, kind: string, key: Option<string>, payload: Dict)
    ensures StaysPut(db, Signal(db, kind, key, payload))
  {
  }

  lemma SweepMoves(db: Db, now: nat)
    ensures StaysPut(db, Sweep(db, now))
  {
  }

  // ── advance ──────────────────────────────────────────────────────────────

  /** A terminal fate is the planned status. */
  lemma {:induction false} FateAgrees(g: Db, h: Handlers, plan: seq<Planned>, db: Db, i: nat)
    requires Started(g) && IsPlan(g, h, plan) && Coherent(db) && Agrees(g, h, plan, db)
    requires i < |db.steps| && Terminal(Fate(db.steps, db.deps, i))
    ensures plan[i].status == Fate(db.steps, db.deps, i)
    ensures plan[i].status.Skipped? ==> plan[i] == Planned(Skipped, g.seed, None, None)
    decreases i
  {
    assert StepAgrees(h, plan, i, db.steps[i]);
    assert Planlike(g, h, plan, i);
    if db.steps[i].status.Pending? {
      SameTargets(db.deps, g.deps, i);
      forall k: nat ensures !Carries(g, plan, k, i) {
        if k < |g.deps| && g.deps[k].to == i {
          assert db.deps[k].to == i;
          assert DepAgrees(plan, db.steps, db.deps[k]);
          if db.deps[k].live {
            FateAgrees(g, h, plan, db, db.deps[k].from);
          }
        }
      }
      assert !Root(db.deps, i) by { assert History(db.steps, db.deps, i); }
    }
  }

  /** In the settled rows, an edge into a step with no open edge feeds it exactly when the plan
      says it carries an output. */
  lemma FeedsAsPlanned(g: Db, h: Handlers, plan: seq<Planned>, db: Db, k: nat, i: nat)
    requires Started(g) && IsPlan(g, h, plan) && Coherent(db) && Agrees(g, h, plan, db)
    requires i < |db.steps|
    requires Open(SettledDeps(db.steps, db.deps), i) == {}
    ensures Feeds(db.steps, SettledDeps(db.steps, db.deps), k, i) <==> Carries(g, plan, k, i)
  {
    var deps := SettledDeps(db.steps, db.deps);
    if k < |deps| && deps[k].to == i {
      assert k !in Open(deps, i);
      assert deps[k] == SettledDep(db.steps, db.deps, k);
      var j := deps[k].from;
      assert DepAgrees(plan, db.steps, db.deps[k]);
      assert StepAgrees(h, plan, j, db.steps[j]);
      if Terminal(Fate(db.steps, db.deps, j)) {
        FateAgrees(g, h, plan, db, j);
      }
    }
  }

  lemma FeedsAlike(g: Db, h: Handlers, plan: seq<Planned>, db: Db, k: nat, i: nat)
    requires Started(g) && IsPlan(g, h, plan) && Coherent(db) && Agrees(g, h, plan, db)
    requires i < |db.steps| && Open(SettledDeps(db.steps, db.deps), i) == {}
    ensures var deps, steps' := SettledDeps(db.steps, db.deps), PlanSteps(g, plan);
            && (Feeds(steps', PlanDeps(g, plan), k, i) <==> Feeds(db.steps, deps, k, i))
            && (Feeds(db.steps, deps, k, i) ==> OutputOf(steps'[deps[k].from]) == OutputOf(db.steps[deps[k].from]))
  {
    var deps := SettledDeps(db.steps, db.deps);
    FeedsAsPlanned(g, h, plan, db, k, i);
    FeedsAreCarries(g, plan, k, i);
    if Feeds(db.steps, deps, k, i) {
      assert StepAgrees(h, plan, deps[k].from, db.steps[deps[k].from]);
    }
  }

  /** A step with no open edge holds the inputs the plan gives it. */
  lemma InputsAsPlanned(g: Db, h: Handlers, plan: seq<Planned>, db: Db, i: nat)
    requires Started(g) && IsPlan(g, h, plan) && Coherent(db) && Agrees(g, h, plan, db)
    requires i < |db.steps| && Open(SettledDeps(db.steps, db.deps), i) == {}
    ensures InputsOf(db.seed, db.steps, SettledDeps(db.steps, db.deps), i) == PlanInputs(g, plan, i)
  {
    var deps := SettledDeps(db.steps, db.deps);
    var steps', deps' := PlanSteps(g, plan), PlanDeps(g, plan);
    forall k: nat
      ensures Feeds(steps', deps', k, i) <==> Feeds(db.steps, deps, k, i)
      ensures Feeds(db.steps, deps, k, i) ==> OutputOf(steps'[deps[k].from]) == OutputOf(db.steps[deps[k].from])
    {
      FeedsAlike(g, h, plan, db, k, i);
    }
    InputsOfAlike(db.seed, db.steps, deps, steps', deps', i);
  }

  lemma PromotedAgrees(g: Db, h: Handlers, plan: seq<Planned>, db: Db, i: nat)
    requires Started(g) && IsPlan(g, h, plan) && Coherent(db) && Agrees(g, h, plan, db)
    requires i < |db.steps| && db.steps[i].status.Pending?
    requires Cleared(db.steps, SettledDeps(db.steps, db.deps), i)
    ensures db.steps[i].maxAttempts >= 1
    ensures plan[i] ==
            Outcome(h, i, InputsOf(db.seed, db.steps, SettledDeps(db.steps, db.deps), i), 1, db.steps[i].maxAttempts)
  {
    var deps := SettledDeps(db.steps, db.deps);
    InputsAsPlanned(g, h, plan, db, i);
    assert Planlike(g, h, plan, i);
    SameTargets(deps, g.deps, i);
    if Fed(db.steps, deps, i) {
      var k: nat :| Feeds(db.steps, deps, k, i);
      FeedsAsPlanned(g, h, plan, db, k, i);
    }
  }

  lemma SkippedInputsAreSeed(db: Db, i: nat)
    requires Coherent(db) && i < |db.steps| && db.steps[i].status.Pending? && Fate(db.steps, db.deps, i).Skipped?
    ensures InputsOf(db.seed, db.steps, SettledDeps(db.steps, db.deps), i) == db.seed
  {
    var deps := SettledDeps(db.steps, db.deps);
    assert Wired(db.steps, deps);
    forall k: nat ensures !Feeds(db.steps, deps, k, i) {
      if k < |deps| && db.deps[k].to == i && db.deps[k].live {
        assert DeadEnd(Fate(db.steps, db.deps, db.deps[k].from));
      }
    }
    assert Delivers(db.seed, db.steps, deps, i, db.seed);
    InputsOfDelivers(db.seed, db.steps, deps, i);
    DeliversIsUnique(db.seed, db.steps, deps, i, db.seed, InputsOf(db.seed, db.steps, deps, i));
  }

  lemma AdvancedStepAgrees(g: Db, h: Handlers, plan: seq<Planned>, db: Db, order: seq<nat>, now: nat, i: nat)
    requires Started(g) && IsPlan(g, h, plan) && Coherent(db) && Agrees(g, h, plan, db)
    requires !Over(db.run.status) && Everything(order, |db.steps|) && i < |db.steps|
    ensures StepAgrees(h, plan, i, AdvanceRun(db, order, now).steps[i])
  {
    var db' := AdvanceRun(db, order, now);
    assert StepAgrees(h, plan, i, db.steps[i]);
    AdvancedStatus(db, order, now, i);
    if !db.steps[i].status.Pending? {
      SettledInputsOfDone(db, i);
    } else if db'.steps[i].status.Skipped? {
      FateAgrees(g, h, plan, db, i);
      SkippedInputsAreSeed(db, i);
    } else if db'.steps[i].status.Ready? {
      SettledClears(db, now, i);
      PromotedAgrees(g, h, plan, db, i);
    }
  }

  lemma SettledClears(db: Db, now: nat, i: nat)
    requires Coherent(db) && i < |db.steps|
    requires Promotable(SettledSteps(db.seed, db.steps, db.deps, now), SettledDeps(db.steps, db.deps), i)
    ensures Cleared(db.steps, SettledDeps(db.steps, db.deps), i)
  {
    var steps, deps := SettledSteps(db.seed, db.steps, db.deps, now), SettledDeps(db.steps, db.deps);
    if Fed(steps, deps, i) {
      var k: nat :| Feeds(steps, deps, k, i);
      assert Feeds(db.steps, deps, k, i);
    }
  }

  lemma AdvanceAgrees(g: Db, h: Handlers, plan: seq<Planned>, db: Db, order: seq<nat>, now: nat)
    requires Started(g) && IsPlan(g, h, plan) && Coherent(db) && Agrees(g, h, plan, db)
    requires !Over(db.run.status) && Everything(order, |db.steps|)
    ensures Agrees(g, h, plan, AdvanceRun(db, order, now))
  {
    var db' := AdvanceRun(db, order, now);
    forall i | 0 <= i < |db.steps| ensures StepAgrees(h, plan, i, db'.steps[i]) {
      AdvancedStepAgrees(g, h, plan, db, order, now, i);
    }
    forall k | 0 <= k < |db'.deps| ensures db'.deps[k].from < |db'.steps| && DepAgrees(plan, db'.steps, db'.deps[k]) {
      var j := db.deps[k].from;
      assert db'.deps[k] == SettledDep(db.steps, db.deps, k);
      assert DepAgrees(plan, db.steps, db.deps[k]);
      AdvancedStatus(db, order, now, j);
      if Terminal(Fate(db.steps, db.deps, j)) {
        FateAgrees(g, h, plan, db, j);
      }
    }
  }

  // ── the theorem ──────────────────────────────────────────────────────────

  /** What a worker reports of its handler agrees with the plan. */
  lemma ReportAgrees(g: Db, h: Handlers, plan: seq<Planned>, s: Sys, l: Label, db': Db)
    requires Started(g) && IsPlan(g, h, plan) && Coherent(s.db) && Agrees(g, h, plan, s.db)
    requires Enabled(s, l) && Obeys(h, s, l) && WellFormed(s) && db' == Next(s, l).db
    requires l.Commit? || l.Raise? || l.RaiseWithOutput?
    requires s.db.steps[l.i].status.Running? && !Over(s.db.run.status)
    ensures Agrees(g, h, plan, db')
  {
    match l
    case Commit(i, result, now) =>
      if result.Suspend? {
        SuspendMoves(s.db, i, result, now);
        MoveAgrees(g, h, plan, s.db, db');
      } else {
        CommitAgrees(g, h, plan, s.db, i, result, now);
      }
    case Raise(i, _, now) => ErrorAgrees(g, h, plan, s.db, i, now);
    case RaiseWithOutput(i, output, now) => FailureAgrees(g, h, plan, s.db, i, output, now);
  }

  /** Claims, signals and sweeps move steps without deciding them. */
  lemma NextMoves(s: Sys, l: Label, db': Db)
    requires WellFormed(s) && Enabled(s, l) && !s.db.run.status.RunCancelled? && db' == Next(s, l).db
    requires l.ClaimStep? || l.SetUpStep? || l.Die? || l.SignalTx? || l.SweepTx?
    ensures StaysPut(s.db, db')
  {
    match l
    case ClaimStep(i, now) => ClaimMoves(s.db, i, now);
    case SetUpStep(i, now) => SetUpMoves(s.db, i, now);
    case SignalTx(kind, key, payload) => SignalMoves(s.db, kind, key, payload);
    case SweepTx(now) => SweepMoves(s.db, now);
    case Die(_) =>
  }

  lemma NextAgrees(g: Db, h: Handlers, plan: seq<Planned>, s: Sys, l: Label, db': Db)
    requires Started(g) && IsPlan(g, h, plan) && SysInv(s) && Agrees(g, h, plan, s.db)
    requires Enabled(s, l) && Obeys(h, s, l) && db' == Next(s, l).db
    requires !s.db.run.status.RunCancelled? && !db'.run.status.RunCancelled?
    ensures Agrees(g, h, plan, db')
  {
    if l.Commit? || l.Raise? || l.RaiseWithOutput? {
      RunningMeansLive(s, l.i);
      ReportAgrees(g, h, plan, s, l, db');
    } else if l.AdvanceTx? {
      if !Over(s.db.run.status) { AdvanceAgrees(g, h, plan, s.db, l.order, l.now); }
    } else if !l.CancelTx? && !l.NoticeCancel? {
      NextMoves(s, l, db');
      MoveAgrees(g, h, plan, s.db, db');
    }
  }

  lemma {:induction false} RunsAgree(g: Db, h: Handlers, plan: seq<Planned>, s: Sys, trace: seq<Label>, s': Sys)
    requires Started(g) && IsPlan(g, h, plan) && SysInv(s) && Agrees(g, h, plan, s.db)
    requires Runs(s, trace, s') && AllObey(h, s, trace) && !s'.db.run.status.RunCancelled?
    ensures Agrees(g, h, plan, s'.db)
    decreases |trace|
  {
    if trace != [] {
      var m := Next(s, trace[0]);
      NextKeepsInv(s, trace[0]);
      if s.db.run.status.RunCancelled? { CancelledStays(s, trace, s'); }
      if m.db.run.status.RunCancelled? { CancelledStays(m, trace[1..], s'); }
      NextAgrees(g, h, plan, s, trace[0], m.db);
      RunsAgree(g, h, plan, m, trace[1..], s');
    }
  }

  ghost function PlannedStatus(plan: seq<Planned>, failRun: bool): RunStatus {
    if (exists i :: 0 <= i < |plan| && plan[i].status.Failed?) && failRun then RunFailed else RunCompleted
  }

  /** Every interleaving of claims, commits, retries, suspensions, signals, timers, reclaims and
      (repeated, lost or early) advances gives each finished step the status, inputs and output
      of one sequential pass; and a finished run the status the pass calls for. */
  lemma ScheduleIndependence(h: Handlers, s: Sys, trace: seq<Label>, s': Sys)
    requires Initial(s) && Runs(s, trace, s') && AllObey(h, s, trace) && !s'.db.run.status.RunCancelled?
    ensures var plan := Pass(s.db, h, |s.db.steps|);
            && |s'.db.steps| == |plan|
            && (forall i :: 0 <= i < |plan| && Terminal(s'.db.steps[i].status) ==>
                  && s'.db.steps[i].status == plan[i].status
                  && s'.db.steps[i].inputs == plan[i].inputs
                  && s'.db.steps[i].output == plan[i].output)
            && (Over(s'.db.run.status) ==>
                  && AllTerminal(s'.db.steps)
                  && s'.db.run.status == PlannedStatus(plan, s.db.run.failRun))
  {
    var plan := Pass(s.db, h, |s.db.steps|);
    PassIsPlan(s.db, h);
    InitialKeepsInv(s);
    StartAgrees(s.db, h, plan);
    RunsKeepInv(s, trace, s');
    RunsAgree(s.db, h, plan, s, trace, s');
    AgreementIsTheResult(s.db, h, plan, s'.db);
  }

  lemma AgreementIsTheResult(g: Db, h: Handlers, plan: seq<Planned>, db: Db)
    requires Started(g) && IsPlan(g, h, plan) && Agrees(g, h, plan, db) && Coherent(db)
    requires !db.run.status.RunCancelled?
    ensures forall i :: 0 <= i < |plan| && Terminal(db.steps[i].status) ==>
              && db.steps[i].status == plan[i].status
              && db.steps[i].inputs == plan[i].inputs
              && db.steps[i].output == plan[i].output
    ensures Over(db.run.status) ==> db.run.status == PlannedStatus(plan, g.run.failRun)
  {
  }

  /** Any two finished runs of the same graph under the same handlers leave every step alike. */
  lemma FinishedRunsAreEqual(h: Handlers, s: Sys, trace1: seq<Label>, s1: Sys, trace2: seq<Label>, s2: Sys)
    requires Initial(s)
    requires Runs(s, trace1, s1) && AllObey(h, s, trace1)
    requires Runs(s, trace2, s2) && AllObey(h, s, trace2)
    requires s1.db.run.status in {RunCompleted, RunFailed} && s2.db.run.status in {RunCompleted, RunFailed}
    ensures s1.db.run.status == s2.db.run.status && |s1.db.steps| == |s2.db.steps|
    ensures forall i :: 0 <= i < |s1.db.steps| ==>
              && s1.db.steps[i].status == s2.db.steps[i].status
              && s1.db.steps[i].inputs == s2.db.steps[i].inputs
              && s1.db.steps[i].output == s2.db.steps[i].output
  {
    ScheduleIndependence(h, s, trace1, s1);
    ScheduleIndependence(h, s, trace2, s2);
  }
}
