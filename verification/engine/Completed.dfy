/** The result of a completed run. */
module Completed {
  import opened Options
  import opened Rows
  import opened Ledger
  import opened RunResult
  import opened Advance
  import opened Invariants
  import opened System
  import opened Guarantees
  import opened Plan
  import opened Independence
  import opened Termination

  /** From a succeeded step, live edges lead forward to a succeeded leaf. */
  lemma {:induction false} LeafAhead(db: Db, i: nat)
    requires Coherent(db) && AllTerminal(db.steps) && !AnyFailed(db.steps)
    requires i < |db.steps| && db.steps[i].status.Succeeded?
    ensures exists v: nat :: Leaf(db.steps, db.deps, v)
    decreases |db.steps| - i
  {
    if HasLiveOut(db.deps, i) {
      var k :| 0 <= k < |db.deps| && db.deps[k].from == i && db.deps[k].live;
      var j := db.deps[k].to;
      assert History(db.steps, db.deps, j);
      LeafAhead(db, j);
    } else {
      assert Leaf(db.steps, db.deps, i);
    }
  }

  lemma FirstStepSucceeds(db: Db)
    requires Coherent(db) && AllTerminal(db.steps) && !AnyFailed(db.steps) && |db.steps| > 0
    ensures db.steps[0].status.Succeeded?
  {
    assert Root(db.deps, 0);
    assert History(db.steps, db.deps, 0);
  }

  /** The result is the output of a latest candidate, or absent when there is no candidate. */
  ghost predicate GoodResult(db: Db) {
    if SomeCandidate(db.steps, db.deps) then
      exists v: nat :: Winner(db.steps, db.deps, v) && db.run.result == db.steps[v].output
    else
      db.run.result.None?
  }

  ghost predicate ResultFits(db: Db) {
    db.run.status.RunCompleted? ==> GoodResult(db)
  }

  lemma CompletionPicksGood(db: Db, order: seq<nat>, now: nat)
    requires Coherent(db) && !Over(db.run.status) && Everything(order, |db.steps|)
    ensures ResultFits(AdvanceRun(db, order, now))
  {
    var db' := AdvanceRun(db, order, now);
    if db'.run.status.RunCompleted? {
      PickIsGood(db', order);
    }
  }

  lemma PickIsGood(db: Db, order: seq<nat>)
    requires Everything(order, |db.steps|) && db.run.result == PickResult(order, db.steps, db.deps)
    ensures GoodResult(db)
  {
    var v := PickIsWinner(order, db.steps, db.deps);
  }

  lemma NextKeepsResult(s: Sys, l: Label)
    requires SysInv(s) && Enabled(s, l) && ResultFits(s.db)
    ensures ResultFits(Next(s, l).db)
  {
    if s.db.run.status.RunCompleted? {
      FinishedIsFrozen(s, l);
    } else if l.AdvanceTx? && !Over(s.db.run.status) {
      CompletionPicksGood(s.db, l.order, l.now);
    }
  }

  lemma {:induction false} RunsKeepResult(s: Sys, trace: seq<Label>, s': Sys)
    requires SysInv(s) && ResultFits(s.db) && Runs(s, trace, s')
    ensures ResultFits(s'.db)
    decreases |trace|
  {
    if trace != [] {
      NextKeepsInv(s, trace[0]);
      NextKeepsResult(s, trace[0]);
      RunsKeepResult(Next(s, trace[0]), trace[1..], s');
    }
  }

  lemma GoodIsRight(db: Db)
    requires GoodResult(db)
    ensures RightResult(db.steps, db.deps, db.run.result)
  {
    if SomeCandidate(db.steps, db.deps) {
      var v: nat :| Winner(db.steps, db.deps, v) && db.run.result == db.steps[v].output;
      WinnerIsRight(db.steps, db.deps, v);
    } else {
      NoCandidateIsRight(db.steps, db.deps);
    }
  }

  /** Every reachable completed run has the result it should; when no step failed, there is one,
      and it is the output of a step that no live edge leaves. */
  lemma CompletedRunsHaveResult(s: Sys)
    requires Reachable(s) && s.db.run.status.RunCompleted?
    ensures GoodResult(s.db) && RightResult(s.db.steps, s.db.deps, s.db.run.result)
    ensures !AnyFailed(s.db.steps) ==>
              exists v: nat :: && Winner(s.db.steps, s.db.deps, v) && Leaf(s.db.steps, s.db.deps, v)
                               && s.db.run.result == s.db.steps[v].output && s.db.run.result.Some?
  {
    var s0: Sys, trace :| Initial(s0) && Runs(s0, trace, s);
    InitialKeepsInv(s0);
    RunsKeepInv(s0, trace, s);
    RunsKeepResult(s0, trace, s);
    GoodIsRight(s.db);
    if !AnyFailed(s.db.steps) {
      RunsKeepLength(s0, trace, s);
      FirstStepSucceeds(s.db);
      LeafAhead(s.db, 0);
      LeavesAreCandidates(s.db.steps, s.db.deps);
    }
  }

  lemma LeavesAreCandidates(steps: seq<RunStep>, deps: seq<StepDep>)
    requires exists i: nat :: Leaf(steps, deps, i)
    ensures SomeCandidate(steps, deps)
    ensures forall i: nat :: Candidate(steps, deps, i) ==> Leaf(steps, deps, i)
  {
    var i: nat :| Leaf(steps, deps, i);
    if j: nat :| VerdictLeaf(steps, deps, j) {
      assert Candidate(steps, deps, j);
    } else {
      assert Candidate(steps, deps, i);
    }
  }

  lemma {:induction false} RunsKeepLength(s: Sys, trace: seq<Label>, s': Sys)
    requires SysInv(s) && Runs(s, trace, s')
    ensures |s'.db.steps| == |s.db.steps|
    decreases |trace|
  {
    if trace != [] {
      NextKeepsInv(s, trace[0]);
      RunsKeepLength(Next(s, trace[0]), trace[1..], s');
    }
  }

  // ── what the result depends on ───────────────────────────────────────────

  lemma CompletionShowsResult(run: WorkflowRun, steps: seq<RunStep>, r: Option<Dict>, r': Option<Dict>, now: nat)
    requires !Over(run.status)
    ensures var a, b := Completion(run, steps, r, now), Completion(run, steps, r', now);
            b == a.(result := b.result) && (a == b <==> (a.status.RunCompleted? ==> r == r'))
  {
  }

  /** The order in which the queries return the rows shows in nothing but the result, and there
      exactly when two latest candidates of the completing run differ in output. */
  lemma RowOrderIsIrrelevant(db: Db, order: seq<nat>, now: nat)
    requires Coherent(db) && !Over(db.run.status) && Order(order, |db.steps|)
    ensures var a := AdvanceRun(db, order, now);
            && (forall order' :: Order(order', |db.steps|) ==>
                  var b := AdvanceRun(db, order', now); b == a.(run := a.run.(result := b.run.result)))
            && ((forall order' :: Order(order', |db.steps|) ==> AdvanceRun(db, order', now) == a)
                <==> (a.run.status.RunCompleted? ==> WinnersAgree(a.steps, a.deps)))
  {
    var a := AdvanceRun(db, order, now);
    forall order' | Order(order', |db.steps|)
      ensures var b := AdvanceRun(db, order', now);
              && b == a.(run := a.run.(result := b.run.result))
              && (b == a <==>
                    (a.run.status.RunCompleted? ==>
                       PickResult(order, a.steps, a.deps) == PickResult(order', a.steps, a.deps)))
    {
      CompletionShowsResult(db.run, a.steps, PickResult(order, a.steps, a.deps), PickResult(order', a.steps, a.deps),
                            now);
    }
    PickIgnoresRowOrder(a.steps, a.deps);
  }

  // ── the result and the schedule ──────────────────────────────────────────

  /** The rows as the sequential pass leaves them. */
  ghost predicate PlanCandidate(g: Db, plan: seq<Planned>, i: nat) {
    Candidate(PlanSteps(g, plan), PlanDeps(g, plan), i)
  }

  /** The candidates of a finished run are those of the plan, with the planned outputs. */
  lemma FinishedAsPlanned(g: Db, h: Handlers, plan: seq<Planned>, db: Db)
    requires Started(g) && IsPlan(g, h, plan) && Agrees(g, h, plan, db) && AllTerminal(db.steps)
    ensures forall i: nat :: Candidate(db.steps, db.deps, i) <==> PlanCandidate(g, plan, i)
    ensures forall i: nat :: i < |db.steps| ==> i < |plan| && db.steps[i].output == plan[i].output
  {
    var steps, deps := PlanSteps(g, plan), PlanDeps(g, plan);
    forall i | 0 <= i < |db.steps|
      ensures db.steps[i].status == steps[i].status && db.steps[i].output == steps[i].output
    {
      assert StepAgrees(h, plan, i, db.steps[i]);
    }
    forall k | 0 <= k < |db.deps| ensures db.deps[k].from == deps[k].from && db.deps[k].live == deps[k].live {
      assert DepAgrees(plan, db.steps, db.deps[k]);
    }
    SameCandidates(db.steps, db.deps, steps, deps);
  }

  lemma SameCandidates(steps: seq<RunStep>, deps: seq<StepDep>, steps': seq<RunStep>, deps': seq<StepDep>)
    requires |steps| == |steps'| && |deps| == |deps'|
    requires forall i :: 0 <= i < |steps| ==>
               && (steps[i].status.Succeeded? <==> steps'[i].status.Succeeded?)
               && steps[i].output == steps'[i].output
    requires forall k :: 0 <= k < |deps| ==> deps[k].from == deps'[k].from && deps[k].live == deps'[k].live
    ensures forall i: nat :: Candidate(steps, deps, i) <==> Candidate(steps', deps', i)
  {
    forall i: nat ensures Leaf(steps, deps, i) <==> Leaf(steps', deps', i) {
      assert HasLiveOut(deps, i) <==> HasLiveOut(deps', i);
    }
    forall i: nat ensures VerdictLeaf(steps, deps, i) <==> VerdictLeaf(steps', deps', i) {}
  }

  /** `trace` is a run of the graph under handlers h that completes in state s'. */
  ghost predicate Completes(h: Handlers, s: Sys, trace: seq<Label>, s': Sys) {
    Runs(s, trace, s') && AllObey(h, s, trace) && s'.db.run.status.RunCompleted?
  }

  lemma CompletedAgrees(h: Handlers, s: Sys, trace: seq<Label>, s': Sys)
    requires Initial(s) && Runs(s, trace, s') && AllObey(h, s, trace)
    requires s'.db.run.status.RunCompleted? || s'.db.run.status.RunFailed?
    ensures var plan := Pass(s.db, h, |s.db.steps|);
            && IsPlan(s.db, h, plan) && Agrees(s.db, h, plan, s'.db) && AllTerminal(s'.db.steps)
            && s'.db.run.status == PlannedStatus(plan, s.db.run.failRun)
  {
    var plan := Pass(s.db, h, |s.db.steps|);
    PassIsPlan(s.db, h);
    InitialKeepsInv(s);
    StartAgrees(s.db, h, plan);
    RunsKeepInv(s, trace, s');
    RunsAgree(s.db, h, plan, s, trace, s');
    AgreementIsTheResult(s.db, h, plan, s'.db);
  }

  /** A completed run's result is the planned output of a candidate of the plan. */
  lemma ResultIsPlanned(h: Handlers, s: Sys, trace: seq<Label>, s': Sys) returns (v: nat)
    requires Initial(s) && Completes(h, s, trace, s')
    ensures var plan := Pass(s.db, h, |s.db.steps|);
            if exists i: nat :: PlanCandidate(s.db, plan, i)
            then PlanCandidate(s.db, plan, v) && v < |plan| && s'.db.run.result == plan[v].output
            else s'.db.run.result.None?
  {
    var plan := Pass(s.db, h, |s.db.steps|);
    CompletedAgrees(h, s, trace, s');
    FinishedAsPlanned(s.db, h, plan, s'.db);
    CompletedRunsHaveResult(s');
    if SomeCandidate(s'.db.steps, s'.db.deps) {
      v :| Winner(s'.db.steps, s'.db.deps, v) && s'.db.run.result == s'.db.steps[v].output;
    } else {
      v := 0;
    }
  }

  /** Every candidate of the plan is the result of some complete run: one whose steps all finish
      at the same time and whose last query returns the candidate first. */
  lemma CandidateCanWin(h: Handlers, s: Sys, v: nat) returns (trace: seq<Label>, s': Sys)
    requires Initial(s)
    requires var plan := Pass(s.db, h, |s.db.steps|);
             PlanCandidate(s.db, plan, v) && PlannedStatus(plan, s.db.run.failRun).RunCompleted?
    ensures Completes(h, s, trace, s') && s'.db.run.result == Pass(s.db, h, |s.db.steps|)[v].output
  {
    var plan := Pass(s.db, h, |s.db.steps|);
    var order := Leading(v, |s.db.steps|);
    var script := Script(_ => 0, order);
    InitialKeepsInv(s);
    StartIsScripted(s, script);
    trace, s' := FinishFrom(h, s, script);
    RunsKeepScript(s, trace, s', script);
    CompletedAgrees(h, s, trace, s');
    FirstCandidateWins(s.db, h, plan, s', script, v);
  }

  lemma StartIsScripted(s: Sys, script: Script)
    requires Initial(s)
    ensures Scripted(s, script)
  {
    forall i | 0 <= i < |s.db.steps| ensures !s.db.steps[i].status.Succeeded? && !s.db.steps[i].status.Failed? {
      assert Fresh(s.db.steps[i], s.db.seed, Root(s.db.deps, i));
    }
  }

  lemma FirstCandidateWins(g: Db, h: Handlers, plan: seq<Planned>, s: Sys, script: Script, v: nat)
    requires Started(g) && IsPlan(g, h, plan) && Agrees(g, h, plan, s.db) && AllTerminal(s.db.steps)
    requires Scripted(s, script) && s.db.run.status.RunCompleted? && forall i :: script.clock(i) == 0
    requires PlanCandidate(g, plan, v)
    requires Everything(script.order, |s.db.steps|) && script.order != [] && script.order[0] == v
    ensures v < |plan| && s.db.run.result == plan[v].output
  {
    FinishedAsPlanned(g, h, plan, s.db);
    ZeroStampsWin(s.db.steps, s.db.deps, v);
    WinnerCanBePicked(script.order, s.db.steps, s.db.deps, v);
  }

  /** When all steps completed at the same time every candidate is a latest one. */
  lemma ZeroStampsWin(steps: seq<RunStep>, deps: seq<StepDep>, v: nat)
    requires forall i :: 0 <= i < |steps| && steps[i].status.Succeeded? ==> steps[i].completedAt == Some(0)
    requires Candidate(steps, deps, v)
    ensures Winner(steps, deps, v)
  {
  }

  /** All completed runs of the graph have the same result. */
  ghost predicate SameResult(h: Handlers, s: Sys) {
    forall trace1, s1: Sys, trace2, s2: Sys ::
      Completes(h, s, trace1, s1) && Completes(h, s, trace2, s2) ==> s1.db.run.result == s2.db.run.result
  }

  ghost predicate CandidatesAgree(g: Db, plan: seq<Planned>) {
    forall v: nat, w: nat :: PlanCandidate(g, plan, v) && PlanCandidate(g, plan, w) && v < |plan| && w < |plan| ==>
      plan[v].output == plan[w].output
  }

  lemma AgreementDecides(h: Handlers, s: Sys)
    requires Initial(s) && CandidatesAgree(s.db, Pass(s.db, h, |s.db.steps|))
    ensures SameResult(h, s)
  {
    forall trace1, s1: Sys, trace2, s2: Sys | Completes(h, s, trace1, s1) && Completes(h, s, trace2, s2)
      ensures s1.db.run.result == s2.db.run.result
    {
      var v := ResultIsPlanned(h, s, trace1, s1);
      var w := ResultIsPlanned(h, s, trace2, s2);
    }
  }

  lemma DisagreementShows(h: Handlers, s: Sys, v: nat, w: nat)
    requires Initial(s)
    requires var plan := Pass(s.db, h, |s.db.steps|);
             && PlanCandidate(s.db, plan, v) && PlanCandidate(s.db, plan, w) && v < |plan| && w < |plan|
             && plan[v].output != plan[w].output
             && PlannedStatus(plan, s.db.run.failRun).RunCompleted?
    ensures !SameResult(h, s)
  {
    var trace1, s1 := CandidateCanWin(h, s, v);
    var trace2, s2 := CandidateCanWin(h, s, w);
  }

  /** The result of a run does not depend on the schedule exactly when all candidates of the
      sequential pass have the same output. (A plan that fails completes no run at all.) */
  lemma ResultIsScheduleIndependent(h: Handlers, s: Sys)
    requires Initial(s)
    ensures var plan := Pass(s.db, h, |s.db.steps|);
            SameResult(h, s) <==>
              (PlannedStatus(plan, s.db.run.failRun).RunCompleted? ==> CandidatesAgree(s.db, plan))
  {
    var plan := Pass(s.db, h, |s.db.steps|);
    if !PlannedStatus(plan, s.db.run.failRun).RunCompleted? {
      forall trace, s': Sys | Completes(h, s, trace, s') ensures false {
        CompletedAgrees(h, s, trace, s');
      }
    } else if CandidatesAgree(s.db, plan) {
      AgreementDecides(h, s);
    } else {
      var v: nat, w: nat :| && PlanCandidate(s.db, plan, v) && PlanCandidate(s.db, plan, w)
                            && v < |plan| && w < |plan| && plan[v].output != plan[w].output;
      DisagreementShows(h, s, v, w);
    }
  }

  /** Two independent steps, each with its own verdict. */
  function Rivals(): Db {
    Db(WorkflowRun(RunRunning, None, true, None),
       [RunStep("a", Ready, 1, 1, 0, map[], None, None, None),
        RunStep("b", Ready, 1, 1, 0, map[], None, None, None)],
       [], [], map[])
  }

  function RivalVerdicts(i: nat, inputs: map<string, Dict>, attempt: nat): Answer {
    Succeeds(map["overall" := if i == 0 then "pass" else "fail"])
  }

  /** The result of a run may depend on the schedule: one graph, one set of handlers, and two
      complete runs, one that passes and one that fails. */
  lemma RivalsDiffer() returns (s: Sys, trace1: seq<Label>, s1: Sys, trace2: seq<Label>, s2: Sys)
    ensures Initial(s) && s.db == Rivals()
    ensures Completes(RivalVerdicts, s, trace1, s1) && s1.db.run.result == Some(map["overall" := "pass"])
    ensures Completes(RivalVerdicts, s, trace2, s2) && s2.db.run.result == Some(map["overall" := "fail"])
  {
    s := Sys(Rivals(), map[], [Tally(0, 0, 0, 0), Tally(0, 0, 0, 0)]);
    RivalsAreStarted();
    RivalsPlan();
    trace1, s1 := CandidateCanWin(RivalVerdicts, s, 0);
    trace2, s2 := CandidateCanWin(RivalVerdicts, s, 1);
  }

  lemma RivalsAreStarted()
    ensures Started(Rivals())
  {
    assert Open([], 0) == {} && Open([], 1) == {};
  }

  lemma RivalsPlan()
    ensures Started(Rivals())
    ensures var plan := Pass(Rivals(), RivalVerdicts, 2);
            && plan[0].output == Some(map["overall" := "pass"]) && plan[1].output == Some(map["overall" := "fail"])
            && PlanCandidate(Rivals(), plan, 0) && PlanCandidate(Rivals(), plan, 1)
            && PlannedStatus(plan, true).RunCompleted?
  {
    RivalsAreStarted();
    var g := Rivals();
    var plan := Pass(g, RivalVerdicts, 2);
    PassIsPlan(g, RivalVerdicts);
    assert Planlike(g, RivalVerdicts, plan, 0) && Planlike(g, RivalVerdicts, plan, 1);
    assert VerdictLeaf(PlanSteps(g, plan), PlanDeps(g, plan), 0);
    assert VerdictLeaf(PlanSteps(g, plan), PlanDeps(g, plan), 1);
  }
}
