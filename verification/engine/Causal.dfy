/** The result of a run whose clocks run forward along the edges: no step ends before a step it
    depends on. */
module Causal {
  import opened Rows
  import opened Ledger
  import opened RunResult
  import opened Advance
  import opened Transactions
  import opened Invariants
  import opened System
  import opened Plan
  import opened Independence
  import opened Progress
  import opened Termination
  import opened Completed

  /** The handler of the step was called and the step has ended. */
  predicate Ended(status: StepStatus) {
    status.Succeeded? || status.Failed?
  }

  /** Every parent of step i that has ended did so before `now`. */
  ghost predicate AfterParents(db: Db, i: nat, now: nat) {
    forall k :: 0 <= k < |db.deps| && db.deps[k].to == i && db.deps[k].from < |db.steps|
                && Ended(db.steps[db.deps[k].from].status) ==>
      Stamp(db.steps[db.deps[k].from]) < now
  }

  ghost predicate InTime(s: Sys, l: Label) {
    match l
    case Commit(i, _, now) => AfterParents(s.db, i, now)
    case Raise(i, _, now) => AfterParents(s.db, i, now)
    case RaiseWithOutput(i, _, now) => AfterParents(s.db, i, now)
    case _ => true
  }

  ghost predicate AllInTime(s: Sys, trace: seq<Label>)
    decreases |trace|
  {
    trace != [] ==>
      && WellFormed(s) && Enabled(s, trace[0])
      && InTime(s, trace[0])
      && AllInTime(Next(s, trace[0]), trace[1..])
  }

  // ── completion times follow the edges ────────────────────────────────────

  ghost predicate Forward(db: Db) {
    forall k :: 0 <= k < |db.deps| && db.deps[k].from < |db.steps| && db.deps[k].to < |db.steps|
                && Ended(db.steps[db.deps[k].from].status) && Ended(db.steps[db.deps[k].to].status) ==>
      Stamp(db.steps[db.deps[k].from]) < Stamp(db.steps[db.deps[k].to])
  }

  /** A step that ended has no parent still at work. */
  lemma EndedParents(db: Db, k: nat)
    requires Coherent(db) && k < |db.deps| && Ended(db.steps[db.deps[k].to].status)
    ensures Terminal(db.steps[db.deps[k].from].status)
  {
    assert History(db.steps, db.deps, db.deps[k].to);
    assert k !in Open(db.deps, db.deps[k].to);
  }

  /** Step i ends at time `now`, after its parents; nothing else does. */
  lemma EndKeepsForward(db: Db, i: nat, db': Db, now: nat)
    requires Coherent(db) && Forward(db) && i < |db.steps| == |db'.steps| && db.steps[i].status.Running?
    requires AfterParents(db, i, now)
    requires |db'.deps| == |db.deps|
    requires forall k :: 0 <= k < |db.deps| ==> db'.deps[k].from == db.deps[k].from && db'.deps[k].to == db.deps[k].to
    requires Ended(db'.steps[i].status) ==> Stamp(db'.steps[i]) == now
    requires forall j :: 0 <= j < |db.steps| && j != i ==>
               db'.steps[j].status == db.steps[j].status && db'.steps[j].completedAt == db.steps[j].completedAt
    ensures Forward(db')
  {
    forall k | 0 <= k < |db.deps| && Ended(db'.steps[db.deps[k].from].status) && Ended(db'.steps[db.deps[k].to].status)
      ensures Stamp(db'.steps[db.deps[k].from]) < Stamp(db'.steps[db.deps[k].to])
    {
      if db.deps[k].to != i {
        EndedParents(db, k);
      }
    }
  }

  lemma SameEndsKeepForward(db: Db, db': Db)
    requires Forward(db) && |db'.steps| == |db.steps| && |db'.deps| == |db.deps|
    requires forall k :: 0 <= k < |db.deps| ==> db'.deps[k].from == db.deps[k].from && db'.deps[k].to == db.deps[k].to
    requires forall j :: 0 <= j < |db.steps| && Ended(db'.steps[j].status) ==>
               Ended(db.steps[j].status) && db'.steps[j].completedAt == db.steps[j].completedAt
    ensures Forward(db')
  {
  }

  lemma CommitKeepsForward(db: Db, i: nat, result: HandlerResult, now: nat)
    requires Coherent(db) && Forward(db) && i < |db.steps| && db.steps[i].status.Running? && AfterParents(db, i, now)
    ensures Forward(CommitResult(db, i, result, now))
  {
    EndKeepsForward(db, i, CommitResult(db, i, result, now), now);
  }

  lemma FailureKeepsForward(db: Db, i: nat, definitive: bool, now: nat)
    requires Coherent(db) && Forward(db) && i < |db.steps| && db.steps[i].status.Running? && AfterParents(db, i, now)
    ensures Forward(FailStep(db, i, definitive, now))
  {
    EndKeepsForward(db, i, FailStep(db, i, definitive, now), now);
  }

  lemma PartialFailureKeepsForward(db: Db, i: nat, output: Dict, now: nat)
    requires Coherent(db) && Forward(db) && i < |db.steps| && db.steps[i].status.Running? && AfterParents(db, i, now)
    ensures Forward(FailWithOutput(db, i, output, now))
  {
    EndKeepsForward(db, i, FailWithOutput(db, i, output, now), now);
  }

  lemma AdvanceKeepsForward(db: Db, order: seq<nat>, now: nat)
    requires Coherent(db) && Forward(db) && Everything(order, |db.steps|)
    ensures Forward(AdvanceRun(db, order, now))
  {
    if !Over(db.run.status) {
      forall j | 0 <= j < |db.steps| && Ended(AdvanceRun(db, order, now).steps[j].status)
        ensures Ended(db.steps[j].status) && AdvanceRun(db, order, now).steps[j].completedAt == db.steps[j].completedAt
      {
        AdvancedMove(db, order, now, j);
      }
      SameEndsKeepForward(db, AdvanceRun(db, order, now));
    }
  }

  lemma MoveKeepsForward(db: Db, db': Db)
    requires Forward(db) && StaysPut(db, db')
    ensures Forward(db')
  {
    SameEndsKeepForward(db, db');
  }

  lemma NextKeepsForward(s: Sys, l: Label, db': Db)
    requires SysInv(s) && Enabled(s, l) && InTime(s, l) && Forward(s.db) && db' == Next(s, l).db
    requires !s.db.run.status.RunCancelled? && !db'.run.status.RunCancelled?
    ensures Forward(db')
  {
    if l.Commit? || l.Raise? || l.RaiseWithOutput? {
      RunningMeansLive(s, l.i);
      match l
      case Commit(i, result, now) => CommitKeepsForward(s.db, i, result, now);
      case Raise(i, definitive, now) => FailureKeepsForward(s.db, i, definitive, now);
      case RaiseWithOutput(i, output, now) => PartialFailureKeepsForward(s.db, i, output, now);
    } else if l.AdvanceTx? {
      AdvanceKeepsForward(s.db, l.order, l.now);
    } else if !l.CancelTx? && !l.NoticeCancel? {
      NextMoves(s, l, db');
      MoveKeepsForward(s.db, db');
    }
  }

  lemma {:induction false} RunsKeepForward(s: Sys, trace: seq<Label>, s': Sys)
    requires SysInv(s) && Runs(s, trace, s') && AllInTime(s, trace) && !s'.db.run.status.RunCancelled?
    requires Forward(s.db)
    ensures Forward(s'.db)
    decreases |trace|
  {
    if trace != [] {
      StaysUncancelled(s, trace, s');
      NextKeepsForward(s, trace[0], Next(s, trace[0]).db);
      RunsKeepForward(Next(s, trace[0]), trace[1..], s');
    }
  }

  // ── descent ──────────────────────────────────────────────────────────────

  /** A path of edges leads from step v to step j over steps that ended. */
  ghost predicate Descends(steps: seq<RunStep>, deps: seq<StepDep>, v: nat, j: nat)
    decreases j
  {
    exists k :: 0 <= k < |deps| && deps[k].to == j && deps[k].from < j && deps[k].from < |steps|
                && Ended(steps[deps[k].from].status)
                && (deps[k].from == v || Descends(steps, deps, v, deps[k].from))
  }

  lemma {:induction false} DescendantsEndLater(db: Db, v: nat, j: nat)
    requires Wired(db.steps, db.deps) && Forward(db) && v < |db.steps| && j < |db.steps| && Ended(db.steps[j].status)
    requires Descends(db.steps, db.deps, v, j)
    ensures Stamp(db.steps[v]) < Stamp(db.steps[j])
    decreases j
  {
    var k :| 0 <= k < |db.deps| && db.deps[k].to == j && db.deps[k].from < j && db.deps[k].from < |db.steps|
             && Ended(db.steps[db.deps[k].from].status)
             && (db.deps[k].from == v || Descends(db.steps, db.deps, v, db.deps[k].from));
    if db.deps[k].from != v {
      DescendantsEndLater(db, v, db.deps[k].from);
    }
  }

  lemma {:induction false} SameDescents(steps: seq<RunStep>, deps: seq<StepDep>,
                                        steps': seq<RunStep>, deps': seq<StepDep>, v: nat, j: nat)
    requires |steps| == |steps'| && |deps| == |deps'|
    requires forall i :: 0 <= i < |steps| ==> steps[i].status == steps'[i].status
    requires forall k :: 0 <= k < |deps| ==> deps[k].from == deps'[k].from && deps[k].to == deps'[k].to
    ensures Descends(steps, deps, v, j) <==> Descends(steps', deps', v, j)
    decreases j
  {
    forall k | 0 <= k < |deps| && deps[k].from < j
      ensures Descends(steps, deps, v, deps[k].from) <==> Descends(steps', deps', v, deps[k].from)
    {
      SameDescents(steps, deps, steps', deps', v, deps[k].from);
    }
  }

  ghost predicate PlanDescends(g: Db, plan: seq<Planned>, v: nat, j: nat) {
    Descends(PlanSteps(g, plan), PlanDeps(g, plan), v, j)
  }

  /** A candidate of the plan from which no other candidate descends. */
  ghost predicate Last(g: Db, plan: seq<Planned>, v: nat) {
    PlanCandidate(g, plan, v) && forall w: nat :: PlanCandidate(g, plan, w) ==> !PlanDescends(g, plan, v, w)
  }

  lemma FinishedDescents(g: Db, h: Handlers, plan: seq<Planned>, db: Db, v: nat, j: nat)
    requires Started(g) && IsPlan(g, h, plan) && Agrees(g, h, plan, db) && AllTerminal(db.steps)
    ensures Descends(db.steps, db.deps, v, j) <==> PlanDescends(g, plan, v, j)
  {
    forall i | 0 <= i < |db.steps| ensures db.steps[i].status == PlanSteps(g, plan)[i].status {
      assert StepAgrees(h, plan, i, db.steps[i]);
    }
    SameDescents(db.steps, db.deps, PlanSteps(g, plan), PlanDeps(g, plan), v, j);
  }

  // ── only a last candidate can win ────────────────────────────────────────

  lemma WinnerIsLast(g: Db, h: Handlers, plan: seq<Planned>, db: Db, v: nat)
    requires Started(g) && IsPlan(g, h, plan) && Agrees(g, h, plan, db) && AllTerminal(db.steps)
    requires Wired(db.steps, db.deps) && Forward(db) && Winner(db.steps, db.deps, v)
    ensures Last(g, plan, v) && v < |plan| && plan[v].output == db.steps[v].output
  {
    FinishedAsPlanned(g, h, plan, db);
    forall w: nat | PlanCandidate(g, plan, w) ensures !PlanDescends(g, plan, v, w) {
      assert Candidate(db.steps, db.deps, w);
      FinishedDescents(g, h, plan, db, v, w);
      if PlanDescends(g, plan, v, w) {
        DescendantsEndLater(db, v, w);
      }
    }
  }

  lemma StartIsForward(s: Sys)
    requires Initial(s)
    ensures Forward(s.db)
  {
    forall i | 0 <= i < |s.db.steps| ensures !Ended(s.db.steps[i].status) {
      assert Fresh(s.db.steps[i], s.db.seed, Root(s.db.deps, i));
    }
  }

  /** The result of a completed run in time is the planned output of a last candidate. */
  lemma ResultIsLast(h: Handlers, s: Sys, trace: seq<Label>, s': Sys) returns (v: nat)
    requires Initial(s) && Completes(h, s, trace, s') && AllInTime(s, trace)
    ensures var plan := Pass(s.db, h, |s.db.steps|);
            if exists i: nat :: PlanCandidate(s.db, plan, i)
            then Last(s.db, plan, v) && v < |plan| && s'.db.run.result == plan[v].output
            else s'.db.run.result.None?
  {
    var plan := Pass(s.db, h, |s.db.steps|);
    CompletedAgrees(h, s, trace, s');
    FinishedAsPlanned(s.db, h, plan, s'.db);
    CompletedRunsHaveResult(s');
    v := 0;
    if SomeCandidate(s'.db.steps, s'.db.deps) {
      v :| Winner(s'.db.steps, s'.db.deps, v) && s'.db.run.result == s'.db.steps[v].output;
      InitialKeepsInv(s);
      RunsKeepInv(s, trace, s');
      StartIsForward(s);
      RunsKeepForward(s, trace, s');
      WinnerIsLast(s.db, h, plan, s'.db, v);
    }
  }

  // ── every last candidate can win ─────────────────────────────────────────

  /** Steps end in topological order, v and its descendants after all others. */
  ghost function LateClock(g: Db, plan: seq<Planned>, v: nat): nat -> nat {
    (j: nat) => j + 1 + (if j == v || PlanDescends(g, plan, v, j) then |g.steps| else 0)
  }

  lemma LateClockIsForward(g: Db, plan: seq<Planned>, v: nat, k: nat)
    requires Started(g) && |plan| == |g.steps| && k < |g.deps| && Ended(plan[g.deps[k].from].status)
    ensures LateClock(g, plan, v)(g.deps[k].from) < LateClock(g, plan, v)(g.deps[k].to)
  {
    var p, i := g.deps[k].from, g.deps[k].to;
    assert PlanDeps(g, plan)[k].to == i && PlanDeps(g, plan)[k].from == p;
    if p == v || PlanDescends(g, plan, v, p) {
      assert PlanDescends(g, plan, v, i);
    }
  }

  lemma ScriptIsInTime(g: Db, h: Handlers, plan: seq<Planned>, s: Sys, v: nat, script: Script, i: nat)
    requires Started(g) && IsPlan(g, h, plan) && Agrees(g, h, plan, s.db)
    requires Scripted(s, script) && script.clock == LateClock(g, plan, v) && i < |s.db.steps|
    ensures AfterParents(s.db, i, script.clock(i))
  {
    forall k | 0 <= k < |s.db.deps| && s.db.deps[k].to == i && Ended(s.db.steps[s.db.deps[k].from].status)
      ensures Stamp(s.db.steps[s.db.deps[k].from]) < script.clock(i)
    {
      assert StepAgrees(h, plan, s.db.deps[k].from, s.db.steps[s.db.deps[k].from]);
      LateClockIsForward(g, plan, v, k);
    }
  }

  lemma LabelIsInTime(g: Db, h: Handlers, plan: seq<Planned>, s: Sys, l: Label, v: nat, script: Script)
    requires Started(g) && IsPlan(g, h, plan) && WellFormed(s) && Agrees(g, h, plan, s.db)
    requires Enabled(s, l) && Smooth(l, script)
    requires Scripted(s, script) && script.clock == LateClock(g, plan, v)
    ensures InTime(s, l)
  {
    if l.Commit? || l.Raise? || l.RaiseWithOutput? {
      ScriptIsInTime(g, h, plan, s, v, script, l.i);
    }
  }

  lemma {:induction false} ScriptedRunsAreInTime(g: Db, h: Handlers, plan: seq<Planned>, s: Sys, trace: seq<Label>,
                                                 s': Sys, v: nat, script: Script)
    requires Started(g) && IsPlan(g, h, plan) && SysInv(s) && Agrees(g, h, plan, s.db)
    requires Runs(s, trace, s') && AllObey(h, s, trace) && AllSmooth(trace, script)
    requires !s'.db.run.status.RunCancelled?
    requires Scripted(s, script) && script.clock == LateClock(g, plan, v)
    ensures AllInTime(s, trace)
    decreases |trace|
  {
    if trace != [] {
      var l, m := trace[0], Next(s, trace[0]);
      assert Smooth(l, script);
      LabelIsInTime(g, h, plan, s, l, v, script);
      StaysUncancelled(s, trace, s');
      NextKeepsScript(s, l, script);
      NextAgrees(g, h, plan, s, l, m.db);
      assert forall p :: 0 <= p < |trace[1..]| ==> trace[1..][p] == trace[p + 1];
      ScriptedRunsAreInTime(g, h, plan, m, trace[1..], s', v, script);
    }
  }

  /** Under that clock v is the one latest candidate. */
  lemma LateClockWins(g: Db, h: Handlers, plan: seq<Planned>, s: Sys, v: nat, script: Script)
    requires Started(g) && IsPlan(g, h, plan) && Agrees(g, h, plan, s.db) && AllTerminal(s.db.steps)
    requires Scripted(s, script) && script.clock == LateClock(g, plan, v) && s.db.run.status.RunCompleted?
    requires Last(g, plan, v) && Everything(script.order, |s.db.steps|)
    ensures v < |plan| && s.db.run.result == plan[v].output
  {
    FinishedAsPlanned(g, h, plan, s.db);
    assert Candidate(s.db.steps, s.db.deps, v) && v < |s.db.steps|;
    forall w: nat | Candidate(s.db.steps, s.db.deps, w) && w < |s.db.steps| && w != v
      ensures Stamp(s.db.steps[w]) < Stamp(s.db.steps[v])
    {
      assert PlanCandidate(g, plan, w) && !PlanDescends(g, plan, v, w);
    }
    var w := PickIsWinner(script.order, s.db.steps, s.db.deps);
  }

  lemma LastCanWin(h: Handlers, s: Sys, v: nat) returns (trace: seq<Label>, s': Sys)
    requires Initial(s)
    requires var plan := Pass(s.db, h, |s.db.steps|);
             Last(s.db, plan, v) && PlannedStatus(plan, s.db.run.failRun).RunCompleted?
    ensures Completes(h, s, trace, s') && AllInTime(s, trace)
    ensures s'.db.run.result == Pass(s.db, h, |s.db.steps|)[v].output
  {
    var plan := Pass(s.db, h, |s.db.steps|);
    PassIsPlan(s.db, h);
    var order := Ascending(|s.db.steps|);
    var script := Script(LateClock(s.db, plan, v), order);
    InitialKeepsInv(s);
    StartIsScripted(s, script);
    StartAgrees(s.db, h, plan);
    trace, s' := FinishFrom(h, s, script);
    ScriptedRunsAreInTime(s.db, h, plan, s, trace, s', v, script);
    RunsKeepScript(s, trace, s', script);
    CompletedAgrees(h, s, trace, s');
    LateClockWins(s.db, h, plan, s', v, script);
  }

  // ── the theorem ──────────────────────────────────────────────────────────

  /** All completed runs in time have the same result. */
  ghost predicate SameResultInTime(h: Handlers, s: Sys) {
    forall trace1, s1: Sys, trace2, s2: Sys ::
      Completes(h, s, trace1, s1) && AllInTime(s, trace1) && Completes(h, s, trace2, s2) && AllInTime(s, trace2) ==>
        s1.db.run.result == s2.db.run.result
  }

  ghost predicate LastAgree(g: Db, plan: seq<Planned>) {
    forall v: nat, w: nat :: Last(g, plan, v) && Last(g, plan, w) && v < |plan| && w < |plan| ==>
      plan[v].output == plan[w].output
  }

  lemma LastAgreementDecides(h: Handlers, s: Sys)
    requires Initial(s) && LastAgree(s.db, Pass(s.db, h, |s.db.steps|))
    ensures SameResultInTime(h, s)
  {
    forall trace1, s1: Sys, trace2, s2: Sys
      | Completes(h, s, trace1, s1) && AllInTime(s, trace1) && Completes(h, s, trace2, s2) && AllInTime(s, trace2)
      ensures s1.db.run.result == s2.db.run.result
    {
      var v := ResultIsLast(h, s, trace1, s1);
      var w := ResultIsLast(h, s, trace2, s2);
    }
  }

  lemma LastDisagreementShows(h: Handlers, s: Sys, v: nat, w: nat)
    requires Initial(s)
    requires var plan := Pass(s.db, h, |s.db.steps|);
             && Last(s.db, plan, v) && Last(s.db, plan, w) && v < |plan| && w < |plan|
             && plan[v].output != plan[w].output
             && PlannedStatus(plan, s.db.run.failRun).RunCompleted?
    ensures !SameResultInTime(h, s)
  {
    var trace1, s1 := LastCanWin(h, s, v);
    var trace2, s2 := LastCanWin(h, s, w);
  }

  /** When every step ends after its parents, the result does not depend on the schedule exactly
      when all candidates from which no other candidate descends have the same output. */
  lemma ResultInTimeIsScheduleIndependent(h: Handlers, s: Sys)
    requires Initial(s)
    ensures var plan := Pass(s.db, h, |s.db.steps|);
            SameResultInTime(h, s) <==>
              (PlannedStatus(plan, s.db.run.failRun).RunCompleted? ==> LastAgree(s.db, plan))
  {
    var plan := Pass(s.db, h, |s.db.steps|);
    if !PlannedStatus(plan, s.db.run.failRun).RunCompleted? {
      forall trace, s': Sys | Completes(h, s, trace, s') ensures false {
        CompletedAgrees(h, s, trace, s');
      }
    } else if LastAgree(s.db, plan) {
      LastAgreementDecides(h, s);
    } else {
      var v: nat, w: nat :| && Last(s.db, plan, v) && Last(s.db, plan, w)
                            && v < |plan| && w < |plan| && plan[v].output != plan[w].output;
      LastDisagreementShows(h, s, v, w);
    }
  }
}
