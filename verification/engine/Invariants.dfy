/** The engine invariant and its preservation by every transaction. */
module Invariants {
  import opened Rows
  import opened Ledger
  import opened Fixpoint
  import opened RunResult
  import opened Advance
  import opened Transactions

  predicate Busy(status: StepStatus) {
    status.Ready? || status.Running? || status.Waiting?
  }

  /** Holds in every state, cancelled runs included. */
  ghost predicate Ledgered(db: Db) {
    && Wired(db.steps, db.deps)
    && Counted(db.steps, db.deps)
    && (forall i :: 0 <= i < |db.steps| ==> 1 <= db.steps[i].attempt <= db.steps[i].maxAttempts)
    && (forall e :: 0 <= e < |db.events| ==> db.events[e].step < |db.steps|)
  }

  /** Armed events and waiting steps are in one-to-one correspondence. */
  ghost predicate Paired(db: Db) {
    && (forall e :: 0 <= e < |db.events| && db.events[e].status.Armed? && db.events[e].step < |db.steps| ==>
          db.steps[db.events[e].step].status.Waiting?)
    && (forall e, f :: 0 <= e < f < |db.events| && db.events[e].status.Armed? && db.events[f].status.Armed? ==>
          db.events[e].step != db.events[f].step)
    && (forall i :: 0 <= i < |db.steps| && db.steps[i].status.Waiting? ==> HasArmed(db, i))
  }

  ghost predicate HasArmed(db: Db, i: nat) {
    exists e :: 0 <= e < |db.events| && db.events[e].status.Armed? && db.events[e].step == i
  }

  ghost predicate AllTerminal(steps: seq<RunStep>) {
    forall i :: 0 <= i < |steps| ==> Terminal(steps[i].status)
  }

  /** Holds in every state of a run that has not been cancelled. */
  ghost predicate Coherent(db: Db) {
    && Ledgered(db)
    && Flagged(db.steps, db.deps)
    && AllDelivered(db.seed, db.steps, db.deps)
    && Histories(db.steps, db.deps)
    && Paired(db)
    && (forall i :: 0 <= i < |db.steps| ==> db.steps[i].status.Running? ==> db.steps[i].lease.Some?)
    && (forall i :: 0 <= i < |db.steps| ==> db.steps[i].status.Succeeded? ==> db.steps[i].output.Some?)
    && (Over(db.run.status) ==> AllTerminal(db.steps))
  }

  ghost predicate Sound(db: Db) {
    Ledgered(db) && (!db.run.status.RunCancelled? ==> Coherent(db))
  }

  // ── moves between ready, running and waiting ─────────────────────────────

  /** `steps'` differs from `steps` only in the status, attempt and lease of busy steps. */
  ghost predicate BusyMove(steps: seq<RunStep>, steps': seq<RunStep>) {
    && |steps'| == |steps|
    && (forall j :: 0 <= j < |steps| ==>
          || steps'[j] == steps[j]
          || (&& Busy(steps[j].status) && Busy(steps'[j].status)
              && steps'[j] ==
                 steps[j].(status := steps'[j].status, attempt := steps'[j].attempt, lease := steps'[j].lease)))
  }

  lemma BusyMoveKeepsFeeds(steps: seq<RunStep>, steps': seq<RunStep>, deps: seq<StepDep>, i: nat)
    requires BusyMove(steps, steps')
    ensures forall k: nat :: Feeds(steps', deps, k, i) <==> Feeds(steps, deps, k, i)
    ensures Fed(steps', deps, i) <==> Fed(steps, deps, i)
  {
  }

  lemma BusyMoveKeepsInputs(seed: map<string, Dict>, steps: seq<RunStep>, steps': seq<RunStep>, deps: seq<StepDep>)
    requires BusyMove(steps, steps')
    requires AllDelivered(seed, steps, deps)
    ensures AllDelivered(seed, steps', deps)
  {
    forall i | 0 <= i < |steps| ensures Delivers(seed, steps', deps, i, steps'[i].inputs) {
      BusyMoveKeepsFeeds(steps, steps', deps, i);
      DeliversAlike(seed, steps, deps, steps', deps, i, steps[i].inputs);
    }
  }

  lemma BusyMoveKeepsHistories(steps: seq<RunStep>, steps': seq<RunStep>, deps: seq<StepDep>)
    requires BusyMove(steps, steps')
    requires Histories(steps, deps)
    ensures Histories(steps', deps)
  {
    forall i | 0 <= i < |steps| ensures History(steps', deps, i) {
      BusyMoveKeepsFeeds(steps, steps', deps, i);
      assert History(steps, deps, i);
    }
  }

  lemma BusyMoveKeepsRows(seed: map<string, Dict>, steps: seq<RunStep>, steps': seq<RunStep>, deps: seq<StepDep>)
    requires BusyMove(steps, steps')
    requires Wired(steps, deps) && Counted(steps, deps) && Flagged(steps, deps)
    requires AllDelivered(seed, steps, deps) && Histories(steps, deps)
    ensures Wired(steps', deps) && Counted(steps', deps) && Flagged(steps', deps)
    ensures AllDelivered(seed, steps', deps) && Histories(steps', deps)
  {
    BusyMoveKeepsInputs(seed, steps, steps', deps);
    BusyMoveKeepsHistories(steps, steps', deps);
  }

  /** Busy moves that park or wake nobody keep the suspensions paired. */
  lemma PairedAcrossMove(db: Db, db': Db)
    requires Paired(db) && db'.events == db.events && |db'.steps| == |db.steps|
    requires forall i :: 0 <= i < |db.steps| ==> (db'.steps[i].status.Waiting? <==> db.steps[i].status.Waiting?)
    ensures Paired(db')
  {
  }

  lemma ClaimKeepsSound(db: Db, i: nat, now: nat)
    requires Sound(db)
    ensures Sound(Claim(db, i, now))
  {
    var db' := Claim(db, i, now);
    if !db.run.status.RunCancelled? {
      BusyMoveKeepsRows(db.seed, db.steps, db'.steps, db.deps);
      PairedAcrossMove(db, db');
    }
  }

  lemma DropKeepsLedger(db: Db, i: nat, now: nat)
    requires Ledgered(db) && i < |db.steps| && db.run.status.RunCancelled?
    ensures Ledgered(SetUp(db, i, now))
  {
  }

  lemma SetUpKeepsSound(db: Db, i: nat, now: nat)
    requires Sound(db) && i < |db.steps|
    ensures Sound(SetUp(db, i, now))
  {
    if db.run.status.RunCancelled? {
      DropKeepsLedger(db, i, now);
    } else {
      PairedAcrossMove(db, SetUp(db, i, now));
    }
  }

  // ── a running step ends ──────────────────────────────────────────────────

  /** Step i, still running, becomes terminal; its outgoing edges may be pruned. */
  ghost predicate Ends(steps: seq<RunStep>, deps: seq<StepDep>, i: nat, steps': seq<RunStep>, deps': seq<StepDep>) {
    && i < |steps| && |steps'| == |steps| && |deps'| == |deps|
    && Busy(steps[i].status)
    && (steps'[i].status.Succeeded? || steps'[i].status.Failed?)
    && steps'[i] == steps[i].(status := steps'[i].status, output := steps'[i].output,
                              completedAt := steps'[i].completedAt, depsRemaining := steps'[i].depsRemaining)
    && (forall j :: 0 <= j < |steps| && j != i ==> steps'[j] == steps[j].(depsRemaining := steps'[j].depsRemaining))
    && (forall k :: 0 <= k < |deps| ==> deps'[k] == deps[k].(live := deps'[k].live))
    && (forall k :: 0 <= k < |deps| && deps'[k] != deps[k] ==>
          deps[k].from == i && deps[k].live && !deps'[k].live && steps'[i].status.Succeeded?)
  }

  lemma EndKeepsFeeds(steps: seq<RunStep>, deps: seq<StepDep>, i: nat, steps': seq<RunStep>, deps': seq<StepDep>,
                      j: nat)
    requires Ends(steps, deps, i, steps', deps')
    requires Wired(steps, deps) && Flagged(steps, deps)
    ensures forall k: nat :: Feeds(steps', deps', k, j) <==> Feeds(steps, deps, k, j)
    ensures Fed(steps', deps', j) <==> Fed(steps, deps, j)
  {
  }

  lemma EndKeepsInputs(seed: map<string, Dict>, steps: seq<RunStep>, deps: seq<StepDep>, i: nat,
                       steps': seq<RunStep>, deps': seq<StepDep>)
    requires Ends(steps, deps, i, steps', deps')
    requires Wired(steps, deps) && Flagged(steps, deps) && AllDelivered(seed, steps, deps)
    ensures AllDelivered(seed, steps', deps')
  {
    forall j | 0 <= j < |steps| ensures Delivers(seed, steps', deps', j, steps'[j].inputs) {
      EndKeepsFeeds(steps, deps, i, steps', deps', j);
      DeliversAlike(seed, steps, deps, steps', deps', j, steps[j].inputs);
    }
  }

  lemma EndKeepsHistories(steps: seq<RunStep>, deps: seq<StepDep>, i: nat, steps': seq<RunStep>, deps': seq<StepDep>)
    requires Ends(steps, deps, i, steps', deps')
    requires Wired(steps, deps) && Flagged(steps, deps) && Histories(steps, deps)
    ensures Histories(steps', deps') && Flagged(steps', deps')
  {
    assert forall k :: 0 <= k < |deps| ==> deps'[k].to == deps[k].to;
    forall j | 0 <= j < |steps| ensures History(steps', deps', j) {
      EndKeepsFeeds(steps, deps, i, steps', deps', j);
      assert History(steps, deps, j);
      assert Open(deps', j) <= Open(deps, j);
      assert Root(deps', j) <==> Root(deps, j);
      if steps[j].status.Skipped? {
        forall k | 0 <= k < |deps'| && deps'[k].to == j && deps'[k].live
          ensures DeadEnd(steps'[deps'[k].from].status)
        {
          assert deps'[k] == deps[k];
        }
      }
    }
  }

  lemma EndKeepsRows(seed: map<string, Dict>, steps: seq<RunStep>, deps: seq<StepDep>, i: nat,
                     steps': seq<RunStep>, deps': seq<StepDep>)
    requires Ends(steps, deps, i, steps', deps')
    requires Wired(steps, deps) && Flagged(steps, deps)
    requires AllDelivered(seed, steps, deps) && Histories(steps, deps)
    ensures Wired(steps', deps') && Flagged(steps', deps')
    ensures AllDelivered(seed, steps', deps') && Histories(steps', deps')
  {
    EndKeepsInputs(seed, steps, deps, i, steps', deps');
    EndKeepsHistories(steps, deps, i, steps', deps');
  }

  lemma SuccessEnds(db: Db, i: nat, result: HandlerResult, now: nat)
    requires i < |db.steps| && !result.Suspend? && db.steps[i].status.Running?
    requires Flagged(db.steps, db.deps)
    ensures var db' := CommitResult(db, i, result, now); Ends(db.steps, db.deps, i, db'.steps, db'.deps)
  {
  }

  lemma SuccessKeepsPaired(db: Db, i: nat, result: HandlerResult, now: nat)
    requires Paired(db) && i < |db.steps| && !result.Suspend? && db.steps[i].status.Running?
    ensures Paired(CommitResult(db, i, result, now))
  {
  }

  lemma SucceedKeepsSound(db: Db, i: nat, result: HandlerResult, now: nat)
    requires Sound(db) && i < |db.steps| && !result.Suspend?
    requires !db.run.status.RunCancelled? ==> db.steps[i].status.Running?
    ensures Sound(CommitResult(db, i, result, now))
  {
    var db' := CommitResult(db, i, result, now);
    assert |db'.steps| == |db.steps| && |db'.deps| == |db.deps|;
    if !db.run.status.RunCancelled? {
      SuccessEnds(db, i, result, now);
      SuccessKeepsPaired(db, i, result, now);
      EndKeepsRows(db.seed, db.steps, db.deps, i, db'.steps, db'.deps);
    }
  }

  lemma RetryKeepsSound(db: Db, i: nat, now: nat)
    requires Coherent(db) && !db.run.status.RunCancelled? && i < |db.steps| && db.steps[i].status.Running?
    requires Retries(db.steps[i], false)
    ensures Coherent(FailStep(db, i, false, now))
  {
    var db' := FailStep(db, i, false, now);
    BusyMoveKeepsRows(db.seed, db.steps, db'.steps, db.deps);
    PairedAcrossMove(db, db');
  }

  lemma FailureKeepsSound(db: Db, i: nat, definitive: bool, now: nat)
    requires Coherent(db) && !db.run.status.RunCancelled? && i < |db.steps| && db.steps[i].status.Running?
    requires !Retries(db.steps[i], definitive)
    ensures Coherent(FailStep(db, i, definitive, now))
  {
    var db' := FailStep(db, i, definitive, now);
    EndKeepsRows(db.seed, db.steps, db.deps, i, db'.steps, db.deps);
    PairedAcrossMove(db, db');
  }

  lemma FailKeepsSound(db: Db, i: nat, definitive: bool, now: nat)
    requires Sound(db) && i < |db.steps|
    requires !db.run.status.RunCancelled? ==> db.steps[i].status.Running?
    ensures Sound(FailStep(db, i, definitive, now))
  {
    if !db.run.status.RunCancelled? {
      if Retries(db.steps[i], definitive) {
        RetryKeepsSound(db, i, now);
      } else {
        FailureKeepsSound(db, i, definitive, now);
      }
    }
  }

  lemma FailWithOutputKeepsSound(db: Db, i: nat, output: Dict, now: nat)
    requires Sound(db) && i < |db.steps|
    requires !db.run.status.RunCancelled? ==> db.steps[i].status.Running?
    ensures Sound(FailWithOutput(db, i, output, now))
  {
    var db' := FailWithOutput(db, i, output, now);
    if !db.run.status.RunCancelled? {
      EndKeepsRows(db.seed, db.steps, db.deps, i, db'.steps, db.deps);
    }
  }

  lemma AbandonKeepsSound(db: Db, i: nat, now: nat)
    requires Sound(db) && i < |db.steps| && db.run.status.RunCancelled?
    ensures Sound(Abandon(db, i, now))
  {
  }

  // ── suspend and wake-up ──────────────────────────────────────────────────

  lemma SuspendKeepsPaired(db: Db, i: nat, result: HandlerResult, now: nat)
    requires Paired(db) && i < |db.steps| && result.Suspend? && db.steps[i].status.Running?
    requires forall e :: 0 <= e < |db.events| ==> db.events[e].step < |db.steps|
    ensures Paired(CommitResult(db, i, result, now))
  {
    var db' := CommitResult(db, i, result, now);
    assert db'.events[|db.events|].step == i;
    forall j | 0 <= j < |db.steps| && db'.steps[j].status.Waiting? ensures HasArmed(db', j) {
      if j != i {
        var e :| 0 <= e < |db.events| && db.events[e].status.Armed? && db.events[e].step == j;
        assert db'.events[e] == db.events[e];
      }
    }
  }

  lemma SuspendKeepsSound(db: Db, i: nat, result: HandlerResult, now: nat)
    requires Sound(db) && i < |db.steps| && result.Suspend?
    requires !db.run.status.RunCancelled? ==> db.steps[i].status.Running?
    ensures Sound(CommitResult(db, i, result, now))
  {
    var db' := CommitResult(db, i, result, now);
    assert db'.events[..|db.events|] == db.events;
    if !db.run.status.RunCancelled? {
      BusyMoveKeepsRows(db.seed, db.steps, db'.steps, db.deps);
      SuspendKeepsPaired(db, i, result, now);
    }
  }

  /** A waiting step whose event did not fire keeps it. */
  lemma UnfiredStaysArmed(db: Db, hits: set<nat>, payload: Dict, i: nat)
    requires Paired(db) && i < |db.steps|
    ensures var db' := Fire(db, hits, payload); db'.steps[i].status.Waiting? ==> HasArmed(db', i)
  {
    var db' := Fire(db, hits, payload);
    if db'.steps[i].status.Waiting? {
      assert HasArmed(db, i);
      var e :| 0 <= e < |db.events| && db.events[e].status.Armed? && db.events[e].step == i;
      assert e !in hits;
      assert db'.events[e] == db.events[e];
    }
  }

  lemma StillArmedStillWaits(db: Db, hits: set<nat>, payload: Dict, e: nat)
    requires Paired(db) && e < |db.events| && db.events[e].step < |db.steps|
    requires forall f :: f in hits ==> f < |db.events| && db.events[f].status.Armed?
    ensures var db' := Fire(db, hits, payload);
            db'.events[e].status.Armed? ==> db.events[e].status.Armed? && db'.steps[db.events[e].step].status.Waiting?
  {
    if Fire(db, hits, payload).events[e].status.Armed? {
      assert e !in hits;
      assert !Hit(db.events, hits, db.events[e].step);
    }
  }

  lemma FireKeepsPaired(db: Db, hits: set<nat>, payload: Dict)
    requires Paired(db) && forall e :: 0 <= e < |db.events| ==> db.events[e].step < |db.steps|
    requires forall e :: e in hits ==> e < |db.events| && db.events[e].status.Armed?
    ensures Paired(Fire(db, hits, payload))
  {
    var db' := Fire(db, hits, payload);
    forall e | 0 <= e < |db'.events|
      ensures db'.events[e].step == db.events[e].step
      ensures db'.events[e].status.Armed? ==> db.events[e].status.Armed? && db'.steps[db.events[e].step].status.Waiting?
    {
      StillArmedStillWaits(db, hits, payload, e);
    }
    forall i | 0 <= i < |db'.steps| && db'.steps[i].status.Waiting? ensures HasArmed(db', i) {
      UnfiredStaysArmed(db, hits, payload, i);
    }
  }

  lemma FireKeepsSound(db: Db, hits: set<nat>, payload: Dict)
    requires Sound(db)
    requires forall e :: e in hits ==> e < |db.events| && db.events[e].status.Armed?
    ensures Sound(Fire(db, hits, payload))
  {
    var db' := Fire(db, hits, payload);
    if !db.run.status.RunCancelled? {
      BusyMoveKeepsRows(db.seed, db.steps, db'.steps, db.deps);
      FireKeepsPaired(db, hits, payload);
    }
  }

  lemma ReclaimKeepsSound(db: Db, now: nat)
    requires Sound(db)
    ensures Sound(Reclaim(db, now))
  {
    var db' := Reclaim(db, now);
    if !db.run.status.RunCancelled? {
      BusyMoveKeepsRows(db.seed, db.steps, db'.steps, db.deps);
      PairedAcrossMove(db, db');
    }
  }

  lemma SweepKeepsSound(db: Db, now: nat)
    requires Sound(db)
    ensures Sound(Sweep(db, now))
  {
    ReclaimKeepsSound(db, now);
    FireKeepsSound(Reclaim(db, now), DueEvents(db.events, now), map[]);
  }

  lemma CancelKeepsSound(db: Db, now: nat)
    requires Sound(db)
    ensures Sound(CancelRun(db, now))
  {
  }

  // ── advance ──────────────────────────────────────────────────────────────

  /** The statuses advance leaves: fates, with the cleared pending steps promoted. */
  lemma AdvancedStatus(db: Db, order: seq<nat>, now: nat, i: nat)
    requires Coherent(db) && !Over(db.run.status) && Everything(order, |db.steps|) && i < |db.steps|
    ensures var fate := Fate(db.steps, db.deps, i);
            var status := AdvanceRun(db, order, now).steps[i].status;
            && (status == fate || (fate.Pending? && status.Ready?))
            && (status.Succeeded? <==> db.steps[i].status.Succeeded?)
            && (!db.steps[i].status.Pending? ==> status == db.steps[i].status)
  {
  }

  /** Advance only ever readies or skips a step, and keeps its attempts and output. */
  lemma AdvancedMove(db: Db, order: seq<nat>, now: nat, i: nat)
    requires Coherent(db) && !Over(db.run.status) && Everything(order, |db.steps|) && i < |db.steps|
    ensures var step, step' := db.steps[i], AdvanceRun(db, order, now).steps[i];
            && step'.attempt == step.attempt && step'.maxAttempts == step.maxAttempts
            && (step'.status == step.status || (step.status.Pending? && (step'.status.Ready? || step'.status.Skipped?)))
            && step'.output == step.output && (!step.status.Pending? ==> step'.completedAt == step.completedAt)
  {
  }

  lemma AdvanceKeepsFlags(db: Db, order: seq<nat>, now: nat)
    requires Coherent(db) && !Over(db.run.status) && Everything(order, |db.steps|)
    ensures var db' := AdvanceRun(db, order, now); Flagged(db'.steps, db'.deps) && Wired(db'.steps, db'.deps)
  {
  }

  lemma AdvanceKeepsInputs(db: Db, order: seq<nat>, now: nat)
    requires Coherent(db) && !Over(db.run.status) && Everything(order, |db.steps|)
    ensures var db' := AdvanceRun(db, order, now); AllDelivered(db'.seed, db'.steps, db'.deps)
  {
    var db' := AdvanceRun(db, order, now);
    forall i | 0 <= i < |db'.steps| ensures Delivers(db.seed, db'.steps, db'.deps, i, db'.steps[i].inputs) {
      assert db'.steps[i].inputs == InputsOf(db.seed, db.steps, db'.deps, i);
      InputsOfDelivers(db.seed, db.steps, db'.deps, i);
      AdvancedFeeds(db, order, now, i);
      AdvancedSuccesses(db, order, now);
      DeliversAlike(db.seed, db.steps, db'.deps, db'.steps, db'.deps, i, db'.steps[i].inputs);
    }
  }

  lemma AdvancedFeeds(db: Db, order: seq<nat>, now: nat, i: nat)
    requires Coherent(db) && !Over(db.run.status) && Everything(order, |db.steps|)
    ensures var db' := AdvanceRun(db, order, now);
            && (forall k: nat :: Feeds(db'.steps, db'.deps, k, i) <==> Feeds(db.steps, db'.deps, k, i))
            && (forall k: nat :: Feeds(db.steps, db.deps, k, i) ==> Feeds(db'.steps, db'.deps, k, i))
  {
  }

  lemma AdvancedSuccesses(db: Db, order: seq<nat>, now: nat)
    requires Coherent(db) && !Over(db.run.status) && Everything(order, |db.steps|)
    ensures var db' := AdvanceRun(db, order, now);
            forall j :: 0 <= j < |db.steps| && db.steps[j].status.Succeeded? ==>
              db'.steps[j].nodeId == db.steps[j].nodeId && OutputOf(db'.steps[j]) == OutputOf(db.steps[j])
  {
  }

  lemma AdvanceKeepsCutOff(db: Db, order: seq<nat>, now: nat, i: nat)
    requires Coherent(db) && !Over(db.run.status) && Everything(order, |db.steps|) && i < |db.steps|
    requires Fate(db.steps, db.deps, i).Skipped?
    ensures var db' := AdvanceRun(db, order, now); CutOff(db'.steps, db'.deps, i)
  {
    var db' := AdvanceRun(db, order, now);
    assert History(db.steps, db.deps, i);
    forall k | 0 <= k < |db'.deps| && db'.deps[k].to == i && db'.deps[k].live
      ensures DeadEnd(db'.steps[db'.deps[k].from].status)
    {
      assert db'.deps[k] == SettledDep(db.steps, db.deps, k);
      assert db.deps[k].to == i && db.deps[k].live;
      AdvancedStatus(db, order, now, db.deps[k].from);
    }
  }

  lemma PromotedIsFed(db: Db, order: seq<nat>, now: nat, i: nat)
    requires Coherent(db) && !Over(db.run.status) && Everything(order, |db.steps|) && i < |db.steps|
    requires Fate(db.steps, db.deps, i).Pending? && AdvanceRun(db, order, now).steps[i].status.Ready?
    ensures var db' := AdvanceRun(db, order, now);
            Open(db'.deps, i) == {} && (Root(db'.deps, i) || Fed(db'.steps, db'.deps, i))
  {
    var db' := AdvanceRun(db, order, now);
    var settled := SettledSteps(db.seed, db.steps, db.deps, now);
    AdvancedFeeds(db, order, now, i);
    assert Promotable(settled, db'.deps, i);
    if Fed(settled, db'.deps, i) {
      var k: nat :| Feeds(settled, db'.deps, k, i);
      assert Feeds(db.steps, db'.deps, k, i);
    }
  }

  lemma SettledOpens(steps: seq<RunStep>, deps: seq<StepDep>, i: nat)
    requires Wired(steps, deps)
    ensures Open(SettledDeps(steps, deps), i) <= Open(deps, i)
    ensures Root(SettledDeps(steps, deps), i) <==> Root(deps, i)
  {
    SameTargets(deps, SettledDeps(steps, deps), i);
  }

  lemma AdvanceKeepsHistory(db: Db, order: seq<nat>, now: nat, i: nat)
    requires Coherent(db) && !Over(db.run.status) && Everything(order, |db.steps|) && i < |db.steps|
    ensures var db' := AdvanceRun(db, order, now); History(db'.steps, db'.deps, i)
  {
    assert History(db.steps, db.deps, i);
    AdvancedStatus(db, order, now, i);
    SettledOpens(db.steps, db.deps, i);
    if Fate(db.steps, db.deps, i).Skipped? {
      AdvanceKeepsCutOff(db, order, now, i);
    } else if db.steps[i].status.Pending? && AdvanceRun(db, order, now).steps[i].status.Ready? {
      PromotedIsFed(db, order, now, i);
    } else {
      AdvancedFeeds(db, order, now, i);
    }
  }

  lemma AdvanceKeepsPaired(db: Db, order: seq<nat>, now: nat)
    requires Coherent(db) && !Over(db.run.status) && Everything(order, |db.steps|)
    ensures Paired(AdvanceRun(db, order, now))
  {
    var db' := AdvanceRun(db, order, now);
    forall i | 0 <= i < |db.steps| ensures db'.steps[i].status.Waiting? <==> db.steps[i].status.Waiting? {
      AdvancedMove(db, order, now, i);
    }
    PairedAcrossMove(db, db');
  }

  lemma AdvanceKeepsLedger(db: Db, order: seq<nat>, now: nat)
    requires Coherent(db) && !Over(db.run.status) && Everything(order, |db.steps|)
    ensures Ledgered(AdvanceRun(db, order, now))
  {
    var db' := AdvanceRun(db, order, now);
    AdvanceKeepsFlags(db, order, now);
    forall i | 0 <= i < |db.steps| ensures 1 <= db'.steps[i].attempt <= db'.steps[i].maxAttempts {
      AdvancedMove(db, order, now, i);
    }
    assert Counted(db'.steps, db'.deps);
  }

  lemma AdvanceKeepsSteps(db: Db, order: seq<nat>, now: nat)
    requires Coherent(db) && !Over(db.run.status) && Everything(order, |db.steps|)
    ensures var db' := AdvanceRun(db, order, now);
            && (forall i :: 0 <= i < |db'.steps| ==> db'.steps[i].status.Running? ==> db'.steps[i].lease.Some?)
            && (forall i :: 0 <= i < |db'.steps| ==> db'.steps[i].status.Succeeded? ==> db'.steps[i].output.Some?)
            && (Over(db'.run.status) ==> AllTerminal(db'.steps))
  {
    forall i | 0 <= i < |db.steps|
      ensures AdvanceRun(db, order, now).steps[i].status.Running? ==> db.steps[i].status.Running?
    {
      AdvancedMove(db, order, now, i);
    }
  }

  lemma AdvanceKeepsSound(db: Db, order: seq<nat>, now: nat)
    requires Sound(db) && Everything(order, |db.steps|)
    requires !Over(db.run.status)
    ensures Sound(AdvanceRun(db, order, now))
  {
    var db' := AdvanceRun(db, order, now);
    AdvanceKeepsFlags(db, order, now);
    AdvanceKeepsInputs(db, order, now);
    AdvanceKeepsLedger(db, order, now);
    AdvanceKeepsPaired(db, order, now);
    AdvanceKeepsSteps(db, order, now);
    forall i | 0 <= i < |db.steps| ensures History(db'.steps, db'.deps, i) {
      AdvanceKeepsHistory(db, order, now, i);
    }
  }
}
