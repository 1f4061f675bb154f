/** What holds along every run of the engine: exact counters and inputs, frozen edges,
    paired suspensions, absorbed terminal states, bounded claims. */
module Guarantees {
  import opened Options
  import opened Rows
  import opened Ledger
  import opened Fixpoint
  import opened RunResult
  import opened Advance
  import opened Transactions
  import opened Invariants
  import opened System

  // ── join counter ─────────────────────────────────────────────────────────

  /** In every reachable state, cancelled runs included, a step's counter is the number of its
      live unsatisfied incoming edges; so closing such an edge never meets the clamp at zero. */
  lemma JoinCounterIsExact(s: Sys, i: nat)
    requires Reachable(s) && i < |s.db.steps|
    ensures var deps := s.db.deps;
            && s.db.steps[i].depsRemaining
               == |set k: nat | k < |deps| && deps[k].to == i && deps[k].live && !deps[k].satisfied|
            && forall k :: 0 <= k < |deps| && deps[k].to == i && deps[k].live && !deps[k].satisfied ==>
                 s.db.steps[i].depsRemaining > 0
  {
    ReachableKeepsInv(s);
    var deps := s.db.deps;
    assert (set k: nat | k < |deps| && deps[k].to == i && deps[k].live && !deps[k].satisfied) == Open(deps, i);
    forall k | 0 <= k < |deps| && deps[k].to == i && deps[k].live && !deps[k].satisfied
      ensures s.db.steps[i].depsRemaining > 0
    {
      assert k in Open(deps, i);
    }
  }

  // ── exact delivery ───────────────────────────────────────────────────────

  /** A live satisfied edge leads from a succeeded parent of name x to step i. */
  ghost predicate Hands(db: Db, k: nat, i: nat, x: string) {
    && k < |db.deps| && db.deps[k].to == i && db.deps[k].live && db.deps[k].satisfied
    && db.deps[k].from < |db.steps|
    && db.steps[db.deps[k].from].status == Succeeded && db.steps[db.deps[k].from].nodeId == x
  }

  /** In every reachable uncancelled state the inputs of a step bind a name to a value exactly
      when a succeeded parent of that name with this output hands it over by a live satisfied edge,
      or no such parent does and the seed binds it. */
  lemma DeliveryIsExact(s: Sys, i: nat, x: string, v: Dict)
    requires Reachable(s) && i < |s.db.steps| && !s.db.run.status.RunCancelled?
    ensures (x in s.db.steps[i].inputs && s.db.steps[i].inputs[x] == v) <==>
            (|| (exists k: nat :: Hands(s.db, k, i, x) && s.db.steps[s.db.deps[k].from].output == Some(v))
             || ((forall k: nat :: !Hands(s.db, k, i, x)) && x in s.db.seed && s.db.seed[x] == v))
  {
    ReachableKeepsInv(s);
    var steps, deps := s.db.steps, s.db.deps;
    assert Delivers(s.db.seed, steps, deps, i, steps[i].inputs);
    forall k: nat ensures Hands(s.db, k, i, x) <==> Feeds(steps, deps, k, i) && steps[deps[k].from].nodeId == x {}
    assert forall k: nat :: Feeds(steps, deps, k, i) ==>
      steps[deps[k].from].output == Some(OutputOf(steps[deps[k].from]));
  }

  // ── what a single transaction cannot undo ────────────────────────────────

  /** The rows of s' extend those of s: satisfied edges keep both flags, and steps that were
      terminal keep their status, output and completion time. */
  ghost predicate Grows(db: Db, db': Db) {
    && |db'.steps| == |db.steps| && |db'.deps| == |db.deps|
    && (forall k :: 0 <= k < |db.deps| ==>
          && db'.deps[k].from == db.deps[k].from && db'.deps[k].to == db.deps[k].to
          && db'.deps[k].handle == db.deps[k].handle
          && (db.deps[k].satisfied ==> db'.deps[k] == db.deps[k])
          && (!db.deps[k].live ==> !db'.deps[k].live))
    && (forall i :: 0 <= i < |db.steps| && Terminal(db.steps[i].status) ==>
          && db'.steps[i].status == db.steps[i].status
          && db'.steps[i].output == db.steps[i].output
          && db'.steps[i].completedAt == db.steps[i].completedAt)
    && (forall i :: 0 <= i < |db.steps| && !db.steps[i].status.Pending? ==>
          !db'.steps[i].status.Pending? && db'.steps[i].inputs == db.steps[i].inputs)
  }

  lemma SettledInputsOfDone(db: Db, i: nat)
    requires Coherent(db) && i < |db.steps| && !db.steps[i].status.Pending?
    ensures InputsOf(db.seed, db.steps, SettledDeps(db.steps, db.deps), i) == db.steps[i].inputs
  {
    var deps := SettledDeps(db.steps, db.deps);
    assert History(db.steps, db.deps, i);
    assert Wired(db.steps, deps);
    forall k: nat | k < |deps| && db.steps[i].status != Skipped ensures !Pends(db.deps[k], i) {
      assert k !in Open(db.deps, i);
    }
    forall k: nat ensures Feeds(db.steps, deps, k, i) <==> Feeds(db.steps, db.deps, k, i) {}
    DeliversAlike(db.seed, db.steps, db.deps, db.steps, deps, i, db.steps[i].inputs);
    InputsOfDelivers(db.seed, db.steps, deps, i);
    DeliversIsUnique(db.seed, db.steps, deps, i, db.steps[i].inputs, InputsOf(db.seed, db.steps, deps, i));
  }

  lemma AdvanceGrows(db: Db, order: seq<nat>, now: nat)
    requires Coherent(db) && Everything(order, |db.steps|)
    ensures Grows(db, AdvanceRun(db, order, now))
  {
    if !Over(db.run.status) {
      forall i | 0 <= i < |db.steps| && !db.steps[i].status.Pending?
        ensures AdvanceRun(db, order, now).steps[i].inputs == db.steps[i].inputs
      {
        SettledInputsOfDone(db, i);
      }
    }
  }

  /** Pruning spares satisfied edges: their parents were terminal already. */
  lemma BranchGrows(db: Db, i: nat, result: HandlerResult, now: nat)
    requires Wired(db.steps, db.deps) && Flagged(db.steps, db.deps) && result.Branch?
    requires i < |db.steps| && db.steps[i].status.Running?
    ensures Grows(db, CommitResult(db, i, result, now))
  {
    var db' := CommitResult(db, i, result, now);
    forall k | 0 <= k < |db.deps| && db.deps[k].satisfied ensures db'.deps[k] == db.deps[k] {
      assert db.deps[k].from != i;
    }
  }

  lemma CommitGrows(db: Db, i: nat, result: HandlerResult, now: nat)
    requires Coherent(db) && i < |db.steps| && db.steps[i].status.Running?
    ensures Grows(db, CommitResult(db, i, result, now))
  {
    if result.Branch? {
      BranchGrows(db, i, result, now);
    }
  }

  lemma SweepGrows(db: Db, now: nat)
    ensures Grows(db, Sweep(db, now))
  {
  }

  lemma ClaimsGrow(db: Db, i: nat, now: nat)
    requires Ledgered(db) && !db.run.status.RunCancelled?
    ensures Grows(db, Claim(db, i, now))
    ensures i < |db.steps| ==> Grows(db, SetUp(db, i, now))
  {
  }

  lemma FailureGrows(db: Db, i: nat, definitive: bool, now: nat)
    requires Ledgered(db) && i < |db.steps| && db.steps[i].status.Running?
    ensures Grows(db, FailStep(db, i, definitive, now))
  {
  }

  lemma PartialFailureGrows(db: Db, i: nat, output: Dict, now: nat)
    requires Ledgered(db) && i < |db.steps| && db.steps[i].status.Running?
    ensures Grows(db, FailWithOutput(db, i, output, now))
  {
  }

  lemma WakeUpsGrow(db: Db, hits: set<nat>, payload: Dict, now: nat)
    ensures Grows(db, Fire(db, hits, payload))
    ensures Grows(db, CancelRun(db, now))
  {
  }

  lemma NextGrows(s: Sys, l: Label)
    requires SysInv(s) && Enabled(s, l) && !s.db.run.status.RunCancelled?
    ensures Grows(s.db, Next(s, l).db)
  {
    match l
    case AdvanceTx(order, now) => AdvanceGrows(s.db, order, now);
    case Commit(i, result, now) => CommitGrows(s.db, i, result, now);
    case SweepTx(now) => SweepGrows(s.db, now);
    case Raise(i, definitive, now) => FailureGrows(s.db, i, definitive, now);
    case RaiseWithOutput(i, output, now) => PartialFailureGrows(s.db, i, output, now);
    case SignalTx(kind, key, payload) => WakeUpsGrow(s.db, Matching(s.db.events, kind, key), payload, 0);
    case CancelTx(now) => WakeUpsGrow(s.db, {}, map[], now);
    case ClaimStep(i, now) => ClaimsGrow(s.db, i, now);
    case SetUpStep(i, now) => ClaimsGrow(s.db, i, now);
    case Die(_) =>
  }

  lemma StepsKeepOver(s: Sys, l: Label)
    requires SysInv(s) && Enabled(s, l) && Over(s.db.run.status)
    requires !l.AdvanceTx? && !l.SignalTx? && !l.SweepTx? && !l.CancelTx?
    ensures Next(s, l).db.run == s.db.run
  {
  }

  lemma NextKeepsOver(s: Sys, l: Label)
    requires SysInv(s) && Enabled(s, l) && Over(s.db.run.status)
    ensures Next(s, l).db.run == s.db.run
  {
    if !l.AdvanceTx? && !l.SignalTx? && !l.SweepTx? && !l.CancelTx? {
      StepsKeepOver(s, l);
    }
  }

  /** A finished run's rows never change again. */
  lemma FinishedIsFrozen(s: Sys, l: Label)
    requires SysInv(s) && Enabled(s, l) && Over(s.db.run.status) && !s.db.run.status.RunCancelled?
    ensures var m := Next(s, l).db; m.steps == s.db.steps && m.deps == s.db.deps && m.run == s.db.run
  {
    var m := Next(s, l).db;
    if !l.AdvanceTx? && !l.CancelTx? {
      forall i | 0 <= i < |s.db.steps| ensures |m.steps| == |s.db.steps| && m.steps[i] == s.db.steps[i] {
        assert Terminal(s.db.steps[i].status);
      }
      assert m.steps == s.db.steps;
    }
  }

  /** Once a run is completed, failed or cancelled, no sequence of transactions, late commits
      included, changes the run row. */
  lemma {:induction false} OverIsForever(s: Sys, trace: seq<Label>, s': Sys)
    requires SysInv(s) && Runs(s, trace, s')
    requires s.db.run.status in {RunCompleted, RunFailed, RunCancelled}
    ensures s'.db.run == s.db.run
    decreases |trace|
  {
    if trace != [] {
      NextKeepsInv(s, trace[0]);
      NextKeepsOver(s, trace[0]);
      OverIsForever(Next(s, trace[0]), trace[1..], s');
    }
  }

  /** A cancelled run stays cancelled. */
  lemma CancelledStays(s: Sys, trace: seq<Label>, s': Sys)
    requires SysInv(s) && Runs(s, trace, s') && s.db.run.status.RunCancelled?
    ensures s'.db.run.status.RunCancelled?
  {
    OverIsForever(s, trace, s');
  }

  /** While a run is not cancelled, satisfied edges never change again and terminal steps are
      absorbed: status, output, completion time, and inputs from the moment a step leaves
      pending. */
  lemma {:induction false} UncancelledRunsGrow(s: Sys, trace: seq<Label>, s': Sys)
    requires SysInv(s) && Runs(s, trace, s') && !s'.db.run.status.RunCancelled?
    ensures Grows(s.db, s'.db)
    decreases |trace|
  {
    if trace != [] {
      var m := Next(s, trace[0]);
      NextKeepsInv(s, trace[0]);
      if s.db.run.status.RunCancelled? {
        CancelledStays(s, trace, s');
      }
      NextGrows(s, trace[0]);
      UncancelledRunsGrow(m, trace[1..], s');
      GrowsIsTransitive(s.db, m.db, s'.db);
    }
  }

  lemma GrowsIsTransitive(a: Db, b: Db, c: Db)
    requires Grows(a, b) && Grows(b, c)
    ensures Grows(a, c)
  {
  }

  // ── cancelled runs ───────────────────────────────────────────────────────

  lemma CancelledNextKeepsCalls(s: Sys, l: Label, i: nat)
    requires SysInv(s) && Enabled(s, l) && s.db.run.status.RunCancelled? && i < |s.db.steps|
    ensures |Next(s, l).tally| == |s.tally| && Next(s, l).db.run.status.RunCancelled?
    ensures Next(s, l).tally[i].handlerCalls == s.tally[i].handlerCalls
    ensures InPhase(Next(s, l), i, Executing) ==> InPhase(s, i, Executing)
  {
  }

  /** After a cancel no worker enters a handler any more. */
  lemma {:induction false} CancelStopsHandlers(s: Sys, trace: seq<Label>, s': Sys, i: nat)
    requires SysInv(s) && Runs(s, trace, s') && s.db.run.status.RunCancelled? && i < |s.db.steps|
    ensures |s'.tally| == |s.tally| && s'.tally[i].handlerCalls == s.tally[i].handlerCalls
    ensures InPhase(s', i, Executing) ==> InPhase(s, i, Executing)
    decreases |trace|
  {
    if trace != [] {
      NextKeepsInv(s, trace[0]);
      CancelledNextKeepsCalls(s, trace[0], i);
      CancelStopsHandlers(Next(s, trace[0]), trace[1..], s', i);
    }
  }

  /** The docstring of `cancel_run` calls late commits no-ops; they are not: a handler that
      finishes after the cancel overwrites its step's `cancelled` status. */
  lemma LateCommitOverwritesCancelled(s: Sys, i: nat, data: Dict, now: nat, later: nat) returns (s': Sys)
    requires SysInv(s) && InPhase(s, i, Executing) && !Over(s.db.run.status)
    ensures var cancelled := Next(s, CancelTx(now));
            && cancelled.db.steps[i].status.Cancelled?
            && Runs(cancelled, [Commit(i, Output(data), later)], s')
            && i < |s'.db.steps| && s'.db.steps[i].status.Succeeded? && s'.db.run == cancelled.db.run
  {
    var cancelled := Next(s, CancelTx(now));
    NextKeepsInv(s, CancelTx(now));
    var l := Commit(i, Output(data), later);
    s' := Next(cancelled, l);
    OneTransaction(cancelled, l);
  }

  lemma OneTransaction(s: Sys, l: Label)
    requires WellFormed(s) && Enabled(s, l)
    ensures Runs(s, [l], Next(s, l))
  {
    assert [l][1..] == [];
    assert Runs(Next(s, l), [], Next(s, l));
  }

  /** The rows of step i are settled: the run is cancelled, the step terminal, and no handler is
      still at work on it. */
  ghost predicate Abandoned(s: Sys, i: nat) {
    && s.db.run.status.RunCancelled?
    && i < |s.db.steps| && Terminal(s.db.steps[i].status) && !InPhase(s, i, Executing)
  }

  ghost predicate SameEnd(a: Sys, b: Sys, i: nat) {
    i < |a.db.steps| && i < |b.db.steps|
    && a.db.steps[i].status == b.db.steps[i].status && a.db.steps[i].output == b.db.steps[i].output
  }

  lemma ClaimsKeepAbandoned(s: Sys, l: Label, i: nat)
    requires SysInv(s) && Enabled(s, l) && Abandoned(s, i)
    requires l.ClaimStep? || l.SetUpStep? || l.Die? || l.NoticeCancel?
    ensures Abandoned(Next(s, l), i) && SameEnd(s, Next(s, l), i)
  {
  }

  lemma EndsKeepAbandoned(s: Sys, l: Label, i: nat)
    requires SysInv(s) && Enabled(s, l) && Abandoned(s, i)
    requires l.Commit? || l.Raise? || l.RaiseWithOutput?
    ensures Abandoned(Next(s, l), i) && SameEnd(s, Next(s, l), i)
  {
    assert i != l.i;
  }

  lemma NextKeepsAbandoned(s: Sys, l: Label, i: nat)
    requires SysInv(s) && Enabled(s, l) && Abandoned(s, i)
    ensures Abandoned(Next(s, l), i) && SameEnd(s, Next(s, l), i)
  {
    if l.ClaimStep? || l.SetUpStep? || l.Die? || l.NoticeCancel? {
      ClaimsKeepAbandoned(s, l, i);
    } else if l.Commit? || l.Raise? || l.RaiseWithOutput? {
      EndsKeepAbandoned(s, l, i);
    }
  }

  lemma {:induction false} RunsKeepAbandoned(s: Sys, trace: seq<Label>, s': Sys, i: nat)
    requires SysInv(s) && Abandoned(s, i) && Runs(s, trace, s')
    ensures Abandoned(s', i) && SameEnd(s, s', i)
    decreases |trace|
  {
    if trace != [] {
      NextKeepsInv(s, trace[0]);
      NextKeepsAbandoned(s, trace[0], i);
      RunsKeepAbandoned(Next(s, trace[0]), trace[1..], s', i);
    }
  }

  /** Step i keeps its status and output whatever happens from s on. */
  ghost predicate Remains(s: Sys, i: nat) {
    forall trace, s' :: Runs(s, trace, s') ==> SameEnd(s, s', i)
  }

  lemma CancelledRows(s: Sys, now: nat)
    requires WellFormed(s) && !Over(s.db.run.status)
    ensures var c := Next(s, CancelTx(now));
            && |c.db.steps| == |s.db.steps| && c.workers == s.workers && c.db.run.status.RunCancelled?
            && (forall i :: 0 <= i < |c.db.steps| ==> Terminal(c.db.steps[i].status))
            && (forall e :: 0 <= e < |c.db.events| ==> !c.db.events[e].status.Armed?)
  {
  }

  /** Exactly when late commits are no-ops: a cancel settles a step for good if and only if no
      worker was inside the step's handler at the time. */
  lemma CancelSettlesStep(s: Sys, i: nat, now: nat)
    requires SysInv(s) && !Over(s.db.run.status) && i < |s.db.steps|
    ensures Remains(Next(s, CancelTx(now)), i) <==> !InPhase(s, i, Executing)
  {
    var c := Next(s, CancelTx(now));
    NextKeepsInv(s, CancelTx(now));
    if InPhase(s, i, Executing) {
      var s' := LateCommitOverwritesCancelled(s, i, map[], now, now);
      assert !SameEnd(c, s', i);
    } else {
      CancelledRows(s, now);
      forall trace, s' | Runs(c, trace, s') ensures SameEnd(c, s', i) {
        RunsKeepAbandoned(c, trace, s', i);
      }
    }
  }

  /** Sweeps and signals find nothing to do. */
  ghost predicate Silent(db: Db) {
    && (forall now :: Sweep(db, now) == db)
    && (forall kind, key, payload :: Signal(db, kind, key, payload) == db)
  }

  ghost predicate Hushed(s: Sys) {
    && s.db.run.status.RunCancelled?
    && (forall i :: 0 <= i < |s.db.steps| ==> Abandoned(s, i))
    && (forall e :: 0 <= e < |s.db.events| ==> !s.db.events[e].status.Armed?)
  }

  lemma NothingFires(db: Db, payload: Dict)
    ensures Fire(db, {}, payload) == db
  {
    assert Fire(db, {}, payload).steps == db.steps && Fire(db, {}, payload).events == db.events;
  }

  lemma HushedIsSilent(s: Sys)
    requires Hushed(s)
    ensures Silent(s.db)
  {
    forall now ensures Sweep(s.db, now) == s.db {
      forall i | 0 <= i < |s.db.steps| ensures Reclaim(s.db, now).steps[i] == s.db.steps[i] {
        assert Abandoned(s, i);
      }
      assert Reclaim(s.db, now).steps == s.db.steps;
      assert DueEvents(s.db.events, now) == {};
      NothingFires(s.db, map[]);
    }
    forall kind, key, payload ensures Signal(s.db, kind, key, payload) == s.db {
      assert Matching(s.db.events, kind, key) == {};
      NothingFires(s.db, payload);
    }
  }

  lemma HushedKeepsEvents(s: Sys, l: Label)
    requires SysInv(s) && Enabled(s, l) && Hushed(s)
    ensures forall e :: 0 <= e < |Next(s, l).db.events| ==> !Next(s, l).db.events[e].status.Armed?
  {
    assert l.Commit? ==> Abandoned(s, l.i);
  }

  lemma {:induction false} RunsKeepHushed(s: Sys, trace: seq<Label>, s': Sys)
    requires SysInv(s) && Hushed(s) && Runs(s, trace, s')
    ensures Hushed(s')
    decreases |trace|
  {
    if trace != [] {
      var m := Next(s, trace[0]);
      NextKeepsInv(s, trace[0]);
      forall i | 0 <= i < |m.db.steps| ensures Abandoned(m, i) {
        NextKeepsAbandoned(s, trace[0], i);
      }
      HushedKeepsEvents(s, trace[0]);
      RunsKeepHushed(m, trace[1..], s');
    }
  }

  /** A cancel silences the run for good, leaving no step that a later sweep or signal could move,
      if and only if no worker was inside a handler at the time: one that was may still suspend
      its step or retry it. */
  lemma CancelSilencesRun(s: Sys, now: nat)
    requires SysInv(s) && !Over(s.db.run.status)
    ensures (forall trace, s' :: Runs(Next(s, CancelTx(now)), trace, s') ==> Silent(s'.db))
            <==> (forall i :: 0 <= i < |s.db.steps| ==> !InPhase(s, i, Executing))
  {
    var c := Next(s, CancelTx(now));
    NextKeepsInv(s, CancelTx(now));
    CancelledRows(s, now);
    if i :| 0 <= i < |s.db.steps| && InPhase(s, i, Executing) {
      var s' := LateSuspendRearms(s, c, i);
    } else {
      forall i | 0 <= i < |c.db.steps| ensures Abandoned(c, i) {
        assert !InPhase(s, i, Executing);
      }
      forall trace, s' | Runs(c, trace, s') ensures Silent(s'.db) {
        RunsKeepHushed(c, trace, s');
        HushedIsSilent(s');
      }
    }
  }

  /** A handler that suspends after the cancel leaves an armed event, which a signal then fires. */
  lemma LateSuspendRearms(s: Sys, c: Sys, i: nat) returns (s': Sys)
    requires InPhase(s, i, Executing) && c.workers == s.workers && |c.db.steps| == |s.db.steps| && WellFormed(c)
    ensures exists trace :: Runs(c, trace, s')
    ensures !Silent(s'.db)
  {
    var l := Commit(i, Suspend("", None, None, map[]), 0);
    s' := Next(c, l);
    OneTransaction(c, l);
    var e := |c.db.events|;
    assert e in Matching(s'.db.events, "", None);
    assert Signal(s'.db, "", None, map[]).events[e] != s'.db.events[e];
  }

  // ── suspend and resume ───────────────────────────────────────────────────

  /** In every reachable uncancelled state each waiting step has exactly one armed event and each
      armed event belongs to a waiting step. */
  lemma SuspensionsArePaired(s: Sys)
    requires Reachable(s) && !s.db.run.status.RunCancelled?
    ensures forall e :: 0 <= e < |s.db.events| && s.db.events[e].status.Armed? ==>
              s.db.events[e].step < |s.db.steps| && s.db.steps[s.db.events[e].step].status.Waiting?
    ensures forall i :: 0 <= i < |s.db.steps| && s.db.steps[i].status.Waiting? ==>
              exists e :: && 0 <= e < |s.db.events| && s.db.events[e].status.Armed? && s.db.events[e].step == i
                          && forall f :: 0 <= f < |s.db.events| && s.db.events[f].status.Armed? ==>
                               s.db.events[f].step == i ==> f == e
  {
    ReachableKeepsInv(s);
    forall i | 0 <= i < |s.db.steps| && s.db.steps[i].status.Waiting?
      ensures exists e :: && 0 <= e < |s.db.events| && s.db.events[e].status.Armed? && s.db.events[e].step == i
                          && forall f :: 0 <= f < |s.db.events| && s.db.events[f].status.Armed? ==>
                               s.db.events[f].step == i ==> f == e
    {
      assert HasArmed(s.db, i);
      var e :| 0 <= e < |s.db.events| && s.db.events[e].status.Armed? && s.db.events[e].step == i;
      forall f | 0 <= f < |s.db.events| && s.db.events[f].status.Armed? && s.db.events[f].step == i ensures f == e {
      }
    }
  }

  ghost function FiredFor(events: seq<RunEvent>, i: nat): set<nat> {
    set e: nat | e < |events| && events[e].status.Fired? && events[e].step == i
  }

  ghost predicate WakeUpsMatch(s: Sys) {
    forall i :: 0 <= i < |s.db.steps| && i < |s.tally| ==> s.tally[i].resumes == |FiredFor(s.db.events, i)|
  }

  lemma FireMiss(db: Db, hits: set<nat>, payload: Dict, i: nat)
    requires !Hit(db.events, hits, i)
    ensures FiredFor(Fire(db, hits, payload).events, i) == FiredFor(db.events, i)
  {
  }

  lemma FireHit(db: Db, hits: set<nat>, payload: Dict, i: nat, e: nat)
    requires Paired(db) && e in hits && e < |db.events| && db.events[e].step == i
    requires forall e :: e in hits ==> e < |db.events| && db.events[e].status.Armed?
    ensures |FiredFor(Fire(db, hits, payload).events, i)| == |FiredFor(db.events, i)| + 1
  {
    var db' := Fire(db, hits, payload);
    forall f: nat | f < |db.events| ensures f in FiredFor(db'.events, i) <==> f in FiredFor(db.events, i) || f == e {
      if f in hits && f < e {
        assert db.events[f].step != db.events[e].step;
      } else if f in hits && e < f {
        assert db.events[e].step != db.events[f].step;
      }
    }
    assert FiredFor(db'.events, i) == FiredFor(db.events, i) + {e};
    assert e !in FiredFor(db.events, i);
  }

  lemma FireCounts(db: Db, hits: set<nat>, payload: Dict, i: nat)
    requires Paired(db) && i < |db.steps|
    requires forall e :: e in hits ==> e < |db.events| && db.events[e].status.Armed?
    ensures |FiredFor(Fire(db, hits, payload).events, i)| ==
            |FiredFor(db.events, i)|
            + One(db.steps[i].status.Waiting? && Fire(db, hits, payload).steps[i].status.Ready?)
  {
    if Hit(db.events, hits, i) {
      var e :| e in hits && e < |db.events| && db.events[e].step == i;
      FireHit(db, hits, payload, i, e);
    } else {
      FireMiss(db, hits, payload, i);
    }
  }

  lemma SweepKeepsWakeUps(s: Sys, s': Sys, now: nat, i: nat)
    requires SysInv(s) && !s.db.run.status.RunCancelled? && i < |s.db.steps|
    requires s'.db == Sweep(s.db, now) && s'.tally == CountWakeUps(s.tally, s.db.steps, s'.db.steps)
    requires s.tally[i].resumes == |FiredFor(s.db.events, i)|
    ensures s'.tally[i].resumes == |FiredFor(s'.db.events, i)|
  {
    ReclaimKeepsSound(s.db, now);
    FireCounts(Reclaim(s.db, now), DueEvents(s.db.events, now), map[], i);
  }

  lemma SignalKeepsWakeUps(s: Sys, s': Sys, kind: string, key: Option<string>, payload: Dict, i: nat)
    requires SysInv(s) && !s.db.run.status.RunCancelled? && i < |s.db.steps|
    requires s'.db == Signal(s.db, kind, key, payload) && s'.tally == CountWakeUps(s.tally, s.db.steps, s'.db.steps)
    requires s.tally[i].resumes == |FiredFor(s.db.events, i)|
    ensures s'.tally[i].resumes == |FiredFor(s'.db.events, i)|
  {
    FireCounts(s.db, Matching(s.db.events, kind, key), payload, i);
  }

  /** A new armed event has not fired. */
  lemma CommitKeepsFired(db: Db, j: nat, result: HandlerResult, now: nat, i: nat)
    requires j < |db.steps|
    ensures FiredFor(CommitResult(db, j, result, now).events, i) == FiredFor(db.events, i)
  {
  }

  lemma ClaimsKeepWakeUps(s: Sys, l: Label, s': Sys, i: nat)
    requires WellFormed(s) && Enabled(s, l) && s' == Next(s, l) && i < |s.db.steps|
    requires l.ClaimStep? || l.SetUpStep? || l.Die? || l.AdvanceTx?
    ensures |s'.tally| == |s.tally| && s'.tally[i].resumes == s.tally[i].resumes && s'.db.events == s.db.events
  {
  }

  lemma NextKeepsWakeUps(s: Sys, l: Label, s': Sys, i: nat)
    requires SysInv(s) && Enabled(s, l) && s' == Next(s, l) && |s'.tally| == |s.tally|
    requires !s.db.run.status.RunCancelled? && !s'.db.run.status.RunCancelled?
    requires i < |s.db.steps| && s.tally[i].resumes == |FiredFor(s.db.events, i)|
    ensures s'.tally[i].resumes == |FiredFor(s'.db.events, i)|
  {
    match l
    case SignalTx(kind, key, payload) => SignalKeepsWakeUps(s, s', kind, key, payload, i);
    case SweepTx(now) => SweepKeepsWakeUps(s, s', now, i);
    case Commit(j, result, now) => CommitKeepsFired(s.db, j, result, now, i);
    case Raise(_, _, _) =>
    case RaiseWithOutput(_, _, _) =>
    case NoticeCancel(_, _) =>
    case CancelTx(_) =>
    case _ => ClaimsKeepWakeUps(s, l, s', i);
  }

  lemma {:induction false} RunsKeepWakeUps(s: Sys, trace: seq<Label>, s': Sys)
    requires SysInv(s) && Runs(s, trace, s') && !s'.db.run.status.RunCancelled?
    requires WakeUpsMatch(s)
    ensures WakeUpsMatch(s')
    decreases |trace|
  {
    if trace != [] {
      NextKeepsInv(s, trace[0]);
      if s.db.run.status.RunCancelled? {
        CancelledStays(s, trace, s');
      }
      if Next(s, trace[0]).db.run.status.RunCancelled? {
        CancelledStays(Next(s, trace[0]), trace[1..], s');
      }
      forall i | 0 <= i < |s.db.steps|
        ensures Next(s, trace[0]).tally[i].resumes == |FiredFor(Next(s, trace[0]).db.events, i)|
      {
        NextKeepsWakeUps(s, trace[0], Next(s, trace[0]), i);
      }
      RunsKeepWakeUps(Next(s, trace[0]), trace[1..], s');
    }
  }

  /** In every reachable uncancelled state, the number of times a step was resumed is the number
      of its events that fired: each armed event readies its step exactly once, whether a timer
      or a signal comes first. */
  lemma EachEventWakesOnce(s: Sys, i: nat)
    requires Reachable(s) && !s.db.run.status.RunCancelled? && i < |s.db.steps|
    ensures |s.tally| == |s.db.steps|
    ensures s.tally[i].resumes == |FiredFor(s.db.events, i)|
  {
    var s0: Sys, trace :| Initial(s0) && Runs(s0, trace, s);
    InitialKeepsInv(s0);
    RunsKeepInv(s0, trace, s);
    assert forall j :: 0 <= j < |s0.db.steps| ==> FiredFor(s0.db.events, j) == {};
    RunsKeepWakeUps(s0, trace, s);
  }

  // ── accounting ───────────────────────────────────────────────────────────

  function Plus(a: Tally, b: Tally): Tally {
    Tally(a.claims + b.claims, a.handlerCalls + b.handlerCalls, a.reclaims + b.reclaims, a.resumes + b.resumes)
  }

  /** What transaction l does to step i: a claim that finds it ready, a set-up that leads to its
      handler, a sweep that takes it back from a worker, a wake-up that ends its waiting. */
  ghost function Does(s: Sys, l: Label, after: seq<RunStep>, i: nat): Tally
    requires i < |s.db.steps|
  {
    var before := s.db.steps[i].status;
    var readied := i < |after| && after[i].status == Ready;
    Tally(if l.ClaimStep? && l.i == i && before == Ready then 1 else 0,
          if l.SetUpStep? && l.i == i && s.db.run.status != RunCancelled then 1 else 0,
          if l.SweepTx? && before == Running && readied then 1 else 0,
          if (l.SweepTx? || l.SignalTx?) && before == Waiting && readied then 1 else 0)
  }

  /** What happened to step i along a trace. */
  ghost function Happened(s: Sys, trace: seq<Label>, i: nat): Tally
    decreases |trace|
  {
    if trace == [] || !WellFormed(s) || !Enabled(s, trace[0]) || i >= |s.db.steps| then Tally(0, 0, 0, 0)
    else
      var s1 := Next(s, trace[0]);
      Plus(Does(s, trace[0], s1.db.steps, i), Happened(s1, trace[1..], i))
  }

  lemma WakeUpsCount(s: Sys, l: Label, s1: Sys, i: nat)
    requires WellFormed(s) && Enabled(s, l) && s1 == Next(s, l) && i < |s.db.steps| && (l.SweepTx? || l.SignalTx?)
    ensures |s1.tally| == |s.tally| && s1.tally[i] == Plus(s.tally[i], Does(s, l, s1.db.steps, i))
  {
  }

  lemma OthersCount(s: Sys, l: Label, s1: Sys, i: nat)
    requires WellFormed(s) && Enabled(s, l) && s1 == Next(s, l) && i < |s.db.steps| && !l.SweepTx? && !l.SignalTx?
    ensures |s1.tally| == |s.tally| && s1.tally[i] == Plus(s.tally[i], Does(s, l, s1.db.steps, i))
  {
  }

  lemma NextCounts(s: Sys, l: Label, s1: Sys, i: nat)
    requires WellFormed(s) && Enabled(s, l) && s1 == Next(s, l) && i < |s.db.steps|
    ensures |s1.tally| == |s.tally| && |s1.db.steps| == |s.db.steps|
    ensures s1.tally[i] == Plus(s.tally[i], Does(s, l, s1.db.steps, i))
  {
    NextKeepsShape(s, l);
    if l.SweepTx? || l.SignalTx? { WakeUpsCount(s, l, s1, i); } else { OthersCount(s, l, s1, i); }
  }

  lemma PlusIsAssociative(a: Tally, b: Tally, c: Tally)
    ensures Plus(Plus(a, b), c) == Plus(a, Plus(b, c))
  {
  }

  lemma {:induction false} RunsCount(s: Sys, trace: seq<Label>, s': Sys, i: nat)
    requires SysInv(s) && Runs(s, trace, s') && i < |s.db.steps|
    ensures |s'.tally| == |s.tally| && s'.tally[i] == Plus(s.tally[i], Happened(s, trace, i))
    decreases |trace|
  {
    if trace != [] {
      var m := Next(s, trace[0]);
      NextKeepsInv(s, trace[0]);
      NextCounts(s, trace[0], m, i);
      RunsCount(m, trace[1..], s', i);
      PlusIsAssociative(s.tally[i], Does(s, trace[0], m.db.steps, i), Happened(m, trace[1..], i));
    }
  }

  /** The tallies count what happened. */
  lemma TalliesAreCounts(s: Sys, trace: seq<Label>, s': Sys, i: nat)
    requires Initial(s) && Runs(s, trace, s') && i < |s.db.steps|
    ensures |s'.tally| == |s.tally| && s'.tally[i] == Happened(s, trace, i)
  {
    InitialKeepsInv(s);
    RunsCount(s, trace, s', i);
  }

  /** Claims never exceed attempts plus reclaims plus resumes, and a step that has been claimed
      for its current attempt meets the bound exactly unless the run was cancelled; handler
      calls never exceed claims; attempts stay within their limit. */
  lemma ClaimsAreAccounted(s: Sys, i: nat)
    requires Reachable(s) && i < |s.db.steps|
    ensures |s.tally| == |s.db.steps|
    ensures var t, step := s.tally[i], s.db.steps[i];
            && 1 <= step.attempt <= step.maxAttempts
            && t.handlerCalls <= t.claims <= step.attempt + t.reclaims + t.resumes
            && (!s.db.run.status.RunCancelled? ==>
                  t.claims == step.attempt + t.reclaims + t.resumes - One(Unclaimed(step.status)))
  {
    ReachableKeepsInv(s);
    assert Accounted(s, i);
  }
}
