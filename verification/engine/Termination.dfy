/** Termination and progress: an uncancelled run makes only boundedly many effective transactions
    and handler calls, paying for each worker death and suspension, is never stuck, and can
    always still be finished. */
module Termination {
  import opened Options
  import opened Rows
  import opened Ledger
  import opened Fixpoint
  import opened RunResult
  import opened Advance
  import opened Transactions
  import opened Invariants
  import opened System
  import opened Guarantees
  import opened Progress
  import opened Plan
  import opened Independence

  // ── sums over the steps ──────────────────────────────────────────────────

  function Sum(f: nat -> nat, n: nat): nat {
    if n == 0 then 0 else Sum(f, n - 1) + f(n - 1)
  }

  lemma {:induction false} SumBelow(f: nat -> nat, g: nat -> nat, n: nat)
    requires forall i: nat :: i < n ==> g(i) <= f(i)
    ensures Sum(g, n) <= Sum(f, n)
  {
    if n > 0 { SumBelow(f, g, n - 1); }
  }

  /** One summand may change by d, the others only shrink. */
  lemma {:induction false} SumShift(f: nat -> nat, g: nat -> nat, n: nat, k: nat, d: int)
    requires k < n && g(k) <= f(k) + d
    requires forall i: nat :: i < n && i != k ==> g(i) <= f(i)
    ensures Sum(g, n) <= Sum(f, n) + d
  {
    if k == n - 1 {
      SumBelow(f, g, n - 1);
    } else {
      SumShift(f, g, n - 1, k, d);
    }
  }

  lemma {:induction false} SumOfSums(f: nat -> nat, g: nat -> nat, h: nat -> nat, n: nat)
    requires forall i: nat :: i < n ==> h(i) <= f(i) + g(i)
    ensures Sum(h, n) <= Sum(f, n) + Sum(g, n)
  {
    if n > 0 { SumOfSums(f, g, h, n - 1); }
  }

  // ── the measure ──────────────────────────────────────────────────────────

  /** What the transactions of a step rely on in a run that is not cancelled. */
  ghost predicate Steady(s: Sys) {
    && WellFormed(s) && !s.db.run.status.RunCancelled?
    && (forall i :: 0 <= i < |s.db.steps| ==> s.db.steps[i].attempt <= s.db.steps[i].maxAttempts)
    && (forall i :: i in s.workers ==> i < |s.db.steps| && s.db.steps[i].status.Running?)
  }

  lemma InvIsSteady(s: Sys)
    requires SysInv(s) && !s.db.run.status.RunCancelled?
    ensures Steady(s)
  {
  }

  /** The transactions step i can still go through; a step without its worker, or waiting, has
      the way back to ready before it. */
  function Load(s: Sys, i: nat): nat
    requires i < |s.db.steps|
  {
    var step := s.db.steps[i];
    if Terminal(step.status) then 0
    else
      (if step.attempt < step.maxAttempts then 4 * (step.maxAttempts - step.attempt) else 0)
      + (match step.status
         case Pending => 5
         case Ready => 4
         case Running => if i !in s.workers then 5 else if s.workers[i].Claimed? then 3 else 2
         case _ => 7)
  }

  function Loads(s: Sys): nat -> nat {
    (i: nat) => if i < |s.db.steps| then Load(s, i) else 0
  }

  /** The changes of the run's own status that can still happen before a step changes. */
  function Swings(run: WorkflowRun, steps: seq<RunStep>): nat {
    if Over(run.status) then 0
    else if run.status.RunRunning? then 1
    else if run.status.RunWaiting? && !AnyActive(steps) && AnyWaiting(steps) then 0
    else 2
  }

  ghost function Measure(s: Sys): nat {
    Sum(Loads(s), |s.db.steps|) + |Unsatisfied(s.db.deps)| + Swings(s.db.run, s.db.steps)
  }

  predicate Death(l: Label) { l.Die? }

  predicate Suspension(l: Label) { l.Commit? && l.result.Suspend? }

  function Cost(l: Label): nat {
    if Death(l) then 4 else if Suspension(l) then 6 else 0
  }

  /** A transaction from s to s' is paid for: by the measure, or by its cost. */
  ghost predicate Pays(s: Sys, s': Sys, cost: nat) {
    One(s' != s) + Measure(s') <= Measure(s) + cost
  }

  /** One step's load changed by d, the other loads and the edges did not grow. */
  lemma Shifted(s: Sys, s': Sys, i: nat, d: int)
    requires i < |s.db.steps| == |s'.db.steps|
    requires forall j :: 0 <= j < |s.db.steps| && j != i ==> Load(s', j) <= Load(s, j)
    requires Load(s', i) <= Load(s, i) + d
    requires Unsatisfied(s'.db.deps) == Unsatisfied(s.db.deps)
    requires Swings(s'.db.run, s'.db.steps) <= Swings(s.db.run, s.db.steps)
    ensures Measure(s') <= Measure(s) + d
  {
    SumShift(Loads(s), Loads(s'), |s.db.steps|, i, d);
  }

  // ── workers ──────────────────────────────────────────────────────────────

  /** Only step i and its worker changed, and no new step became active or stopped waiting. */
  ghost predicate OnlyStep(s: Sys, s': Sys, i: nat) {
    && i < |s.db.steps| == |s'.db.steps|
    && Active(s.db.steps[i].status)
    && (forall j :: 0 <= j < |s.db.steps| && j != i ==>
          && s'.db.steps[j] == s.db.steps[j].(depsRemaining := s'.db.steps[j].depsRemaining)
          && (j in s'.workers <==> j in s.workers) && (j in s.workers ==> s'.workers[j] == s.workers[j]))
  }

  lemma OnlyStepShifts(s: Sys, s': Sys, i: nat, d: int)
    requires OnlyStep(s, s', i) && Load(s', i) <= Load(s, i) + d
    requires Unsatisfied(s'.db.deps) == Unsatisfied(s.db.deps)
    requires s'.db.run == s.db.run || (s'.db.run.status.RunRunning? && !Over(s.db.run.status))
    ensures Measure(s') <= Measure(s) + d
  {
    assert AnyActive(s.db.steps);
    forall j | 0 <= j < |s.db.steps| && j != i ensures Load(s', j) <= Load(s, j) {}
    Shifted(s, s', i, d);
  }

  lemma ClaimPays(s: Sys, s': Sys, i: nat, now: nat)
    requires Steady(s) && Claimable(s.db, i)
    requires s' == Sys(Claim(s.db, i, now), s.workers[i := Claimed], CountClaim(s.tally, i))
    ensures Pays(s, s', 0)
  {
    OnlyStepShifts(s, s', i, -1);
  }

  lemma SetUpPays(s: Sys, s': Sys, i: nat, now: nat)
    requires Steady(s) && InPhase(s, i, Claimed) && !Over(s.db.run.status)
    requires s' == Sys(SetUp(s.db, i, now), s.workers[i := Executing], CountCall(s.tally, i))
    ensures Pays(s, s', 0)
  {
    OnlyStepShifts(s, s', i, -1);
  }

  lemma DeathPays(s: Sys, s': Sys, i: nat)
    requires Steady(s) && i in s.workers && s' == s.(workers := Release(s.workers, i))
    ensures Pays(s, s', 4)
  {
    OnlyStepShifts(s, s', i, 3);
  }

  lemma SuspensionPays(s: Sys, s': Sys, i: nat, result: HandlerResult, now: nat)
    requires Steady(s) && InPhase(s, i, Executing) && result.Suspend?
    requires s' == Sys(CommitResult(s.db, i, result, now), Release(s.workers, i), s.tally)
    ensures Pays(s, s', 6)
  {
    OnlyStepShifts(s, s', i, 5);
  }

  lemma CommitPays(s: Sys, s': Sys, i: nat, result: HandlerResult, now: nat)
    requires Steady(s) && InPhase(s, i, Executing) && !result.Suspend?
    requires s' == Sys(CommitResult(s.db, i, result, now), Release(s.workers, i), s.tally)
    ensures Pays(s, s', 0)
  {
    assert Unsatisfied(s'.db.deps) == Unsatisfied(s.db.deps);
    OnlyStepShifts(s, s', i, -1);
  }

  lemma FailurePays(s: Sys, s': Sys, i: nat, definitive: bool, now: nat)
    requires Steady(s) && InPhase(s, i, Executing)
    requires s' == Sys(FailStep(s.db, i, definitive, now), Release(s.workers, i), s.tally)
    ensures Pays(s, s', 0)
  {
    OnlyStepShifts(s, s', i, -1);
  }

  lemma PartialFailurePays(s: Sys, s': Sys, i: nat, output: Dict, now: nat)
    requires Steady(s) && InPhase(s, i, Executing)
    requires s' == Sys(FailWithOutput(s.db, i, output, now), Release(s.workers, i), s.tally)
    ensures Pays(s, s', 0)
  {
    OnlyStepShifts(s, s', i, -1);
  }

  // ── wake-ups ─────────────────────────────────────────────────────────────

  predicate Woke(before: RunStep, after: RunStep) {
    before.status.Waiting? && after == before.(status := Ready)
  }

  predicate Reclaimed(before: RunStep, after: RunStep) {
    before.status.Running? && after == before.(status := Ready, lease := None)
  }

  /** Some steps were woken or reclaimed; nothing else changed. */
  ghost predicate WokenUp(s: Sys, s': Sys) {
    && |s'.db.steps| == |s.db.steps| && s'.db.deps == s.db.deps && s'.db.run == s.db.run && s'.workers == s.workers
    && (forall i :: 0 <= i < |s.db.steps| ==>
          || s'.db.steps[i] == s.db.steps[i]
          || Woke(s.db.steps[i], s'.db.steps[i])
          || (Reclaimed(s.db.steps[i], s'.db.steps[i]) && i !in s.workers))
  }

  lemma WakeUpsPay(s: Sys, s': Sys, i: nat)
    requires WokenUp(s, s') && i < |s.db.steps| && s'.db.steps[i] != s.db.steps[i]
    ensures Measure(s') < Measure(s)
  {
    forall j | 0 <= j < |s.db.steps| ensures Load(s', j) <= Load(s, j) {}
    if k :| 0 <= k < |s.db.steps| && Woke(s.db.steps[k], s'.db.steps[k]) {
      SumShift(Loads(s), Loads(s'), |s.db.steps|, k, -3);
    } else {
      SumShift(Loads(s), Loads(s'), |s.db.steps|, i, -1);
      assert AnyActive(s'.db.steps) ==> AnyActive(s.db.steps);
      assert AnyWaiting(s.db.steps) ==> AnyWaiting(s'.db.steps);
    }
  }

  lemma FireWakesUp(db: Db, hits: set<nat>, payload: Dict, s: Sys, s': Sys)
    requires Coherent(db) && s.db == db && s' == s.(db := Fire(db, hits, payload), tally := s'.tally)
    requires forall e :: e in hits ==> e < |db.events| && db.events[e].status.Armed?
    ensures WokenUp(s, s')
    ensures forall e :: e in hits ==> s'.db.steps[db.events[e].step] != db.steps[db.events[e].step]
  {
    forall e | e in hits ensures s'.db.steps[db.events[e].step] != db.steps[db.events[e].step] {
      assert Hit(db.events, hits, db.events[e].step);
    }
  }

  lemma NothingCounted(s: Sys)
    requires WellFormed(s)
    ensures CountWakeUps(s.tally, s.db.steps, s.db.steps) == s.tally
  {
  }

  lemma SignalPays(s: Sys, s': Sys, kind: string, key: Option<string>, payload: Dict)
    requires SysInv(s) && !s.db.run.status.RunCancelled?
    requires s'.db == Signal(s.db, kind, key, payload) && s'.workers == s.workers
    requires s'.tally == CountWakeUps(s.tally, s.db.steps, s'.db.steps)
    ensures Pays(s, s', 0)
  {
    var hits := Matching(s.db.events, kind, key);
    FireWakesUp(s.db, hits, payload, s, s');
    if e: nat :| e in hits {
      WakeUpsPay(s, s', s.db.events[e].step);
    } else {
      assert hits == {};
      NothingFires(s.db, payload);
      NothingCounted(s);
    }
  }

  lemma SweepWakesUp(s: Sys, s': Sys, now: nat)
    requires SysInv(s) && !s.db.run.status.RunCancelled? && Enabled(s, SweepTx(now))
    requires s' == s.(db := Sweep(s.db, now), tally := s'.tally)
    ensures WokenUp(s, s')
    ensures forall e :: e in DueEvents(s.db.events, now) ==>
              s'.db.steps[s.db.events[e].step] != s.db.steps[s.db.events[e].step]
    ensures forall i :: 0 <= i < |s.db.steps| && Expired(s.db.steps[i], now) ==> s'.db.steps[i] != s.db.steps[i]
  {
    ReclaimKeepsSound(s.db, now);
    var m := s.(db := Reclaim(s.db, now));
    FireWakesUp(m.db, DueEvents(s.db.events, now), map[], m, s');
    forall e | e in DueEvents(s.db.events, now)
      ensures s'.db.steps[s.db.events[e].step] != s.db.steps[s.db.events[e].step]
    {
      assert s.db.steps[s.db.events[e].step].status.Waiting?;
    }
  }

  lemma SweepPays(s: Sys, s': Sys, now: nat)
    requires SysInv(s) && !s.db.run.status.RunCancelled? && Enabled(s, SweepTx(now))
    requires s'.db == Sweep(s.db, now) && s'.workers == s.workers
    requires s'.tally == CountWakeUps(s.tally, s.db.steps, s'.db.steps)
    ensures Pays(s, s', 0)
  {
    SweepWakesUp(s, s', now);
    if e: nat :| e in DueEvents(s.db.events, now) {
      WakeUpsPay(s, s', s.db.events[e].step);
    } else if i :| 0 <= i < |s.db.steps| && Expired(s.db.steps[i], now) {
      WakeUpsPay(s, s', i);
    } else {
      assert DueEvents(s.db.events, now) == {};
      assert Reclaim(s.db, now).steps == s.db.steps;
      NothingFires(s.db, map[]);
      NothingCounted(s);
    }
  }

  // ── advance ──────────────────────────────────────────────────────────────

  lemma QuietAdvanceKeepsRows(db: Db, order: seq<nat>, now: nat)
    requires Coherent(db) && !Over(db.run.status) && Everything(order, |db.steps|)
    requires SettledDeps(db.steps, db.deps) == db.deps
    requires forall i :: 0 <= i < |db.steps| ==> AdvanceRun(db, order, now).steps[i].status == db.steps[i].status
    ensures AdvanceRun(db, order, now).steps == db.steps
  {
    var db' := AdvanceRun(db, order, now);
    forall i | 0 <= i < |db.steps| ensures db'.steps[i] == db.steps[i] {
      InputsOfDelivers(db.seed, db.steps, db.deps, i);
      DeliversIsUnique(db.seed, db.steps, db.deps, i, db.steps[i].inputs, InputsOf(db.seed, db.steps, db.deps, i));
    }
  }

  lemma SatisfiedGrow(db: Db, order: seq<nat>, now: nat)
    requires Coherent(db) && !Over(db.run.status) && Everything(order, |db.steps|)
    ensures var db' := AdvanceRun(db, order, now);
            && |Unsatisfied(db'.deps)| <= |Unsatisfied(db.deps)|
            && (db'.deps != db.deps ==> |Unsatisfied(db'.deps)| < |Unsatisfied(db.deps)|)
  {
    var db' := AdvanceRun(db, order, now);
    var a, b := Unsatisfied(db'.deps), Unsatisfied(db.deps);
    assert forall k :: 0 <= k < |db.deps| ==> db'.deps[k] == SettledDep(db.steps, db.deps, k);
    assert a <= b;
    SubsetSizes(a, b);
    if db'.deps != db.deps {
      var k :| 0 <= k < |db.deps| && db'.deps[k] != db.deps[k];
      assert k in b && k !in a;
    }
  }

  lemma SubsetSizes(a: set<nat>, b: set<nat>)
    requires a <= b
    ensures |a| <= |b| && (a != b ==> |a| < |b|)
  {
    assert b == a + (b - a);
    if a != b {
      assert b - a != {};
    }
  }

  lemma AdvanceLightens(s: Sys, s': Sys, order: seq<nat>, now: nat, i: nat)
    requires Coherent(s.db) && !Over(s.db.run.status) && Everything(order, |s.db.steps|) && i < |s.db.steps|
    requires s' == s.(db := AdvanceRun(s.db, order, now))
    ensures |s'.db.steps| == |s.db.steps|
    ensures Load(s', i) <= Load(s, i)
    ensures s'.db.steps[i].status != s.db.steps[i].status ==> Load(s', i) < Load(s, i)
    ensures Active(s'.db.steps[i].status) ==> Active(s.db.steps[i].status)
    ensures s'.db.steps[i].status.Waiting? <==> s.db.steps[i].status.Waiting?
  {
    AdvancedMove(s.db, order, now, i);
    DecidedIsLighter(s, s', i);
  }

  lemma DecidedIsLighter(s: Sys, s': Sys, i: nat)
    requires i < |s.db.steps| == |s'.db.steps| && s'.workers == s.workers
    requires var step, step' := s.db.steps[i], s'.db.steps[i];
             && step'.attempt == step.attempt && step'.maxAttempts == step.maxAttempts
             && (|| step'.status == step.status
                 || (step.status.Pending? && (step'.status.Ready? || step'.status.Skipped?)))
    ensures Load(s', i) <= Load(s, i)
    ensures s'.db.steps[i].status != s.db.steps[i].status ==> Load(s', i) < Load(s, i)
  {
  }

  /** The completion rule changes the run only towards fewer swings. */
  lemma CompletionSwings(run: WorkflowRun, before: seq<RunStep>, steps: seq<RunStep>, result: Option<Dict>, now: nat)
    requires !Over(run.status)
    requires AnyActive(steps) ==> AnyActive(before)
    requires AnyWaiting(steps) <==> AnyWaiting(before)
    ensures var run' := Completion(run, steps, result, now);
            run' == run || Swings(run', steps) < Swings(run, before)
    ensures Swings(run, steps) <= Swings(run, before)
  {
  }

  lemma {:induction false} LoadsShrink(s: Sys, s': Sys, n: nat)
    requires n <= |s.db.steps| == |s'.db.steps|
    requires forall i :: 0 <= i < n ==> Load(s', i) <= Load(s, i)
    ensures Sum(Loads(s'), n) <= Sum(Loads(s), n)
    ensures (exists i :: 0 <= i < n && Load(s', i) < Load(s, i)) ==> Sum(Loads(s'), n) < Sum(Loads(s), n)
  {
    if n > 0 { LoadsShrink(s, s', n - 1); }
  }

  lemma AdvancedLoads(s: Sys, s': Sys, order: seq<nat>, now: nat)
    requires Coherent(s.db) && !Over(s.db.run.status) && Everything(order, |s.db.steps|)
    requires s' == s.(db := AdvanceRun(s.db, order, now))
    ensures |s'.db.steps| == |s.db.steps|
    ensures AnyActive(s'.db.steps) ==> AnyActive(s.db.steps)
    ensures AnyWaiting(s'.db.steps) <==> AnyWaiting(s.db.steps)
    ensures var before, after := Sum(Loads(s), |s.db.steps|), Sum(Loads(s'), |s.db.steps|);
            && after <= before
            && ((exists i :: 0 <= i < |s.db.steps| && s'.db.steps[i].status != s.db.steps[i].status) ==> after < before)
  {
    forall i | 0 <= i < |s.db.steps|
      ensures Load(s', i) <= Load(s, i)
      ensures s'.db.steps[i].status != s.db.steps[i].status ==> Load(s', i) < Load(s, i)
      ensures Active(s'.db.steps[i].status) ==> Active(s.db.steps[i].status)
      ensures s'.db.steps[i].status.Waiting? <==> s.db.steps[i].status.Waiting?
    {
      AdvanceLightens(s, s', order, now, i);
    }
    LoadsShrink(s, s', |s.db.steps|);
  }

  lemma AdvancePays(s: Sys, s': Sys, order: seq<nat>, now: nat)
    requires Coherent(s.db) && Everything(order, |s.db.steps|)
    requires s' == s.(db := AdvanceRun(s.db, order, now))
    ensures Pays(s, s', 0)
  {
    if !Over(s.db.run.status) {
      AdvancedLoads(s, s', order, now);
      SatisfiedGrow(s.db, order, now);
      CompletionSwings(s.db.run, s.db.steps, s'.db.steps, PickResult(order, s'.db.steps, s'.db.deps), now);
      if s'.db.deps == s.db.deps
         && (forall i :: 0 <= i < |s.db.steps| ==> s'.db.steps[i].status == s.db.steps[i].status) {
        QuietAdvanceKeepsRows(s.db, order, now);
      }
    }
  }

  // ── every transaction ────────────────────────────────────────────────────

  lemma NextPays(s: Sys, l: Label)
    requires SysInv(s) && Enabled(s, l)
    requires !s.db.run.status.RunCancelled? && !Next(s, l).db.run.status.RunCancelled?
    ensures Pays(s, Next(s, l), Cost(l))
  {
    InvIsSteady(s);
    var s' := Next(s, l);
    match l
    case AdvanceTx(order, now) => AdvancePays(s, s', order, now);
    case SignalTx(kind, key, payload) => SignalPays(s, s', kind, key, payload);
    case SweepTx(now) => SweepPays(s, s', now);
    case ClaimStep(i, now) => if Claimable(s.db, i) { ClaimPays(s, s', i, now); }
    case SetUpStep(i, now) => RunningMeansLive(s, i); SetUpPays(s, s', i, now);
    case Commit(i, result, now) =>
      if result.Suspend? { SuspensionPays(s, s', i, result, now); } else { CommitPays(s, s', i, result, now); }
    case Raise(i, definitive, now) => FailurePays(s, s', i, definitive, now);
    case RaiseWithOutput(i, output, now) => PartialFailurePays(s, s', i, output, now);
    case Die(i) => DeathPays(s, s', i);
    case CancelTx(_) =>
    case NoticeCancel(_, _) =>
  }

  // ── whole runs ───────────────────────────────────────────────────────────

  /** The transactions of the trace that change anything. */
  ghost function Effective(s: Sys, trace: seq<Label>): nat
    decreases |trace|
  {
    if trace == [] || !WellFormed(s) || !Enabled(s, trace[0]) then 0
    else One(Next(s, trace[0]) != s) + Effective(Next(s, trace[0]), trace[1..])
  }

  function Deaths(trace: seq<Label>): nat {
    if trace == [] then 0 else One(Death(trace[0])) + Deaths(trace[1..])
  }

  function Suspensions(trace: seq<Label>): nat {
    if trace == [] then 0 else One(Suspension(trace[0])) + Suspensions(trace[1..])
  }

  lemma StaysUncancelled(s: Sys, trace: seq<Label>, s': Sys)
    requires SysInv(s) && trace != [] && Runs(s, trace, s') && !s'.db.run.status.RunCancelled?
    ensures SysInv(Next(s, trace[0])) && |Next(s, trace[0]).db.steps| == |s.db.steps|
    ensures !s.db.run.status.RunCancelled? && !Next(s, trace[0]).db.run.status.RunCancelled?
  {
    NextKeepsInv(s, trace[0]);
    if s.db.run.status.RunCancelled? { CancelledStays(s, trace, s'); }
    if Next(s, trace[0]).db.run.status.RunCancelled? { CancelledStays(Next(s, trace[0]), trace[1..], s'); }
  }

  lemma {:induction false} RunsArePaid(s: Sys, trace: seq<Label>, s': Sys)
    requires SysInv(s) && Runs(s, trace, s') && !s'.db.run.status.RunCancelled?
    ensures Effective(s, trace) + Measure(s') <= Measure(s) + 4 * Deaths(trace) + 6 * Suspensions(trace)
    decreases |trace|
  {
    if trace != [] {
      StaysUncancelled(s, trace, s');
      NextPays(s, trace[0]);
      RunsArePaid(Next(s, trace[0]), trace[1..], s');
    }
  }

  // ── handler calls ────────────────────────────────────────────────────────

  /** The wake-ups step i has had, counting the one it is due. */
  function Owed(s: Sys, i: nat): nat
    requires i < |s.db.steps| && i < |s.tally|
  {
    s.tally[i].reclaims + s.tally[i].resumes
    + One((s.db.steps[i].status.Running? && i !in s.workers) || s.db.steps[i].status.Waiting?)
  }

  function AllOwed(s: Sys): nat -> nat {
    (i: nat) => if i < |s.db.steps| && i < |s.tally| then Owed(s, i) else 0
  }

  lemma ClaimOwes(s: Sys, s': Sys, j: nat, now: nat, i: nat)
    requires Steady(s) && i < |s.db.steps| && Claimable(s.db, j)
    requires s' == Sys(Claim(s.db, j, now), s.workers[j := Claimed], CountClaim(s.tally, j))
    ensures Owed(s', i) <= Owed(s, i)
  {
  }

  lemma SetUpOwes(s: Sys, s': Sys, j: nat, now: nat, i: nat)
    requires Steady(s) && i < |s.db.steps| && InPhase(s, j, Claimed)
    requires s' == Sys(SetUp(s.db, j, now), s.workers[j := Executing], CountCall(s.tally, j))
    ensures Owed(s', i) <= Owed(s, i)
  {
  }

  /** The worker of step j left; only that step's status changed. */
  lemma LeavingOwes(s: Sys, s': Sys, j: nat, i: nat)
    requires i < |s.db.steps| == |s'.db.steps| == |s.tally| && s'.tally == s.tally
    requires s'.workers == Release(s.workers, j) && j in s.workers
    requires i != j ==> s'.db.steps[i].status == s.db.steps[i].status
    ensures Owed(s', i) <= Owed(s, i) + One(i == j)
    ensures Owed(s', i) <= Owed(s, i) + One(s'.db.steps[i].status.Waiting? || s'.db.steps[i].status.Running?)
    ensures i != j ==> Owed(s', i) == Owed(s, i)
  {
  }

  lemma CommitOwes(s: Sys, s': Sys, j: nat, result: HandlerResult, now: nat, i: nat)
    requires Steady(s) && i < |s.db.steps| && InPhase(s, j, Executing)
    requires s' == Sys(CommitResult(s.db, j, result, now), Release(s.workers, j), s.tally)
    ensures |s'.db.steps| == |s.db.steps|
    ensures Owed(s', i) <= Owed(s, i) + One(result.Suspend? && i == j)
  {
    LeavingOwes(s, s', j, i);
  }

  lemma FailureOwes(s: Sys, s': Sys, j: nat, definitive: bool, now: nat, i: nat)
    requires Steady(s) && i < |s.db.steps| && InPhase(s, j, Executing)
    requires s' == Sys(FailStep(s.db, j, definitive, now), Release(s.workers, j), s.tally)
    ensures Owed(s', i) <= Owed(s, i)
  {
    LeavingOwes(s, s', j, i);
  }

  lemma PartialFailureOwes(s: Sys, s': Sys, j: nat, output: Dict, now: nat, i: nat)
    requires Steady(s) && i < |s.db.steps| && InPhase(s, j, Executing)
    requires s' == Sys(FailWithOutput(s.db, j, output, now), Release(s.workers, j), s.tally)
    ensures Owed(s', i) <= Owed(s, i)
  {
    LeavingOwes(s, s', j, i);
  }

  lemma WakeUpsOwe(s: Sys, s': Sys, i: nat)
    requires WellFormed(s) && i < |s.db.steps| && WokenUp(s, s')
    requires s'.tally == CountWakeUps(s.tally, s.db.steps, s'.db.steps)
    ensures Owed(s', i) <= Owed(s, i)
  {
  }

  lemma SignalOwes(s: Sys, s': Sys, kind: string, key: Option<string>, payload: Dict, i: nat)
    requires SysInv(s) && !s.db.run.status.RunCancelled? && i < |s.db.steps|
    requires s'.db == Signal(s.db, kind, key, payload) && s'.workers == s.workers
    requires s'.tally == CountWakeUps(s.tally, s.db.steps, s'.db.steps)
    ensures Owed(s', i) <= Owed(s, i)
  {
    FireWakesUp(s.db, Matching(s.db.events, kind, key), payload, s, s');
    WakeUpsOwe(s, s', i);
  }

  lemma SweepOwes(s: Sys, s': Sys, now: nat, i: nat)
    requires SysInv(s) && !s.db.run.status.RunCancelled? && Enabled(s, SweepTx(now)) && i < |s.db.steps|
    requires s'.db == Sweep(s.db, now) && s'.workers == s.workers
    requires s'.tally == CountWakeUps(s.tally, s.db.steps, s'.db.steps)
    ensures Owed(s', i) <= Owed(s, i)
  {
    SweepWakesUp(s, s', now);
    WakeUpsOwe(s, s', i);
  }

  lemma AdvanceOwes(s: Sys, s': Sys, order: seq<nat>, now: nat, i: nat)
    requires SysInv(s) && !s.db.run.status.RunCancelled? && Everything(order, |s.db.steps|) && i < |s.db.steps|
    requires s' == s.(db := AdvanceRun(s.db, order, now))
    ensures |s'.db.steps| == |s.db.steps|
    ensures Owed(s', i) <= Owed(s, i)
  {
    if !Over(s.db.run.status) { AdvancedStatus(s.db, order, now, i); }
  }

  lemma StepOwes(s: Sys, l: Label, s': Sys, i: nat)
    requires SysInv(s) && Enabled(s, l) && i < |s.db.steps|
    requires !s.db.run.status.RunCancelled? && !Next(s, l).db.run.status.RunCancelled?
    requires s' == Next(s, l) && |s'.tally| == |s'.db.steps| == |s.db.steps|
    ensures Owed(s', i) <= Owed(s, i) + One((Death(l) || Suspension(l)) && i == l.i)
  {
    InvIsSteady(s);
    match l
    case SignalTx(kind, key, payload) => SignalOwes(s, s', kind, key, payload, i);
    case SweepTx(now) => SweepOwes(s, s', now, i);
    case AdvanceTx(order, now) => AdvanceOwes(s, s', order, now, i);
    case ClaimStep(j, now) => if Claimable(s.db, j) { ClaimOwes(s, s', j, now, i); }
    case SetUpStep(j, now) => SetUpOwes(s, s', j, now, i);
    case Commit(j, result, now) => CommitOwes(s, s', j, result, now, i);
    case Raise(j, definitive, now) => FailureOwes(s, s', j, definitive, now, i);
    case RaiseWithOutput(j, output, now) => PartialFailureOwes(s, s', j, output, now, i);
    case Die(j) => LeavingOwes(s, s', j, i);
    case CancelTx(_) =>
    case NoticeCancel(_, _) =>
  }

  lemma OwedSums(s: Sys, s': Sys, bump: bool, j: nat)
    requires |s'.tally| == |s'.db.steps| == |s.tally| == |s.db.steps|
    requires forall i :: 0 <= i < |s.db.steps| ==> Owed(s', i) <= Owed(s, i) + One(bump && i == j)
    requires bump ==> j < |s.db.steps|
    ensures Sum(AllOwed(s'), |s.db.steps|) <= Sum(AllOwed(s), |s.db.steps|) + One(bump)
  {
    if bump {
      SumShift(AllOwed(s), AllOwed(s'), |s.db.steps|, j, 1);
    } else {
      SumBelow(AllOwed(s), AllOwed(s'), |s.db.steps|);
    }
  }

  lemma NextOwes(s: Sys, l: Label)
    requires SysInv(s) && Enabled(s, l)
    requires !s.db.run.status.RunCancelled? && !Next(s, l).db.run.status.RunCancelled?
    ensures Sum(AllOwed(Next(s, l)), |s.db.steps|) <= Sum(AllOwed(s), |s.db.steps|) + One(Death(l)) + One(Suspension(l))
  {
    var s', bump := Next(s, l), Death(l) || Suspension(l);
    var j := if bump then l.i else 0;
    NextKeepsInv(s, l);
    forall i | 0 <= i < |s.db.steps| ensures Owed(s', i) <= Owed(s, i) + One(bump && i == j) {
      StepOwes(s, l, s', i);
    }
    if bump { RunningMeansLive(s, j); }
    OwedSums(s, s', bump, j);
  }

  lemma {:induction false} RunsOwe(s: Sys, trace: seq<Label>, s': Sys)
    requires SysInv(s) && Runs(s, trace, s') && !s'.db.run.status.RunCancelled?
    ensures |s'.db.steps| == |s.db.steps|
    ensures Sum(AllOwed(s'), |s.db.steps|) <= Sum(AllOwed(s), |s.db.steps|) + Deaths(trace) + Suspensions(trace)
    decreases |trace|
  {
    if trace != [] {
      StaysUncancelled(s, trace, s');
      NextOwes(s, trace[0]);
      RunsOwe(Next(s, trace[0]), trace[1..], s');
    }
  }

  function Attempts(steps: seq<RunStep>): nat -> nat {
    (i: nat) => if i < |steps| then steps[i].maxAttempts else 0
  }

  function Calls(tally: seq<Tally>): nat -> nat {
    (i: nat) => if i < |tally| then tally[i].handlerCalls else 0
  }

  function SumMaxAttempts(steps: seq<RunStep>): nat { Sum(Attempts(steps), |steps|) }

  function SumCalls(tally: seq<Tally>): nat { Sum(Calls(tally), |tally|) }

  lemma CallsAreOwed(s: Sys)
    requires SysInv(s)
    ensures SumCalls(s.tally) <= SumMaxAttempts(s.db.steps) + Sum(AllOwed(s), |s.db.steps|)
  {
    forall i: nat | i < |s.db.steps|
      ensures Calls(s.tally)(i) <= Attempts(s.db.steps)(i) + AllOwed(s)(i)
    {
      assert Accounted(s, i);
      assert Ledgered(s.db);
    }
    SumOfSums(Attempts(s.db.steps), AllOwed(s), Calls(s.tally), |s.db.steps|);
  }

  // ── the start ────────────────────────────────────────────────────────────

  lemma FreshLoad(s: Sys, i: nat)
    requires Initial(s) && i < |s.db.steps|
    ensures Load(s, i) <= 4 * s.db.steps[i].maxAttempts + 1
    ensures Owed(s, i) == 0
  {
    assert Fresh(s.db.steps[i], s.db.seed, Root(s.db.deps, i));
  }

  lemma {:induction false} InitialLoads(s: Sys, n: nat)
    requires Initial(s) && n <= |s.db.steps|
    ensures Sum(Loads(s), n) <= 4 * Sum(Attempts(s.db.steps), n) + n
    ensures Sum(AllOwed(s), n) == 0
  {
    if n > 0 {
      InitialLoads(s, n - 1);
      FreshLoad(s, n - 1);
    }
  }

  /** An uncancelled run makes at most 4·Σmax_attempts + |steps| + |edges| + 1 effective
      transactions, plus 4 for every worker death and 6 for every suspension, and at most
      Σmax_attempts handler calls, plus one for each of those, however often messages repeat. */
  lemma RunsTerminate(s: Sys, trace: seq<Label>, s': Sys)
    requires Initial(s) && Runs(s, trace, s') && !s'.db.run.status.RunCancelled?
    ensures Effective(s, trace) <= 4 * SumMaxAttempts(s.db.steps) + |s.db.steps| + |s.db.deps| + 1
                                   + 4 * Deaths(trace) + 6 * Suspensions(trace)
    ensures SumCalls(s'.tally) <= SumMaxAttempts(s'.db.steps) + Deaths(trace) + Suspensions(trace)
  {
    InitialKeepsInv(s);
    InitialLoads(s, |s.db.steps|);
    SubsetOfRange(Unsatisfied(s.db.deps), |s.db.deps|);
    RunsArePaid(s, trace, s');
    RunsOwe(s, trace, s');
    RunsKeepInv(s, trace, s');
    CallsAreOwed(s');
  }

  // ── progress ─────────────────────────────────────────────────────────────

  /** How a continuation is to go: the time at which each step ends, and the order in which an
      advance sees the steps. */
  datatype Script = Script(clock: nat -> nat, order: seq<nat>)

  /** The transaction that reports what the handler of step i answers. */
  function Report(h: Handlers, s: Sys, i: nat, now: nat): Label
    requires i < |s.db.steps|
  {
    match h(i, s.db.steps[i].inputs, s.db.steps[i].attempt)
    case Succeeds(data) => Commit(i, Output(data), now)
    case BranchesTo(data, liveHandles) => Commit(i, Branch(data, liveHandles), now)
    case FailsWith(output) => RaiseWithOutput(i, output, now)
    case Errors => Raise(i, false, now)
  }

  /** A transaction that needs no luck: no death, suspension or cancel; it goes by the script. */
  predicate Smooth(l: Label, script: Script) {
    match l
    case Commit(i, result, now) => !result.Suspend? && now == script.clock(i)
    case Raise(i, definitive, now) => !definitive && now == script.clock(i)
    case RaiseWithOutput(i, _, now) => now == script.clock(i)
    case NoticeCancel(_, _) => false
    case Die(_) => false
    case AdvanceTx(order, now) => order == script.order && now == 0
    case CancelTx(_) => false
    case _ => true
  }

  lemma WorkersMove(h: Handlers, s: Sys, script: Script, i: nat) returns (l: Label)
    requires Steady(s) && i in s.workers
    ensures Smooth(l, script) && Enabled(s, l) && Obeys(h, s, l) && Next(s, l) != s
  {
    if s.workers[i].Claimed? {
      l := SetUpStep(i, 0);
      assert Next(s, l).workers[i] == Executing;
    } else {
      l := Report(h, s, i, script.clock(i));
      assert i !in Next(s, l).workers;
    }
  }

  /** Without workers a busy step moves by itself: it is claimed, reclaimed or signalled. */
  lemma IdleStepsMove(h: Handlers, s: Sys, script: Script, i: nat) returns (l: Label)
    requires SysInv(s) && !s.db.run.status.RunCancelled?
    requires s.workers == map[] && i < |s.db.steps| && Busy(s.db.steps[i].status)
    ensures Smooth(l, script) && Enabled(s, l) && Obeys(h, s, l) && Next(s, l) != s
  {
    if s.db.steps[i].status.Ready? {
      l := ClaimStep(i, 0);
      assert i in Next(s, l).workers;
    } else if s.db.steps[i].status.Running? {
      l := SweepTx(s.db.steps[i].lease.value + 1);
      assert Next(s, l).db.steps[i].status.Ready?;
    } else {
      var e := WaitingWakes(s.db, i);
      l := SignalTx(s.db.events[e].kind, s.db.events[e].key, map[]);
      assert Next(s, l).db.steps[i].status.Ready?;
    }
  }

  /** Where an advance changes nothing, some step is busy. */
  lemma QuietIsBusy(db: Db, order: seq<nat>) returns (i: nat)
    requires Coherent(db) && !Over(db.run.status) && Everything(order, |db.steps|) && AdvanceRun(db, order, 0) == db
    ensures i < |db.steps| && Busy(db.steps[i].status)
  {
    AdvanceLeavesBusy(db, order, 0);
    i :| 0 <= i < |db.steps| && Busy(db.steps[i].status);
  }

  lemma LiveStatesMove(h: Handlers, s: Sys, script: Script) returns (l: Label)
    requires SysInv(s) && !Over(s.db.run.status) && Everything(script.order, |s.db.steps|)
    ensures Smooth(l, script) && Enabled(s, l) && Obeys(h, s, l) && Next(s, l) != s
  {
    l := AdvanceTx(script.order, 0);
    if Next(s, l) == s {
      if i :| i in s.workers {
        InvIsSteady(s);
        l := WorkersMove(h, s, script, i);
      } else {
        var i := QuietIsBusy(s.db, script.order);
        l := IdleStepsMove(h, s, script, i);
      }
    }
  }

  /** No run is ever stuck, whatever the handlers answer and whatever has happened to its workers:
      while it is not over, some transaction other than a death, suspension or cancel changes it,
      if only an `advance_run` whose message was lost.
      So a run in which no transaction has any effect left is over. */
  lemma RunsProgress(h: Handlers, s: Sys) returns (l: Label)
    requires Reachable(s) && !Over(s.db.run.status)
    ensures WellFormed(s) && Enabled(s, l) && Obeys(h, s, l) && Next(s, l) != s
    ensures !Death(l) && !Suspension(l) && !l.CancelTx?
  {
    ReachableKeepsInv(s);
    var order := Ascending(|s.db.steps|);
    l := LiveStatesMove(h, s, Script(_ => 0, order));
  }

  predicate AllSmooth(trace: seq<Label>, script: Script) {
    forall p :: 0 <= p < |trace| ==> Smooth(trace[p], script)
  }

  lemma Prepended(h: Handlers, s: Sys, l: Label, rest: seq<Label>, s': Sys, script: Script)
    requires WellFormed(s) && Enabled(s, l) && Obeys(h, s, l) && Smooth(l, script)
    requires Runs(Next(s, l), rest, s') && AllObey(h, Next(s, l), rest) && AllSmooth(rest, script)
    ensures Runs(s, [l] + rest, s') && AllObey(h, s, [l] + rest) && AllSmooth([l] + rest, script)
  {
    assert ([l] + rest)[1..] == rest;
  }

  lemma AdvanceStaysUncancelled(db: Db, order: seq<nat>, now: nat)
    requires Wired(db.steps, db.deps) && Everything(order, |db.steps|) && !db.run.status.RunCancelled?
    ensures !AdvanceRun(db, order, now).run.status.RunCancelled?
  {
  }

  lemma SmoothStaysUncancelled(s: Sys, l: Label, script: Script)
    requires WellFormed(s) && !s.db.run.status.RunCancelled? && Enabled(s, l) && Smooth(l, script)
    ensures !Next(s, l).db.run.status.RunCancelled?
  {
    if l.AdvanceTx? {
      AdvanceStaysUncancelled(s.db, l.order, l.now);
    }
  }

  /** From every uncancelled state, for all handlers and scripts, a smooth continuation finishes the run. */
  lemma {:induction false} FinishFrom(h: Handlers, s: Sys, script: Script) returns (trace: seq<Label>, s': Sys)
    requires SysInv(s) && !s.db.run.status.RunCancelled? && Everything(script.order, |s.db.steps|)
    ensures Runs(s, trace, s') && AllObey(h, s, trace) && AllSmooth(trace, script)
    ensures s'.db.run.status.RunCompleted? || s'.db.run.status.RunFailed?
    decreases Measure(s)
  {
    if Over(s.db.run.status) {
      trace, s' := [], s;
    } else {
      var l := LiveStatesMove(h, s, script);
      NextKeepsInv(s, l);
      SmoothStaysUncancelled(s, l, script);
      NextPays(s, l);
      var rest;
      rest, s' := FinishFrom(h, Next(s, l), script);
      Prepended(h, s, l, rest, s', script);
      trace := [l] + rest;
    }
  }

  /** However badly it has gone so far, an uncancelled run can still be finished, and whatever the
      handlers answer. */
  lemma EveryRunCanFinish(h: Handlers, s: Sys) returns (trace: seq<Label>, s': Sys)
    requires Reachable(s) && !s.db.run.status.RunCancelled?
    ensures Runs(s, trace, s') && AllObey(h, s, trace) && Deaths(trace) == Suspensions(trace) == 0
    ensures s'.db.run.status.RunCompleted? || s'.db.run.status.RunFailed?
  {
    ReachableKeepsInv(s);
    var order := Ascending(|s.db.steps|);
    var script := Script(_ => 0, order);
    trace, s' := FinishFrom(h, s, script);
    SmoothMeansFree(trace, script);
  }

  lemma {:induction false} SmoothMeansFree(trace: seq<Label>, script: Script)
    requires AllSmooth(trace, script)
    ensures Deaths(trace) == Suspensions(trace) == 0
  {
    if trace != [] {
      assert forall p :: 0 <= p < |trace[1..]| ==> trace[1..][p] == trace[p + 1];
      assert Smooth(trace[0], script);
      SmoothMeansFree(trace[1..], script);
    }
  }

  // ── what a scripted run leaves ───────────────────────────────────────────

  /** The steps that ended did so at their scripted times, and the result was picked in the
      scripted order. */
  ghost predicate Scripted(s: Sys, script: Script) {
    && (forall i :: 0 <= i < |s.db.steps| && (s.db.steps[i].status.Succeeded? || s.db.steps[i].status.Failed?) ==>
          s.db.steps[i].completedAt == Some(script.clock(i)))
    && (s.db.run.status.RunCompleted? ==>
          && InRange(script.order, s.db.steps)
          && s.db.run.result == PickResult(script.order, s.db.steps, s.db.deps))
  }

  lemma AdvancePicks(db: Db, order: seq<nat>, now: nat)
    requires Wired(db.steps, db.deps) && Everything(order, |db.steps|) && !Over(db.run.status)
    ensures var db' := AdvanceRun(db, order, now);
            db'.run.status.RunCompleted? ==>
              InRange(order, db'.steps) && db'.run.result == PickResult(order, db'.steps, db'.deps)
  {
  }

  lemma AdvanceKeepsScript(s: Sys, s': Sys, script: Script)
    requires Coherent(s.db) && !Over(s.db.run.status) && Everything(script.order, |s.db.steps|) && Scripted(s, script)
    requires s' == s.(db := AdvanceRun(s.db, script.order, 0))
    ensures Scripted(s', script)
  {
    forall i | 0 <= i < |s.db.steps| && (s'.db.steps[i].status.Succeeded? || s'.db.steps[i].status.Failed?)
      ensures s'.db.steps[i].completedAt == Some(script.clock(i))
    {
      AdvancedMove(s.db, script.order, 0, i);
    }
    AdvancePicks(s.db, script.order, 0);
  }

  lemma CommitKeepsScript(s: Sys, l: Label, script: Script)
    requires Steady(s) && Enabled(s, l) && l.Commit? && Smooth(l, script)
    requires Scripted(s, script) && !Over(s.db.run.status)
    ensures Scripted(Next(s, l), script)
  {
  }

  lemma FailureKeepsScript(s: Sys, l: Label, script: Script)
    requires Steady(s) && Enabled(s, l) && (l.Raise? || l.RaiseWithOutput?) && Smooth(l, script)
    requires Scripted(s, script) && !Over(s.db.run.status)
    ensures Scripted(Next(s, l), script)
  {
  }

  lemma OthersKeepScript(s: Sys, l: Label, script: Script)
    requires Steady(s) && Enabled(s, l) && Smooth(l, script)
    requires l.ClaimStep? || l.SetUpStep? || l.SignalTx? || l.SweepTx?
    requires Scripted(s, script) && !Over(s.db.run.status)
    ensures Scripted(Next(s, l), script)
  {
  }

  lemma NextKeepsScript(s: Sys, l: Label, script: Script)
    requires SysInv(s) && !s.db.run.status.RunCancelled? && Enabled(s, l) && Smooth(l, script) && Scripted(s, script)
    ensures Scripted(Next(s, l), script)
  {
    if Over(s.db.run.status) {
      FinishedIsFrozen(s, l);
    } else if l.AdvanceTx? {
      AdvanceKeepsScript(s, Next(s, l), script);
    } else {
      InvIsSteady(s);
      if l.Commit? {
        CommitKeepsScript(s, l, script);
      } else if l.Raise? || l.RaiseWithOutput? {
        FailureKeepsScript(s, l, script);
      } else {
        OthersKeepScript(s, l, script);
      }
    }
  }

  lemma {:induction false} RunsKeepScript(s: Sys, trace: seq<Label>, s': Sys, script: Script)
    requires SysInv(s) && !s.db.run.status.RunCancelled? && Runs(s, trace, s') && AllSmooth(trace, script)
    requires Scripted(s, script)
    ensures Scripted(s', script)
    decreases |trace|
  {
    if trace != [] {
      assert Smooth(trace[0], script);
      NextKeepsInv(s, trace[0]);
      SmoothStaysUncancelled(s, trace[0], script);
      NextKeepsScript(s, trace[0], script);
      assert forall p :: 0 <= p < |trace[1..]| ==> trace[1..][p] == trace[p + 1];
      RunsKeepScript(Next(s, trace[0]), trace[1..], s', script);
    }
  }
}
