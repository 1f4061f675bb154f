/** No deadlock, harmless duplicates, recovery, and the result of a completed run. */
module Progress {
  import opened Options
  import opened Rows
  import opened Ledger
  import opened Fixpoint
  import opened RunResult
  import opened Advance
  import opened Transactions
  import opened Invariants
  import opened System

  // ── advancing again changes nothing ──────────────────────────────────────

  /** A live incoming edge keeps a pending step from its parent's status before to that after. */
  lemma StillHopeful(db: Db, order: seq<nat>, now: nat, i: nat) returns (k: nat)
    requires Coherent(db) && !Over(db.run.status) && Everything(order, |db.steps|) && i < |db.steps|
    requires AdvanceRun(db, order, now).steps[i].status.Pending? && !Root(db.deps, i)
    ensures var db' := AdvanceRun(db, order, now);
            && k < |db'.deps| && db'.deps[k].to == i && db'.deps[k].live && db'.deps[k].from < i
            && !DeadEnd(db'.steps[db'.deps[k].from].status)
  {
    AdvancedStatus(db, order, now, i);
    k :| 0 <= k < |db.deps| && db.deps[k].to == i && db.deps[k].live
         && !DeadEnd(Fate(db.steps, db.deps, db.deps[k].from));
    AdvancedStatus(db, order, now, db.deps[k].from);
    assert AdvanceRun(db, order, now).deps[k] == SettledDep(db.steps, db.deps, k);
  }

  lemma {:induction false} AdvancedFatesAreFixed(db: Db, order: seq<nat>, now: nat, i: nat)
    requires Coherent(db) && !Over(db.run.status) && Everything(order, |db.steps|) && i < |db.steps|
    ensures var db' := AdvanceRun(db, order, now);
            && Wired(db'.steps, db'.deps)
            && Fate(db'.steps, db'.deps, i) == db'.steps[i].status
    decreases i
  {
    var db' := AdvanceRun(db, order, now);
    AdvanceKeepsFlags(db, order, now);
    SameTargets(db.deps, db'.deps, i);
    if db'.steps[i].status.Pending? && !Root(db'.deps, i) {
      var k := StillHopeful(db, order, now, i);
      AdvancedFatesAreFixed(db, order, now, db'.deps[k].from);
    }
  }

  lemma AdvancedLeavesNonePromotable(db: Db, order: seq<nat>, now: nat, i: nat)
    requires Coherent(db) && !Over(db.run.status) && Everything(order, |db.steps|) && i < |db.steps|
    ensures var db' := AdvanceRun(db, order, now); !Promotable(db'.steps, db'.deps, i)
  {
    var db' := AdvanceRun(db, order, now);
    var settled := SettledSteps(db.seed, db.steps, db.deps, now);
    if Fed(db'.steps, db'.deps, i) {
      var k: nat :| Feeds(db'.steps, db'.deps, k, i);
      assert Feeds(settled, db'.deps, k, i);
    }
  }

  /** Rows that are already settled and promoted are left as they are. */
  lemma SettlingSettledRows(db: Db, now: nat)
    requires Coherent(db)
    requires forall i :: 0 <= i < |db.steps| ==> Fate(db.steps, db.deps, i) == db.steps[i].status
    requires forall k :: 0 <= k < |db.deps| && Terminal(db.steps[db.deps[k].from].status) ==> db.deps[k].satisfied
    ensures SettledDeps(db.steps, db.deps) == db.deps
    ensures SettledSteps(db.seed, db.steps, db.deps, now) == db.steps
  {
    assert SettledDeps(db.steps, db.deps) == db.deps;
    forall i | 0 <= i < |db.steps| ensures SettledStep(db.seed, db.steps, db.deps, now, i) == db.steps[i] {
      InputsOfDelivers(db.seed, db.steps, db.deps, i);
      DeliversIsUnique(db.seed, db.steps, db.deps, i, db.steps[i].inputs, InputsOf(db.seed, db.steps, db.deps, i));
    }
  }

  /** Rows that `advance_run` has nothing left to do to. */
  ghost predicate Quiet(db: Db)
    requires Wired(db.steps, db.deps)
  {
    && (forall i :: 0 <= i < |db.steps| ==> Fate(db.steps, db.deps, i) == db.steps[i].status)
    && (forall i :: 0 <= i < |db.steps| ==> !Promotable(db.steps, db.deps, i))
    && (forall k :: 0 <= k < |db.deps| && Terminal(db.steps[db.deps[k].from].status) ==> db.deps[k].satisfied)
  }

  lemma AdvancedSatisfies(db: Db, order: seq<nat>, now: nat, k: nat)
    requires Coherent(db) && !Over(db.run.status) && Everything(order, |db.steps|) && k < |db.deps|
    ensures var db' := AdvanceRun(db, order, now);
            db'.deps[k].from < |db'.steps| && (Terminal(db'.steps[db'.deps[k].from].status) ==> db'.deps[k].satisfied)
  {
  }

  lemma AdvancedIsQuiet(db: Db, order: seq<nat>, now: nat)
    requires Coherent(db) && !Over(db.run.status) && Everything(order, |db.steps|)
    ensures Coherent(AdvanceRun(db, order, now)) && Quiet(AdvanceRun(db, order, now))
  {
    var db' := AdvanceRun(db, order, now);
    AdvanceKeepsSound(db, order, now);
    forall i | 0 <= i < |db'.steps| ensures Fate(db'.steps, db'.deps, i) == db'.steps[i].status {
      AdvancedFatesAreFixed(db, order, now, i);
    }
    forall i | 0 <= i < |db'.steps| ensures !Promotable(db'.steps, db'.deps, i) {
      AdvancedLeavesNonePromotable(db, order, now, i);
    }
    forall k | 0 <= k < |db'.deps| && Terminal(db'.steps[db'.deps[k].from].status) ensures db'.deps[k].satisfied {
      AdvancedSatisfies(db, order, now, k);
    }
  }

  lemma CompletionIsIdempotent(run: WorkflowRun, steps: seq<RunStep>, result: Option<Dict>, now: nat,
                              result': Option<Dict>, now': nat)
    requires !Over(run.status)
    ensures var run' := Completion(run, steps, result, now);
            Over(run'.status) || Completion(run', steps, result', now') == run'
  {
  }

  /** `advance_run` twice in a row equals once, whatever the row orders and clocks. */
  lemma AdvanceIsIdempotent(db: Db, order: seq<nat>, now: nat, order': seq<nat>, now': nat)
    requires Coherent(db) && Everything(order, |db.steps|) && Everything(order', |db.steps|)
    ensures Coherent(AdvanceRun(db, order, now))
    ensures AdvanceRun(AdvanceRun(db, order, now), order', now') == AdvanceRun(db, order, now)
  {
    if !Over(db.run.status) {
      var db' := AdvanceRun(db, order, now);
      AdvancedIsQuiet(db, order, now);
      SettlingSettledRows(db', now');
      assert ReadiedSteps(db'.steps, db'.deps) == db'.steps;
      CompletionIsIdempotent(db.run, db'.steps, PickResult(order, db'.steps, db'.deps), now,
                            PickResult(order', db'.steps, db'.deps), now');
    }
  }

  /** A duplicate `execute_step` message for a step that is not ready, and a duplicate
      `advance_run` message, change nothing at all. */
  lemma DuplicatesAreHarmless(s: Sys, i: nat, order: seq<nat>, now: nat, order': seq<nat>, now': nat)
    requires Reachable(s) && i < |s.db.steps|
    requires Everything(order, |s.db.steps|) && Everything(order', |s.db.steps|)
    ensures WellFormed(s)
    ensures !s.db.steps[i].status.Ready? ==> Next(s, ClaimStep(i, now)) == s
    ensures WellFormed(Next(s, AdvanceTx(order, now)))
    ensures Next(Next(s, AdvanceTx(order, now)), AdvanceTx(order', now')) == Next(s, AdvanceTx(order, now))
  {
    ReachableKeepsInv(s);
    NextKeepsInv(s, AdvanceTx(order, now));
    if !Over(s.db.run.status) {
      AdvanceIsIdempotent(s.db, order, now, order', now');
    }
  }

  // ── no deadlock ──────────────────────────────────────────────────────────

  /** Nothing is left for `advance_run` to do. */
  ghost predicate Advanced(db: Db)
    requires Wired(db.steps, db.deps)
  {
    forall order, now :: Everything(order, |db.steps|) ==> AdvanceRun(db, order, now) == db
  }

  ghost predicate Awaited(db: Db, i: nat) {
    exists k :: 0 <= k < |db.deps| && db.deps[k].to == i && db.deps[k].live
                && db.deps[k].from < i < |db.steps| && !Terminal(db.steps[db.deps[k].from].status)
  }

  /** A pending step whose live parents are all terminal is promotable once the rows are settled. */
  lemma TerminalParentsPromote(db: Db, i: nat)
    requires Coherent(db) && i < |db.steps| && db.steps[i].status.Pending?
    requires Fate(db.steps, db.deps, i).Pending?
    requires forall j :: 0 <= j < i ==> Fate(db.steps, db.deps, j) == db.steps[j].status
    requires forall k :: 0 <= k < |db.deps| && Terminal(db.steps[db.deps[k].from].status) ==> db.deps[k].satisfied
    requires forall k :: 0 <= k < |db.deps| && db.deps[k].to == i && db.deps[k].live ==>
               Terminal(db.steps[db.deps[k].from].status)
    ensures Promotable(db.steps, db.deps, i)
  {
    assert History(db.steps, db.deps, i);
    forall k: nat | k < |db.deps| ensures !Pends(db.deps[k], i) {}
    assert Open(db.deps, i) == {};
    var k :| 0 <= k < |db.deps| && db.deps[k].to == i && db.deps[k].live
             && !DeadEnd(Fate(db.steps, db.deps, db.deps[k].from));
    assert Feeds(db.steps, db.deps, k, i);
  }

  /** After advance every pending step has a live edge from a parent that is not yet terminal. */
  lemma PendingIsAwaited(db: Db, order: seq<nat>, now: nat, i: nat)
    requires Coherent(db) && !Over(db.run.status) && Everything(order, |db.steps|) && i < |db.steps|
    ensures var db' := AdvanceRun(db, order, now);
            db'.steps[i].status.Pending? ==> Awaited(db', i)
  {
    var db' := AdvanceRun(db, order, now);
    AdvancedIsQuiet(db, order, now);
    if db'.steps[i].status.Pending? {
      QuietIsAwaited(db', i);
    }
  }

  lemma QuietIsAwaited(db: Db, i: nat)
    requires Coherent(db) && Quiet(db) && i < |db.steps| && db.steps[i].status.Pending?
    ensures Awaited(db, i)
  {
    if forall k :: 0 <= k < |db.deps| && db.deps[k].to == i && db.deps[k].live ==>
                     Terminal(db.steps[db.deps[k].from].status) {
      TerminalParentsPromote(db, i);
    }
  }

  ghost predicate SomeBusy(steps: seq<RunStep>) {
    exists i :: 0 <= i < |steps| && Busy(steps[i].status)
  }

  /** Following live edges backwards from a step that is not terminal ends at a busy one. */
  lemma {:induction false} BusyAncestor(db: Db, i: nat)
    requires i < |db.steps| && !Terminal(db.steps[i].status)
    requires forall j :: 0 <= j < |db.steps| && db.steps[j].status.Pending? ==> Awaited(db, j)
    ensures SomeBusy(db.steps)
    decreases i
  {
    if db.steps[i].status.Pending? {
      assert Awaited(db, i);
      var k :| 0 <= k < |db.deps| && db.deps[k].to == i && db.deps[k].live
               && db.deps[k].from < i < |db.steps| && !Terminal(db.steps[db.deps[k].from].status);
      BusyAncestor(db, db.deps[k].from);
    } else {
      assert Busy(db.steps[i].status);
    }
  }

  lemma CompletionIsExact(run: WorkflowRun, steps: seq<RunStep>, result: Option<Dict>, now: nat)
    requires !Over(run.status)
    ensures Over(Completion(run, steps, result, now).status) <==> AllTerminal(steps)
  {
  }

  lemma NotAllTerminalMeansBusy(db: Db)
    requires forall i :: 0 <= i < |db.steps| && db.steps[i].status.Pending? ==> Awaited(db, i)
    ensures AllTerminal(db.steps) || SomeBusy(db.steps)
  {
    if !AllTerminal(db.steps) {
      var i :| 0 <= i < |db.steps| && !Terminal(db.steps[i].status);
      BusyAncestor(db, i);
    }
  }

  ghost predicate SomeStep(steps: seq<RunStep>, statuses: set<StepStatus>) {
    exists i :: 0 <= i < |steps| && steps[i].status in statuses
  }

  /** The status of the run says how its steps stand. */
  ghost predicate StatusFits(run: WorkflowRun, steps: seq<RunStep>) {
    var active, waiting := SomeStep(steps, {Pending, Ready, Running}), SomeStep(steps, {Waiting});
    && (run.status == RunRunning <==> active)
    && (run.status == RunWaiting <==> !active && waiting)
    && (run.status == RunFailed <==> !active && !waiting && SomeStep(steps, {Failed}) && run.failRun)
    && (run.status == RunCompleted <==> !active && !waiting && !(SomeStep(steps, {Failed}) && run.failRun))
  }

  lemma CompletionFits(run: WorkflowRun, steps: seq<RunStep>, result: Option<Dict>, now: nat)
    requires !Over(run.status)
    ensures var run' := Completion(run, steps, result, now);
            && StatusFits(run', steps)
            && (if run'.status in {RunCompleted, RunFailed} then run'.completedAt == Some(now)
                else run' == run.(status := run'.status))
  {
    assert AnyActive(steps) <==> SomeStep(steps, {Pending, Ready, Running});
    assert AnyWaiting(steps) <==> SomeStep(steps, {Waiting});
    assert AnyFailed(steps) <==> SomeStep(steps, {Failed});
  }

  /** Every pending step is awaited, the status of the run says how its steps stand, the run is
      completed or failed exactly when every step is terminal, and otherwise some step is ready,
      running or waiting. */
  ghost predicate Unblocked(db: Db) {
    && (forall i :: 0 <= i < |db.steps| && db.steps[i].status.Pending? ==> Awaited(db, i))
    && StatusFits(db.run, db.steps)
    && (Over(db.run.status) <==> AllTerminal(db.steps))
    && (!Over(db.run.status) ==> SomeBusy(db.steps))
  }

  /** After `advance_run` a live run is not deadlocked, and its row is right. */
  lemma NoDeadlock(s: Sys, order: seq<nat>, now: nat)
    requires Reachable(s) && !Over(s.db.run.status) && Everything(order, |s.db.steps|)
    ensures WellFormed(s) && Unblocked(Next(s, AdvanceTx(order, now)).db)
    ensures var run := Next(s, AdvanceTx(order, now)).db.run;
            if run.status in {RunCompleted, RunFailed} then run.completedAt == Some(now)
            else run == s.db.run.(status := run.status)
  {
    ReachableIsCoherent(s);
    AdvanceLeavesBusy(s.db, order, now);
    var db := AdvanceRun(s.db, order, now);
    CompletionFits(s.db.run, db.steps, PickResult(order, db.steps, db.deps), now);
    assert Next(s, AdvanceTx(order, now)).db == db;
  }


  lemma ReachableIsCoherent(s: Sys)
    requires Reachable(s) && !s.db.run.status.RunCancelled?
    ensures WellFormed(s) && Coherent(s.db)
  {
    ReachableKeepsInv(s);
  }

  lemma AdvanceLeavesBusy(db: Db, order: seq<nat>, now: nat)
    requires Coherent(db) && !Over(db.run.status) && Everything(order, |db.steps|)
    ensures Unblocked(AdvanceRun(db, order, now))
  {
    var db' := AdvanceRun(db, order, now);
    forall i | 0 <= i < |db'.steps| && db'.steps[i].status.Pending? ensures Awaited(db', i) {
      PendingIsAwaited(db, order, now, i);
    }
    CompletionIsExact(db.run, db'.steps, PickResult(order, db'.steps, db'.deps), now);
    CompletionFits(db.run, db'.steps, PickResult(order, db'.steps, db'.deps), now);
    NotAllTerminalMeansBusy(db');
  }

  lemma AdvancedIsDecided(db: Db, order: seq<nat>, now: nat, i: nat)
    requires Coherent(db) && !Over(db.run.status) && Everything(order, |db.steps|) && i < |db.steps|
    requires db.steps[i].status.Pending?
    ensures Decided(AdvanceRun(db, order, now), i)
  {
    var db' := AdvanceRun(db, order, now);
    AdvancedStatus(db, order, now, i);
    AdvancedIsQuiet(db, order, now);
    PendingIsAwaited(db, order, now, i);
    assert History(db.steps, db.deps, i) && History(db'.steps, db'.deps, i);
    SameTargets(db.deps, db'.deps, i);
    ReachedIsDecided(db', i);
  }

  /** What an advance decides about a pending step, in terms of where it leaves the step's live
      parents: skipped when all of them have ended without success, ready when all have ended and
      one has succeeded, still pending otherwise. Other steps keep their status, and but for their
      counters and inputs, and the time of a skip, all rows stay. The satisfied edges are those whose parent
      has ended. */
  lemma AdvanceDecides(s: Sys, order: seq<nat>, now: nat, i: nat)
    requires Reachable(s) && !Over(s.db.run.status) && Everything(order, |s.db.steps|) && i < |s.db.steps|
    ensures WellFormed(s)
    ensures var db := Next(s, AdvanceTx(order, now)).db;
            && |db.steps| == |s.db.steps|
            && (if s.db.steps[i].status == Pending then Decided(db, i)
                else db.steps[i].status == s.db.steps[i].status)
            && Brought(s.db.steps[i], db.steps[i], now)
            && EdgesFollow(s.db, db)
            && db.events == s.db.events && db.seed == s.db.seed
  {
    ReachableIsCoherent(s);
    assert Next(s, AdvanceTx(order, now)).db == AdvanceRun(s.db, order, now);
    AdvanceBrings(s.db, order, now, i);
    AdvancedEdgesFollow(s.db, order, now);
    if s.db.steps[i].status.Pending? {
      AdvancedIsDecided(s.db, order, now, i);
    } else {
      AdvancedStatus(s.db, order, now, i);
    }
  }

  ghost predicate Brought(before: RunStep, after: RunStep, now: nat) {
    after == before.(status := after.status, depsRemaining := after.depsRemaining, inputs := after.inputs,
                     completedAt := if before.status == Pending && after.status == Skipped then Some(now)
                                    else before.completedAt)
  }

  lemma AdvanceBrings(db: Db, order: seq<nat>, now: nat, i: nat)
    requires Coherent(db) && !Over(db.run.status) && Everything(order, |db.steps|) && i < |db.steps|
    ensures Brought(db.steps[i], AdvanceRun(db, order, now).steps[i], now)
  {
  }

  ghost predicate EdgesFollow(db: Db, db': Db) {
    && |db'.deps| == |db.deps|
    && forall k :: 0 <= k < |db.deps| ==>
         && db.deps[k].from < |db'.steps|
         && db'.deps[k] ==
            db.deps[k].(satisfied := db'.steps[db.deps[k].from].status in {Succeeded, Failed, Skipped, Cancelled})
  }

  lemma AdvancedEdgesFollow(db: Db, order: seq<nat>, now: nat)
    requires Coherent(db) && !Over(db.run.status) && Everything(order, |db.steps|)
    ensures EdgesFollow(db, AdvanceRun(db, order, now))
  {
    var db' := AdvanceRun(db, order, now);
    AdvanceKeepsFlags(db, order, now);
    forall k | 0 <= k < |db.deps|
      ensures db'.deps[k] ==
        db.deps[k].(satisfied := db'.steps[db.deps[k].from].status in {Succeeded, Failed, Skipped, Cancelled})
    {
      AdvancedSatisfies(db, order, now, k);
      assert db'.deps[k] == SettledDep(db.steps, db.deps, k);
    }
  }

  ghost predicate LiveParent(db: Db, i: nat, statuses: set<StepStatus>) {
    exists k :: 0 <= k < |db.deps| && db.deps[k].to == i && db.deps[k].live
                && db.deps[k].from < |db.steps| && db.steps[db.deps[k].from].status in statuses
  }

  ghost predicate Decided(db: Db, i: nat)
    requires i < |db.steps|
  {
    var open := LiveParent(db, i, {Pending, Ready, Running, Waiting});
    var delivered := LiveParent(db, i, {Succeeded});
    && (db.steps[i].status == Pending <==> open)
    && (db.steps[i].status == Ready <==> !open && delivered)
    && (db.steps[i].status == Skipped <==> !open && !delivered)
  }

  lemma AwaitedIsOpen(db: Db, i: nat)
    requires Awaited(db, i)
    ensures LiveParent(db, i, {Pending, Ready, Running, Waiting})
  {
    var k :| 0 <= k < |db.deps| && db.deps[k].to == i && db.deps[k].live
             && db.deps[k].from < i < |db.steps| && !Terminal(db.steps[db.deps[k].from].status);
    assert db.steps[db.deps[k].from].status in {Pending, Ready, Running, Waiting};
  }

  lemma FedIsDelivered(db: Db, i: nat)
    requires Flagged(db.steps, db.deps) && Open(db.deps, i) == {} && Fed(db.steps, db.deps, i)
    ensures !LiveParent(db, i, {Pending, Ready, Running, Waiting}) && LiveParent(db, i, {Succeeded})
  {
    forall k | 0 <= k < |db.deps| && db.deps[k].to == i && db.deps[k].live && db.deps[k].from < |db.steps|
      ensures db.steps[db.deps[k].from].status !in {Pending, Ready, Running, Waiting}
    {
      assert k !in Open(db.deps, i);
    }
    var k: nat :| Feeds(db.steps, db.deps, k, i);
    assert db.steps[db.deps[k].from].status in {Succeeded};
  }

  lemma CutOffIsUndelivered(db: Db, i: nat)
    requires CutOff(db.steps, db.deps, i)
    ensures !LiveParent(db, i, {Pending, Ready, Running, Waiting}) && !LiveParent(db, i, {Succeeded})
  {
  }

  lemma ReachedIsDecided(db: Db, i: nat)
    requires i < |db.steps| && !Root(db.deps, i) && Flagged(db.steps, db.deps) && History(db.steps, db.deps, i)
    requires db.steps[i].status.Pending? || db.steps[i].status.Ready? || db.steps[i].status.Skipped?
    requires db.steps[i].status.Pending? ==> Awaited(db, i)
    ensures Decided(db, i)
  {
    match db.steps[i].status
    case Pending => AwaitedIsOpen(db, i);
    case Ready => FedIsDelivered(db, i);
    case Skipped => CutOffIsUndelivered(db, i);
  }

  // ── recovery ─────────────────────────────────────────────────────────────

  /** What `sweep` returns: the steps ready after its writing transaction. */
  function SweepIds(db: Db, now: nat): set<nat> {
    set i: nat | i < |db.steps| && Sweep(db, now).steps[i].status.Ready?
  }

  /** How a busy step gets going again without its worker: it is in the sweep's list now, or it
      will be as soon as its lease or timer runs out, or a matching signal readies it. */
  ghost predicate Recoverable(db: Db, i: nat)
    requires i < |db.steps|
  {
    || (db.steps[i].status.Ready? && forall now :: i in SweepIds(db, now))
    || (db.steps[i].status.Running? && db.steps[i].lease.Some?
        && forall now: nat :: now > db.steps[i].lease.value ==> i in SweepIds(db, now))
    || (db.steps[i].status.Waiting?
        && exists e :: && 0 <= e < |db.events| && Wakes(db, e, i))
  }

  ghost predicate Wakes(db: Db, e: nat, i: nat)
    requires e < |db.events| && i < |db.steps|
  {
    && db.events[e].status.Armed? && db.events[e].step == i
    && (db.events[e].fireAt.Some? ==> forall now: nat :: now >= db.events[e].fireAt.value ==> i in SweepIds(db, now))
    && (forall payload :: Signal(db, db.events[e].kind, db.events[e].key, payload).steps[i].status.Ready?)
  }

  /** Step i is held by the claim whose lease ends at `until`; `claims` counts its claims so far. */
  ghost predicate Held(s: Sys, i: nat, until: nat, claims: nat) {
    && i < |s.db.steps| && i < |s.tally|
    && s.db.steps[i].status.Running? && s.db.steps[i].lease == Some(until)
    && s.tally[i].claims == claims && !s.db.run.status.RunCancelled?
  }

  /** Anything but the end of step i's own handler call, a cancel, and a sweep after the lease. */
  predicate Bystander(l: Label, i: nat, until: nat) {
    match l
    case Commit(j, _, _) => j != i
    case Raise(j, _, _) => j != i
    case RaiseWithOutput(j, _, _) => j != i
    case NoticeCancel(j, _) => j != i
    case SweepTx(now) => now <= until
    case CancelTx(_) => false
    case _ => true
  }

  lemma ClaimsKeepHeld(s: Sys, l: Label, i: nat, until: nat, claims: nat)
    requires WellFormed(s) && Enabled(s, l) && Held(s, i, until, claims) && Bystander(l, i, until)
    requires l.ClaimStep? || l.SetUpStep? || l.Die? || l.SignalTx? || l.SweepTx?
    ensures Held(Next(s, l), i, until, claims)
  {
  }

  lemma EndsKeepHeld(s: Sys, l: Label, i: nat, until: nat, claims: nat)
    requires WellFormed(s) && Enabled(s, l) && Held(s, i, until, claims) && Bystander(l, i, until)
    requires l.Commit? || l.Raise? || l.RaiseWithOutput? || l.NoticeCancel?
    ensures Held(Next(s, l), i, until, claims)
  {
  }

  lemma AdvanceKeepsLease(db: Db, order: seq<nat>, now: nat, i: nat)
    requires Coherent(db) && Everything(order, |db.steps|) && i < |db.steps| && db.steps[i].status.Running?
    ensures var db' := AdvanceRun(db, order, now);
            && i < |db'.steps| && db'.steps[i].status.Running? && db'.steps[i].lease == db.steps[i].lease
            && (!db.run.status.RunCancelled? ==> !db'.run.status.RunCancelled?)
  {
    if !Over(db.run.status) { AdvancedStatus(db, order, now, i); }
  }

  lemma NextKeepsHeld(s: Sys, l: Label, i: nat, until: nat, claims: nat)
    requires SysInv(s) && Enabled(s, l) && Held(s, i, until, claims) && Bystander(l, i, until)
    ensures Held(Next(s, l), i, until, claims)
  {
    if l.AdvanceTx? {
      AdvanceKeepsLease(s.db, l.order, l.now, i);
    } else if l.Commit? || l.Raise? || l.RaiseWithOutput? || l.NoticeCancel? {
      EndsKeepHeld(s, l, i, until, claims);
    } else {
      ClaimsKeepHeld(s, l, i, until, claims);
    }
  }

  lemma {:induction false} RunsKeepHeld(s: Sys, trace: seq<Label>, s': Sys, i: nat, until: nat, claims: nat)
    requires SysInv(s) && Runs(s, trace, s') && Held(s, i, until, claims)
    requires forall p :: 0 <= p < |trace| ==> Bystander(trace[p], i, until)
    ensures Held(s', i, until, claims)
    decreases |trace|
  {
    if trace != [] {
      assert Bystander(trace[0], i, until);
      NextKeepsHeld(s, trace[0], i, until, claims);
      NextKeepsInv(s, trace[0]);
      assert forall p :: 0 <= p < |trace[1..]| ==> trace[1..][p] == trace[p + 1];
      RunsKeepHeld(Next(s, trace[0]), trace[1..], s', i, until, claims);
    }
  }

  /** While its lease lasts nobody else gets a claimed step: whatever happens but the end of its own
      handler call, a cancel, or a sweep more than 600 seconds after the claim, the step stays running
      with no further claim, and then the next sweep returns it exactly from that moment on. */
  lemma LeaseProtects(s: Sys, i: nat, now: nat, trace: seq<Label>, s': Sys)
    requires Reachable(s) && !s.db.run.status.RunCancelled? && Claimable(s.db, i)
    requires WellFormed(s) && Runs(Next(s, ClaimStep(i, now)), trace, s')
    requires forall p :: 0 <= p < |trace| ==> Bystander(trace[p], i, now + 600)
    ensures i < |s'.db.steps| && i < |s'.tally| && i < |s.tally|
    ensures s'.db.steps[i].status.Running? && s'.tally[i].claims == s.tally[i].claims + 1
    ensures forall later: nat :: i in SweepIds(s'.db, later) <==> later > now + 600
  {
    ReachableKeepsInv(s);
    var claimed := Next(s, ClaimStep(i, now));
    NextKeepsInv(s, ClaimStep(i, now));
    RunsKeepHeld(claimed, trace, s', i, now + 600, s.tally[i].claims + 1);
    HeldIsSwept(s'.db, i, now + 600);
  }

  lemma HeldIsSwept(db: Db, i: nat, until: nat)
    requires i < |db.steps| && db.steps[i].status.Running? && db.steps[i].lease == Some(until)
    ensures forall later: nat :: i in SweepIds(db, later) <==> later > until
  {
  }

  lemma WaitingWakes(db: Db, i: nat) returns (e: nat)
    requires Coherent(db) && i < |db.steps| && db.steps[i].status.Waiting?
    ensures e < |db.events| && Wakes(db, e, i)
  {
    assert HasArmed(db, i);
    e :| 0 <= e < |db.events| && db.events[e].status.Armed? && db.events[e].step == i;
    forall now: nat | db.events[e].fireAt.Some? && now >= db.events[e].fireAt.value ensures i in SweepIds(db, now) {
      assert e in DueEvents(Reclaim(db, now).events, now);
      assert Hit(db.events, DueEvents(Reclaim(db, now).events, now), i);
    }
    forall payload ensures Signal(db, db.events[e].kind, db.events[e].key, payload).steps[i].status.Ready? {
      assert e in Matching(db.events, db.events[e].kind, db.events[e].key);
      assert Hit(db.events, Matching(db.events, db.events[e].kind, db.events[e].key), i);
    }
  }

  lemma SuspendedRows(s: Sys, i: nat, kind: string, key: Option<string>, fireAt: Option<nat>, payload: Dict, now: nat)
    requires SysInv(s) && InPhase(s, i, Executing)
    ensures var db := Next(s, Commit(i, Suspend(kind, key, fireAt, payload), now)).db;
            && |db.steps| == |s.db.steps| && db.steps[i].status.Waiting?
            && db.events == s.db.events + [RunEvent(i, kind, key, fireAt, Armed, payload)]
  {
  }

  /** A suspended step wakes exactly on its own event: on the signals that match it, and on sweeps
      from its due time on. */
  lemma SuspensionWakesWhen(s: Sys, i: nat, kind: string, key: Option<string>, fireAt: Option<nat>, payload: Dict,
                            now: nat)
    requires Reachable(s) && InPhase(s, i, Executing) && !s.db.run.status.RunCancelled?
    ensures WellFormed(s)
    ensures var db := Next(s, Commit(i, Suspend(kind, key, fireAt, payload), now)).db;
            && |db.steps| == |s.db.steps|
            && (forall kind', key', payload' :: Signal(db, kind', key', payload').steps[i].status.Ready?
                                                <==> kind' == kind && (key'.None? || key' == key))
            && (forall t: nat :: i in SweepIds(db, t) <==> fireAt.Some? && fireAt.value <= t)
  {
    ReachableKeepsInv(s);
    SuspendedRows(s, i, kind, key, fireAt, payload, now);
    OwnEventWakes(s.db, Next(s, Commit(i, Suspend(kind, key, fireAt, payload), now)).db, i, kind, key, fireAt, payload);
  }

  lemma OwnEventWakes(before: Db, db: Db, i: nat, kind: string, key: Option<string>, fireAt: Option<nat>, payload: Dict)
    requires Coherent(before) && i < |before.steps| == |db.steps|
    requires before.steps[i].status.Running? && db.steps[i].status.Waiting?
    requires db.events == before.events + [RunEvent(i, kind, key, fireAt, Armed, payload)]
    ensures forall kind', key', payload' ::
              Signal(db, kind', key', payload').steps[i].status.Ready? <==> kind' == kind && (key'.None? || key' == key)
    ensures forall t: nat :: i in SweepIds(db, t) <==> fireAt.Some? && fireAt.value <= t
  {
    assert db.events[..|before.events|] == before.events;
    forall kind', key', payload'
      ensures Signal(db, kind', key', payload').steps[i].status.Ready? <==> kind' == kind && (key'.None? || key' == key)
    {
      OwnEventOnly(before, db, i, Matching(db.events, kind', key'));
    }
    forall t: nat ensures i in SweepIds(db, t) <==> fireAt.Some? && fireAt.value <= t {
      OwnEventOnly(before, db, i, DueEvents(Reclaim(db, t).events, t));
    }
  }

  /** The only armed event of a step just suspended is its own, the last. */
  lemma OwnEventOnly(before: Db, db: Db, i: nat, hits: set<nat>)
    requires Paired(before) && i < |before.steps| && before.steps[i].status.Running?
    requires forall e :: 0 <= e < |before.events| ==> before.events[e].step < |before.steps|
    requires |db.events| == |before.events| + 1 && db.events[..|before.events|] == before.events
    requires db.events[|before.events|].step == i
    requires forall e :: e in hits ==> e < |db.events| && db.events[e].status.Armed?
    ensures Hit(db.events, hits, i) <==> |before.events| in hits
  {
    forall e | e in hits && e < |before.events| ensures db.events[e].step != i {
      assert db.events[e] == before.events[e];
    }
  }

  lemma BusyIsRecoverable(db: Db, i: nat)
    requires Coherent(db) && i < |db.steps| && Busy(db.steps[i].status)
    ensures Recoverable(db, i)
  {
    if db.steps[i].status.Waiting? {
      var e := WaitingWakes(db, i);
    }
  }

  lemma Ascending(n: nat) returns (order: seq<nat>)
    ensures Everything(order, n)
  {
    order := seq(n, i requires 0 <= i < n => i);
    forall j | 0 <= j < n ensures j in order { assert order[j] == j; }
  }

  /** In an advanced state of a live run the reconciler or a signal can always resume some step. */
  lemma AdvancedRunsRecover(s: Sys) returns (i: nat)
    requires Reachable(s) && !Over(s.db.run.status)
    requires WellFormed(s) && Advanced(s.db)
    ensures i < |s.db.steps| && Recoverable(s.db, i)
  {
    ReachableKeepsInv(s);
    var order := Ascending(|s.db.steps|);
    assert AdvanceRun(s.db, order, 0) == s.db;
    NoDeadlock(s, order, 0);
    assert Next(s, AdvanceTx(order, 0)).db == s.db;
    i :| 0 <= i < |s.db.steps| && Busy(s.db.steps[i].status);
    BusyIsRecoverable(s.db, i);
  }

  // ── the lost advance message ─────────────────────────────────────────────

  /** No step is ready, running or waiting and no worker is alive. */
  ghost predicate Stranded(s: Sys) {
    !Over(s.db.run.status) && !SomeBusy(s.db.steps) && s.workers == map[]
  }

  /** A stranded run is beyond the reconciler: sweeps return nothing, and no sequence of sweeps,
      signals and step messages changes a row. Only an `advance_run` (or a cancel) helps, and
      one always does. */
  lemma {:induction false} StrandedStays(s: Sys, trace: seq<Label>, s': Sys)
    requires SysInv(s) && Stranded(s) && Runs(s, trace, s')
    requires forall p :: 0 <= p < |trace| ==> !trace[p].AdvanceTx? && !trace[p].CancelTx?
    ensures s'.db.steps == s.db.steps && s'.db.deps == s.db.deps && s'.db.run == s.db.run && Stranded(s')
    ensures forall now :: SweepIds(s'.db, now) == {}
    decreases |trace|
  {
    forall now ensures SweepIds(s.db, now) == {} {
      forall i: nat | i < |s.db.steps| ensures !Sweep(s.db, now).steps[i].status.Ready? {
        assert !Busy(s.db.steps[i].status);
      }
    }
    if trace != [] {
      var m := Next(s, trace[0]);
      NextKeepsInv(s, trace[0]);
      StrandedNext(s, trace[0]);
      assert forall p :: 0 <= p < |trace[1..]| ==> trace[1..][p] == trace[p + 1];
      StrandedStays(m, trace[1..], s');
    }
  }

  lemma StrandedNext(s: Sys, l: Label)
    requires SysInv(s) && Stranded(s) && Enabled(s, l) && !l.AdvanceTx? && !l.CancelTx?
    ensures var m := Next(s, l);
            m.db.steps == s.db.steps && m.db.deps == s.db.deps && m.db.run == s.db.run && Stranded(m)
  {
  }

  /** An advance on a stranded run either ends it or makes a step ready. */
  lemma AdvanceUnstrands(s: Sys, order: seq<nat>, now: nat)
    requires Reachable(s) && Stranded(s) && Everything(order, |s.db.steps|)
    ensures WellFormed(s)
    ensures var db' := Next(s, AdvanceTx(order, now)).db; Over(db'.run.status) || SomeBusy(db'.steps)
  {
    NoDeadlock(s, order, now);
  }

  /** The reconciler or a signal can still move a live run exactly when it is not stranded and
      no worker is at work: the exact condition under which a lost `advance_run` is fatal. */
  lemma RecoveryCondition(s: Sys)
    requires Reachable(s) && !Over(s.db.run.status) && s.workers == map[]
    ensures (exists i :: 0 <= i < |s.db.steps| && Recoverable(s.db, i)) <==> !Stranded(s)
  {
    ReachableKeepsInv(s);
    if !Stranded(s) {
      var i :| 0 <= i < |s.db.steps| && Busy(s.db.steps[i].status);
      BusyIsRecoverable(s.db, i);
    }
  }

  /** A two-step chain just materialized. */
  function Chain(): Db {
    Db(WorkflowRun(RunRunning, None, true, None),
       [RunStep("a", Ready, 1, 1, 0, map[], None, None, None),
        RunStep("b", Pending, 1, 1, 1, map[], None, None, None)],
       [StepDep(0, 1, "", false, true)],
       [],
       map[])
  }

  /** A worker that dies between its commit and the message for `advance_run` strands the run:
      such a state is reachable. */
  lemma LostAdvanceStrands() returns (s: Sys)
    ensures Reachable(s) && Stranded(s) && s.db.run.status.RunRunning?
    ensures |s.db.steps| == 2 && s.db.steps[0].status.Succeeded? && s.db.steps[1].status.Pending?
    ensures forall now :: SweepIds(s.db, now) == {}
  {
    var s0 := Sys(Chain(), map[], [Tally(0, 0, 0, 0), Tally(0, 0, 0, 0)]);
    ChainIsStarted();
    var s2 := ChainExecutes(s0);
    s := ChainStops(s2);
    ChainRuns(s0, ClaimStep(0, 0), Next(s0, ClaimStep(0, 0)), SetUpStep(0, 0), s2, Commit(0, Output(map[]), 0), s);
    ReachableKeepsInv(s);
    StrandedStays(s, [], s);
  }

  /** The first step commits and its worker is gone. */
  lemma ChainStops(s2: Sys) returns (s: Sys)
    requires WellFormed(s2) && InPhase(s2, 0, Executing) && s2.workers == map[0 := Executing]
    requires |s2.db.steps| == 2 && s2.db.steps[1] == Chain().steps[1] && s2.db.run == Chain().run
    ensures s == Next(s2, Commit(0, Output(map[]), 0)) && Stranded(s) && s.db.run == Chain().run
    ensures |s.db.steps| == 2 && s.db.steps[0].status.Succeeded? && s.db.steps[1].status.Pending?
  {
    s := Next(s2, Commit(0, Output(map[]), 0));
    assert s.workers == map[];
  }

  lemma ChainExecutes(s0: Sys) returns (s2: Sys)
    requires s0 == Sys(Chain(), map[], [Tally(0, 0, 0, 0), Tally(0, 0, 0, 0)]) && Started(Chain())
    ensures WellFormed(s0) && Enabled(s0, ClaimStep(0, 0))
    ensures var s1 := Next(s0, ClaimStep(0, 0));
            WellFormed(s1) && Enabled(s1, SetUpStep(0, 0)) && s2 == Next(s1, SetUpStep(0, 0))
    ensures WellFormed(s2) && InPhase(s2, 0, Executing) && s2.workers == map[0 := Executing]
    ensures |s2.db.steps| == 2 && s2.db.steps[1] == Chain().steps[1] && s2.db.run == Chain().run
  {
    s2 := Next(Next(s0, ClaimStep(0, 0)), SetUpStep(0, 0));
  }

  lemma ChainRuns(s0: Sys, l1: Label, s1: Sys, l2: Label, s2: Sys, l3: Label, s3: Sys)
    requires Initial(s0)
    requires WellFormed(s0) && Enabled(s0, l1) && s1 == Next(s0, l1)
    requires WellFormed(s1) && Enabled(s1, l2) && s2 == Next(s1, l2)
    requires WellFormed(s2) && Enabled(s2, l3) && s3 == Next(s2, l3)
    ensures Reachable(s3)
  {
    assert [l1, l2, l3][1..] == [l2, l3] && [l2, l3][1..] == [l3] && [l3][1..] == [];
    assert Runs(s3, [], s3);
    assert Runs(s2, [l3], s3);
    assert Runs(s1, [l2, l3], s3);
    assert Runs(s0, [l1, l2, l3], s3);
  }

  lemma ChainIsStarted()
    ensures Started(Chain())
  {
    var db := Chain();
    assert Open(db.deps, 0) == {};
    assert Open(db.deps, 1) == {0};
    assert db.deps[0].to == 1;
  }
}
