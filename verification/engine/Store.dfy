/** The rows of one run as the engine's transactions rewrite them in place. Each method is one
    transaction, proved to compute the function that specifies it; row orders are the orders in
    which the queries happen to return the rows. */
module Store {
  import opened Options
  import opened Rows
  import opened Ledger
  import opened Graph
  import opened Fixpoint
  import opened RunResult
  import opened Advance
  import opened Transactions
  import opened Invariants
  import opened System
  import opened Materialize
  import opened Progress

  /** How a handler call ends. */
  datatype Ending =
    | Returned(result: HandlerResult)
    | Raised
    | RaisedFailed(output: Dict)
    | SawCancel

  datatype Begun = Lost | Dropped | Begin(inputs: map<string, Dict>, attempt: nat)

  ghost function Prefix(order: seq<nat>, p: nat): set<nat>
    requires p <= |order|
  {
    set q | 0 <= q < p :: order[q]
  }

  lemma PrefixNext(order: seq<nat>, p: nat)
    requires p < |order| && Distinct(order)
    ensures Prefix(order, p + 1) == Prefix(order, p) + {order[p]}
    ensures order[p] !in Prefix(order, p)
  {
  }

  lemma PrefixAll(order: seq<nat>, n: nat)
    requires Everything(order, n)
    ensures forall x: nat :: x < n <==> x in Prefix(order, |order|)
  {
    forall x: nat | x < n ensures x in Prefix(order, |order|) {
      assert x in order;
      var q :| 0 <= q < |order| && order[q] == x;
    }
  }

  /** The selected events among the first p in query order. */
  ghost function Done(hits: set<nat>, order: seq<nat>, p: nat): set<nat>
    requires p <= |order|
  {
    hits * Prefix(order, p)
  }

  lemma DoneNext(hits: set<nat>, order: seq<nat>, p: nat)
    requires p < |order| && Distinct(order)
    ensures order[p] !in Done(hits, order, p)
    ensures Done(hits, order, p + 1) == Done(hits, order, p) + (if order[p] in hits then {order[p]} else {})
    ensures order[p] !in hits ==> Done(hits, order, p + 1) == Done(hits, order, p)
  {
    PrefixNext(order, p);
  }

  lemma AllDone(hits: set<nat>, order: seq<nat>, n: nat)
    requires Everything(order, n)
    ensures forall e: nat :: e < n ==> (e in hits <==> e in Done(hits, order, |order|))
  {
    PrefixAll(order, n);
  }

  /** Killing edge k takes it off the join counter of its target, if it still counted. */
  function Uncounted(steps: seq<RunStep>, dep: StepDep): seq<RunStep>
    requires dep.to < |steps|
  {
    var succ := steps[dep.to];
    if dep.live && !dep.satisfied then steps[dep.to := succ.(depsRemaining := LessOne(succ.depsRemaining))] else steps
  }

  lemma PruningCounts(steps: seq<RunStep>, deps: seq<StepDep>, k: nat)
    requires Wired(steps, deps) && Counted(steps, deps) && k < |deps|
    ensures Counted(Uncounted(steps, deps[k]), deps[k := deps[k].(live := false)])
  {
    var steps', deps' := Uncounted(steps, deps[k]), deps[k := deps[k].(live := false)];
    forall j | 0 <= j < |steps| ensures steps'[j].depsRemaining == |Open(deps', j)| {
      OpenAfterClosing(deps, k, deps[k].(live := false), j);
    }
  }

  /** The rows while the edges in `done` have been looked at. */
  ghost predicate Pruning(steps0: seq<RunStep>, deps0: seq<StepDep>, i: nat, liveHandles: seq<string>, done: set<nat>,
                          steps: seq<RunStep>, deps: seq<StepDep>)
  {
    && |deps| == |deps0| && |steps| == |steps0|
    && (forall k :: 0 <= k < |deps| ==>
          deps[k] == if k in done && Prunes(deps0[k], i, liveHandles) then deps0[k].(live := false) else deps0[k])
    && (forall j :: 0 <= j < |steps| ==> steps[j] == steps0[j].(depsRemaining := steps[j].depsRemaining))
    && Wired(steps, deps) && Counted(steps, deps)
  }

  lemma PruningNext(steps0: seq<RunStep>, deps0: seq<StepDep>, i: nat, liveHandles: seq<string>, done: set<nat>,
                    steps: seq<RunStep>, deps: seq<StepDep>, k: nat)
    requires Pruning(steps0, deps0, i, liveHandles, done, steps, deps) && k < |deps|
    ensures Prunes(deps[k], i, liveHandles) ==>
              Pruning(steps0, deps0, i, liveHandles, done + {k},
                      Uncounted(steps, deps[k]), deps[k := deps[k].(live := false)])
    ensures !Prunes(deps[k], i, liveHandles) ==> Pruning(steps0, deps0, i, liveHandles, done + {k}, steps, deps)
  {
    PruningCounts(steps, deps, k);
  }

  lemma AllPruned(steps0: seq<RunStep>, deps0: seq<StepDep>, i: nat, liveHandles: seq<string>, done: set<nat>,
                  steps: seq<RunStep>, deps: seq<StepDep>)
    requires Pruning(steps0, deps0, i, liveHandles, done, steps, deps)
    requires forall k :: 0 <= k < |deps| ==> k in done
    ensures deps == PrunedDeps(deps0, i, liveHandles) && steps == Recounted(steps0, deps)
  {
  }

  // ── what the transactions do, field by field ─────────────────────────────

  /** A handler's result is committed: an output or a branch ends the step and a branch kills the edges
      of its dead handles, a suspension parks the step with an armed event of its own. */
  ghost predicate Commits(db: Db, db': Db, i: nat, result: HandlerResult, now: nat)
    requires i < |db.steps|
  {
    && |db'.steps| == |db.steps| && |db'.deps| == |db.deps| && db'.run == db.run && db'.seed == db.seed
    && (forall j :: 0 <= j < |db.steps| && j != i ==>
          db'.steps[j] == db.steps[j].(depsRemaining := db'.steps[j].depsRemaining))
    && (!result.Branch? ==>
          db'.deps == db.deps && forall j :: 0 <= j < |db.steps| && j != i ==> db'.steps[j] == db.steps[j])
    && (!result.Suspend? ==> db'.events == db.events)
    && (match result
        case Output(data) =>
          db'.steps[i] == db.steps[i].(status := Succeeded, output := Some(data), completedAt := Some(now))
        case Branch(data, liveHandles) =>
          && db'.steps[i] == db.steps[i].(status := Succeeded, output := Some(data), completedAt := Some(now),
                                          depsRemaining := db'.steps[i].depsRemaining)
          && forall k :: 0 <= k < |db.deps| ==>
               db'.deps[k] == if db.deps[k].from == i && db.deps[k].handle !in liveHandles
                              then db.deps[k].(live := false) else db.deps[k]
        case Suspend(kind, key, fireAt, payload) =>
          && db'.steps[i] == db.steps[i].(status := Waiting)
          && db'.events == db.events + [RunEvent(i, kind, key, fireAt, Armed, payload)])
  }

  /** `d` is `over` laid over `under`. */
  ghost predicate Overlaid(under: Dict, over: Dict, d: Dict) {
    && d.Keys == under.Keys + over.Keys
    && (forall x :: x in over ==> d[x] == over[x])
    && (forall x :: x in under && x !in over ==> d[x] == under[x])
  }

  /** The armed events of the kind, and of the key if one is given, fire with the payload laid over
      their own, and their waiting steps are ready; nothing else changes. */
  ghost predicate Signalled(db: Db, db': Db, kind: string, key: Option<string>, payload: Dict) {
    var hits := set e: nat | e < |db.events| && db.events[e].status == Armed && db.events[e].kind == kind
                             && (key == None || db.events[e].key == key);
    && |db'.steps| == |db.steps| && |db'.events| == |db.events|
    && db' == db.(steps := db'.steps, events := db'.events)
    && (forall e :: 0 <= e < |db.events| ==>
          if e in hits then
            && db'.events[e] == db.events[e].(status := EventStatus.Fired, payload := db'.events[e].payload)
            && Overlaid(db.events[e].payload, payload, db'.events[e].payload)
          else db'.events[e] == db.events[e])
    && (forall i :: 0 <= i < |db.steps| ==>
          db'.steps[i] == if db.steps[i].status == Waiting && exists e :: e in hits && db.events[e].step == i
                          then db.steps[i].(status := Ready) else db.steps[i])
  }

  lemma SignalIsSignalled(db: Db, kind: string, key: Option<string>, payload: Dict)
    ensures Signalled(db, Signal(db, kind, key, payload), kind, key, payload)
  {
    var hits := set e: nat | e < |db.events| && db.events[e].status == Armed && db.events[e].kind == kind
                             && (key == None || db.events[e].key == key);
    assert hits == Matching(db.events, kind, key);
  }

  /** Running steps whose lease is over and waiting steps with a due timer are ready, and the due
      timers have fired; nothing else changes. */
  ghost predicate Swept(db: Db, db': Db, now: nat) {
    var due := set e: nat | e < |db.events| && db.events[e].status == Armed && db.events[e].fireAt.Some?
                            && db.events[e].fireAt.value <= now;
    && |db'.steps| == |db.steps| && |db'.events| == |db.events|
    && db' == db.(steps := db'.steps, events := db'.events)
    && (forall e :: 0 <= e < |db.events| ==>
          db'.events[e] == if e in due then db.events[e].(status := EventStatus.Fired) else db.events[e])
    && (forall i :: 0 <= i < |db.steps| ==>
          var step := db.steps[i];
          db'.steps[i] == if step.status == Running && step.lease.Some? && step.lease.value < now then
                            step.(status := Ready, lease := None)
                          else if step.status == Waiting && exists e :: e in due && db.events[e].step == i then
                            step.(status := Ready)
                          else step)
  }

  lemma SweepIsSwept(db: Db, now: nat)
    ensures Swept(db, Sweep(db, now), now)
  {
    var due := set e: nat | e < |db.events| && db.events[e].status == Armed && db.events[e].fireAt.Some?
                            && db.events[e].fireAt.value <= now;
    assert due == DueEvents(Reclaim(db, now).events, now);
    forall e | 0 <= e < |db.events| ensures db.events[e].payload + map[] == db.events[e].payload {}
  }

  /** The run, and every step and event that was not yet done with, is called off. */
  ghost predicate CancelledAll(db: Db, db': Db, now: nat) {
    && |db'.steps| == |db.steps| && |db'.events| == |db.events|
    && db' == db.(run := db.run.(status := RunCancelled, completedAt := Some(now)),
                  steps := db'.steps, events := db'.events)
    && (forall i :: 0 <= i < |db.steps| ==>
          db'.steps[i] == if db.steps[i].status in {Pending, Ready, Running, Waiting}
                          then db.steps[i].(status := Cancelled, completedAt := Some(now)) else db.steps[i])
    && (forall e :: 0 <= e < |db.events| ==>
          db'.events[e] == if db.events[e].status == Armed
                           then db.events[e].(status := Disarmed) else db.events[e])
  }

  lemma ReclaimKeepsLedger(db: Db, now: nat)
    requires Ledgered(db)
    ensures Ledgered(Reclaim(db, now))
  {
  }

  lemma CancelCancelsAll(db: Db, now: nat)
    ensures if db.run.status in {RunCompleted, RunFailed, RunCancelled} then CancelRun(db, now) == db
            else CancelledAll(db, CancelRun(db, now), now)
  {
  }

  lemma CommitCommits(db: Db, i: nat, result: HandlerResult, now: nat)
    requires i < |db.steps|
    ensures Commits(db, CommitResult(db, i, result, now), i, result, now)
  {
  }

  // ── the rows of a run ────────────────────────────────────────────────────

  class Engine {
    var run: WorkflowRun
    var steps: seq<RunStep>
    var deps: seq<StepDep>
    var events: seq<RunEvent>
    var seed: map<string, Dict>

    function Rows(): Db
      reads this
    {
      Db(run, steps, deps, events, seed)
    }

    /** A run row before `start_run`. */
    constructor (failRun: bool)
      ensures Rows() == Db(WorkflowRun(RunPending, None, failRun, None), [], [], [], map[])
    {
      run := WorkflowRun(RunPending, None, failRun, None);
      steps, deps, events, seed := [], [], [], map[];
    }

    /** The run has no rows and no result yet; a cancel may already have ended it. */
    ghost predicate Unstarted()
      reads this
    {
      steps == [] && deps == [] && events == [] && run.result.None?
    }

    /** A valid definition is materialized, with a ready root, and sets the run running whatever its
        status was: a run cancelled before its start is revived. Any other definition fails a run not yet over. */
    method StartRun(nodes: seq<Node>, edges: seq<Edge>, known: set<string>, seed: map<string, Dict>, now: nat)
      returns (ready: seq<nat>)
      requires Unstarted()
      modifies this
      ensures Valid(nodes, edges, known) ==>
                && Started(Rows()) && this.seed == seed && run == old(run).(status := RunRunning)
                && (exists sorted: seq<Node> ::
                      && Sorted(nodes, edges, sorted) && Represents(sorted, edges, deps)
                      && AllBegin(sorted, deps, seed, steps))
                && (forall i: nat :: i in ready <==> i < |steps| && steps[i].status.Ready?) && ready != []
      ensures !Valid(nodes, edges, known) ==>
                && ready == []
                && Rows() == if Over(old(run.status)) then old(Rows())
                             else old(Rows()).(run := old(run).(status := RunFailed, completedAt := Some(now)))
    {
      var checked := ValidateGraph(nodes, edges, known);
      if checked.Rejected? {
        if !Over(run.status) {
          run := run.(status := RunFailed, completedAt := Some(now));
        }
        return [];
      }
      SortedIsArranged(nodes, edges, checked.nodes);
      var db;
      db, ready := BuildRun(checked.nodes, edges, seed, run);
      run, steps, deps, events, this.seed := db.run, db.steps, db.deps, db.events, db.seed;
      assert Rows() == db;
    }

    /** Claim, then the check of the run that precedes the handler. Losing the claim, or finding
        the run cancelled, keeps the handler from running. */
    method BeginStep(i: nat, now: nat, later: nat) returns (begun: Begun)
      modifies this
      ensures begun.Lost? <==> !(i < |old(steps)| && old(steps)[i].status == Ready)
      ensures begun.Lost? ==> Rows() == old(Rows())
      ensures !begun.Lost? ==> i < |steps| && Rows() == SetUp(Claim(old(Rows()), i, now), i, later)
      ensures begun.Begin? ==> !run.status.RunCancelled?
      ensures begun.Begin? ==> begun.inputs == old(steps)[i].inputs && begun.attempt == old(steps)[i].attempt
      ensures begun.Begin? ==>
                && steps == old(steps)[i := old(steps)[i].(status := Running, lease := Some(now + 600))]
                && (old(run.status) in {RunPending, RunRunning, RunWaiting} ==> run == old(run).(status := RunRunning))
      ensures begun.Dropped? ==> run.status.RunCancelled?
      ensures begun.Dropped? ==>
                steps == old(steps)[i := old(steps)[i].(status := Cancelled, lease := Some(now + 600),
                                                        completedAt := Some(later))]
    {
      if !(i < |steps| && steps[i].status.Ready?) {
        return Lost;
      }
      steps := steps[i := steps[i].(status := Running, lease := Some(now + LEASE_TTL))];
      if run.status.RunCancelled? {
        steps := steps[i := steps[i].(status := Cancelled, completedAt := Some(later))];
        return Dropped;
      }
      if run.status.RunPending? || run.status.RunWaiting? {
        run := run.(status := RunRunning);
      }
      begun := Begin(steps[i].inputs, steps[i].attempt);
    }

    /** `scheduler.py`, lines 316-324: prune the edges whose handle is not live, keeping every join counter exact. */
    method Prune(i: nat, liveHandles: seq<string>, depOrder: seq<nat>)
      requires Wired(steps, deps) && Counted(steps, deps) && Everything(depOrder, |deps|)
      modifies this`steps, this`deps
      ensures deps == PrunedDeps(old(deps), i, liveHandles)
      ensures forall k :: 0 <= k < |deps| ==>
                deps[k] == if old(deps)[k].from == i && old(deps)[k].handle !in liveHandles
                           then old(deps)[k].(live := false) else old(deps)[k]
      ensures steps == Recounted(old(steps), deps)
    {
      ghost var deps0, steps0 := deps, steps;
      ghost var done: set<nat> := {};
      for p := 0 to |depOrder|
        invariant Pruning(steps0, deps0, i, liveHandles, done, steps, deps)
        invariant forall q :: 0 <= q < p ==> depOrder[q] in done
      {
        PruneOne(steps0, deps0, i, liveHandles, done, depOrder[p]);
        done := done + {depOrder[p]};
      }
      forall k | 0 <= k < |deps| ensures k in done {
        assert k in depOrder;
      }
      AllPruned(steps0, deps0, i, liveHandles, done, steps, deps);
    }

    /** One turn of that loop: edge k dies if its handle is not live. */
    method PruneOne(ghost steps0: seq<RunStep>, ghost deps0: seq<StepDep>, i: nat, liveHandles: seq<string>,
                    ghost done: set<nat>, k: nat)
      requires Pruning(steps0, deps0, i, liveHandles, done, steps, deps) && k < |deps|
      modifies this`steps, this`deps
      ensures Pruning(steps0, deps0, i, liveHandles, done + {k}, steps, deps)
    {
      PruningNext(steps0, deps0, i, liveHandles, done, steps, deps, k);
      var dep := deps[k];
      if Prunes(dep, i, liveHandles) {
        steps := Uncounted(steps, dep);
        deps := deps[k := dep.(live := false)];
      }
    }

    method CommitStepResult(i: nat, result: HandlerResult, depOrder: seq<nat>, now: nat)
      requires i < |steps| && Ledgered(Rows()) && Everything(depOrder, |deps|)
      modifies this
      ensures Rows() == CommitResult(old(Rows()), i, result, now)
      ensures Commits(old(Rows()), Rows(), i, result, now)
    {
      CommitCommits(Rows(), i, result, now);
      match result
      case Suspend(kind, key, fireAt, payload) =>
        steps := steps[i := steps[i].(status := Waiting)];
        events := events + [RunEvent(i, kind, key, fireAt, Armed, payload)];
      case Branch(data, liveHandles) =>
        steps := steps[i := Succeed(steps[i], data, now)];
        Prune(i, liveHandles, depOrder);
      case Output(data) =>
        steps := steps[i := Succeed(steps[i], data, now)];
    }

    /** Retry while attempts remain, else fail; the result says whether it was retried. */
    method FailOrRetry(i: nat, definitive: bool, now: nat) returns (retried: bool)
      requires i < |steps|
      modifies this
      ensures Rows() == FailStep(old(Rows()), i, definitive, now)
      ensures retried <==> steps[i].status.Ready?
      ensures retried <==> !definitive && old(steps)[i].attempt < old(steps)[i].maxAttempts
      ensures var step := old(steps)[i];
              steps == old(steps)[i := if retried
                                       then step.(status := Ready, attempt := step.attempt + 1, lease := None)
                                       else step.(status := Failed, completedAt := Some(now))]
    {
      var step := steps[i];
      if !definitive && step.attempt < step.maxAttempts {
        steps := steps[i := step.(status := Ready, attempt := step.attempt + 1, lease := None)];
        return true;
      }
      steps := steps[i := step.(status := Failed, completedAt := Some(now))];
      retried := false;
    }

    /** The second half of `process_step` and the test of `execute_step` that follows it. */
    method EndStep(i: nat, ending: Ending, depOrder: seq<nat>, now: nat) returns (reenqueue: bool)
      requires i < |steps| && Ledgered(Rows()) && Everything(depOrder, |deps|)
      modifies this
      ensures Rows() == match ending
                        case Returned(result) => CommitResult(old(Rows()), i, result, now)
                        case Raised => FailStep(old(Rows()), i, false, now)
                        case RaisedFailed(output) => FailWithOutput(old(Rows()), i, output, now)
                        case SawCancel => Abandon(old(Rows()), i, now)
      ensures |steps| == |old(steps)| && (reenqueue <==> steps[i].status.Ready?)
      ensures ending.RaisedFailed? ==>
                steps == old(steps)[i := old(steps)[i].(output := Some(ending.output), status := Failed,
                                                        completedAt := Some(now))]
      ensures ending.SawCancel? ==>
                steps == old(steps)[i := if old(steps)[i].status in {Succeeded, Failed, Skipped, Cancelled}
                                         then old(steps)[i]
                                         else old(steps)[i].(status := Cancelled, completedAt := Some(now))]
    {
      match ending {
        case Returned(result) =>
          CommitStepResult(i, result, depOrder, now);
        case Raised =>
          var _ := FailOrRetry(i, false, now);
        case RaisedFailed(output) =>
          steps := steps[i := steps[i].(output := Some(output))];
          var _ := FailOrRetry(i, true, now);
        case SawCancel =>
          if !Terminal(steps[i].status) {
            steps := steps[i := steps[i].(status := Cancelled, completedAt := Some(now))];
          }
      }
      reenqueue := steps[i].status.Ready?;
    }

    /** `advance_run`, whatever order the rows arrive in. */
    method AdvanceRows(stepOrder: seq<nat>, depOrder: seq<nat>, now: nat) returns (newlyReady: seq<nat>)
      requires Sound(Rows())
      requires Order(stepOrder, |steps|) && Order(depOrder, |deps|)
      modifies this
      ensures Rows() == AdvanceRun(old(Rows()), stepOrder, now)
      ensures Distinct(newlyReady)
      ensures forall i: nat :: i in newlyReady
                               <==> i < |steps| && old(steps)[i].status.Pending? && steps[i].status.Ready?
    {
      if run.status.RunCompleted? || run.status.RunFailed? || run.status.RunCancelled? {
        return [];
      }
      ghost var db := Rows();
      var settled, settledDeps := SettleRows(seed, steps, deps, now, stepOrder, depOrder);
      SettledKeepsShape(seed, steps, deps, now);
      steps, newlyReady := ReadyRows(settled, settledDeps, stepOrder);
      deps := settledDeps;
      Complete(stepOrder, now);
      NewlyReadyRows(db, stepOrder, now);
    }

    /** `scheduler.py`, lines 505-520: the completion rule. */
    method Complete(stepOrder: seq<nat>, now: nat)
      requires InRange(stepOrder, steps) && !Over(run.status)
      modifies this`run
      ensures run == Completion(old(run), steps, PickResult(stepOrder, steps, deps), now)
      ensures StatusFits(run, steps)
      ensures if run.status in {RunCompleted, RunFailed} then run.completedAt == Some(now)
              else run == old(run).(status := run.status)
    {
      CompletionFits(run, steps, PickResult(stepOrder, steps, deps), now);
      var active := |set i | 0 <= i < |steps| && Active(steps[i].status)|;
      var waiting := |set i | 0 <= i < |steps| && steps[i].status.Waiting?|;
      var failed := set i | 0 <= i < |steps| && steps[i].status.Failed?;
      CountsDecide(steps);
      if active == 0 {
        if waiting > 0 {
          run := run.(status := RunWaiting);
        } else if failed != {} && run.failRun {
          run := run.(status := RunFailed, completedAt := Some(now));
        } else {
          run := run.(status := RunCompleted, result := PickResult(stepOrder, steps, deps), completedAt := Some(now));
        }
      } else if run.status.RunPending? || run.status.RunWaiting? {
        run := run.(status := RunRunning);
      }
    }

    /** One turn of that loop: fire event e and ready its step if it waits. */
    method FireOne(e: nat, payload: Dict, ids: seq<nat>) returns (ids': seq<nat>)
      requires e < |events| && events[e].step < |steps|
      modifies this`steps, this`events
      ensures events == old(events)[e := FiredEvent(old(events)[e], payload)]
      ensures var i := old(events)[e].step;
              if old(steps)[i].status.Waiting?
              then steps == old(steps)[i := old(steps)[i].(status := Ready)] && ids' == ids + [i]
              else steps == old(steps) && ids' == ids
    {
      var event := events[e];
      ids' := ids;
      events := events[e := FiredEvent(event, payload)];
      if steps[event.step].status.Waiting? {
        steps := steps[event.step := steps[event.step].(status := Ready)];
        ids' := ids + [event.step];
      }
    }

    /** One turn of the loop below. */
    method FireTurn(ghost db: Db, hits: set<nat>, order: seq<nat>, p: nat, payload: Dict, ids: seq<nat>)
      returns (ids': seq<nat>)
      requires p < |order| && Order(order, |db.events|) && Ledgered(db)
      requires Firing(db, Rows(), Done(hits, order, p), payload, ids)
      modifies this`steps, this`events
      ensures Firing(db, Rows(), Done(hits, order, p + 1), payload, ids')
    {
      var e := order[p];
      ghost var before := Rows();
      DoneNext(hits, order, p);
      ids' := ids;
      if e in hits {
        ids' := FireOne(e, payload, ids);
        FiringNext(db, before, Rows(), Done(hits, order, p), e, payload, ids, ids');
      }
    }

    /** The loop of `signal_event` and `fire_due_timers` over the events their query selected. */
    method FireEvents(hits: set<nat>, order: seq<nat>, payload: Dict) returns (ids: seq<nat>)
      requires Ledgered(Rows()) && Order(order, |events|)
      modifies this`steps, this`events
      ensures Rows() == Fire(old(Rows()), hits, payload)
      ensures Distinct(ids) && Woken(old(Rows()), Rows(), ids)
    {
      ids := [];
      ghost var db := Rows();
      NothingFired(db, hits, order, payload);
      for p := 0 to |order|
        invariant Firing(db, Rows(), Done(hits, order, p), payload, ids)
      {
        ids := FireTurn(db, hits, order, p, payload, ids);
      }
      AllDone(hits, order, |events|);
      FireOnlyRows(db, hits, Done(hits, order, |order|), payload);
    }

    method SignalEvent(kind: string, key: Option<string>, payload: Dict, order: seq<nat>) returns (ids: seq<nat>)
      requires Ledgered(Rows()) && Order(order, |events|)
      modifies this
      ensures Rows() == Signal(old(Rows()), kind, key, payload)
      ensures Distinct(ids) && Woken(old(Rows()), Rows(), ids)
      ensures Signalled(old(Rows()), Rows(), kind, key, payload)
    {
      SignalIsSignalled(Rows(), kind, key, payload);
      ids := FireEvents(Matching(events, kind, key), order, payload);
    }

    /** A running step whose lease expired goes back to ready. */
    method ReclaimExpiredLeases(order: seq<nat>, now: nat) returns (ids: seq<nat>)
      requires Order(order, |steps|)
      modifies this`steps
      ensures Rows() == Reclaim(old(Rows()), now)
      ensures forall i: nat :: i in ids <==> i < |steps| && Expired(old(steps)[i], now)
      ensures |steps| == |old(steps)|
      ensures forall i :: 0 <= i < |steps| ==>
                var step := old(steps)[i];
                steps[i] == if step.status == Running && step.lease.Some? && step.lease.value < now
                            then step.(status := Ready, lease := None) else step
    {
      ghost var steps0 := steps;
      ids := [];
      for p := 0 to |order|
        invariant |steps| == |steps0|
        invariant forall i :: 0 <= i < |steps| ==>
                    steps[i] == if i in Prefix(order, p) && Expired(steps0[i], now)
                        then steps0[i].(status := Ready, lease := None) else steps0[i]
        invariant forall i: nat :: i in ids <==> i in Prefix(order, p) && i < |steps| && Expired(steps0[i], now)
      {
        var i := order[p];
        PrefixNext(order, p);
        if Expired(steps[i], now) {
          steps := steps[i := steps[i].(status := Ready, lease := None)];
          ids := ids + [i];
        }
      }
      PrefixAll(order, |steps|);
      assert steps == Reclaim(old(Rows()), now).steps;
    }

    /** One reconciler pass returns exactly the steps ready after its transaction. */
    method SweepRows(stepOrder: seq<nat>, eventOrder: seq<nat>, now: nat) returns (ids: set<nat>)
      requires Ledgered(Rows()) && Order(stepOrder, |steps|) && Order(eventOrder, |events|)
      modifies this
      ensures Rows() == Sweep(old(Rows()), now)
      ensures ids == SweepIds(old(Rows()), now)
      ensures ids == set i: nat | i < |steps| && steps[i].status == Ready
      ensures Swept(old(Rows()), Rows(), now)
    {
      SweepIsSwept(Rows(), now);
      ReclaimKeepsLedger(Rows(), now);
      var reclaimed := ReclaimExpiredLeases(stepOrder, now);
      var fired := FireEvents(DueEvents(events, now), eventOrder, map[]);
      var stranded := set i: nat | i < |steps| && steps[i].status.Ready?;
      ids := (set i | i in reclaimed) + (set i | i in fired) + stranded;
      assert Rows() == Sweep(old(Rows()), now);
      assert ids == stranded;
    }

    method CancelRows(stepOrder: seq<nat>, eventOrder: seq<nat>, now: nat)
      requires Order(stepOrder, |steps|) && Order(eventOrder, |events|)
      modifies this
      ensures Rows() == CancelRun(old(Rows()), now)
      ensures if old(run.status) in {RunCompleted, RunFailed, RunCancelled} then Rows() == old(Rows())
              else CancelledAll(old(Rows()), Rows(), now)
    {
      CancelCancelsAll(Rows(), now);
      if run.status.RunCompleted? || run.status.RunFailed? || run.status.RunCancelled? {
        return;
      }
      run := run.(status := RunCancelled, completedAt := Some(now));
      CancelSteps(stepOrder, now);
      DisarmEvents(eventOrder);
      assert Rows().steps == CancelRun(old(Rows()), now).steps;
      assert Rows().events == CancelRun(old(Rows()), now).events;
    }

    method CancelSteps(order: seq<nat>, now: nat)
      requires Order(order, |steps|)
      modifies this`steps
      ensures |steps| == |old(steps)|
      ensures forall i :: 0 <= i < |steps| ==>
                steps[i] == if Active(old(steps)[i].status) || old(steps)[i].status.Waiting?
                            then old(steps)[i].(status := Cancelled, completedAt := Some(now)) else old(steps)[i]
    {
      ghost var steps0 := steps;
      for p := 0 to |order|
        invariant |steps| == |steps0|
        invariant forall i :: 0 <= i < |steps| ==>
                    steps[i] == if i in Prefix(order, p) && (Active(steps0[i].status) || steps0[i].status.Waiting?)
                                then steps0[i].(status := Cancelled, completedAt := Some(now)) else steps0[i]
      {
        var i := order[p];
        PrefixNext(order, p);
        if Active(steps[i].status) || steps[i].status.Waiting? {
          steps := steps[i := steps[i].(status := Cancelled, completedAt := Some(now))];
        }
      }
      PrefixAll(order, |steps|);
    }

    method DisarmEvents(order: seq<nat>)
      requires Order(order, |events|)
      modifies this`events
      ensures |events| == |old(events)|
      ensures forall e :: 0 <= e < |events| ==>
                events[e] == if old(events)[e].status.Armed?
                             then old(events)[e].(status := Disarmed) else old(events)[e]
    {
      ghost var events0 := events;
      for p := 0 to |order|
        invariant |events| == |events0|
        invariant forall e :: 0 <= e < |events| ==>
                    events[e] == if e in Prefix(order, p) && events0[e].status.Armed?
                        then events0[e].(status := Disarmed) else events0[e]
      {
        var e := order[p];
        PrefixNext(order, p);
        if events[e].status.Armed? {
          events := events[e := events[e].(status := Disarmed)];
        }
      }
      PrefixAll(order, |events|);
    }
  }

  /** `ids` lists the steps that went from waiting to ready. */
  ghost predicate Woken(db: Db, db': Db, ids: seq<nat>) {
    && |db'.steps| == |db.steps|
    && (forall i :: 0 <= i < |db.steps| ==>
          db'.steps[i] == db.steps[i] || (db.steps[i].status.Waiting? && db'.steps[i].status.Ready?))
    && (forall i: nat :: i in ids <==> i < |db.steps| && db.steps[i].status.Waiting? && db'.steps[i].status.Ready?)
  }

  /** The state of the firing loop once the events in `done` have fired. */
  ghost predicate Firing(db: Db, now: Db, done: set<nat>, payload: Dict, ids: seq<nat>) {
    now == Fire(db, done, payload) && Distinct(ids) && Woken(db, now, ids)
  }

  lemma NothingFired(db: Db, hits: set<nat>, order: seq<nat>, payload: Dict)
    ensures Firing(db, db, Done(hits, order, 0), payload, [])
  {
    var none := Fire(db, {}, payload);
    assert Done(hits, order, 0) == {};
    assert none.steps == db.steps && none.events == db.events;
  }

  lemma FiringNext(db: Db, before: Db, after: Db, done: set<nat>, e: nat, payload: Dict, ids: seq<nat>, ids': seq<nat>)
    requires Firing(db, before, done, payload, ids)
    requires e < |db.events| && e !in done && db.events[e].step < |db.steps|
    requires after == before.(steps := after.steps, events := after.events)
    requires after.events ==
        before.events[e := FiredEvent(before.events[e], payload)]
    requires var i := before.events[e].step;
             i < |before.steps| &&
             if before.steps[i].status.Waiting?
                 then after.steps == before.steps[i := before.steps[i].(status := Ready)] && ids' == ids + [i]
             else after.steps == before.steps && ids' == ids
    ensures Firing(db, after, done + {e}, payload, ids')
  {
    FireOneMore(db, done, e, payload);
  }

  lemma CountsDecide(steps: seq<RunStep>)
    ensures AnyActive(steps) <==> |set i | 0 <= i < |steps| && Active(steps[i].status)| != 0
    ensures AnyWaiting(steps) <==> |set i | 0 <= i < |steps| && steps[i].status.Waiting?| != 0
    ensures AnyFailed(steps) <==> (set i | 0 <= i < |steps| && steps[i].status.Failed?) != {}
  {
    var active := set i | 0 <= i < |steps| && Active(steps[i].status);
    var waiting := set i | 0 <= i < |steps| && steps[i].status.Waiting?;
    var failed := set i | 0 <= i < |steps| && steps[i].status.Failed?;
    assert AnyActive(steps) <==> active != {} by {
      if AnyActive(steps) { var i :| 0 <= i < |steps| && Active(steps[i].status); assert i in active; }
    }
    assert AnyWaiting(steps) <==> waiting != {} by {
      if AnyWaiting(steps) { var i :| 0 <= i < |steps| && steps[i].status.Waiting?; assert i in waiting; }
    }
    assert AnyFailed(steps) <==> failed != {} by {
      if AnyFailed(steps) { var i :| 0 <= i < |steps| && steps[i].status.Failed?; assert i in failed; }
    }
  }

  /** The steps advance readies are those it promoted from pending. */
  lemma NewlyReadyRows(db: Db, order: seq<nat>, now: nat)
    requires Coherent(db) && !Over(db.run.status) && Everything(order, |db.steps|)
    ensures forall i :: 0 <= i < |db.steps| ==>
              (Promotable(SettledSteps(db.seed, db.steps, db.deps, now), SettledDeps(db.steps, db.deps), i) <==>
               db.steps[i].status.Pending? && AdvanceRun(db, order, now).steps[i].status.Ready?)
  {
  }

  lemma SettledKeepsShape(seed: map<string, Dict>, steps: seq<RunStep>, deps: seq<StepDep>, now: nat)
    requires Wired(steps, deps)
    ensures Counted(SettledSteps(seed, steps, deps, now), SettledDeps(steps, deps))
    ensures forall k :: 0 <= k < |deps| ==> SettledDeps(steps, deps)[k].from < |steps|
  {
  }

  /** Firing one more event is one more turn of the loop. */
  lemma FireOneMore(db: Db, fired: set<nat>, e: nat, payload: Dict)
    requires e < |db.events| && e !in fired && db.events[e].step < |db.steps|
    ensures var before, after := Fire(db, fired, payload), Fire(db, fired + {e}, payload);
            var i := db.events[e].step;
            && after.events ==
                before.events[e := FiredEvent(before.events[e], payload)]
            && before.events[e] == db.events[e]
            && after.steps ==
               if before.steps[i].status.Waiting?
               then before.steps[i := before.steps[i].(status := Ready)] else before.steps
  {
  }

  /** Only existing events matter. */
  lemma FireOnlyRows(db: Db, hits: set<nat>, fired: set<nat>, payload: Dict)
    requires forall e: nat :: e < |db.events| ==> (e in hits <==> e in fired)
    ensures Fire(db, hits, payload) == Fire(db, fired, payload)
  {
  }
}
