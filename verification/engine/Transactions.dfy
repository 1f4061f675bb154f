/** The remaining transactions of the engine, each as a function from the rows before to
    the rows after. Row orders do not appear: each result is the same for all of them. */
module Transactions {
  import opened Options
  import opened Rows
  import opened Ledger

  /** Seconds; must exceed the slowest handler. */
  const LEASE_TTL := 600

  function Put(db: Db, i: nat, step: RunStep): Db
    requires i < |db.steps|
  {
    db.(steps := db.steps[i := step])
  }

  // ── claim and set-up ─────────────────────────────────────────────────────

  predicate Claimable(db: Db, i: nat) {
    i < |db.steps| && db.steps[i].status.Ready?
  }

  function Claim(db: Db, i: nat, now: nat): Db {
    if Claimable(db, i) then
      Put(db, i, db.steps[i].(status := Running, lease := Some(now + LEASE_TTL)))
    else
      db
  }

  /** What `process_step` writes between its claim and its handler. */
  function SetUp(db: Db, i: nat, now: nat): Db
    requires i < |db.steps|
  {
    if db.run.status.RunCancelled? then
      Put(db, i, db.steps[i].(status := Cancelled, completedAt := Some(now)))
    else if db.run.status.RunPending? || db.run.status.RunWaiting? then
      db.(run := db.run.(status := RunRunning))
    else
      db
  }

  // ── handler results ──────────────────────────────────────────────────────

  datatype HandlerResult =
    | Output(data: Dict)
    | Suspend(kind: string, key: Option<string>, fireAt: Option<nat>, payload: Dict)
    | Branch(data: Dict, liveHandles: seq<string>)

  function Succeed(step: RunStep, data: Dict, now: nat): RunStep {
    step.(status := Succeeded, output := Some(data), completedAt := Some(now))
  }

  predicate Prunes(dep: StepDep, i: nat, liveHandles: seq<string>) {
    dep.from == i && dep.handle !in liveHandles
  }

  function PrunedDeps(deps: seq<StepDep>, i: nat, liveHandles: seq<string>): (pruned: seq<StepDep>)
    ensures |pruned| == |deps|
    ensures forall k :: 0 <= k < |deps| ==>
              pruned[k] == if Prunes(deps[k], i, liveHandles) then deps[k].(live := false) else deps[k]
  {
    seq(|deps|, k requires 0 <= k < |deps| =>
          if Prunes(deps[k], i, liveHandles) then deps[k].(live := false) else deps[k])
  }

  /** The same steps with every join counter recounted against `deps`. */
  ghost function Recounted(steps: seq<RunStep>, deps: seq<StepDep>): (counted: seq<RunStep>)
    ensures |counted| == |steps| && Counted(counted, deps)
    ensures forall i :: 0 <= i < |steps| ==> counted[i] == steps[i].(depsRemaining := |Open(deps, i)|)
  {
    seq(|steps|, i requires 0 <= i < |steps| => steps[i].(depsRemaining := |Open(deps, i)|))
  }

  ghost function CommitResult(db: Db, i: nat, result: HandlerResult, now: nat): Db
    requires i < |db.steps|
  {
    match result
    case Suspend(kind, key, fireAt, payload) =>
      Put(db, i, db.steps[i].(status := Waiting))
        .(events := db.events + [RunEvent(i, kind, key, fireAt, Armed, payload)])
    case Branch(data, liveHandles) =>
      var deps := PrunedDeps(db.deps, i, liveHandles);
      db.(steps := Recounted(db.steps[i := Succeed(db.steps[i], data, now)], deps), deps := deps)
    case Output(data) =>
      Put(db, i, Succeed(db.steps[i], data, now))
  }

  predicate Retries(step: RunStep, definitive: bool) {
    !definitive && step.attempt < step.maxAttempts
  }

  function FailStep(db: Db, i: nat, definitive: bool, now: nat): Db
    requires i < |db.steps|
  {
    var step := db.steps[i];
    if Retries(step, definitive) then
      Put(db, i, step.(status := Ready, attempt := step.attempt + 1, lease := None))
    else
      Put(db, i, step.(status := Failed, completedAt := Some(now)))
  }

  /** `StepFailed`: the partial output is stored, then the step fails for good. */
  function FailWithOutput(db: Db, i: nat, output: Dict, now: nat): Db
    requires i < |db.steps|
  {
    FailStep(Put(db, i, db.steps[i].(output := Some(output))), i, true, now)
  }

  /** A handler noticed the cancellation. */
  function Abandon(db: Db, i: nat, now: nat): Db
    requires i < |db.steps|
  {
    if Terminal(db.steps[i].status) then db
    else Put(db, i, db.steps[i].(status := Cancelled, completedAt := Some(now)))
  }

  // ── wake-ups ─────────────────────────────────────────────────────────────

  predicate Hit(events: seq<RunEvent>, hits: set<nat>, i: nat) {
    exists e | e in hits :: e < |events| && events[e].step == i
  }

  function FiredEvent(event: RunEvent, payload: Dict): RunEvent {
    event.(status := EventStatus.Fired, payload := event.payload + payload)
  }

  /** Fire the events in `hits` and ready the waiting steps they belong to. */
  function Fire(db: Db, hits: set<nat>, payload: Dict): (fired: Db)
    ensures |fired.steps| == |db.steps| && |fired.events| == |db.events|
    ensures forall i :: 0 <= i < |db.steps| ==>
              fired.steps[i] == if db.steps[i].status.Waiting? && Hit(db.events, hits, i)
                                then db.steps[i].(status := Ready) else db.steps[i]
    ensures forall e :: 0 <= e < |db.events| ==>
              fired.events[e] == if e in hits
                                 then FiredEvent(db.events[e], payload)
                                 else db.events[e]
  {
    db.(steps := seq(|db.steps|, i requires 0 <= i < |db.steps| =>
                       if db.steps[i].status.Waiting? && Hit(db.events, hits, i)
                       then db.steps[i].(status := Ready) else db.steps[i]),
        events := seq(|db.events|, e requires 0 <= e < |db.events| =>
                        if e in hits
                        then FiredEvent(db.events[e], payload)
                        else db.events[e]))
  }

  predicate Matches(event: RunEvent, kind: string, key: Option<string>) {
    event.kind == kind && event.status.Armed? && (key.Some? ==> event.key == key)
  }

  function Matching(events: seq<RunEvent>, kind: string, key: Option<string>): set<nat> {
    set e: nat | e < |events| && Matches(events[e], kind, key)
  }

  function Signal(db: Db, kind: string, key: Option<string>, payload: Dict): Db {
    Fire(db, Matching(db.events, kind, key), payload)
  }

  predicate Due(event: RunEvent, now: nat) {
    event.status.Armed? && event.fireAt.Some? && event.fireAt.value <= now
  }

  function DueEvents(events: seq<RunEvent>, now: nat): set<nat> {
    set e: nat | e < |events| && Due(events[e], now)
  }

  function FireTimers(db: Db, now: nat): Db {
    Fire(db, DueEvents(db.events, now), map[])
  }

  predicate Expired(step: RunStep, now: nat) {
    step.status.Running? && step.lease.Some? && step.lease.value < now
  }

  function Reclaim(db: Db, now: nat): (reclaimed: Db)
    ensures |reclaimed.steps| == |db.steps|
    ensures forall i :: 0 <= i < |db.steps| ==>
              reclaimed.steps[i] == if Expired(db.steps[i], now)
                                    then db.steps[i].(status := Ready, lease := None) else db.steps[i]
  {
    db.(steps := seq(|db.steps|, i requires 0 <= i < |db.steps| =>
                       if Expired(db.steps[i], now)
                       then db.steps[i].(status := Ready, lease := None) else db.steps[i]))
  }

  /** The writing transaction of `sweep`. */
  function Sweep(db: Db, now: nat): Db {
    FireTimers(Reclaim(db, now), now)
  }

  // ── cancellation ─────────────────────────────────────────────────────────

  function CancelRun(db: Db, now: nat): Db {
    if Over(db.run.status) then db
    else
      db.(run := db.run.(status := RunCancelled, completedAt := Some(now)),
          steps := seq(|db.steps|, i requires 0 <= i < |db.steps| =>
                         if Active(db.steps[i].status) || db.steps[i].status.Waiting?
                         then db.steps[i].(status := Cancelled, completedAt := Some(now)) else db.steps[i]),
          events := seq(|db.events|, e requires 0 <= e < |db.events| =>
                          if db.events[e].status.Armed? then db.events[e].(status := Disarmed) else db.events[e]))
  }
}
