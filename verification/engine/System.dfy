/** The engine at work: stateless workers, the reconciler, signals and cancellation
    interleave their transactions in any order. A message queue is not modelled: any
    transaction may be attempted at any time, so messages may be lost, repeated or
    reordered at will. */
module System {
  import opened Options
  import opened Rows
  import opened Ledger
  import opened RunResult
  import opened Advance
  import opened Transactions
  import opened Invariants

  /** How far a live worker has got with the step it claimed. */
  datatype Phase = Claimed | Executing

  /** Bookkeeping of the model, not of the engine. */
  datatype Tally = Tally(claims: nat, handlerCalls: nat, reclaims: nat, resumes: nat)

  datatype Sys = Sys(db: Db, workers: map<nat, Phase>, tally: seq<Tally>)

  datatype Label =
    | ClaimStep(i: nat, now: nat)
    | SetUpStep(i: nat, now: nat)
    | Commit(i: nat, result: HandlerResult, now: nat)
    | Raise(i: nat, definitive: bool, now: nat)
    | RaiseWithOutput(i: nat, output: Dict, now: nat)
    | NoticeCancel(i: nat, now: nat)
    | Die(i: nat)
    | AdvanceTx(order: seq<nat>, now: nat)
    | SignalTx(kind: string, key: Option<string>, payload: Dict)
    | SweepTx(now: nat)
    | CancelTx(now: nat)

  predicate InPhase(s: Sys, i: nat, phase: Phase) {
    i < |s.db.steps| && i in s.workers && s.workers[i] == phase
  }

  /** When a transaction can happen. The reconciler's rule carries the lease assumption: a
      lease expires only once its worker is dead. */
  ghost predicate Enabled(s: Sys, l: Label) {
    match l
    case ClaimStep(i, _) => i < |s.db.steps|
    case SetUpStep(i, _) => InPhase(s, i, Claimed)
    case Commit(i, _, _) => InPhase(s, i, Executing)
    case Raise(i, _, _) => InPhase(s, i, Executing)
    case RaiseWithOutput(i, _, _) => InPhase(s, i, Executing)
    case NoticeCancel(i, _) => InPhase(s, i, Executing) && s.db.run.status.RunCancelled?
    case Die(i) => i in s.workers
    case AdvanceTx(order, _) => Everything(order, |s.db.steps|)
    case SignalTx(_, _, _) => true
    case SweepTx(now) => forall i :: 0 <= i < |s.db.steps| && Expired(s.db.steps[i], now) ==> i !in s.workers
    case CancelTx(_) => true
  }

  function Release(workers: map<nat, Phase>, i: nat): map<nat, Phase> {
    map j | j in workers && j != i :: workers[j]
  }

  function CountClaim(tally: seq<Tally>, i: nat): seq<Tally>
    requires i < |tally|
  {
    tally[i := tally[i].(claims := tally[i].claims + 1)]
  }

  function CountCall(tally: seq<Tally>, i: nat): seq<Tally>
    requires i < |tally|
  {
    tally[i := tally[i].(handlerCalls := tally[i].handlerCalls + 1)]
  }

  function One(b: bool): nat { if b then 1 else 0 }

  /** Count the steps the reconciler or a signal made ready. */
  function CountWakeUps(tally: seq<Tally>, before: seq<RunStep>, after: seq<RunStep>): (counted: seq<Tally>)
    requires |tally| == |before| == |after|
    ensures |counted| == |tally|
    ensures forall i :: 0 <= i < |tally| ==> (
              counted[i] == tally[i].(
                reclaims := tally[i].reclaims + One(before[i].status.Running? && after[i].status.Ready?),
                resumes := tally[i].resumes + One(before[i].status.Waiting? && after[i].status.Ready?)))
  {
    seq(|tally|, i requires 0 <= i < |tally| =>
          tally[i].(reclaims := tally[i].reclaims + One(before[i].status.Running? && after[i].status.Ready?),
                    resumes := tally[i].resumes + One(before[i].status.Waiting? && after[i].status.Ready?)))
  }

  ghost predicate WellFormed(s: Sys) {
    && Wired(s.db.steps, s.db.deps)
    && |s.tally| == |s.db.steps|
  }

  ghost function Next(s: Sys, l: Label): Sys
    requires WellFormed(s) && Enabled(s, l)
  {
    match l
    case ClaimStep(i, now) =>
      if Claimable(s.db, i) then
        Sys(Claim(s.db, i, now), s.workers[i := Claimed], CountClaim(s.tally, i))
      else
        s
    case SetUpStep(i, now) =>
      if s.db.run.status.RunCancelled? then
        Sys(SetUp(s.db, i, now), Release(s.workers, i), s.tally)
      else
        Sys(SetUp(s.db, i, now), s.workers[i := Executing], CountCall(s.tally, i))
    case Commit(i, result, now) =>
      Sys(CommitResult(s.db, i, result, now), Release(s.workers, i), s.tally)
    case Raise(i, definitive, now) =>
      Sys(FailStep(s.db, i, definitive, now), Release(s.workers, i), s.tally)
    case RaiseWithOutput(i, output, now) =>
      Sys(FailWithOutput(s.db, i, output, now), Release(s.workers, i), s.tally)
    case NoticeCancel(i, now) =>
      Sys(Abandon(s.db, i, now), Release(s.workers, i), s.tally)
    case Die(i) =>
      s.(workers := Release(s.workers, i))
    case AdvanceTx(order, now) =>
      s.(db := AdvanceRun(s.db, order, now))
    case SignalTx(kind, key, payload) =>
      var db := Signal(s.db, kind, key, payload);
      s.(db := db, tally := CountWakeUps(s.tally, s.db.steps, db.steps))
    case SweepTx(now) =>
      var db := Sweep(s.db, now);
      s.(db := db, tally := CountWakeUps(s.tally, s.db.steps, db.steps))
    case CancelTx(now) =>
      s.(db := CancelRun(s.db, now))
  }

  /** `trace` leads from s to s'. */
  ghost predicate Runs(s: Sys, trace: seq<Label>, s': Sys)
    decreases |trace|
  {
    if trace == [] then s == s'
    else WellFormed(s) && Enabled(s, trace[0]) && Runs(Next(s, trace[0]), trace[1..], s')
  }

  // ── the state `start_run` leaves ─────────────────────────────────────────

  ghost predicate Fresh(step: RunStep, seed: map<string, Dict>, root: bool) {
    && step.status == (if root then Ready else Pending)
    && step.attempt == 1 && step.maxAttempts >= 1
    && step.inputs == seed && step.output.None? && step.lease.None? && step.completedAt.None?
  }

  ghost predicate Started(db: Db) {
    && |db.steps| > 0
    && Wired(db.steps, db.deps)
    && Counted(db.steps, db.deps)
    && (forall k :: 0 <= k < |db.deps| ==> db.deps[k].live && !db.deps[k].satisfied)
    && (forall i :: 0 <= i < |db.steps| ==> Fresh(db.steps[i], db.seed, Root(db.deps, i)))
    && db.events == []
    && db.run.status.RunRunning? && db.run.result.None?
  }

  ghost predicate Initial(s: Sys) {
    && Started(s.db)
    && s.workers == map[]
    && |s.tally| == |s.db.steps|
    && (forall i :: 0 <= i < |s.tally| ==> s.tally[i] == Tally(0, 0, 0, 0))
  }

  ghost predicate Reachable(s: Sys) {
    exists s0: Sys, trace :: Initial(s0) && Runs(s0, trace, s)
  }

  // ── the invariant of the whole system ────────────────────────────────────

  /** A live worker's step is running, or was cancelled under it. */
  ghost predicate Manned(s: Sys) {
    forall i :: i in s.workers ==>
      && i < |s.db.steps|
      && (s.db.steps[i].status.Running? || (s.db.run.status.RunCancelled? && s.db.steps[i].status.Cancelled?))
  }

  /** Not yet claimed for its current attempt. */
  predicate Unclaimed(status: StepStatus) {
    status.Pending? || status.Ready? || status.Skipped?
  }

  ghost predicate Accounted(s: Sys, i: nat)
    requires i < |s.db.steps| && i < |s.tally|
  {
    var t := s.tally[i];
    var step := s.db.steps[i];
    && t.claims + One(Unclaimed(step.status)) <= step.attempt + t.reclaims + t.resumes
    && (!s.db.run.status.RunCancelled? ==>
          t.claims + One(Unclaimed(step.status)) == step.attempt + t.reclaims + t.resumes)
    && t.handlerCalls + One(InPhase(s, i, Claimed)) <= t.claims
  }

  ghost predicate SysInv(s: Sys) {
    && WellFormed(s)
    && Sound(s.db)
    && Manned(s)
    && (forall i :: 0 <= i < |s.db.steps| ==> Accounted(s, i))
  }

  lemma InitialKeepsInv(s: Sys)
    requires Initial(s)
    ensures SysInv(s)
  {
  }

  lemma NextKeepsShape(s: Sys, l: Label)
    requires WellFormed(s) && Enabled(s, l)
    ensures |Next(s, l).tally| == |Next(s, l).db.steps| == |s.db.steps|
  {
  }

  lemma EndKeepsSound(db: Db, l: Label, db': Db)
    requires Sound(db) && (l.Commit? || l.Raise? || l.RaiseWithOutput? || l.NoticeCancel?) && l.i < |db.steps|
    requires !db.run.status.RunCancelled? ==> db.steps[l.i].status.Running? && !l.NoticeCancel?
    requires db' == match l
                    case Commit(i, result, now) => CommitResult(db, i, result, now)
                    case Raise(i, definitive, now) => FailStep(db, i, definitive, now)
                    case RaiseWithOutput(i, output, now) => FailWithOutput(db, i, output, now)
                    case NoticeCancel(i, now) => Abandon(db, i, now)
                    case _ => db
    ensures Sound(db')
  {
    match l
    case Commit(i, result, now) =>
      if result.Suspend? { SuspendKeepsSound(db, i, result, now); } else { SucceedKeepsSound(db, i, result, now); }
    case Raise(i, definitive, now) => FailKeepsSound(db, i, definitive, now);
    case RaiseWithOutput(i, output, now) => FailWithOutputKeepsSound(db, i, output, now);
    case NoticeCancel(i, now) => AbandonKeepsSound(db, i, now);
  }

  lemma NextKeepsSound(s: Sys, l: Label, db': Db)
    requires SysInv(s) && Enabled(s, l) && db' == Next(s, l).db
    ensures Sound(db')
  {
    match l
    case ClaimStep(i, now) => ClaimKeepsSound(s.db, i, now);
    case SetUpStep(i, now) => SetUpKeepsSound(s.db, i, now);
    case Die(i) =>
    case AdvanceTx(order, now) => if !Over(s.db.run.status) { AdvanceKeepsSound(s.db, order, now); }
    case SignalTx(kind, key, payload) => FireKeepsSound(s.db, Matching(s.db.events, kind, key), payload);
    case SweepTx(now) => SweepKeepsSound(s.db, now);
    case CancelTx(now) => CancelKeepsSound(s.db, now);
    case _ => EndKeepsSound(s.db, l, db');
  }

  lemma ClaimsKeepManned(s: Sys, l: Label)
    requires SysInv(s) && Enabled(s, l) && (l.ClaimStep? || l.SetUpStep? || l.Die?)
    ensures Manned(Next(s, l))
  {
  }

  lemma EndsKeepManned(s: Sys, l: Label)
    requires SysInv(s) && Enabled(s, l) && (l.Commit? || l.NoticeCancel?)
    ensures Manned(Next(s, l))
  {
  }

  lemma FailuresKeepManned(s: Sys, l: Label)
    requires SysInv(s) && Enabled(s, l) && (l.Raise? || l.RaiseWithOutput?)
    ensures Manned(Next(s, l))
  {
  }

  lemma SweepsKeepManned(s: Sys, l: Label)
    requires SysInv(s) && Enabled(s, l) && (l.SignalTx? || l.SweepTx?)
    ensures Manned(Next(s, l))
  {
  }

  lemma CancelKeepsManned(s: Sys, l: Label)
    requires SysInv(s) && Enabled(s, l) && (l.CancelTx? || l.AdvanceTx?)
    ensures Manned(Next(s, l))
  {
  }

  lemma NextKeepsManned(s: Sys, l: Label)
    requires SysInv(s) && Enabled(s, l)
    ensures Manned(Next(s, l))
  {
    match l
    case ClaimStep(_, _) => ClaimsKeepManned(s, l);
    case SetUpStep(_, _) => ClaimsKeepManned(s, l);
    case Die(_) => ClaimsKeepManned(s, l);
    case SignalTx(_, _, _) => SweepsKeepManned(s, l);
    case SweepTx(_) => SweepsKeepManned(s, l);
    case CancelTx(_) => CancelKeepsManned(s, l);
    case AdvanceTx(_, _) => CancelKeepsManned(s, l);
    case Raise(_, _, _) => FailuresKeepManned(s, l);
    case RaiseWithOutput(_, _, _) => FailuresKeepManned(s, l);
    case _ => EndsKeepManned(s, l);
  }

  lemma AdvanceKeepsAccounts(s: Sys, s': Sys, order: seq<nat>, now: nat, i: nat)
    requires SysInv(s) && Everything(order, |s.db.steps|) && i < |s.db.steps|
    requires s' == s.(db := AdvanceRun(s.db, order, now)) && |s'.db.steps| == |s.db.steps|
    ensures Accounted(s', i)
  {
    assert Accounted(s, i);
    if !Over(s.db.run.status) {
      AdvancedMove(s.db, order, now, i);
    }
  }

  /** Waking a step counts it. */
  lemma WakeUpKeepsAccounts(s: Sys, s': Sys, i: nat)
    requires WellFormed(s) && i < |s.db.steps| == |s'.db.steps| && Accounted(s, i)
    requires s' == Sys(s'.db, s.workers, CountWakeUps(s.tally, s.db.steps, s'.db.steps))
    requires s'.db.run.status == s.db.run.status && s'.db.steps[i].attempt == s.db.steps[i].attempt
    requires s'.db.steps[i].status == s.db.steps[i].status
             || ((s.db.steps[i].status.Running? || s.db.steps[i].status.Waiting?) && s'.db.steps[i].status.Ready?)
    ensures Accounted(s', i)
  {
  }

  lemma ClaimKeepsAccounts(s: Sys, s': Sys, j: nat, now: nat, i: nat)
    requires WellFormed(s) && Manned(s) && Claimable(s.db, j) && i < |s.db.steps| && Accounted(s, i)
    requires s' == Sys(Claim(s.db, j, now), s.workers[j := Claimed], CountClaim(s.tally, j))
    ensures Accounted(s', i)
  {
    assert i != j ==> s'.db.steps[i] == s.db.steps[i];
  }

  lemma SetUpKeepsAccounts(s: Sys, s': Sys, j: nat, now: nat, i: nat)
    requires WellFormed(s) && InPhase(s, j, Claimed) && i < |s.db.steps| && Accounted(s, i)
    requires !s.db.run.status.RunCancelled?
    requires s' == Sys(SetUp(s.db, j, now), s.workers[j := Executing], CountCall(s.tally, j))
    ensures Accounted(s', i)
  {
  }

  /** The worker of step j leaves: the step is not due for another claim, or has a new attempt. */
  lemma LeavingKeepsAccounts(s: Sys, s': Sys, j: nat, i: nat)
    requires WellFormed(s) && j in s.workers && i < |s.db.steps| == |s'.db.steps| && Accounted(s, i)
    requires s' == Sys(s'.db, Release(s.workers, j), s.tally) && s'.db.run.status == s.db.run.status
    requires var step, step' := s.db.steps[i], s'.db.steps[i];
             if i != j then step'.status == step.status && step'.attempt == step.attempt
             else !Unclaimed(step.status) && step'.attempt == step.attempt + One(Unclaimed(step'.status))
    ensures Accounted(s', i)
  {
  }

  lemma CommitKeepsAccounts(s: Sys, s': Sys, j: nat, result: HandlerResult, now: nat, i: nat)
    requires WellFormed(s) && InPhase(s, j, Executing) && !Unclaimed(s.db.steps[j].status)
    requires i < |s.db.steps| && Accounted(s, i)
    requires s' == Sys(CommitResult(s.db, j, result, now), Release(s.workers, j), s.tally)
    ensures |s'.db.steps| == |s.db.steps| && Accounted(s', i)
  {
    LeavingKeepsAccounts(s, s', j, i);
  }

  lemma FailureKeepsAccounts(s: Sys, s': Sys, j: nat, definitive: bool, now: nat, i: nat)
    requires WellFormed(s) && InPhase(s, j, Executing) && !Unclaimed(s.db.steps[j].status)
    requires i < |s.db.steps| && Accounted(s, i)
    requires s' == Sys(FailStep(s.db, j, definitive, now), Release(s.workers, j), s.tally)
    ensures Accounted(s', i)
  {
    LeavingKeepsAccounts(s, s', j, i);
  }

  lemma PartialFailureKeepsAccounts(s: Sys, s': Sys, j: nat, output: Dict, now: nat, i: nat)
    requires WellFormed(s) && InPhase(s, j, Executing) && !Unclaimed(s.db.steps[j].status)
    requires i < |s.db.steps| && Accounted(s, i)
    requires s' == Sys(FailWithOutput(s.db, j, output, now), Release(s.workers, j), s.tally)
    ensures Accounted(s', i)
  {
    LeavingKeepsAccounts(s, s', j, i);
  }

  lemma AbandonKeepsAccounts(s: Sys, s': Sys, j: nat, now: nat, i: nat)
    requires WellFormed(s) && InPhase(s, j, Executing) && !Unclaimed(s.db.steps[j].status)
    requires i < |s.db.steps| && Accounted(s, i)
    requires s' == Sys(Abandon(s.db, j, now), Release(s.workers, j), s.tally)
    ensures Accounted(s', i)
  {
    LeavingKeepsAccounts(s, s', j, i);
  }

  lemma DropKeepsAccounts(s: Sys, s': Sys, j: nat, now: nat, i: nat)
    requires WellFormed(s) && InPhase(s, j, Claimed) && !Unclaimed(s.db.steps[j].status)
    requires i < |s.db.steps| && Accounted(s, i) && s.db.run.status.RunCancelled?
    requires s' == Sys(SetUp(s.db, j, now), Release(s.workers, j), s.tally)
    ensures Accounted(s', i)
  {
    LeavingKeepsAccounts(s, s', j, i);
  }

  lemma SignalKeepsAccounts(s: Sys, s': Sys, kind: string, key: Option<string>, payload: Dict, i: nat)
    requires WellFormed(s) && i < |s.db.steps| && Accounted(s, i)
    requires s'.db == Signal(s.db, kind, key, payload) && s'.workers == s.workers
    requires s'.tally == CountWakeUps(s.tally, s.db.steps, s'.db.steps)
    ensures Accounted(s', i)
  {
    WakeUpKeepsAccounts(s, s', i);
  }

  lemma SweepKeepsAccounts(s: Sys, s': Sys, now: nat, i: nat)
    requires WellFormed(s) && i < |s.db.steps| && Accounted(s, i)
    requires s'.db == Sweep(s.db, now) && s'.workers == s.workers
    requires s'.tally == CountWakeUps(s.tally, s.db.steps, s'.db.steps)
    ensures Accounted(s', i)
  {
    WakeUpKeepsAccounts(s, s', i);
  }

  lemma CancelKeepsAccounts(s: Sys, s': Sys, now: nat, i: nat)
    requires WellFormed(s) && i < |s.db.steps| && Accounted(s, i) && s' == s.(db := CancelRun(s.db, now))
    ensures Accounted(s', i)
  {
  }

  /** The transactions that end a handler call. */
  lemma EndKeepsAccounts(s: Sys, l: Label, s': Sys, i: nat)
    requires WellFormed(s) && Enabled(s, l) && s' == Next(s, l) && i < |s.db.steps| == |s'.db.steps| && Accounted(s, i)
    requires l.Commit? || l.Raise? || l.RaiseWithOutput? || l.NoticeCancel?
    requires !Unclaimed(s.db.steps[l.i].status)
    ensures Accounted(s', i)
  {
    match l
    case Commit(j, result, now) => CommitKeepsAccounts(s, s', j, result, now, i);
    case Raise(j, definitive, now) => FailureKeepsAccounts(s, s', j, definitive, now, i);
    case RaiseWithOutput(j, output, now) => PartialFailureKeepsAccounts(s, s', j, output, now, i);
    case NoticeCancel(j, now) => AbandonKeepsAccounts(s, s', j, now, i);
  }

  lemma NextKeepsAccounts(s: Sys, l: Label, s': Sys, i: nat)
    requires SysInv(s) && Enabled(s, l) && s' == Next(s, l) && i < |s.db.steps| == |s'.db.steps|
    ensures Accounted(s', i)
  {
    assert Accounted(s, i);
    match l
    case ClaimStep(j, now) => if Claimable(s.db, j) { ClaimKeepsAccounts(s, s', j, now, i); }
    case SetUpStep(j, now) =>
      if s.db.run.status.RunCancelled? {
        DropKeepsAccounts(s, s', j, now, i);
      } else {
        SetUpKeepsAccounts(s, s', j, now, i);
      }
    case Die(j) => LeavingKeepsAccounts(s, s', j, i);
    case AdvanceTx(order, now) => AdvanceKeepsAccounts(s, s', order, now, i);
    case SignalTx(kind, key, payload) => SignalKeepsAccounts(s, s', kind, key, payload, i);
    case SweepTx(now) => SweepKeepsAccounts(s, s', now, i);
    case CancelTx(now) => CancelKeepsAccounts(s, s', now, i);
    case _ => EndKeepsAccounts(s, l, s', i);
  }

  lemma NextKeepsInv(s: Sys, l: Label)
    requires SysInv(s) && Enabled(s, l)
    ensures SysInv(Next(s, l)) && |Next(s, l).db.steps| == |s.db.steps|
  {
    var s' := Next(s, l);
    NextKeepsShape(s, l);
    NextKeepsSound(s, l, s'.db);
    NextKeepsManned(s, l);
    forall i | 0 <= i < |s.db.steps| ensures Accounted(s', i) {
      NextKeepsAccounts(s, l, s', i);
    }
  }

  lemma {:induction false} RunsKeepInv(s: Sys, trace: seq<Label>, s': Sys)
    requires SysInv(s) && Runs(s, trace, s')
    ensures SysInv(s')
    decreases |trace|
  {
    if trace != [] {
      NextKeepsInv(s, trace[0]);
      RunsKeepInv(Next(s, trace[0]), trace[1..], s');
    }
  }

  /** Every reachable state satisfies the invariant. */
  lemma ReachableKeepsInv(s: Sys)
    requires Reachable(s)
    ensures SysInv(s)
  {
    var s0: Sys, trace :| Initial(s0) && Runs(s0, trace, s);
    InitialKeepsInv(s0);
    RunsKeepInv(s0, trace, s);
  }
}
