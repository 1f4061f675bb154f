/** What the review reads of a run, and when the verdict it stored can no longer go stale: the
    validation output changes while the run goes on, and the review does not look at the run's
    status. */
module Currency {
  import opened Options
  import opened Rows
  import opened Ledger
  import opened Fixpoint
  import opened RunResult
  import opened Advance
  import opened Transactions
  import opened Invariants
  import opened System
  import opened Guarantees
  import opened Progress
  import opened Plan
  import opened Independence
  import opened Termination
  import opened Completed
  import R = Review

  // ── the validation output of a run ───────────────────────────────────────

  /** Which steps validate documents, and how the text of a "results" member reads as findings. */
  datatype Reader = Reader(validators: set<nat>, findings: string -> seq<R.Finding>)

  predicate Readable(d: Dict) {
    "overall" in d || "results" in d
  }

  predicate HasContent(step: RunStep) {
    step.output.Some? && step.output.value != map[]
  }

  /** The output of the first validating step, among the first n, that has one. */
  function FirstOutput(validators: set<nat>, steps: seq<RunStep>, n: nat): (d: Option<Dict>)
    requires n <= |steps|
  {
    if n == 0 then None
    else
      var before := FirstOutput(validators, steps, n - 1);
      if before.Some? then before
      else if n - 1 in validators && HasContent(steps[n - 1]) then steps[n - 1].output
      else None
  }

  function ValidationOutput(validators: set<nat>, run: WorkflowRun, steps: seq<RunStep>): Option<Dict> {
    if run.result.Some? && Readable(run.result.value) then run.result
    else FirstOutput(validators, steps, |steps|)
  }

  /** None of the first n steps is a validating one with an output to show. */
  ghost predicate NoneReports(validators: set<nat>, steps: seq<RunStep>, n: nat) {
    forall j :: 0 <= j < n && j < |steps| && j in validators ==>
      steps[j].output == None || steps[j].output == Some(map[])
  }

  /** `validation_output`: the result of the run, else the first validating step's output. */
  method FindValidationOutput(validators: set<nat>, run: WorkflowRun, steps: seq<RunStep>) returns (d: Option<Dict>)
    ensures d == ValidationOutput(validators, run, steps)
    ensures run.result.Some? && ("overall" in run.result.value || "results" in run.result.value) ==> d == run.result
    ensures !(run.result.Some? && ("overall" in run.result.value || "results" in run.result.value)) ==>
              if d.None? then NoneReports(validators, steps, |steps|)
              else exists i :: 0 <= i < |steps| && i in validators && d == steps[i].output && d != Some(map[])
                               && NoneReports(validators, steps, i)
  {
    if run.result.Some? && Readable(run.result.value) {
      return run.result;
    }
    for i := 0 to |steps|
      invariant FirstOutput(validators, steps, i).None? && NoneReports(validators, steps, i)
    {
      if i in validators && HasContent(steps[i]) {
        FirstOutputIsFound(validators, steps, i, |steps|);
        return steps[i].output;
      }
    }
    d := None;
  }

  lemma {:induction false} FirstOutputIsFound(validators: set<nat>, steps: seq<RunStep>, i: nat, n: nat)
    requires i < n <= |steps| && i in validators && HasContent(steps[i]) && FirstOutput(validators, steps, i).None?
    ensures FirstOutput(validators, steps, n) == steps[i].output
  {
    if i < n - 1 { FirstOutputIsFound(validators, steps, i, n - 1); }
  }

  function ReadFindings(reader: Reader, d: Dict): seq<R.Finding> {
    if "results" in d then reader.findings(d["results"]) else []
  }

  /** The findings a request to the review sees. */
  function Seen(reader: Reader, db: Db): R.Findings {
    match ValidationOutput(reader.validators, db.run, db.steps)
    case None => None
    case Some(d) => Some(ReadFindings(reader, d))
  }

  function Verdict(reader: Reader, db: Db, a: map<string, R.Annotation>): Option<string> {
    R.Overall(Seen(reader, db), a)
  }

  /** Every list of findings has a text. */
  ghost predicate Fluent(reader: Reader) {
    forall findings :: HasText(reader, findings)
  }

  ghost predicate HasText(reader: Reader, findings: seq<R.Finding>) {
    exists text :: reader.findings(text) == findings
  }

  // ── the condition ────────────────────────────────────────────────────────

  /** A validating step before step i has an output already. */
  predicate Hidden(validators: set<nat>, steps: seq<RunStep>, i: nat)
    requires i <= |steps|
  {
    FirstOutput(validators, steps, i).Some?
  }

  /** Step i may still get an output: its handler is at work, or, while the run is not cancelled,
      it can still come to be called. */
  ghost predicate CanReport(s: Sys, i: nat)
    requires WellFormed(s) && i < |s.db.steps|
  {
    if s.db.run.status.RunCancelled? then InPhase(s, i, Executing)
    else !Terminal(Fate(s.db.steps, s.db.deps, i))
  }

  ghost predicate ReportsSettled(validators: set<nat>, s: Sys)
    requires WellFormed(s)
  {
    forall i :: 0 <= i < |s.db.steps| && i in validators && !Hidden(validators, s.db.steps, i) ==> !CanReport(s, i)
  }

  /** The fail policy will fail the run. */
  predicate Blocked(db: Db) {
    AnyFailed(db.steps) && db.run.failRun
  }

  ghost predicate AllDecided(db: Db)
    requires Wired(db.steps, db.deps)
  {
    forall i :: 0 <= i < |db.steps| ==> Terminal(Fate(db.steps, db.deps, i))
  }

  /** As the result of the run this output would not change the verdict e. */
  predicate Harmless(reader: Reader, output: Option<Dict>, a: map<string, R.Annotation>, e: Option<string>) {
    output.Some? && Readable(output.value) ==> R.Overall(Some(ReadFindings(reader, output.value)), a) == e
  }

  ghost predicate WinnersHarmless(reader: Reader, db: Db, a: map<string, R.Annotation>, e: Option<string>) {
    forall w: nat :: w < |db.steps| && Winner(db.steps, db.deps, w) ==> Harmless(reader, db.steps[w].output, a, e)
  }

  /** The verdict is e and nothing in the rows can change it: no validating step that the review
      would read can still report, and the run is over, or bound to fail, or all its steps are
      decided and whichever result it may get gives the same verdict. */
  ghost predicate Settled(reader: Reader, s: Sys, a: map<string, R.Annotation>, e: Option<string>)
    requires WellFormed(s)
  {
    && Verdict(reader, s.db, a) == e
    && ReportsSettled(reader.validators, s)
    && (|| Over(s.db.run.status)
        || Blocked(s.db)
        || (AllDecided(s.db) && WinnersHarmless(reader, s.db, a, e)))
  }

  // ── the run row ──────────────────────────────────────────────────────────

  /** Only completed runs have a result, the right one, and failed runs have a failed step. */
  ghost predicate Kept(db: Db) {
    && (!db.run.status.RunCompleted? ==> db.run.result.None?)
    && (db.run.status.RunFailed? ==> Blocked(db))
    && ResultFits(db)
  }

  lemma CompletionKeeps(run: WorkflowRun, steps: seq<RunStep>, result: Option<Dict>, now: nat)
    requires !Over(run.status) && run.result.None?
    ensures var run' := Completion(run, steps, result, now);
            && run'.failRun == run.failRun
            && (!run'.status.RunCompleted? ==> run'.result.None?)
            && (run'.status.RunFailed? ==> AnyFailed(steps) && run.failRun)
            && (run'.status.RunCompleted? ==> !(AnyFailed(steps) && run.failRun))
  {
  }

  lemma AdvanceKeepsResult(db: Db, order: seq<nat>, now: nat)
    requires Coherent(db) && !Over(db.run.status) && Everything(order, |db.steps|) && Kept(db)
    ensures var db' := AdvanceRun(db, order, now);
            Kept(db') && db'.run.failRun == db.run.failRun && (Blocked(db') ==> !db'.run.status.RunCompleted?)
  {
    var db' := AdvanceRun(db, order, now);
    CompletionPicksGood(db, order, now);
    CompletionKeeps(db.run, db'.steps, PickResult(order, db'.steps, db'.deps), now);
  }

  lemma OthersKeepRun(s: Sys, l: Label, run': WorkflowRun)
    requires WellFormed(s) && Enabled(s, l) && !l.AdvanceTx? && run' == Next(s, l).db.run && !Over(s.db.run.status)
    ensures run'.result == s.db.run.result && run'.failRun == s.db.run.failRun
    ensures !run'.status.RunCompleted? && !run'.status.RunFailed?
  {
  }

  lemma NextKeepsKept(s: Sys, l: Label, db': Db)
    requires SysInv(s) && Enabled(s, l) && Kept(s.db) && db' == Next(s, l).db
    ensures Kept(db')
  {
    if Over(s.db.run.status) {
      NextKeepsOver(s, l);
      if !s.db.run.status.RunCancelled? { FinishedIsFrozen(s, l); }
    } else if l.AdvanceTx? {
      AdvanceKeepsResult(s.db, l.order, l.now);
    } else {
      OthersKeepRun(s, l, db'.run);
    }
  }

  lemma {:induction false} RunsKeepKept(s: Sys, trace: seq<Label>, s': Sys)
    requires SysInv(s) && Kept(s.db) && Runs(s, trace, s')
    ensures Kept(s'.db)
    decreases |trace|
  {
    if trace != [] {
      NextKeepsInv(s, trace[0]);
      NextKeepsKept(s, trace[0], Next(s, trace[0]).db);
      RunsKeepKept(Next(s, trace[0]), trace[1..], s');
    }
  }

  lemma ReachableIsKept(s: Sys)
    requires Reachable(s)
    ensures SysInv(s) && Kept(s.db)
  {
    var s0: Sys, trace :| Initial(s0) && Runs(s0, trace, s);
    InitialKeepsInv(s0);
    RunsKeepKept(s0, trace, s);
    ReachableKeepsInv(s);
  }

  // ── settled verdicts stay ────────────────────────────────────────────────

  /** Outputs that only change behind an earlier one do not show. */
  lemma {:induction false} HiddenChangesDoNotShow(validators: set<nat>, steps: seq<RunStep>, steps': seq<RunStep>,
                                                  n: nat)
    requires n <= |steps| == |steps'|
    requires forall i :: 0 <= i < |steps| && i in validators && !Hidden(validators, steps, i) ==>
               steps'[i].output == steps[i].output
    ensures FirstOutput(validators, steps', n) == FirstOutput(validators, steps, n)
  {
    if n > 0 {
      HiddenChangesDoNotShow(validators, steps, steps', n - 1);
    }
  }

  lemma CancelledOutputsStay(s: Sys, l: Label, i: nat)
    requires SysInv(s) && Enabled(s, l) && s.db.run.status.RunCancelled? && i < |s.db.steps|
    requires !InPhase(s, i, Executing)
    ensures i < |Next(s, l).db.steps| && Next(s, l).db.steps[i].output == s.db.steps[i].output
  {
    assert l.Commit? || l.Raise? || l.RaiseWithOutput? || l.NoticeCancel? ==> i != l.i;
  }

  lemma CancelledStaysSettled(reader: Reader, s: Sys, l: Label, a: map<string, R.Annotation>, e: Option<string>)
    requires SysInv(s) && Enabled(s, l) && s.db.run.status.RunCancelled? && Settled(reader, s, a, e)
    ensures WellFormed(Next(s, l)) && Settled(reader, Next(s, l), a, e)
  {
    var s' := Next(s, l);
    NextKeepsShape(s, l);
    NextKeepsInv(s, l);
    NextKeepsOver(s, l);
    forall i | 0 <= i < |s.db.steps|
      ensures !InPhase(s, i, Executing) ==> s'.db.steps[i].output == s.db.steps[i].output && !InPhase(s', i, Executing)
    {
      CancelledNextKeepsCalls(s, l, i);
      if !InPhase(s, i, Executing) { CancelledOutputsStay(s, l, i); }
    }
    UnreportedStaysSettled(reader, s, s', a, e);
  }

  /** The verdict of a run whose result does not change. */
  lemma UnreportedStaysSettled(reader: Reader, s: Sys, s': Sys, a: map<string, R.Annotation>, e: Option<string>)
    requires WellFormed(s) && WellFormed(s') && Settled(reader, s, a, e) && |s'.db.steps| == |s.db.steps|
    requires s'.db.run.result == s.db.run.result && Over(s'.db.run.status)
    requires forall i :: 0 <= i < |s.db.steps| && !CanReport(s, i) ==>
               s'.db.steps[i].output == s.db.steps[i].output && !CanReport(s', i)
    ensures Settled(reader, s', a, e)
  {
    var steps, steps' := s.db.steps, s'.db.steps;
    HiddenChangesDoNotShow(reader.validators, steps, steps', |steps|);
    forall i | 0 <= i < |steps| ensures Hidden(reader.validators, steps', i) <==> Hidden(reader.validators, steps, i) {
      HiddenChangesDoNotShow(reader.validators, steps, steps', i);
    }
  }

  /** A fate once terminal is final: the other transactions than advance leave pending steps alone. */
  lemma {:induction false} TerminalFateStays(db: Db, db': Db, i: nat)
    requires Wired(db.steps, db.deps) && Wired(db'.steps, db'.deps)
    requires i < |db.steps| == |db'.steps| && |db'.deps| == |db.deps|
    requires forall k :: 0 <= k < |db.deps| ==>
               && db'.deps[k].from == db.deps[k].from && db'.deps[k].to == db.deps[k].to
               && (db'.deps[k].live ==> db.deps[k].live)
    requires forall j :: 0 <= j < |db.steps| && (Terminal(db.steps[j].status) || db.steps[j].status.Pending?) ==>
               db'.steps[j].status == db.steps[j].status
    ensures Terminal(Fate(db.steps, db.deps, i)) ==> Fate(db'.steps, db'.deps, i) == Fate(db.steps, db.deps, i)
    decreases i
  {
    SameTargets(db.deps, db'.deps, i);
    if db.steps[i].status.Pending? && Terminal(Fate(db.steps, db.deps, i)) {
      forall k | 0 <= k < |db'.deps| && db'.deps[k].to == i && db'.deps[k].live
        ensures DeadEnd(Fate(db'.steps, db'.deps, db'.deps[k].from))
      {
        TerminalFateStays(db, db', db.deps[k].from);
      }
    }
  }

  /** The end of another step's handler leaves this one alone. */
  lemma EndLeavesOthers(s: Sys, l: Label, db': Db, i: nat)
    requires WellFormed(s) && Enabled(s, l) && (l.Commit? || l.Raise? || l.RaiseWithOutput?)
    requires db' == Next(s, l).db && i < |s.db.steps| && i != l.i
    ensures |db'.steps| == |s.db.steps|
    ensures db'.steps[i] == s.db.steps[i].(depsRemaining := db'.steps[i].depsRemaining)
  {
  }

  /** Steps that are pending or have ended only change in an advance. */
  lemma IdleStepStays(s: Sys, l: Label, db': Db, i: nat)
    requires SysInv(s) && Enabled(s, l) && !l.AdvanceTx? && db' == Next(s, l).db && i < |s.db.steps|
    requires !s.db.run.status.RunCancelled? && !db'.run.status.RunCancelled?
    requires s.db.steps[i].status.Pending? || Terminal(s.db.steps[i].status)
    ensures |db'.steps| == |s.db.steps|
    ensures db'.steps[i] == s.db.steps[i].(depsRemaining := db'.steps[i].depsRemaining)
  {
    if l.Commit? || l.Raise? || l.RaiseWithOutput? {
      RunningMeansLive(s, l.i);
      EndLeavesOthers(s, l, db', i);
    } else if !l.CancelTx? && !l.NoticeCancel? {
      NextMoves(s, l, db');
      MovesSpareIdle(s.db, db', i);
    }
  }

  lemma MovesSpareIdle(db: Db, db': Db, i: nat)
    requires StaysPut(db, db') && i < |db.steps|
    requires db.steps[i].status.Pending? || Terminal(db.steps[i].status)
    ensures |db'.steps| == |db.steps| && db'.steps[i] == db.steps[i]
  {
  }

  lemma NextKeepsTerminalFate(s: Sys, l: Label, db': Db, i: nat)
    requires SysInv(s) && Enabled(s, l) && db' == Next(s, l).db && i < |s.db.steps|
    requires !s.db.run.status.RunCancelled? && !db'.run.status.RunCancelled? && !Over(s.db.run.status)
    ensures Wired(db'.steps, db'.deps) && i < |db'.steps|
    ensures Terminal(Fate(s.db.steps, s.db.deps, i)) ==>
              Fate(db'.steps, db'.deps, i) == Fate(s.db.steps, s.db.deps, i)
  {
    NextKeepsShape(s, l);
    NextKeepsInv(s, l);
    if l.AdvanceTx? {
      AdvancedFatesAreFixed(s.db, l.order, l.now, i);
      AdvancedStatus(s.db, l.order, l.now, i);
    } else {
      NextGrows(s, l);
      forall j | 0 <= j < |s.db.steps| && s.db.steps[j].status.Pending? ensures db'.steps[j].status.Pending? {
        IdleStepStays(s, l, db', j);
      }
      TerminalFateStays(s.db, db', i);
    }
  }

  /** A decided step's output is final, and it does not come to succeed. */
  lemma DecidedStepStays(s: Sys, l: Label, db': Db, i: nat)
    requires SysInv(s) && Enabled(s, l) && db' == Next(s, l).db && i < |s.db.steps| == |db'.steps|
    requires !Over(s.db.run.status) && !db'.run.status.RunCancelled?
    requires Terminal(Fate(s.db.steps, s.db.deps, i))
    ensures db'.steps[i].output == s.db.steps[i].output
    ensures db'.steps[i].status.Succeeded? <==> s.db.steps[i].status.Succeeded?
    ensures s.db.steps[i].status.Succeeded? ==> db'.steps[i].completedAt == s.db.steps[i].completedAt
  {
    if l.AdvanceTx? {
      AdvancedMove(s.db, l.order, l.now, i);
    } else {
      IdleStepStays(s, l, db', i);
    }
  }

  lemma CancelStaysSettled(reader: Reader, s: Sys, l: Label, a: map<string, R.Annotation>, e: Option<string>)
    requires SysInv(s) && Enabled(s, l) && !Over(s.db.run.status) && l.CancelTx? && Settled(reader, s, a, e)
    ensures WellFormed(Next(s, l)) && Settled(reader, Next(s, l), a, e)
  {
    var s' := Next(s, l);
    NextKeepsShape(s, l);
    NextKeepsInv(s, l);
    CancelledRows(s, l.now);
    forall i | 0 <= i < |s.db.steps| && !CanReport(s, i)
      ensures s'.db.steps[i].output == s.db.steps[i].output && !CanReport(s', i)
    {
      if i in s.workers { RunningMeansLive(s, i); }
    }
    UnreportedStaysSettled(reader, s, s', a, e);
  }

  // ── a live run ───────────────────────────────────────────────────────────

  lemma SameWinners(steps: seq<RunStep>, deps: seq<StepDep>, steps': seq<RunStep>, deps': seq<StepDep>, w: nat)
    requires |steps| == |steps'| && |deps| == |deps'|
    requires forall i :: 0 <= i < |steps| ==>
               && (steps'[i].status.Succeeded? <==> steps[i].status.Succeeded?)
               && steps'[i].output == steps[i].output
               && (steps[i].status.Succeeded? ==> steps'[i].completedAt == steps[i].completedAt)
    requires forall k :: 0 <= k < |deps| ==> deps'[k].from == deps[k].from && deps'[k].live == deps[k].live
    ensures Winner(steps', deps', w) <==> Winner(steps, deps, w)
  {
    SameCandidates(steps, deps, steps', deps');
    assert forall i: nat :: Candidate(steps, deps, i) ==> i < |steps| && Stamp(steps'[i]) == Stamp(steps[i]);
  }

  /** When all steps are decided, nobody works and the candidates for the result are those there are. */
  lemma DecidedWinnersStay(s: Sys, l: Label, db': Db, w: nat)
    requires SysInv(s) && Enabled(s, l) && db' == Next(s, l).db && |db'.steps| == |s.db.steps|
    requires !Over(s.db.run.status) && !db'.run.status.RunCancelled? && AllDecided(s.db)
    ensures Winner(db'.steps, db'.deps, w) ==> Winner(s.db.steps, s.db.deps, w)
  {
    forall i | 0 <= i < |s.db.steps|
      ensures db'.steps[i].status.Succeeded? <==> s.db.steps[i].status.Succeeded?
      ensures db'.steps[i].output == s.db.steps[i].output
      ensures s.db.steps[i].status.Succeeded? ==> db'.steps[i].completedAt == s.db.steps[i].completedAt
    {
      DecidedStepStays(s, l, db', i);
    }
    DecidedEdgesStay(s, l, db');
    SameWinners(s.db.steps, s.db.deps, db'.steps, db'.deps, w);
  }

  lemma DecidedMeansIdle(s: Sys)
    requires SysInv(s) && !s.db.run.status.RunCancelled? && AllDecided(s.db)
    ensures s.workers == map[]
  {
    forall i ensures i !in s.workers {
      if i in s.workers {
        RunningMeansLive(s, i);
        BusyIsUndecided(s.db, i);
      }
    }
  }

  lemma BusyIsUndecided(db: Db, i: nat)
    requires Wired(db.steps, db.deps) && i < |db.steps| && Busy(db.steps[i].status)
    ensures !Terminal(Fate(db.steps, db.deps, i))
  {
  }

  lemma DecidedEdgesStay(s: Sys, l: Label, db': Db)
    requires SysInv(s) && Enabled(s, l) && db' == Next(s, l).db
    requires !Over(s.db.run.status) && !db'.run.status.RunCancelled? && AllDecided(s.db)
    ensures |db'.deps| == |s.db.deps|
    ensures forall k :: 0 <= k < |s.db.deps| ==>
              db'.deps[k].from == s.db.deps[k].from && db'.deps[k].live == s.db.deps[k].live
  {
    DecidedMeansIdle(s);
    if !l.AdvanceTx? && !l.CancelTx? {
      NextMoves(s, l, db');
    }
  }

  lemma BlockedStays(s: Sys, l: Label, db': Db)
    requires SysInv(s) && Enabled(s, l) && db' == Next(s, l).db && Kept(s.db) && Blocked(s.db)
    requires !Over(s.db.run.status) && !db'.run.status.RunCancelled?
    ensures Blocked(db') && db'.run.result.None?
  {
    NextGrows(s, l);
    var i :| 0 <= i < |s.db.steps| && s.db.steps[i].status.Failed?;
    assert db'.steps[i].status.Failed?;
    if l.AdvanceTx? {
      AdvanceKeepsResult(s.db, l.order, l.now);
    } else {
      OthersKeepRun(s, l, db'.run);
    }
  }

  /** The result a decided run gets is a winner's output. */
  lemma DecidedResultIsHarmless(reader: Reader, s: Sys, l: Label, db': Db, a: map<string, R.Annotation>,
                                e: Option<string>)
    requires SysInv(s) && Enabled(s, l) && db' == Next(s, l).db && |db'.steps| == |s.db.steps| && Kept(s.db)
    requires !Over(s.db.run.status) && !db'.run.status.RunCancelled? && AllDecided(s.db)
    requires WinnersHarmless(reader, s.db, a, e)
    ensures Harmless(reader, db'.run.result, a, e) && WinnersHarmless(reader, db', a, e)
  {
    forall w: nat | w < |db'.steps| && Winner(db'.steps, db'.deps, w)
      ensures Harmless(reader, db'.steps[w].output, a, e)
    {
      DecidedWinnersStay(s, l, db', w);
      DecidedStepStays(s, l, db', w);
    }
    NextKeepsKept(s, l, db');
  }

  lemma LiveStaysSettled(reader: Reader, s: Sys, l: Label, a: map<string, R.Annotation>, e: Option<string>)
    requires SysInv(s) && Kept(s.db) && Enabled(s, l) && Settled(reader, s, a, e)
    requires !Over(s.db.run.status) && !Next(s, l).db.run.status.RunCancelled?
    ensures WellFormed(Next(s, l)) && Settled(reader, Next(s, l), a, e)
  {
    var s' := Next(s, l);
    NextKeepsShape(s, l);
    NextKeepsInv(s, l);
    forall i | 0 <= i < |s.db.steps| && !CanReport(s, i)
      ensures s'.db.steps[i].output == s.db.steps[i].output && !CanReport(s', i)
    {
      NextKeepsTerminalFate(s, l, s'.db, i);
      DecidedStepStays(s, l, s'.db, i);
    }
    if Blocked(s.db) {
      BlockedStays(s, l, s'.db);
    } else {
      DecidedResultIsHarmless(reader, s, l, s'.db, a, e);
    }
    LiveVerdictStays(reader, s, s', a, e);
  }

  lemma LiveVerdictStays(reader: Reader, s: Sys, s': Sys, a: map<string, R.Annotation>, e: Option<string>)
    requires WellFormed(s) && WellFormed(s') && |s'.db.steps| == |s.db.steps|
    requires Settled(reader, s, a, e) && s.db.run.result.None? && !Over(s.db.run.status)
    requires forall i :: 0 <= i < |s.db.steps| && !CanReport(s, i) ==>
               s'.db.steps[i].output == s.db.steps[i].output && !CanReport(s', i)
    requires if Blocked(s.db) then Blocked(s'.db) && s'.db.run.result.None?
             else Harmless(reader, s'.db.run.result, a, e) && WinnersHarmless(reader, s'.db, a, e)
    requires !s.db.run.status.RunCancelled? && !s'.db.run.status.RunCancelled?
    ensures Settled(reader, s', a, e)
  {
    var steps, steps' := s.db.steps, s'.db.steps;
    HiddenChangesDoNotShow(reader.validators, steps, steps', |steps|);
    forall i | 0 <= i < |steps| ensures Hidden(reader.validators, steps', i) <==> Hidden(reader.validators, steps, i) {
      HiddenChangesDoNotShow(reader.validators, steps, steps', i);
    }
    if !Blocked(s.db) {
      forall i | 0 <= i < |steps'| ensures Terminal(Fate(steps', s'.db.deps, i)) {
        assert !CanReport(s, i);
        assert !CanReport(s', i);
      }
    }
  }

  lemma NextStaysSettled(reader: Reader, s: Sys, l: Label, a: map<string, R.Annotation>, e: Option<string>)
    requires SysInv(s) && Kept(s.db) && Enabled(s, l) && Settled(reader, s, a, e)
    ensures WellFormed(Next(s, l)) && Settled(reader, Next(s, l), a, e)
  {
    if s.db.run.status.RunCancelled? {
      CancelledStaysSettled(reader, s, l, a, e);
    } else if Over(s.db.run.status) {
      FinishedIsFrozen(s, l);
      NextKeepsShape(s, l);
    } else if l.CancelTx? {
      CancelStaysSettled(reader, s, l, a, e);
    } else {
      OnlyCancelCancels(s, l);
      LiveStaysSettled(reader, s, l, a, e);
    }
  }

  lemma OnlyCancelCancels(s: Sys, l: Label)
    requires WellFormed(s) && Enabled(s, l) && !l.CancelTx? && !s.db.run.status.RunCancelled?
    ensures !Next(s, l).db.run.status.RunCancelled?
  {
    if l.AdvanceTx? { AdvanceStaysUncancelled(s.db, l.order, l.now); }
  }

  lemma {:induction false} RunsStaySettled(reader: Reader, s: Sys, trace: seq<Label>, s': Sys,
                                           a: map<string, R.Annotation>, e: Option<string>)
    requires SysInv(s) && Kept(s.db) && Settled(reader, s, a, e) && Runs(s, trace, s')
    ensures Verdict(reader, s'.db, a) == e
    decreases |trace|
  {
    if trace != [] {
      NextKeepsInv(s, trace[0]);
      NextKeepsKept(s, trace[0], Next(s, trace[0]).db);
      NextStaysSettled(reader, s, trace[0], a, e);
      RunsStaySettled(reader, Next(s, trace[0]), trace[1..], s', a, e);
    }
  }

  // ── unsettled verdicts can change ────────────────────────────────────────

  /** Some output carries another verdict than e, whatever is overridden. */
  lemma ContraryOutput(reader: Reader, a: map<string, R.Annotation>, e: Option<string>) returns (d: Dict)
    requires Fluent(reader)
    ensures "overall" in d && R.Overall(Some(ReadFindings(reader, d)), a) != e
  {
    if e != Some("pass") {
      d := map["overall" := "pass"];
    } else {
      var rule := FreshRule(a);
      var findings := [R.Finding(rule, None, "fail")];
      assert HasText(reader, findings);
      var text :| reader.findings(text) == findings;
      d := map["overall" := "fail", "results" := text];
      assert !R.Optional(findings[0]) && R.EffectiveStatus(findings[0], a) == "fail";
      assert R.SomeRequired(findings, a, "fail");
    }
  }

  /** A rule longer than all annotated ones. */
  lemma FreshRule(a: map<string, R.Annotation>) returns (rule: string)
    ensures rule !in a
  {
    var n := LongerThanAll(a.Keys);
    rule := seq(n, i => 'r');
  }

  lemma {:induction false} LongerThanAll(names: set<string>) returns (n: nat)
    ensures forall x :: x in names ==> |x| < n
  {
    if x :| x in names {
      n := LongerThanAll(names - {x});
      n := if |x| < n then n else |x| + 1;
    } else {
      n := 0;
    }
  }

  lemma {:induction false} LaterThanAll(steps: seq<RunStep>) returns (t: nat)
    ensures forall i :: 0 <= i < |steps| ==> Stamp(steps[i]) < t
  {
    if steps == [] {
      t := 0;
    } else {
      var last := steps[|steps| - 1];
      t := LaterThanAll(steps[..|steps| - 1]);
      t := if Stamp(last) < t then t else Stamp(last) + 1;
    }
  }

  // ── every handler answers d at time t ────────────────────────────────────

  function Always(d: Dict): Handlers {
    (i, inputs, attempt) => Succeeds(d)
  }

  /** The rows db continue those of `base` in which only handlers that answered d ended, at time t. */
  ghost predicate Played(base: Db, db: Db, d: Dict, t: nat)
    requires Wired(base.steps, base.deps) && Wired(db.steps, db.deps)
  {
    && |db.steps| == |base.steps| && |db.deps| == |base.deps| && db.run.failRun == base.run.failRun
    && (forall k :: 0 <= k < |base.deps| ==>
          && db.deps[k].from == base.deps[k].from && db.deps[k].to == base.deps[k].to
          && db.deps[k].live == base.deps[k].live)
    && (forall j :: 0 <= j < |base.steps| ==> PlayedStep(base.steps[j], db.steps[j], d, t))
    && (forall j :: 0 <= j < |base.steps| && !DeadEnd(Fate(base.steps, base.deps, j)) ==>
          !DeadEnd(Fate(db.steps, db.deps, j)))
  }

  predicate PlayedStep(before: RunStep, step: RunStep, d: Dict, t: nat) {
    if Terminal(before.status) then
      step.status == before.status && step.output == before.output && step.completedAt == before.completedAt
    else if step.status.Succeeded? then
      step.output == Some(d) && step.completedAt == Some(t)
    else
      step.output == before.output && !step.status.Failed? && !step.status.Cancelled?
  }

  /** Steps that can still deliver keep that chance while no edge is pruned and no handler fails. */
  lemma {:induction false} HopeStays(db: Db, db': Db, i: nat)
    requires Wired(db.steps, db.deps) && Wired(db'.steps, db'.deps)
    requires i < |db.steps| == |db'.steps| && |db'.deps| == |db.deps|
    requires forall k :: 0 <= k < |db.deps| ==>
               && db'.deps[k].from == db.deps[k].from && db'.deps[k].to == db.deps[k].to
               && db'.deps[k].live == db.deps[k].live
    requires forall j :: 0 <= j < |db.steps| ==>
               || db'.steps[j].status == db.steps[j].status
               || (!db.steps[j].status.Pending? && !DeadEnd(db'.steps[j].status) && !db'.steps[j].status.Pending?)
    ensures !DeadEnd(Fate(db.steps, db.deps, i)) ==> !DeadEnd(Fate(db'.steps, db'.deps, i))
    decreases i
  {
    SameTargets(db.deps, db'.deps, i);
    if db.steps[i].status.Pending? && !Root(db.deps, i) && !DeadEnd(Fate(db.steps, db.deps, i)) {
      var k :| 0 <= k < |db.deps| && db.deps[k].to == i && db.deps[k].live
               && !DeadEnd(Fate(db.steps, db.deps, db.deps[k].from));
      HopeStays(db, db', db.deps[k].from);
    }
  }

  lemma PlayedMove(base: Db, db: Db, db': Db, d: Dict, t: nat)
    requires Wired(base.steps, base.deps) && Wired(db.steps, db.deps) && Wired(db'.steps, db'.deps)
    requires Played(base, db, d, t) && StaysPut(db, db')
    ensures Played(base, db', d, t)
  {
    forall j | 0 <= j < |base.steps| && !DeadEnd(Fate(base.steps, base.deps, j))
      ensures !DeadEnd(Fate(db'.steps, db'.deps, j))
    {
      HopeStays(db, db', j);
    }
  }

  lemma PlayedCommit(base: Db, db: Db, i: nat, d: Dict, t: nat)
    requires Wired(base.steps, base.deps) && Wired(db.steps, db.deps)
    requires Played(base, db, d, t) && i < |db.steps| && db.steps[i].status.Running?
    ensures Wired(CommitResult(db, i, Output(d), t).steps, CommitResult(db, i, Output(d), t).deps)
    ensures Played(base, CommitResult(db, i, Output(d), t), d, t)
  {
    var db' := CommitResult(db, i, Output(d), t);
    forall j | 0 <= j < |base.steps| && !DeadEnd(Fate(base.steps, base.deps, j))
      ensures !DeadEnd(Fate(db'.steps, db'.deps, j))
    {
      HopeStays(db, db', j);
    }
  }

  lemma PlayedAdvance(base: Db, db: Db, order: seq<nat>, now: nat, d: Dict, t: nat)
    requires Wired(base.steps, base.deps) && Coherent(db) && !Over(db.run.status) && Everything(order, |db.steps|)
    requires Played(base, db, d, t)
    ensures var db' := AdvanceRun(db, order, now); Wired(db'.steps, db'.deps) && Played(base, db', d, t)
  {
    var db' := AdvanceRun(db, order, now);
    AdvanceKeepsFlags(db, order, now);
    forall j | 0 <= j < |base.steps|
      ensures PlayedStep(base.steps[j], db'.steps[j], d, t)
      ensures !DeadEnd(Fate(base.steps, base.deps, j)) ==> !DeadEnd(Fate(db'.steps, db'.deps, j))
    {
      AdvancedMove(db, order, now, j);
      AdvancedStatus(db, order, now, j);
      AdvancedFatesAreFixed(db, order, now, j);
    }
    AdvanceKeepsPolicy(db, order, now);
  }

  lemma AdvanceKeepsPolicy(db: Db, order: seq<nat>, now: nat)
    requires Wired(db.steps, db.deps) && Everything(order, |db.steps|)
    ensures AdvanceRun(db, order, now).run.failRun == db.run.failRun
  {
  }

  lemma NextPlayed(base: Db, s: Sys, l: Label, db': Db, d: Dict, t: nat, script: Script)
    requires SysInv(s) && !s.db.run.status.RunCancelled? && Enabled(s, l) && db' == Next(s, l).db
    requires Smooth(l, script) && (forall i :: script.clock(i) == t) && Obeys(Always(d), s, l)
    requires Wired(base.steps, base.deps) && Played(base, s.db, d, t)
    ensures Wired(db'.steps, db'.deps) && Played(base, db', d, t)
  {
    NextKeepsInv(s, l);
    if l.Commit? {
      RunningMeansLive(s, l.i);
      PlayedCommit(base, s.db, l.i, d, t);
    } else if l.AdvanceTx? {
      if !Over(s.db.run.status) { PlayedAdvance(base, s.db, l.order, l.now, d, t); }
    } else if !l.Raise? && !l.RaiseWithOutput? {
      NextMoves(s, l, db');
      PlayedMove(base, s.db, db', d, t);
    }
  }

  lemma {:induction false} RunsPlay(base: Db, s: Sys, trace: seq<Label>, s': Sys, d: Dict, t: nat, script: Script)
    requires SysInv(s) && !s'.db.run.status.RunCancelled? && Runs(s, trace, s')
    requires AllSmooth(trace, script) && (forall i :: script.clock(i) == t) && AllObey(Always(d), s, trace)
    requires Wired(base.steps, base.deps) && Played(base, s.db, d, t)
    ensures Wired(s'.db.steps, s'.db.deps) && Played(base, s'.db, d, t)
    decreases |trace|
  {
    if trace != [] {
      StaysUncancelled(s, trace, s');
      assert Smooth(trace[0], script);
      NextPlayed(base, s, trace[0], Next(s, trace[0]).db, d, t, script);
      assert forall p :: 0 <= p < |trace[1..]| ==> trace[1..][p] == trace[p + 1];
      RunsPlay(base, Next(s, trace[0]), trace[1..], s', d, t, script);
    }
  }

  // ── what is shown in the end ─────────────────────────────────────────────

  /** A step that could still be called was, and answered d. */
  lemma HopefulAnswered(base: Db, db: Db, d: Dict, t: nat, i: nat)
    requires Wired(base.steps, base.deps) && Wired(db.steps, db.deps) && Played(base, db, d, t) && AllTerminal(db.steps)
    requires i < |base.steps| && !Terminal(Fate(base.steps, base.deps, i))
    ensures db.steps[i].status.Succeeded? && db.steps[i].output == Some(d) && db.steps[i].completedAt == Some(t)
  {
    assert Terminal(db.steps[i].status);
    assert !DeadEnd(Fate(db.steps, db.deps, i));
    assert !Terminal(base.steps[i].status);
  }

  /** The first validating step with an output has d, if one that was not hidden could still report. */
  lemma {:induction false} FirstOutputIsPlayed(validators: set<nat>, base: Db, db: Db, d: Dict, t: nat, i: nat, n: nat)
    requires Wired(base.steps, base.deps) && Wired(db.steps, db.deps) && Played(base, db, d, t) && d != map[]
    requires i < |base.steps| && i in validators && !Hidden(validators, base.steps, i)
    requires db.steps[i].output == Some(d) && n <= |db.steps|
    ensures i < n ==> FirstOutput(validators, db.steps, n) == Some(d)
    ensures FirstOutput(validators, db.steps, n).None? || FirstOutput(validators, db.steps, n) == Some(d) || i < n
  {
    if n > 0 {
      FirstOutputIsPlayed(validators, base, db, d, t, i, n - 1);
      if n - 1 < i {
        NothingBeforeHidden(validators, base.steps, n - 1, i);
        assert PlayedStep(base.steps[n - 1], db.steps[n - 1], d, t);
      }
    }
  }

  /** No validating step before one that is not hidden has an output. */
  lemma {:induction false} NothingBeforeHidden(validators: set<nat>, steps: seq<RunStep>, j: nat, i: nat)
    requires j < i <= |steps| && !Hidden(validators, steps, i)
    ensures j in validators ==> !HasContent(steps[j])
  {
    if j < i - 1 { NothingBeforeHidden(validators, steps, j, i - 1); }
  }

  /** Among the steps that can still be called, no edge leaves the last one for a step that ended. */
  lemma LastHopeful(db: Db, i: nat) returns (m: nat)
    requires Coherent(db) && i < |db.steps| && !Terminal(Fate(db.steps, db.deps, i))
    ensures m < |db.steps| && !Terminal(Fate(db.steps, db.deps, m)) && !HasLiveOut(db.deps, m)
    decreases |db.steps| - i
  {
    if HasLiveOut(db.deps, i) {
      var k :| 0 <= k < |db.deps| && db.deps[k].from == i && db.deps[k].live;
      HopePasses(db, k);
      m := LastHopeful(db, db.deps[k].to);
    } else {
      m := i;
    }
  }

  /** A live edge from a step that can still be called leads to another. */
  lemma HopePasses(db: Db, k: nat)
    requires Coherent(db) && k < |db.deps| && db.deps[k].live
    requires !Terminal(Fate(db.steps, db.deps, db.deps[k].from))
    ensures !Terminal(Fate(db.steps, db.deps, db.deps[k].to))
  {
    var i, j := db.deps[k].from, db.deps[k].to;
    assert History(db.steps, db.deps, j);
    assert !Terminal(db.steps[i].status);
    assert db.deps[k].satisfied || k in Open(db.deps, j);
  }

  /** Every latest candidate answered d. */
  lemma WinnerIsPlayed(base: Db, db: Db, d: Dict, t: nat, i: nat, w: nat)
    requires Coherent(base) && Wired(db.steps, db.deps) && Played(base, db, d, t) && AllTerminal(db.steps)
    requires "overall" in d && i < |base.steps| && !Terminal(Fate(base.steps, base.deps, i))
    requires forall j :: 0 <= j < |base.steps| ==> Stamp(base.steps[j]) < t
    requires Winner(db.steps, db.deps, w)
    ensures db.steps[w].output == Some(d)
  {
    var m := LastHopeful(base, i);
    HopefulAnswered(base, db, d, t, m);
    assert !HasLiveOut(db.deps, m);
    assert VerdictLeaf(db.steps, db.deps, m);
    assert Candidate(db.steps, db.deps, m);
    assert PlayedStep(base.steps[w], db.steps[w], d, t);
    assert VerdictLeaf(db.steps, db.deps, w);
  }

  lemma BlockedAlike(base: Db, db: Db, d: Dict, t: nat)
    requires Wired(base.steps, base.deps) && Wired(db.steps, db.deps) && Played(base, db, d, t)
    ensures Blocked(db) <==> Blocked(base)
  {
    forall j | 0 <= j < |base.steps| ensures db.steps[j].status.Failed? <==> base.steps[j].status.Failed? {
      assert PlayedStep(base.steps[j], db.steps[j], d, t);
    }
  }

  /** A finished run in which the rest answered d shows d, if a validating step the review would
      read, or any step of a run not bound to fail, could still be called. */
  lemma PlayedIsShown(reader: Reader, base: Db, db: Db, d: Dict, t: nat, i: nat)
    requires Coherent(base) && Wired(db.steps, db.deps) && Played(base, db, d, t) && AllTerminal(db.steps) && Kept(db)
    requires db.run.status.RunCompleted? || db.run.status.RunFailed?
    requires "overall" in d && i < |base.steps| && !Terminal(Fate(base.steps, base.deps, i))
    requires forall j :: 0 <= j < |base.steps| ==> Stamp(base.steps[j]) < t
    requires Blocked(base) ==> i in reader.validators && !Hidden(reader.validators, base.steps, i)
    ensures Seen(reader, db) == Some(ReadFindings(reader, d))
  {
    HopefulAnswered(base, db, d, t, i);
    BlockedAlike(base, db, d, t);
    if db.run.status.RunCompleted? {
      var m := LastHopeful(base, i);
      HopefulAnswered(base, db, d, t, m);
      assert VerdictLeaf(db.steps, db.deps, m) && Candidate(db.steps, db.deps, m);
      var w: nat :| Winner(db.steps, db.deps, w) && db.run.result == db.steps[w].output;
      WinnerIsPlayed(base, db, d, t, i, w);
    } else {
      FirstOutputIsPlayed(reader.validators, base, db, d, t, i, |db.steps|);
    }
  }

  lemma NothingPlayed(db: Db, d: Dict, t: nat)
    requires Wired(db.steps, db.deps)
    ensures Played(db, db, d, t)
  {
  }

  /** A live run played to its end. */
  lemma PlayOut(s: Sys, d: Dict, t: nat) returns (trace: seq<Label>, s': Sys)
    requires SysInv(s) && Kept(s.db) && !Over(s.db.run.status)
    ensures Runs(s, trace, s') && WellFormed(s') && Played(s.db, s'.db, d, t) && AllTerminal(s'.db.steps)
    ensures Kept(s'.db) && (s'.db.run.status.RunCompleted? || s'.db.run.status.RunFailed?)
  {
    var order := Ascending(|s.db.steps|);
    var script := Script(i => t, order);
    trace, s' := FinishFrom(Always(d), s, script);
    NothingPlayed(s.db, d, t);
    RunsPlay(s.db, s, trace, s', d, t, script);
    RunsKeepInv(s, trace, s');
    RunsKeepKept(s, trace, s');
  }

  lemma LiveCanChange(reader: Reader, s: Sys, a: map<string, R.Annotation>, e: Option<string>, i: nat)
      returns (trace: seq<Label>, s': Sys)
    requires Fluent(reader) && SysInv(s) && Kept(s.db) && !Over(s.db.run.status)
    requires i < |s.db.steps| && !Terminal(Fate(s.db.steps, s.db.deps, i))
    requires Blocked(s.db) ==> i in reader.validators && !Hidden(reader.validators, s.db.steps, i)
    ensures Runs(s, trace, s') && Verdict(reader, s'.db, a) != e
  {
    var d := ContraryOutput(reader, a, e);
    var t := LaterThanAll(s.db.steps);
    trace, s' := PlayOut(s, d, t);
    PlayedIsShown(reader, s.db, s'.db, d, t, i);
  }

  lemma CancelledCanChange(reader: Reader, s: Sys, a: map<string, R.Annotation>, e: Option<string>, i: nat)
      returns (trace: seq<Label>, s': Sys)
    requires Fluent(reader) && SysInv(s) && Kept(s.db) && s.db.run.status.RunCancelled?
    requires InPhase(s, i, Executing) && i in reader.validators && !Hidden(reader.validators, s.db.steps, i)
    ensures Runs(s, trace, s') && Verdict(reader, s'.db, a) != e
  {
    var d := ContraryOutput(reader, a, e);
    var l := Commit(i, Output(d), 0);
    s' := Next(s, l);
    trace := [l];
    OneTransaction(s, l);
    OnlyOneOutput(reader.validators, s.db.steps, s'.db.steps, i, i);
    FirstOutputIsFound(reader.validators, s'.db.steps, i, |s'.db.steps|);
  }

  lemma {:induction false} OnlyOneOutput(validators: set<nat>, steps: seq<RunStep>, steps': seq<RunStep>, i: nat,
                                         n: nat)
    requires n <= i < |steps| == |steps'|
    requires forall j :: 0 <= j < |steps| && j != i ==> steps'[j].output == steps[j].output
    ensures FirstOutput(validators, steps', n) == FirstOutput(validators, steps, n)
  {
    if n > 0 { OnlyOneOutput(validators, steps, steps', i, n - 1); }
  }

  /** A decided run completes with the output of any winner. */
  lemma DecidedCanChange(reader: Reader, s: Sys, a: map<string, R.Annotation>, e: Option<string>, w: nat)
      returns (trace: seq<Label>, s': Sys)
    requires SysInv(s) && Kept(s.db) && !Over(s.db.run.status) && !Blocked(s.db) && AllDecided(s.db)
    requires Winner(s.db.steps, s.db.deps, w) && !Harmless(reader, s.db.steps[w].output, a, e)
    ensures Runs(s, trace, s') && Verdict(reader, s'.db, a) != e
  {
    var order := Leading(w, |s.db.steps|);
    var l := AdvanceTx(order, 0);
    s' := Next(s, l);
    trace := [l];
    OneTransaction(s, l);
    DecidedCompletes(s.db, order, w);
  }

  lemma DecidedCompletes(db: Db, order: seq<nat>, w: nat)
    requires Coherent(db) && !Over(db.run.status) && !Blocked(db) && AllDecided(db)
    requires Winner(db.steps, db.deps, w) && Everything(order, |db.steps|) && order != [] && order[0] == w
    ensures AdvanceRun(db, order, 0).run.result == db.steps[w].output
  {
    var db' := AdvanceRun(db, order, 0);
    forall i | 0 <= i < |db.steps|
      ensures Terminal(db'.steps[i].status)
      ensures db'.steps[i].status.Succeeded? <==> db.steps[i].status.Succeeded?
      ensures db'.steps[i].status.Failed? <==> db.steps[i].status.Failed?
      ensures db'.steps[i].output == db.steps[i].output
      ensures db.steps[i].status.Succeeded? ==> db'.steps[i].completedAt == db.steps[i].completedAt
    {
      AdvancedMove(db, order, 0, i);
      AdvancedStatus(db, order, 0, i);
    }
    SameWinners(db.steps, db.deps, db'.steps, db'.deps, w);
    WinnerCanBePicked(order, db'.steps, db'.deps, w);
    EndedRunCompletes(db.run, db'.steps, PickResult(order, db'.steps, db'.deps), 0);
  }

  lemma EndedRunCompletes(run: WorkflowRun, steps: seq<RunStep>, result: Option<Dict>, now: nat)
    requires AllTerminal(steps) && !(AnyFailed(steps) && run.failRun)
    ensures Completion(run, steps, result, now).result == result
  {
  }

  /** A verdict that is not settled can still change. */
  lemma UnsettledCanChange(reader: Reader, s: Sys, a: map<string, R.Annotation>, e: Option<string>)
      returns (trace: seq<Label>, s': Sys)
    requires Fluent(reader) && SysInv(s) && Kept(s.db) && Verdict(reader, s.db, a) == e && !Settled(reader, s, a, e)
    ensures Runs(s, trace, s') && Verdict(reader, s'.db, a) != e
  {
    if i: nat :| && i < |s.db.steps| && i in reader.validators
                 && !Hidden(reader.validators, s.db.steps, i) && CanReport(s, i) {
      if s.db.run.status.RunCancelled? {
        trace, s' := CancelledCanChange(reader, s, a, e, i);
      } else {
        trace, s' := LiveCanChange(reader, s, a, e, i);
      }
    } else if i: nat :| i < |s.db.steps| && !Terminal(Fate(s.db.steps, s.db.deps, i)) {
      trace, s' := LiveCanChange(reader, s, a, e, i);
    } else {
      var w: nat :| w < |s.db.steps| && Winner(s.db.steps, s.db.deps, w)
                    && !Harmless(reader, s.db.steps[w].output, a, e);
      trace, s' := DecidedCanChange(reader, s, a, e, w);
    }
  }

  // ── the theorems ─────────────────────────────────────────────────────────

  /** The verdict of the annotations is e in every later state of the run. */
  ghost predicate StaysAt(reader: Reader, s: Sys, a: map<string, R.Annotation>, e: Option<string>) {
    forall trace, s': Sys :: Runs(s, trace, s') ==> Verdict(reader, s'.db, a) == e
  }

  lemma SettledStays(reader: Reader, s: Sys, a: map<string, R.Annotation>, e: Option<string>)
    requires SysInv(s) && Kept(s.db) && Settled(reader, s, a, e)
    ensures StaysAt(reader, s, a, e)
  {
    forall trace, s': Sys | Runs(s, trace, s') ensures Verdict(reader, s'.db, a) == e {
      RunsStaySettled(reader, s, trace, s', a, e);
    }
  }

  lemma UnsettledChanges(reader: Reader, s: Sys, a: map<string, R.Annotation>, e: Option<string>)
    requires Fluent(reader) && SysInv(s) && Kept(s.db) && Verdict(reader, s.db, a) == e && !Settled(reader, s, a, e)
    ensures !StaysAt(reader, s, a, e)
  {
    var trace, s' := UnsettledCanChange(reader, s, a, e);
  }

  /** The verdict of the annotations stays the same in every later state of the run exactly when it
      is settled. */
  lemma VerdictStaysWhen(reader: Reader, s: Sys, a: map<string, R.Annotation>, e: Option<string>)
    requires Fluent(reader) && Reachable(s) && Verdict(reader, s.db, a) == e
    ensures WellFormed(s)
    ensures StaysAt(reader, s, a, e) <==> Settled(reader, s, a, e)
  {
    ReachableIsKept(s);
    if Settled(reader, s, a, e) {
      SettledStays(reader, s, a, e);
    } else {
      UnsettledChanges(reader, s, a, e);
    }
  }

  /** The verdict stored by a request that computes it is current in every later state of the run
      exactly when the run's rows settle it at the time of the request. */
  lemma StoredVerdictStaysCurrentWhen(reader: Reader, s: Sys, visits: seq<R.Visit>, r: R.Request)
    requires Fluent(reader) && Reachable(s) && R.Judges(Seen(reader, s.db), R.ApplyAll(visits), r)
    ensures WellFormed(s)
    ensures var report := R.Loaded(R.ApplyAll(visits + [R.Visit(Seen(reader, s.db), r)]));
            && report.effective == Verdict(reader, s.db, report.annotations)
            && (StaysAt(reader, s, report.annotations, report.effective)
                <==> Settled(reader, s, report.annotations, report.effective))
  {
    var v := R.Visit(Seen(reader, s.db), r);
    var report := R.Loaded(R.ApplyAll(visits + [v]));
    R.VisitUnfolds(visits, v);
    R.ReviewsAreAudited(visits + [v]);
    VerdictStaysWhen(reader, s, report.annotations, report.effective);
  }

  /** Once a run is over and no worker is inside a handler, the review reads the same output
      forever, so the whole report stays current. */
  lemma {:induction false} FinishedOutputStays(reader: Reader, s: Sys, trace: seq<Label>, s': Sys)
    requires SysInv(s) && Over(s.db.run.status) && Runs(s, trace, s')
    requires forall i :: 0 <= i < |s.db.steps| ==> !InPhase(s, i, Executing)
    ensures Seen(reader, s'.db) == Seen(reader, s.db)
    decreases |trace|
  {
    if trace != [] {
      var m := Next(s, trace[0]);
      NextKeepsInv(s, trace[0]);
      NextKeepsOver(s, trace[0]);
      forall i | 0 <= i < |s.db.steps|
        ensures m.db.steps[i].output == s.db.steps[i].output && !InPhase(m, i, Executing)
      {
        FinishedStepStays(s, trace[0], i);
      }
      HiddenChangesDoNotShow(reader.validators, s.db.steps, m.db.steps, |s.db.steps|);
      FinishedOutputStays(reader, m, trace[1..], s');
    }
  }

  lemma FinishedStepStays(s: Sys, l: Label, i: nat)
    requires SysInv(s) && Over(s.db.run.status) && Enabled(s, l) && i < |s.db.steps| && !InPhase(s, i, Executing)
    ensures i < |Next(s, l).db.steps| && Next(s, l).db.steps[i].output == s.db.steps[i].output
    ensures !InPhase(Next(s, l), i, Executing)
  {
    NextKeepsShape(s, l);
    if s.db.run.status.RunCancelled? {
      CancelledNextKeepsCalls(s, l, i);
      CancelledOutputsStay(s, l, i);
    } else {
      FinishedIsFrozen(s, l);
      NextKeepsInv(s, l);
      assert Terminal(s.db.steps[i].status);
    }
  }
}
