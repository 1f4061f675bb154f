/** The rows the execution engine keeps in its database: one run, its steps, the
    dependency edges between them and the suspend/timer events. Row ids are the
    positions in the sequences. */
module Rows {
  import opened Options

  /** A JSON object; member values are kept as text. */
  type Dict = map<string, string>

  datatype StepStatus = Pending | Ready | Running | Waiting | Succeeded | Failed | Skipped | Cancelled

  predicate Terminal(status: StepStatus) {
    status.Succeeded? || status.Failed? || status.Skipped? || status.Cancelled?
  }

  predicate Active(status: StepStatus) {
    status.Pending? || status.Ready? || status.Running?
  }

  /** A parent in this status will never deliver an output. */
  predicate DeadEnd(status: StepStatus) {
    Terminal(status) && !status.Succeeded?
  }

  datatype RunStep = RunStep(
    nodeId: string,
    status: StepStatus,
    attempt: nat,
    maxAttempts: nat,
    depsRemaining: nat,
    inputs: map<string, Dict>,
    output: Option<Dict>,
    lease: Option<nat>,
    completedAt: Option<nat>)

  datatype StepDep = StepDep(from: nat, to: nat, handle: string, satisfied: bool, live: bool)

  datatype EventStatus = Armed | Fired | Disarmed

  datatype RunEvent = RunEvent(
    step: nat,
    kind: string,
    key: Option<string>,
    fireAt: Option<nat>,
    status: EventStatus,
    payload: Dict)

  datatype RunStatus = RunPending | RunRunning | RunWaiting | RunCompleted | RunFailed | RunCancelled

  predicate Over(status: RunStatus) {
    status.RunCompleted? || status.RunFailed? || status.RunCancelled?
  }

  /** `failRun` is the fail policy: true for "fail_run", false for any other value. */
  datatype WorkflowRun = WorkflowRun(status: RunStatus, result: Option<Dict>, failRun: bool, completedAt: Option<nat>)

  /** `seed` is the inputs dictionary every step is created with. */
  datatype Db = Db(
    run: WorkflowRun,
    steps: seq<RunStep>,
    deps: seq<StepDep>,
    events: seq<RunEvent>,
    seed: map<string, Dict>)

  /** `output_data or {}` */
  function OutputOf(step: RunStep): Dict {
    match step.output
    case None => map[]
    case Some(d) => d
  }
}
