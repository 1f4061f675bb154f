# Verified model of the clerq2 engine and its side cores

The main part models execution engine v2: a workflow definition is checked by Kahn's algorithm, materialized
into step and edge rows, and driven by stateless workers through small transactions (claim, commit, fail or
retry, advance, signal, timer, reclaim, cancel). The engine's central promise is proved: every interleaving of
these transactions that is not cancelled computes what one sequential pass over the graph computes. Four
independent cores follow: the review log, case document supersession, the mailbox allocator and the CSV export.

| directory | content |
|---|---|
| `engine/` | `Rows` (row types), `Graph` (`validate_graph`), `Materialize` (`start_run`), `Ledger` (what rows promise each other), `Fixpoint` and `Advance` (`advance_run`), `RunResult` (`_pick_result`), `Transactions` (the other transactions as functions), `Store` (the same transactions as methods over mutable rows), `Invariants` (preservation), `System` (interleavings, workers, traces), `Guarantees`, `Progress`, `Plan`, `Independence`, `Termination`, `Completed`, `Causal` (theorems) |
| `review/` | `Review` (the review and its log), `Currency` (what the review reads of a run, and when its verdict can go stale) |
| `cases/`, `mail/`, `reports/` | the other side cores |
| `shared/` | `Option`; ASCII `strip`, `lower` and decimal numerals |

How the engine is modelled:

* Each transaction appears twice: as a function from rows to rows (`Transactions`, `Advance`), and as a method of
  `Store.Engine` that rewrites the rows in place with the source's loops and is proved to compute that function,
  in whatever order its queries return the rows.
* `System` interleaves the transactions freely. There is no queue: any transaction may be attempted at any time,
  so messages may be lost, repeated or reordered. Handlers are arbitrary; a worker may die at any moment.
* Assumed: each transaction is atomic (in the source only `advance_run` takes the advisory lock, and the prune of
  a `Branch` updates join counters outside it); a lease expires only when its worker is dead (the source checks
  neither status nor lease owner on commit). `CancelledError` reaches a handler only after a cancel.
* Each request to the review, the mailboxes and the cases is taken as atomic too: the source tests and writes without
  a lock, and no `email_address` column is unique, so two concurrent requests are not covered.
* Claims, handler calls, reclaims and resumes are tallied by the model; `TalliesAreCounts` says that the tallies
  count the transactions that happened.
* Clocks are parameters; nothing requires them to agree or to be monotonic.

Where the code and its documentation differ the model follows the code:

* `cancel_run`'s docstring calls late commits no-ops; they overwrite the step (`LateCommitOverwritesCancelled`). A
  cancel settles a step for good exactly when no worker was inside its handler at the time (`CancelSettlesStep`), and
  silences the whole run exactly when none was inside any (`CancelSilencesRun`). The run row itself is final.
* `start_run` does not look at the run's status: a run cancelled between its creation and its start is set running
  again (`StartRun`). "Final" therefore means from the start on.
* The reconciler's docstring promises that no run is ever stuck; a lost `advance_run` message strands a run for good
  (`LostAdvanceStrands`, `StrandedStays`), exactly in the states described by `RecoveryCondition`.
* The design note retries while `attempt + 1 < max_attempts` and enqueues an `advance_run` at start; the code
  retries while `attempt < max_attempts` and enqueues only the roots.
* The review looks at the run's validation output anew at every request and never at the run's status, so a verdict
  or an agreement with the AI that was true when stored can go stale while the run goes on (`FinalizedTooEarly`,
  `OverriddenTooEarly`). `StoredVerdictStaysCurrentWhen` says exactly when the stored verdict cannot, `AccountableWhen`
  when the overrides still have the reasons they need, and `FinishedOutputStays` gives the simple guard: the run is
  over and no worker is inside a handler.
* A numbered suffix can push an allocated mailbox name past the limit that `validate_local_part` enforces
  (`SuffixMayOverflow`); it does not exactly when some candidate within the limit is free (`AllocationIsValidWhen`).
* The result of a run may depend on the schedule (`RivalsDiffer`); it does not exactly when all steps it can be chosen
  from have the same output in the sequential pass (`ResultIsScheduleIndependent`). In one completing `advance_run`
  it depends on the row order exactly when two latest such steps differ (`RowOrderIsIrrelevant`). With clocks that run
  forward along the edges only steps that no other such step descends from count (`ResultInTimeIsScheduleIndependent`).

## Model

| member | source | states |
|---|---|---|
| Graph.ValidateGraph | api/app/engine/scheduler.py:49-85 | accepts iff the node list is non-empty, all types are known, ids are distinct and no walk over non-dangling edges returns to its start; the accepted nodes are a permutation with every edge going forward; which error each rejection reports |
| Graph.BuildLists | api/app/engine/scheduler.py:65-72 | in-degrees count the linking edges (duplicates included) and adjacency lists name each of them once |
| Graph.KahnOrder | api/app/engine/scheduler.py:74-82 | the queue loop emits distinct ids with sources before targets, and every id it never emits is blocked by another such id |
| Graph.OrderedMeansAcyclic | api/app/engine/scheduler.py:74-85 | a complete forward order rules out every cycle |
| Graph.StuckMeansCyclic | api/app/engine/scheduler.py:83-84 | an incomplete order proves that a cycle exists |
| Graph.ShortOrder | api/app/engine/scheduler.py:83-85 | the length test of the result decides exactly distinct ids and acyclicity |
| Materialize.NewDeps | api/app/engine/scheduler.py:191-205 | one edge row per distinct (from, to, handle) of the linking edges and none else, with every counter equal to its live unsatisfied in-edges |
| Materialize.BuildRun | api/app/engine/scheduler.py:166-217 | the materialized rows are a started run in which every step has its configured number of attempts (one unless that is at least one), is on its first attempt, holds the seed, counts all its in-edges and is ready iff it has none; the first node is always a ready root |
| Store.Engine.StartRun | api/app/engine/scheduler.py:115-217 | a valid definition yields a started run over its sorted nodes, each row with its configured attempts, the seed and its in-edge count, and a non-empty ready list, whatever the status of the run row; any other only fails a run that is not over |
| Store.Engine.BeginStep | api/app/engine/scheduler.py:362-384 | a claim succeeds exactly on a ready step; a cancelled run drops the step, marked cancelled, before its handler; else the step reads running with a lease of 600 seconds, a run that is not over reads running, and the handler gets the step's inputs and attempt |
| Store.Engine.Prune | api/app/engine/scheduler.py:316-324 | pruning in any row order kills exactly the edges with a dead handle and keeps every join counter exact |
| Store.Engine.CommitStepResult | api/app/engine/scheduler.py:292-336 | the whole new state for Output, Branch and Suspend, field by field |
| Store.Engine.FailOrRetry | api/app/engine/scheduler.py:339-357 | retries exactly while the failure is not definitive and attempt < max_attempts, on the next attempt and without a lease; else the step has failed; nothing else changes |
| Store.Engine.EndStep | api/app/engine/scheduler.py:393-420 | each way a handler can end becomes its transaction: `StepFailed` keeps its output and fails for good, a noticed cancel spares a step that has ended; re-enqueue exactly when the step is ready |
| Store.Engine.AdvanceRows | api/app/engine/scheduler.py:425-522 | whatever order steps and edges arrive in, the rows become the settled, promoted and completed ones; the returned ids are exactly the steps that went from pending to ready, once each |
| Store.Engine.Complete | api/app/engine/scheduler.py:504-520 | the run reads running iff some step is pending, ready or running, waiting iff none is and some step waits, failed iff all have ended, one failed and the policy says so, completed otherwise, dated when it ends |
| Store.Engine.FireEvents | api/app/engine/events.py:26-36 | the loop over the selected events fires them and readies each waiting step once |
| Store.Engine.SignalEvent | api/app/engine/events.py:14-36 | fires exactly the armed events of the kind, and of the key if one is given, with the signal's payload laid over their own; readies exactly their waiting steps and returns them |
| Store.Engine.ReclaimExpiredLeases | api/app/engine/reconciler.py:14-29 | readies exactly the running steps whose lease ended before now and returns them |
| Store.Engine.SweepRows | api/app/engine/reconciler.py:58-67 | a pass readies exactly the running steps with an expired lease and the waiting steps with a due timer, fires the due timers, and returns exactly the steps that are then ready |
| Store.Engine.CancelRows | api/app/engine/scheduler.py:562-580 | cancels the run, every pending, ready, running or waiting step and every armed event, in any row order; a run that is over is left alone |
| Advance.SettleRows | api/app/engine/scheduler.py:449-489 | the guarded loop always ends at the recursively defined fixpoint, never by the guard |
| Advance.SatisfyPass | api/app/engine/scheduler.py:456-472 | one pass keeps counters and inputs exact, makes progress when it changes anything, and otherwise leaves no edge to satisfy |
| Advance.SkipPass | api/app/engine/scheduler.py:476-489 | one pass skips only steps fated to be skipped and otherwise leaves none to skip |
| Advance.ReadyRows | api/app/engine/scheduler.py:491-502 | readies exactly the pending steps with no open edge that are roots or have been delivered to |
| Fixpoint.ClosedIsFate | api/app/engine/scheduler.py:474-489 | where the loop stops, a step is skipped iff it is a pending non-root whose every live in-edge comes from a terminal parent that did not succeed, recursively |
| Fixpoint.ClosedIsSettled | api/app/engine/scheduler.py:449-489 | the rows where the loop stops are uniquely determined: statuses, flags, counters and inputs |
| Fixpoint.SatisfyDelivers | api/app/engine/scheduler.py:463-472 | merging one parent output keeps inputs exactly the seed plus what has been delivered |
| RunResult.PickIsWinner | api/app/engine/scheduler.py:533-557 | the pick is the output of a step that completed last among the succeeded steps without a live out-edge whose output has `overall`, else among those without a live out-edge, else among the succeeded ones with `overall`; there is none exactly when there is no such step |
| RunResult.PickIgnoresRowOrder | api/app/engine/scheduler.py:542-557 | the pick is the same for all row orders exactly when all latest candidates have the same output |
| RunResult.SortRearranges | api/app/engine/scheduler.py:549 | the sort rearranges the steps, multiplicities included, latest first |
| RunResult.SortIsStable | api/app/engine/scheduler.py:549 | steps completed at the same time keep their order |
| Invariants.AdvanceKeepsSound | api/app/engine/scheduler.py:425-522 | advance keeps every engine invariant |
| Invariants.SucceedKeepsSound | api/app/engine/scheduler.py:312-336 | committing Output or Branch keeps every engine invariant |
| Invariants.SuspendKeepsSound | api/app/engine/scheduler.py:298-310 | committing Suspend keeps every engine invariant, the pairing of events and waiting steps included |
| Invariants.FireKeepsSound | api/app/engine/events.py:26-36 | firing armed events keeps every engine invariant |
| Invariants.SweepKeepsSound | api/app/engine/reconciler.py:58-64 | a reconciler pass keeps every engine invariant |
| System.ReachableKeepsInv | api/app/engine/tasks.py:16-51 | every state reachable by any interleaving satisfies the system invariant |
| Guarantees.JoinCounterIsExact | api/app/engine/scheduler.py:457-468 | in every reachable state, cancelled runs included, `deps_remaining` is the number of live unsatisfied in-edges, and the clamp at zero is never met |
| Guarantees.DeliveryIsExact | api/app/engine/scheduler.py:463-472 | in every reachable uncancelled state inputs bind a name to a value iff a succeeded parent of that name has this output and a live satisfied edge to the step, or no such parent exists and the seed binds it |
| Guarantees.UncancelledRunsGrow | api/app/engine/scheduler.py:292-336 | along every uncancelled run satisfied edges keep both flags, terminal steps keep status, output and completion time, and inputs are frozen once a step leaves pending |
| Guarantees.OverIsForever | api/app/engine/scheduler.py:433-436 | once a run is completed, failed or cancelled no sequence of transactions changes its row |
| Guarantees.CancelStopsHandlers | api/app/engine/scheduler.py:375-379 | after a cancel no worker enters a handler |
| Guarantees.CancelSilencesRun | api/app/engine/scheduler.py:562-580 | after a cancel no sweep or signal ever changes anything again, exactly when no worker was inside a handler at the cancel |
| Guarantees.LateCommitOverwritesCancelled | api/app/engine/scheduler.py:562-566 | a commit after the cancel turns a cancelled step into a succeeded one, the run row staying cancelled |
| Guarantees.CancelSettlesStep | api/app/engine/scheduler.py:562-580 | a cancelled step keeps its status and output whatever follows, exactly when no worker was inside its handler at the cancel |
| Guarantees.SuspensionsArePaired | api/app/engine/scheduler.py:298-310 | in every reachable uncancelled state armed events and waiting steps correspond one to one |
| Guarantees.EachEventWakesOnce | api/app/engine/reconciler.py:32-49 | resumes of a step equal its fired events: each armed event wakes its step exactly once, timer or signal |
| Progress.SuspensionWakesWhen | api/app/engine/events.py:14-36 | a step suspended in any reachable state is readied by exactly the signals of its kind (and key, when one is given) and by exactly the sweeps from its due time on |
| Guarantees.ClaimsAreAccounted | api/app/engine/scheduler.py:339-357 | handler calls are at most claims, claims at most attempt + reclaims + resumes (with the exact balance for uncancelled runs), and the attempt stays within its limit |
| Progress.AdvanceIsIdempotent | api/app/engine/scheduler.py:425-522 | advance twice equals once, whatever the row orders and clocks |
| Progress.DuplicatesAreHarmless | api/app/engine/tasks.py:16-35 | a duplicate step message for a step that is not ready, and a duplicate advance message, change nothing |
| Progress.PendingIsAwaited | api/app/engine/scheduler.py:474-502 | after advance every pending step has a live edge from a parent that is not terminal |
| Progress.AdvanceDecides | api/app/engine/scheduler.py:449-502 | an advance leaves a pending step skipped iff it leaves all its live parents ended without success, ready iff all ended and one succeeded, pending iff one has not ended; edges are satisfied iff their parent has ended; all else stays but counters, inputs and the time of a skip |
| Progress.NoDeadlock | api/app/engine/scheduler.py:504-520 | after advance the run is completed or failed iff every step is terminal, and dated; running iff some step is pending, ready or running; waiting iff none is and some step waits; and unless it is over some step is ready, running or waiting |
| Progress.AdvancedRunsRecover | api/app/engine/reconciler.py:14-67 | in an advanced state of a live run some step is in the sweep's list, or will be once its lease or timer runs out, or is readied by the signal its event matches |
| Progress.StrandedStays | api/app/engine/reconciler.py:58-67 | without a ready, running or waiting step and without a worker, no sequence of sweeps, signals and step messages changes anything |
| Progress.AdvanceUnstrands | api/app/engine/scheduler.py:491-520 | one advance on such a run ends it or readies a step |
| Progress.RecoveryCondition | api/app/engine/reconciler.py:52-67 | with no worker alive, the reconciler or a signal can move a live run iff some step is ready, running or waiting |
| Progress.LostAdvanceStrands | api/app/engine/tasks.py:19-28 | a reachable run stranded by a lost advance message |
| Progress.LeaseProtects | api/app/engine/scheduler.py:222-240 | whatever happens but the end of its own handler call, a cancel or a sweep more than 600 seconds after the claim, a claimed step stays running without another claim, and a sweep returns it exactly from then on |
| Plan.PassIsPlan | api/app/engine/scheduler.py:425-502 | the sequential pass is a plan: a step runs iff it is a root or an edge carries an output to it, on exactly those outputs, and is skipped otherwise |
| Independence.FateAgrees | api/app/engine/scheduler.py:474-489 | in every state that agrees with the plan, a step whose fate is terminal has the planned status, and a step fated to be skipped is planned with the seed and no output |
| Independence.ScheduleIndependence | api/app/engine/scheduler.py:292-522 | for handlers that depend only on step, inputs and attempt (and may suspend at will), every uncancelled interleaving gives each terminal step the status, inputs and output of the sequential pass, and a finished run the status it calls for |
| Independence.FinishedRunsAreEqual | api/app/engine/scheduler.py:292-522 | any two finished runs of a graph leave every step alike |
| Completed.CompletedRunsHaveResult | api/app/engine/scheduler.py:504-557 | every reachable completed run has the output of a step that completed last among its final steps with `overall`, else its final steps, else its steps with `overall`, or none when there is no such step; when no step failed there is one, and it is a step that no live edge leaves |
| Completed.RowOrderIsIrrelevant | api/app/engine/scheduler.py:438-440 | query order changes nothing but the result, and that exactly when the run completes with two latest candidates of different output |
| Completed.ResultIsScheduleIndependent | api/app/engine/scheduler.py:533-557 | all completed runs of a graph have the same result exactly when all candidates of the sequential pass have the same output (or the pass fails, and none completes) |
| Completed.CandidateCanWin | api/app/engine/scheduler.py:438-557 | every candidate of the sequential pass is the result of some complete run |
| Completed.RivalsDiffer | api/app/engine/scheduler.py:533-557 | one graph and one set of handlers with two complete runs of different results |
| Causal.ResultInTimeIsScheduleIndependent | api/app/engine/scheduler.py:533-557 | when every step ends after its parents, all completed runs have the same result exactly when all candidates from which no other candidate descends have the same output |
| Causal.LastCanWin | api/app/engine/scheduler.py:438-557 | each such candidate is the result of some complete run in time |
| Termination.RunsTerminate | api/app/engine/scheduler.py:339-357 | an uncancelled run makes at most 4·Σmax_attempts + steps + edges + 1 effective transactions, plus 4 for each worker death and 6 for each suspension, and Σmax_attempts handler calls, plus one for each of those, however often messages repeat |
| Termination.RunsProgress | api/app/engine/scheduler.py:425-522 | a reachable run that is not over is never stuck: some transaction other than a death, suspension or cancel changes it (if only an advance whose message was lost), whatever the handlers answer |
| Termination.EveryRunCanFinish | api/app/engine/scheduler.py:362-522 | from every reachable uncancelled state, for all handlers, transactions without another death or suspension finish the run |
| Review.ComputeOverall | api/app/routers/review.py:43-74 | among the effective statuses (the override's, else the AI's) of the findings whose requirement is not "optional" up to case and white space: fail iff one is "fail", needs_review iff none is and one is "uncertain", pass iff neither; none iff there is no output |
| Review.AiStatusIsLast | api/app/routers/review.py:37-40 | of several findings of one rule the last counts |
| Review.ReviewsAreAudited | api/app/routers/review.py:115-241 | after any requests, each seeing any output: replaying the log rebuilds notes and overrides, finalize and reopen alternate with no annotation while closed, every entry is true of the entries before it and of the output its request saw (previous values, AI status, verdict, and a reason where an override differs from that status), and the stored verdict is that of the current annotations under the output at the last request that computed it |
| Review.AccountableWhen | api/app/routers/review.py:165-175 | every override that differs from the AI status of some output has a reason exactly when that output gives each rule overridden without one the status the log has for it |
| Review.FinalizedTooEarly | api/app/routers/review.py:202-221 | a report finalized before there is an output keeps no verdict once the output says fail |
| Review.OverriddenTooEarly | api/app/routers/review.py:162-179 | an override that agreed with the AI has no reason when a later output disagrees |
| Currency.FindValidationOutput | api/app/cases.py:187-198 | the loop finds the result of the run if it can be read, else the output of the first validating step that has one |
| Currency.StoredVerdictStaysCurrentWhen | api/app/routers/review.py:30-74 | the verdict a request stores is current in every later state of the run exactly when the rows settle it: no validating step that would be read can still report, and the run is over, or bound to fail, or all its steps are decided and no result it may get changes the verdict |
| Currency.VerdictStaysWhen | api/app/cases.py:187-198 | the same for the verdict of any annotations |
| Currency.FinishedOutputStays | api/app/cases.py:187-198 | once a run is over and no worker is inside a handler, the review reads the same output forever |
| Review.Desk.AnnotateFinding | api/app/routers/review.py:115-199 | which of the four refusals applies, and the whole new review otherwise |
| Review.AnnotateAnswers | api/app/routers/review.py:132-194 | which refusal a change gets; else clearing wins, an absent member leaves things as they are, a blank note clears, what is stored is stripped (statuses lower-cased), and the rule keeps an annotation iff a note or override is left |
| Review.LoggedIffChanged | api/app/routers/review.py:140-194 | a saved annotation touches no other rule and adds to the log exactly when it changes a note or an override |
| Review.Desk.FinalizeReview | api/app/routers/review.py:202-221 | finalizes an open review: dated, with the verdict of the current annotations stored and logged, all else kept; idempotent on a finalized one |
| Review.Desk.ReopenReview | api/app/routers/review.py:224-241 | reopens a finalized review: undated, with the old date logged, annotations and verdict kept; idempotent on an open one |
| Supersession.Case.Attach | api/app/cases.py:124-170 | the whole new row list, in any order of the superseded rows |
| Supersession.CurrentIsLastOfEachName | api/app/cases.py:173-184 | after any attaches the current documents are the last of each filename, in attach order |
| Supersession.ChainsEndAtCurrent | api/app/cases.py:124-170 | supersession points to a later row of the same filename, and following it ends at the one current row of that name |
| Supersession.HistoryIsRecorded | api/app/cases.py:144-167 | positions count attaches and each superseded row points to the next attachment of its name |
| Mailboxes.UniqueLocalPart | api/app/mailboxes.py:64-81 | stops within addresses-in-use + 1 probes at the first of `base`, `base-2`, `base-3`, … whose address no other mailbox has ignoring case |
| Mailboxes.CandidatesDiffer | api/app/mailboxes.py:73-80 | different candidates give different addresses even ignoring case |
| Mailboxes.SlugIsValid | api/app/mailboxes.py:22-42 | a non-empty slug always passes validation |
| Mailboxes.SlugJoinsWords | api/app/mailboxes.py:22-27 | the slug is the maximal runs of letters and digits of the lower-cased name joined by one hyphen each, cut to 64 characters without a hyphen at the end |
| Mailboxes.TwoWords | api/app/mailboxes.py:22-27 | two runs of letters or digits separated by other characters appear in the slug joined by one hyphen |
| Mailboxes.SlugIgnoresCase | api/app/mailboxes.py:22-27 | names equal up to the case of ASCII letters have the same slug |
| Mailboxes.SlugIsIdempotent | api/app/mailboxes.py:22-27 | slugging a slug changes nothing |
| Mailboxes.AllocationIsValidWhen | api/app/routers/policies.py:235-247 | enabling a mailbox stores a local part that validation accepts exactly when some candidate of at most 64 characters is free |
| Mailboxes.SuffixMayOverflow | api/app/mailboxes.py:72-81 | a directory in which enabling a mailbox stores a local part that validation refuses as too long |
| Mailboxes.Directory.EnableInbox | api/app/routers/policies.py:235-247 | the mailbox alone changes: it is enabled, at the first free candidate of its slug, or of policy-N or workflow-N when the slug is empty |
| Mailboxes.Directory.SetInboxAddress | api/app/routers/policies.py:254-273 | which refusal applies, and the new directory otherwise; a refused request changes nothing |
| Mailboxes.TypedAddressIsClean | api/app/routers/policies.py:254-273 | a typed address is stored only with a clean local part, although the pattern alone would admit a trailing newline |
| Mailboxes.TypedAddressIsStoredWhen | api/app/mailboxes.py:30-42 | the refusal of a typed local part, white space at its ends aside, is decided character by character; it is stored iff it is 1 to 64 letters of either case, digits, dots, underscores and hyphens with a letter or digit at both ends and no other mailbox has it ignoring case, each capital replaced by its small letter |
| Mailboxes.AddressesStayDistinct | api/app/routers/workflows.py:146-192 | on policies and workflows together, any sequence of enable, set-address and disable keeps all addresses different character by character up to the case of ASCII letters |
| Mailboxes.Directory.DisableInbox | api/app/routers/policies.py:276-283 | the mailbox alone changes: it is disabled and has no address |
| Csv.ExportReportCsv | frontend/src/lib/reportExport.ts:113-139 | the printed text, read by an RFC 4180 parser after the BOM, is exactly the header and the rows |
| Csv.QuotedExactlyWhen | frontend/src/lib/reportExport.ts:39-44 | a cell is printed as it is iff it has no comma, quote, CR or LF |
| Csv.SampleIsPrinted | frontend/src/lib/reportExport.ts:113-139 | the separators on a table: comma between fields, CR LF between lines, quotes doubled |
| Csv.FieldRoundTrip | frontend/src/lib/reportExport.ts:39-44 | an escaped field reads back as its text before any field end |
| Csv.RecordRoundTrip | frontend/src/lib/reportExport.ts:113-135 | a printed row reads back as its fields |
| Csv.FileRoundTrip | frontend/src/lib/reportExport.ts:138-139 | lines joined and ended by CRLF read back as the rows |
| Csv.PrintIsInjective | frontend/src/lib/reportExport.ts:39-44 | two tables print alike iff their texts are equal |

## Left out

- Node handlers, LLM calls, PDF rendering, storage and mail sending: a handler is an arbitrary answer.
- Celery, Redis, SQLAlchemy sessions and Postgres locking: transactions are atomic, messages may be lost or repeated; lost updates between concurrent transactions are not modelled.
- ScheduleIndependence: excludes cancelled runs, for which late commits make it false, and definitive failures for an unknown node type, which `validate_graph` rules out.
- Several runs sharing the tables: the rows are those of one run; signals, timers and sweeps act on each run separately.
- `error`, `logs`, `started_at`, `ready_at`, `lease_owner`, `idempotency_key`, `iteration_index`, `parent_step_id`, tenant columns: no effect on scheduling.
- The contact and document seed of `start_run`: the seed is a parameter.
- JSON values: an object maps names to text; a step's output only matters as a whole and for its `overall` and `results` members. Which steps validate documents, and how the text of `results` reads as findings, are parameters; `StoredVerdictStaysCurrentWhen` supposes that every list of findings has a text.
- Row assembly of the CSV export (labels, percentages, joined file names): cells are parameters, numbers and objects arrive as text.
- Annotation time stamps, reviewer identities and tenant checks of the review endpoints.
- Unicode case folding and whitespace: `lower` and `strip` are ASCII.
- Saving `email_address` through the raw policy and workflow updates, which bypass the allocator.
- `compute_checklist`, case creation and aliases, policy versions, metrics, authentication, the React pages: easy or unrelated.
