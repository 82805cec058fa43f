# LightWorker: the durable-execution layer, verified

LightWorker runs agents that may crash, pause, be resumed by another process, or be driven by workers whose
lease is long gone. What keeps their work in order and at most once is a set of small protocols on one
transactional event log. This project models those protocols in Dafny and proves what they are for. A
transaction of the source is one atomic step here; everything that may happen between two transactions (other
processes, crashes, stale workers, any clock) is left arbitrary.

`dafny verify dfyconfig.toml` checks the whole project.

## What is modelled

| files | component | the question answered |
|---|---|---|
| `CodeLanguage`, `ProgramLaws`, `ValueLaws` | the small Python language of code mode and its evaluator | what does a program mean: which branch runs, in which order, with which values? |
| `ReplayTheorem`, `QuietPrograms`, `CodeMode`, `ReplayLoop`, `RejectedPrograms`, `CodeInvocations`, `CodeCrashes`, `CodeOverlap` | the loop that drives a program over a recorded call history, each evaluation in a process of its own | is re-running a program against a growing history the same as running it once, and is each call made at most once, whatever the tools do and wherever invocations crash? |
| `WorkflowLock`, `WorkflowRuns`, `StartLog` | checkpointed workflows | does the `running` marker work as a lock between concurrent, crashing invocations, and are the results those the tools returned? |
| `Jobs`, `Leases`, `JobCascade`, `JobOutput` | epoch-fenced jobs, their leases, the control cascade, the bounded output | whose is a job while a lease runs, can a stale worker ever publish, what does pausing a tree of jobs touch, what does a polling reader miss? |
| `Schedules`, `ScheduleTimes` | schedules and their dispatcher | when does a schedule come due, which run does each occurrence get, and how often is it recorded? |
| `Sessions`, `Storage` | the append-only log with its stale-writer merge, and named states on top of it | can a stale save lose or roll back anything, and is a key used once? |
| `MessageQueue`, `QueueRefinement`, `QueueStore` | the event-sourced follow-up queue | is folding the events the same as a simple list machine? |
| `ChildTurns` | the turns of a child agent | are turns completed in the order they were sent, and is no wake-up lost? |
| `ContextCompaction` | dropping tool-call groups to fit a budget | is as little dropped as possible, and when does it fail? |
| `RagChunks`, `RagIndex`, `RagIngest` | the chunker and the four index tables | is every character indexed, and do the tables agree with re-chunking the last text? |

Where the source updates an object in place, there is a class with the same fields, and each of its methods is
proved equal to a function of the old state; the functions carry the theorems. Where a theorem is about every
interleaving, the functions (or step relations) form a state machine and the theorem is about every run of it; the
undisturbed invocation of the class is proved to be one of these runs. What the functions themselves compute is pinned
by laws that mention neither a function's definition nor its method: equations between programs, who may do what under
a lease, when a schedule comes due, which value a result is.

The language of code mode is what `ptc_eval` accepts, up to the constructs named at the end: assignments to
names, expressions with their short-circuits and chained comparisons, `if`, and bounded `for`. Operators and
built-ins other than `call` and `range` are arbitrary deterministic functions. Values are `None`, booleans,
integers, floats, strings, lists, tuples, dictionaries, ranges and functions; `Wire` is the trip through JSON,
which turns a tuple into a list, a key into a string and every NaN into one object, and `Equal` is Python's `==`.

## What turned out not to hold

Each of these is stated as an equivalence, or with a concrete run, and the code is modelled as it is.

* Replay equals direct execution under two conditions. The first is on the evaluations: each runs in a process of
  its own, and the text of `call` and of `range` holds an address, which differs from process to process. A program
  that names these two only to call them never sees the difference (`QuietPrograms.ExecBlockAlike`), and for such
  programs, whatever processes evaluate them, replay equals direct execution if and only if the second condition
  holds: the arguments of every call are plain, with no tuple, no dictionary key that is not a string, and no NaN
  that the program made itself (`ReplayLoop.ReplayMeansDirectRun`). A program that does name them otherwise is covered
  by `ReplayLoop.SteadyReplayMeansDirectRun` as long as its evaluations agree; `call('t', {'x': str(call)})` is
  rejected when two evaluations have different addresses (`RejectedPrograms.AddressIsRejected`). As to the second
  condition, the history keeps a list for a tuple and `"1"` for the key 1, neither of which equals the original, and a
  NaN equals nothing but the very same object: `call('t', {'x': ()})`, `call('t', {'x': {1: 2}})` and
  `call('t', {'x': float('nan')})` run directly and are rejected by the loop (`RejectedPrograms.TupleIsRejected`,
  `RejectedPrograms.NumberAsKeyIsRejected`, `RejectedPrograms.NanIsRejected`).
* Invocations of `run_code` for one source may overlap: "running" is stored only when a tool is about to be called, so
  a second invocation that has entered before that calls it too. That is safe if and only if the program makes no call
  (`CodeOverlap.OverlapIsSafeIffNoCall`); at most once holds for invocations that follow one another, however they
  crash and whatever the tools reply (`CodeInvocations.AttemptedOnce`, `CodeCrashes.CrashSafety`).
* The workflow marker is a lock if and only if step lists that are equal under `==` have the same ids, and no id is
  empty (`WorkflowRuns.SafeIffIdsAgree`). The marker of a step with the empty id reads as "nothing is running"; and
  `[{"id": 1.0}]` is let in where `[{"id": 1}]` is stored, although its step is called "1.0" and not "1".
* Reads of a canonical name are independent of its file if and only if the last value written is not `null`, which
  reads as absent; and they give the very value written if and only if, besides, the state before was not another
  value that equals it (`Storage.ReadSurvivesFileLossIffNotNull`, `Storage.LogRefinesMap`). Writing
  `{"done": 0}` and then `{"done": false}` leaves the state at 0 (`Storage.FalseAfterZeroIsStuck`).
* Migrating an old queue keeps every status if and only if no item is cancelled
  (`QueueStore.MigrationFaithfulIffNoneCancelled`). A cancelled item comes back as pending.
* A one-shot schedule runs at most once more than it is resumed (`Schedules.OneShotRuns`), and that bound is met:
  `control` resumes a completed schedule, which then runs again (`Schedules.ResumedOneShotRunsTwice`).
* A run is recorded only if submitting it did not fail, and a failed dispatch is tried again under the same run, if
  and only if errors have a text (`Schedules.RecordsAreTrueIffErrorsHaveTexts`,
  `Schedules.FailureIsRetriedIffItHasAText`); an exception whose text is empty is recorded as a success.
* In the same way a job is recorded as completed only if its work returned, if and only if no work is left by an
  exception with an empty text (`Jobs.CompletedMeansReturnedIffErrorsHaveTexts`).

## Model

| member | source | states |
|---|---|---|
| CodeLanguage.CallTool | src/lightworker/sandbox_helper.py:132-142 | a call only ever appends to the calls made so far, and in a direct run every entry is the tool's answer at that point |
| CodeLanguage.BoundedRange | src/lightworker/sandbox_helper.py:144-148 | a range that is accepted has at most 1000 elements; which these are says `RangeElements` |
| CodeLanguage.RangeElements | src/lightworker/sandbox_helper.py:144-148 | the elements of an accepted range are exactly the multiples of its step, also of a negative one, that lie before its end; booleans count as integers |
| ValueLaws.RangeGoesOnByItsStep | src/lightworker/sandbox_helper.py:144-148 | the elements come in order, from the start, each one step after the other |
| ValueLaws.RangeIsBounded | src/lightworker/sandbox_helper.py:144-148 | a range is refused exactly when it has a 1001st element |
| ValueLaws.NewKeyIsAdded | src/lightworker/sandbox_helper.py:163-164 | a dictionary display adds a key that equals none before it at the end |
| ValueLaws.EqualKeyReplaces | src/lightworker/sandbox_helper.py:163-164 | a key that equals an earlier one keeps the earlier one's place and form and takes the new value |
| ValueLaws.JsonOfOneKey | src/lightworker/loop_modes.py:73-81 | JSON stores a key under its text |
| ValueLaws.LaterKeyWins | src/lightworker/loop_modes.py:73-81 | of two keys with the same text the later one's value is read back |
| ValueLaws.DigitsAreDecimal | src/lightworker/loop_modes.py:73-81 | an integer key becomes its decimal numeral, without leading zeros |
| CodeLanguage.Eval | src/lightworker/sandbox_helper.py:163-167 | evaluating an expression only appends calls, and every entry of a direct run is the answer of the tool |
| CodeLanguage.ExecBlock | src/lightworker/sandbox_helper.py:163-167 | the same for a block of statements |
| CodeLanguage.ExecFor | src/lightworker/sandbox_helper.py:163-167 | the same for a bounded loop |
| ProgramLaws.Sequence | src/lightworker/sandbox_helper.py:163-164 | a block runs its parts one after the other and stops where one of them stops |
| ProgramLaws.AssignmentBinds | src/lightworker/sandbox_helper.py:163-164 | an assignment binds its name to the value for the rest of the block; an expression binds nothing |
| ProgramLaws.IfRunsTheChosenBlock | src/lightworker/sandbox_helper.py:163-164 | `if` followed by more runs as its test, then the first block when that is true and the second when it is not, then the rest |
| ProgramLaws.FalseValues | src/lightworker/sandbox_helper.py:163-164 | false are exactly None, False, zero, and what holds nothing to iterate over |
| ProgramLaws.ForOverNothing | src/lightworker/sandbox_helper.py:163-164 | `for` over nothing runs the rest; over what cannot be iterated it stops the program |
| ProgramLaws.ForRunsTheBodyForEachItem | src/lightworker/sandbox_helper.py:163-164 | `for` binds the first item, runs the body, and goes on as a `for` over the other items |
| ProgramLaws.ConditionalIsIf | src/lightworker/sandbox_helper.py:163-164 | assigning `a if t else b` is the `if` statement with the two assignments |
| ProgramLaws.ShortCircuitsAreConditionals | src/lightworker/sandbox_helper.py:163-164 | `and` and `or` are conditional expressions on their left value, evaluated once |
| ProgramLaws.ComparisonIsOperator | src/lightworker/sandbox_helper.py:163-164 | a single comparison applies its operator to both sides, left first |
| ProgramLaws.ChainIsConjunction | src/lightworker/sandbox_helper.py:163-164 | a chained comparison is the conjunction of its comparisons, each operand evaluated once |
| ProgramLaws.OperandsFromLeftToRight | src/lightworker/sandbox_helper.py:163-164 | operands of operators, displays and calls are evaluated from left to right |
| ProgramLaws.DirectCallIsAnswered | src/lightworker/loop_modes.py:60-74 | run directly, a call gives its tool the JSON form of the arguments and the program the JSON form of the answer, and records both |
| ProgramLaws.ReplayedCallIsLookedUp | src/lightworker/sandbox_helper.py:132-142 | replayed, a call takes the next recorded value, is refused when it is not the recorded call, or suspends with a request |
| ProgramLaws.ResultIsAnswered | src/lightworker/sandbox_helper.py:167 | a program that ends in `result = e` answers with the JSON form of the value of `e` |
| ProgramLaws.LoopAnswersResult | src/lightworker/loop_modes.py:50-59 | so does the replaying loop, for quiet programs on processes that compute alike, if the arguments of all calls are plain |
| ProgramLaws.TrueBranchCalls | src/lightworker/sandbox_helper.py:163-167 | `if True: call('a', {})` with `else: call('b', {})` requests `a` |
| ProgramLaws.WalkAccepts | src/lightworker/sandbox_helper.py:75-121 | the walk accepts exactly the programs that mention no private name anywhere and call nothing but the ten functions |
| ReplayTheorem.StableIffPlain | src/lightworker/sandbox_helper.py:138-142 | arguments compare equal to their recorded form exactly when they hold no tuple, no key that is not a string and no NaN of the program's own, for every value |
| ReplayTheorem.WireIsIdempotent | src/lightworker/loop_modes.py:73-81 | storing and loading a history again changes nothing more, for every value, also when keys collide as strings |
| ReplayTheorem.CallMirrors | src/lightworker/sandbox_helper.py:132-142 | one call: with the answer in the history the replay continues as the direct run, without it the replay suspends with this very request |
| ReplayTheorem.EvalMirrors | src/lightworker/sandbox_helper.py:163-167 | an expression evaluated against any history of answers mirrors its direct evaluation: same value and calls, or suspended at the first missing answer, or diverted at the first recorded call whose arguments are not plain |
| ReplayTheorem.LinksMirror | src/lightworker/sandbox_helper.py:163-167 | the same for the operands of a chained comparison, up to the first that does not hold |
| ReplayTheorem.ExecMirrors | src/lightworker/sandbox_helper.py:163-167 | the same for every statement |
| ReplayTheorem.ExecBlockMirrors | src/lightworker/sandbox_helper.py:163-167 | the same for every block |
| ReplayTheorem.ExecForMirrors | src/lightworker/sandbox_helper.py:163-167 | the same for every loop |
| QuietPrograms.EvalAlike | src/lightworker/sandbox_helper.py:132-167 | of an expression that names `call` and `range` only to call them, two processes make the same value and the same calls, and no function comes out of it |
| QuietPrograms.ExecBlockAlike | src/lightworker/sandbox_helper.py:132-167 | the same for a block of statements, replayed against any history without these functions or run directly |
| QuietPrograms.ExecForAlike | src/lightworker/sandbox_helper.py:132-167 | the same for a bounded loop |
| QuietPrograms.WireIsClosed | src/lightworker/sandbox_helper.py:138-142 | what JSON gives back holds no function, so no recorded answer does |
| CodeMode.EvaluationsAgree | src/lightworker/sandbox_helper.py:125-167 | processes that agree on a program evaluate it alike against every history that JSON can hold |
| CodeMode.DirectRunsAgree | src/lightworker/sandbox_helper.py:125-167 | and run it directly alike |
| CodeMode.EvaluationOfPrefix | src/lightworker/sandbox_helper.py:125-167 | given the first k entries of the direct run's calls, an evaluation asks for exactly entry k, or ends as the direct run ends; "replay changed" appears only behind a call whose arguments are not plain |
| CodeMode.CodeModeTools.Bridge | src/lightworker/loop_modes.py:60-74 | one call between its two checkpoints does what `Delegate` says, to the store, the attempts and the caller |
| CodeMode.CodeModeTools.OneRound | src/lightworker/loop_modes.py:51-74 | one round of the loop |
| CodeMode.CodeModeTools.Rounds | src/lightworker/loop_modes.py:50-75 | the loop, each round in a process of its own, equals the recursive drive, from any persisted execution |
| CodeMode.CodeModeTools.RunCode | src/lightworker/loop_modes.py:31-75 | one call drives the program from its stored history; a completed execution answers what it stored, an unfinished call is refused, and then nothing is stored or attempted; other sources are untouched |
| CodeInvocations.AttemptedOnce | src/lightworker/loop_modes.py:31-75 | over any calls of `run_code`, for any sources, with tools that answer, refuse or raise anew each time and processes that need not agree: of two attempts at one call the earlier was refused for approval, and the stored history is exactly the successful attempts with their values |
| CodeInvocations.AnswerTellsStatus | src/lightworker/loop_modes.py:36-81 | an answer says what is stored: finished, awaiting approval, running behind an exception or an unfinished call, open after anything else |
| CodeInvocations.ClosedSourceStaysClosed | src/lightworker/loop_modes.py:40-49 | a finished answer, or an unfinished call, is final: every later call for the source answers the same, or refuses, and attempts nothing |
| CodeInvocations.RefusedCallIsAttemptedAgain | src/lightworker/loop_modes.py:69-72 | the call that was refused for approval is the first that the next invocation attempts |
| ReplayLoop.NextRound | src/lightworker/loop_modes.py:50-74 | before the end, a round performs exactly the next call of the direct run and persists a history that is again a prefix of it |
| ReplayLoop.LastRound | src/lightworker/loop_modes.py:50-59 | behind the last recorded call, the round ends the loop with the final answer, and makes exactly the call, if any, during which the host stops the direct run |
| ReplayLoop.DriveAdvances | src/lightworker/loop_modes.py:50-75 | every round makes progress: n rounds short of the end are n calls, in order |
| ReplayLoop.DriveFinishes | src/lightworker/loop_modes.py:50-75 | with enough rounds the loop performs exactly the remaining calls, each once and in order, and ends, however the program ends |
| ReplayLoop.InvocationsAdvance | src/lightworker/loop_modes.py:50-75 | each invocation that does not finish makes exactly the next 24 calls |
| ReplayLoop.InvocationsNeeded | src/lightworker/loop_modes.py:50-75 | n calls need n/24 + 1 invocations, rounded down |
| ReplayLoop.InvocationsFinish | src/lightworker/loop_modes.py:31-75 | after that many invocations the answer is there, and over all of them exactly the expected calls were performed, each once and in order, whether the program ends in a result, an error or a stopped call |
| ReplayLoop.InvocationsNeededIsLeast | src/lightworker/loop_modes.py:75 | every earlier invocation answers "subcall limit reached" |
| ReplayLoop.ReplayMeansDirectRun | src/lightworker/loop_modes.py:31-75 | for every program that names `call` and `range` only to call them, every world of tools and every family of processes, one for each evaluation, that compute alike without these two: the replaying loop answers as the direct run if and only if the arguments of every call are plain; then its history is the direct run's whole trace and the calls performed are exactly those of the direct run |
| ReplayLoop.SteadyReplayMeansDirectRun | src/lightworker/loop_modes.py:31-75 | the same for any program whose evaluations agree with the direct run's process |
| RejectedPrograms.UnstableCallIsRejected | src/lightworker/sandbox_helper.py:132-142 | any single call whose arguments can be sent but are not plain runs to the end directly and ends with "replay changed" under the loop |
| RejectedPrograms.TupleIsRejected | src/lightworker/sandbox_helper.py:140-141 | the example with a tuple, in any processes |
| RejectedPrograms.NumberAsKeyIsRejected | src/lightworker/sandbox_helper.py:140-141 | the example with a number as key |
| RejectedPrograms.NanIsRejected | src/lightworker/sandbox_helper.py:140-141 | the example with a NaN |
| RejectedPrograms.AddressIsRejected | src/lightworker/sandbox_helper.py:140-155 | a call that sends the text of `call` itself runs directly, and is rejected by the loop when the first two evaluations have different addresses |
| StartLog.OrderlyMeansNoRepeat | src/lightworker/loop_modes.py:64-74 | a log in which every start is for the position that is due starts no position twice, unless the earlier start was handed back |
| StartLog.StartedAtMostOnce | src/lightworker/loop_modes.py:64-74 | in such a log a position is started at most once among the starts that count |
| CodeCrashes.AnswerExtendsTrace | src/lightworker/loop_modes.py:73-74 | an answer that is recorded is the next entry of the direct run's trace, whatever crashed before |
| CodeCrashes.NextKeepsInvariant | src/lightworker/loop_modes.py:31-81 | every step between two checkpoints, and a crash between any two, keeps the invariant, and changes nothing of a completed execution |
| CodeCrashes.CrashSafety | src/lightworker/loop_modes.py:31-81 | at every point of every run of crashing invocations the history is a prefix of the direct run's, the calls started are exactly those before the current position plus at most the one under way, and a position is started again only after a refusal for want of an approval, never after an answer or an end unheard of; each evaluation may run in another process that agrees |
| CodeOverlap.TwoInvocationsStartTheCall | src/lightworker/loop_modes.py:36-64 | two overlapping invocations of any program that makes a call start its first call twice: a run that does it |
| CodeOverlap.OverlapIsSafeIffNoCall | src/lightworker/loop_modes.py:36-74 | overlapping invocations never start a call again that was not handed back, if and only if the program makes no call |
| CodeCrashes.CompletedIsFinal | src/lightworker/loop_modes.py:40-41 | a completed execution never changes, and no tool is called for it again |
| CodeCrashes.InvocationIsARun | src/lightworker/loop_modes.py:31-81 | an invocation that nothing cuts short is one of these runs, with the same execution and its attempts as starts |
| WorkflowLock.WorkflowTools.ClaimStep | src/lightworker/loop_modes.py:132-140 | the claim transaction: completed, locked, or claimed with the marker set |
| WorkflowLock.WorkflowTools.RunStep | src/lightworker/loop_modes.py:126-164 | one step that is not completed: nothing when an earlier invocation left the marker, wherever it died; otherwise one start; a success completes the step with the tool's value and clears the marker, a raised error keeps it, a failure keeps it unless approval was asked for or the tool only reads |
| WorkflowLock.WorkflowTools.WorkflowRun | src/lightworker/loop_modes.py:105-165 | from any stored workflow, whatever steps and marker it holds, an undisturbed invocation starts each step whose id is not completed once, in order, up to the first that does not succeed, and does nothing when an earlier invocation left the marker; the results are the old ones and for each step that succeeded the value its tool returned, and these are answered |
| WorkflowRuns.NextKeepsInvariant | src/lightworker/loop_modes.py:112-164 | every step of any number of concurrent invocations, each with its own list of steps, keeps the lock invariant and loses nothing that is stored |
| WorkflowRuns.LockSafety | src/lightworker/loop_modes.py:112-164 | in every run whose equal step lists have the same, non-empty ids, the completed steps are a prefix, the result keys are theirs, the marker is empty or the next step, and a step is started again only after it was handed back |
| WorkflowRuns.RepeatNeedsApproval | src/lightworker/loop_modes.py:142-153 | in such runs a step whose tool does not only read is started again only after its earlier start asked for an approval: never after a success, a failure, an exception or a crash |
| WorkflowRuns.ResultsAreHeard | src/lightworker/loop_modes.py:154-164 | in such runs the stored result of every completed step is the value of the one success that was heard for it |
| WorkflowRuns.TurnIsARun | src/lightworker/loop_modes.py:126-164 | an undisturbed turn of an invocation, with any reply, is a part of a run and leaves in the store what `RunStep` leaves |
| WorkflowRuns.NoLostUpdate | src/lightworker/loop_modes.py:154-164 | the completed steps and their results only ever grow |
| WorkflowRuns.EmptyIdDoesNotLock | src/lightworker/loop_modes.py:137-139 | a step with the empty id can be started by two invocations at once: a run that does it |
| WorkflowRuns.DifferentIdsDoNotLock | src/lightworker/loop_modes.py:109-120 | of two lists that are equal under `==` with different ids, the second starts a step again that the first has completed: a run that does it |
| WorkflowRuns.SafeIffIdsAgree | src/lightworker/loop_modes.py:105-164 | no run starts a step twice without its being handed back, if and only if equal step lists have the same ids and no id is empty |
| Jobs.ApplyAdvances | src/lightworker/jobs.py:87-282 | every operation keeps epochs from falling, parents and keys from changing, and terminal jobs exactly as they are |
| Jobs.RunAdvances | src/lightworker/jobs.py:87-282 | the same between any two points of any run, under any clock readings |
| Jobs.ClaimsIncrease | src/lightworker/jobs.py:129-146 | successive successful claims of a job carry strictly increasing epochs |
| Jobs.StaleEpochFails | src/lightworker/jobs.py:148-202 | once a job has reached an epoch, no renew, output or finish under a smaller one succeeds |
| Jobs.FinishOnce | src/lightworker/jobs.py:182-193 | at most one finish of a job succeeds, and the job stays as it left it |
| Jobs.ClaimRevokes | src/lightworker/jobs.py:129-229 | whatever succeeds after a claim or control action of the job runs under a higher epoch than the job had before it |
| Jobs.RunsBuildForests | src/lightworker/jobs.py:87-118 | every reachable store is a forest: parents are older than their children |
| Jobs.CompletedMeansReturnedIffErrorsHaveTexts | src/lightworker/jobs.py:182-193 | over runs: completed jobs are those whose work returned, if and only if no work is left by an exception with an empty text |
| Leases.LeaseDecides | src/lightworker/jobs.py:129-202 | in every run the lease granted last decides: its holder may renew, publish and finish exactly up to its end and under the epoch of the grant, nobody else may, and a claim succeeds exactly when it has ended |
| Leases.LeaseIsExclusive | src/lightworker/jobs.py:133-134 | two claims before the first lease ends both succeed only if a finish, control, recovery, interrupt, renewal or claim of the job came between |
| Leases.OpenJobIsClaimable | src/lightworker/jobs.py:129-146 | a job that was created, paused or interrupted can be claimed at any time until something else is done to it |
| Leases.ClosedJobIsNeverClaimed | src/lightworker/jobs.py:129-229 | a finished or cancelled job is never claimed or resumed again |
| Leases.KeysAreUnique | src/lightworker/jobs.py:87-118 | in every run no two jobs share an idempotency key |
| Leases.ControlMoves | src/lightworker/jobs.py:204-229 | pause pauses and cancel cancels the whole subtree, with new epochs and no lease; resume hands the one job to the registry |
| Leases.FinishRecords | src/lightworker/jobs.py:182-193 | a finish keeps the result and fails the job exactly when there is an error text |
| Leases.OutputKeepsValue | src/lightworker/jobs.py:162-180 | the last output entry is the value itself up to 4096 characters, and otherwise its beginning with the note |
| Leases.RecoveryInterrupts | src/lightworker/jobs.py:231-246 | recovery interrupts exactly the running jobs whose lease is over and the open ones whose owner is gone |
| JobCascade.SiblingsApart | src/lightworker/jobs.py:219-226 | the subtrees of two children share no job |
| JobCascade.ReachesThroughChild | src/lightworker/jobs.py:219-226 | what hangs under a job through non-terminal jobs is what hangs under its non-terminal children |
| JobCascade.NextChild | src/lightworker/jobs.py:219-226 | when the loop comes to a child, nothing of its subtree has been touched, so the recursive call cannot fail |
| JobCascade.JobRegistry.ControlTree | src/lightworker/jobs.py:204-229 | the recursion ends on every forest, moves exactly the non-terminal jobs that hang under the target through non-terminal jobs, raises each of their epochs by one, leaves all others alone, and never stops half-way |
| JobCascade.JobRegistry.Create | src/lightworker/jobs.py:87-118 | a key that is known returns its job; otherwise one pending job is added |
| JobCascade.JobRegistry.Claim | src/lightworker/jobs.py:129-146 | the claim transaction |
| JobCascade.JobRegistry.Renew | src/lightworker/jobs.py:148-160 | the fenced renewal |
| JobCascade.JobRegistry.Output | src/lightworker/jobs.py:162-180 | the fenced output, cut to 4096 characters and a note when it is longer, with its window of 64 |
| JobCascade.JobRegistry.Finish | src/lightworker/jobs.py:182-193 | the fenced finish |
| JobCascade.JobRegistry.Control | src/lightworker/jobs.py:204-229 | pause and cancel cascade, resume claims; refusals change nothing |
| JobCascade.JobRegistry.HandleInterrupt | src/lightworker/jobs.py:274-282 | a driver that lost its lease only marks a job that is still its own, and leaves the epoch |
| JobCascade.JobRegistry.Recover | src/lightworker/jobs.py:231-246 | exactly the expired and orphaned jobs are interrupted |
| JobOutput.OutputRefinesLog | src/lightworker/jobs.py:162-180 | in every run a job holds exactly the last 64 of everything it published, long values cut to 4096 characters and a note, with the positions in the whole log as cursors |
| JobOutput.ReadOutput | src/lightworker/jobs.py:323-327 | the page is the window's entries behind the cursor, and the count of dropped ones |
| JobOutput.PageOfLog | src/lightworker/jobs.py:323-327 | in terms of the unbounded log: everything after the cursor that is still there, and how many entries are not |
| JobOutput.PollCatchesUp | src/lightworker/jobs.py:323-327 | a poll gives the reader every later entry, in the form in which it is kept, once and in order, or the exact number it missed; nothing is missed when at most 64 were published since |
| JobOutput.ReaderFollowsRun | src/lightworker/jobs.py:162-180 | the same for any number of polls at any points of a run |
| Schedules.ScheduleStore.Create | src/lightworker/schedules.py:28-51 | a blank task or an interval under a minute is refused; otherwise one active schedule is added |
| Schedules.ScheduleStore.Control | src/lightworker/schedules.py:53-65 | the action's status under a new epoch, whatever the status was |
| Schedules.ScheduleStore.Due | src/lightworker/schedules.py:67-85 | every due schedule, and no other, is claimed under a new epoch for its next occurrence |
| Schedules.ScheduleStore.Dispatched | src/lightworker/schedules.py:87-108 | only a current claim of an active schedule is settled; otherwise nothing changes |
| Schedules.ScheduleStore.Attempt | src/lightworker/web.py:347-366 | one round of the dispatcher settles its claim at most once, also when settling itself raises |
| Schedules.ClaimsOfTheDue | src/lightworker/schedules.py:67-85 | the claims returned are exactly one for each due schedule, each naming that schedule's next occurrence |
| Schedules.RunKeepsGood | src/lightworker/schedules.py:53-108 | in every run of settle-once dispatchers the recorded runs of a schedule are its occurrences 1, 2, 3, ... without gap or repetition |
| Schedules.SettlementRecordsItsClaim | src/lightworker/schedules.py:87-108 | a successful settlement records the very run its claim named, as the next occurrence |
| Schedules.SupersededNeverSettles | src/lightworker/schedules.py:92-93 | a claim superseded by a later `due` or any control action never settles |
| Schedules.SettledOnce | src/lightworker/schedules.py:87-108 | a claim that has been settled never settles again |
| Schedules.RetriesShareTheRun | src/lightworker/schedules.py:75-81 | two claims of a schedule name the same run exactly when nothing was recorded between them |
| Schedules.OneShotRuns | src/lightworker/schedules.py:53-108 | a schedule without interval runs at most once more than it is resumed |
| Schedules.ResumedOneShotRunsTwice | src/lightworker/schedules.py:53-65 | a run in which a completed one-shot schedule is resumed and runs again |
| Schedules.RecordsAreTrueIffErrorsHaveTexts | src/lightworker/web.py:347-366 | over runs: a run is recorded only if submitting it did not fail, if and only if no submission fails with an empty text |
| Schedules.FailureIsRetriedIffItHasAText | src/lightworker/schedules.py:94-103 | in every reachable state a failed dispatch comes due again under the same run, and nothing is recorded, if and only if its error text is not empty |
| Schedules.SettlingTwiceLosesTheRun | src/lightworker/schedules.py:87-103 | the store alone would let a claim settle twice, and lose the recorded run; hence the dispatcher's discipline |
| ScheduleTimes.NewScheduleComesDue | src/lightworker/schedules.py:28-51 | a new schedule comes due at its given time, or at once |
| ScheduleTimes.ClaimedScheduleIsLeased | src/lightworker/schedules.py:67-85 | a claimed schedule is not claimed again for 60 seconds, and then is, if nothing settles it |
| ScheduleTimes.SettledScheduleComesDue | src/lightworker/schedules.py:94-108 | after a success a recurring schedule comes due one interval later and any other never; after a failure it comes due in 60 seconds |
| ScheduleTimes.SettlementIsRecorded | src/lightworker/schedules.py:94-108 | a failure's text is kept and the run stays pending; a success records the claim's run, clears both, and completes a schedule without interval |
| ScheduleTimes.ClaimsComeInOrder | src/lightworker/schedules.py:67-85 | one call claims the due schedules in the order of creation, each once |
| ScheduleTimes.ControlledScheduleComesDue | src/lightworker/schedules.py:53-65 | paused and deleted schedules do not come due; a resumed one does once its time has come |
| ScheduleTimes.UntouchedScheduleStays | src/lightworker/schedules.py:53-108 | nothing done to other schedules changes when a schedule comes due |
| Sessions.MergeKeepsLog | src/lightworker/sessions.py:104-144 | merging any copy keeps the log as a prefix, sequences 1 to n, and event ids distinct |
| Sessions.MergeKeepsCopy | src/lightworker/sessions.py:118-126 | every event of the copy is in the result, each new one exactly once at its place, and new ones keep their order |
| Sessions.MergeAddsNothingElse | src/lightworker/sessions.py:118-126 | whatever a merge adds is a new event of the copy, at its place |
| Sessions.ResaveIsNoOp | src/lightworker/sessions.py:118-126 | saving what the log already has changes nothing |
| Sessions.LogsOnlyGrow | src/lightworker/sessions.py:104-170 | in every run of saves of arbitrarily old copies and appends, each earlier log is a prefix of each later one, numbered 1 to n, without duplicates |
| Sessions.SameSequenceOnce | src/lightworker/sessions.py:147-170 | of two keyless appends that expect the same sequence at most one succeeds |
| Sessions.AppendedEventStays | src/lightworker/sessions.py:147-170 | an accepted append adds one event with its id, data and key, which stays at its place in every later log |
| Sessions.KeyedAppendOnce | src/lightworker/sessions.py:159-167 | once an append with a key has succeeded, every later one with that key succeeds and leaves the log as it is |
| Sessions.ScanAgreesWithReplay | src/lightworker/sessions.py:193-214 | the backward scan and the forward replay give the same value for every name in every log |
| Sessions.StaleSaveKeepsState | src/lightworker/sessions.py:104-144 | a stale copy without new updates of a name cannot change that name's state |
| Sessions.SessionStore.Save | src/lightworker/sessions.py:104-145 | the merge loop yields the merged log, and the caller's copy becomes that log |
| Sessions.SessionStore.AppendIfSequence | src/lightworker/sessions.py:147-170 | a known key succeeds and a wrong expected sequence or a known id fails, and nothing is appended; otherwise exactly this event, with its key, is added at the end |
| Sessions.SessionStore.StateOf | src/lightworker/sessions.py:193-197 | the backward scan returns the last value of the name, null when there is none |
| Sessions.SessionStore.Replay | src/lightworker/sessions.py:209-214 | the replayed dictionary holds exactly the names that have a state, with their last values |
| Sessions.SessionStore.SetState | src/lightworker/sessions.py:199-203 | a value that equals the current one appends nothing; any other value becomes the state |
| Storage.RunStore.WriteJson | src/lightworker/storage.py:119-122 | the state and then the file are written |
| Storage.RunStore.ReadJson | src/lightworker/storage.py:124-133 | the projected state wins; without one the file is read and adopted |
| Storage.ReadSurvivesFileLossIffNotNull | src/lightworker/storage.py:119-133 | after a write, deleting or corrupting the file leaves every later read unchanged if and only if the value is not null; the read gives the very value if and only if, besides, the state before was not another value that equals it |
| Storage.FileIsAdopted | src/lightworker/storage.py:124-133 | a state that only the file holds is found there and adopted; a missing or unreadable file is reported and changes nothing |
| Storage.WriteTouchesOneName | src/lightworker/storage.py:119-122 | a write leaves its value in the file and every other name as it was |
| Storage.LogRefinesMap | src/lightworker/storage.py:119-133 | over every run of writes, reads, stale saves and file losses, the scan and the replay agree and hold the last value written, up to `==`; the very value if and only if the last write did not meet another value that equals it |
| Storage.FalseAfterZeroIsStuck | src/lightworker/sessions.py:199-203 | a run that writes 0 and then false and keeps 0 |
| MessageQueue.ClaimKeepsValid | src/lightworker/message_queue.py:102-136 | claiming the first pending item keeps one running item in front of every pending one |
| MessageQueue.ReleasedIsNext | src/lightworker/message_queue.py:138-167 | a released running item is the next that can be claimed |
| QueueRefinement.EventRefinesListing | src/lightworker/message_queue.py:477-530 | folding an operation's event does to the listed items what the operation does to the list |
| QueueRefinement.ReorderRefines | src/lightworker/message_queue.py:265-273 | moving the named ids to the end of the fold is: everything not pending stays in order, then the pending items as named |
| QueueRefinement.ReorderKeepsValid | src/lightworker/message_queue.py:265-273 | a reorder keeps the set of ids, their distinctness and the running item in front |
| QueueRefinement.OperationKeepsValid | src/lightworker/message_queue.py:102-273 | under the callers' discipline every operation keeps the queue valid, only an enqueue adds an id, only a reorder changes the order |
| QueueRefinement.RunRefinesQueue | src/lightworker/message_queue.py:477-530 | after every disciplined run, projecting the events gives the list machine's list, at most one item runs, and it precedes every pending one |
| QueueRefinement.NextAt | src/lightworker/message_queue.py:102-136 | an item can be claimed if and only if it is pending, nothing before it is, and nothing runs |
| QueueRefinement.NextStaysNext | src/lightworker/message_queue.py:102-273 | the next item stays the next until it, or the order, is acted on |
| QueueRefinement.NextStaysNextInRun | src/lightworker/message_queue.py:102-273 | the same over any part of any disciplined run |
| QueueRefinement.ReleasedStaysNext | src/lightworker/message_queue.py:138-167 | a released item is the next to be claimed from then on, until it, or the order, is acted on |
| QueueRefinement.ItemsAreTheEnqueued | src/lightworker/message_queue.py:62-100 | at every point of a disciplined run the items are exactly those of the accepted enqueues, each with its message and key |
| QueueRefinement.KeyIsEnqueuedOnce | src/lightworker/message_queue.py:62-100 | in a disciplined run a second enqueue with the same key is not accepted |
| QueueStore.ConversationQueue.Project | src/lightworker/message_queue.py:477-530 | the projection loop equals the fold |
| QueueStore.ConversationQueue.Enqueue | src/lightworker/message_queue.py:62-100 | a known key returns the id of an item that has it; otherwise one pending item is added at the end and its id returned |
| QueueStore.ConversationQueue.Claim | src/lightworker/message_queue.py:102-136 | succeeds exactly for the first pending item when nothing runs |
| QueueStore.ConversationQueue.Release | src/lightworker/message_queue.py:138-167 | no status check; a running item becomes the next one again |
| QueueStore.ConversationQueue.Complete | src/lightworker/message_queue.py:169-195 | no status check; the item ends as completed or failed |
| QueueStore.ConversationQueue.Guide | src/lightworker/message_queue.py:197-238 | only a pending item is handed to the running one |
| QueueStore.ConversationQueue.Cancel | src/lightworker/message_queue.py:252-263 | only a pending item is cancelled |
| QueueStore.ConversationQueue.Reorder | src/lightworker/message_queue.py:265-273 | accepted exactly when the ids are the pending ones, each once |
| QueueStore.ConversationQueue.EnsureMigrated | src/lightworker/message_queue.py:293-388 | any legacy file, also one with repeated or empty ids, is carried into any log once: items already there stay, the others are put in |
| QueueStore.DistinctItemsAreCarried | src/lightworker/message_queue.py:308-382 | into an empty queue, items with ids of their own come one by one in their order, with their keys |
| QueueStore.MigrationFaithfulIffNoneCancelled | src/lightworker/message_queue.py:333-382 | migration keeps the status of every id, as its last legacy item has it, if and only if none of these is cancelled |
| ChildTurns.ChildAgent.SendMessage | src/lightworker/continuation.py:165-184 | the message is queued at the end, and an agent that is not held is activated in the same transaction |
| ChildTurns.ChildAgent.TakeTurn | src/lightworker/continuation.py:190-203 | the first open turn is claimed, or the agent goes idle, in one transaction |
| ChildTurns.ChildAgent.ReportTurn | src/lightworker/continuation.py:256-263 | exactly the reported turn is completed |
| ChildTurns.ChildAgent.HandleInterrupt | src/lightworker/continuation.py:265-274 | only the agent's current job changes its status |
| ChildTurns.ApplyKeepsInvariant | src/lightworker/continuation.py:165-328 | every transaction of any driver keeps the turns in order, and completes or keeps what was completed |
| ChildTurns.TurnsCompleteInOrder | src/lightworker/continuation.py:190-263 | with any number of stale or crashed drivers the turns read completed, at most one claimed, then pending |
| ChildTurns.IdleMeansDone | src/lightworker/continuation.py:168-199 | no lost wake-up: an idle agent has no turn left |
| ChildTurns.CompletedPrefixGrows | src/lightworker/continuation.py:190-263 | the completed prefix never shrinks, and no turn is dropped or moved |
| ChildTurns.SendingActivates | src/lightworker/continuation.py:165-188 | a message is queued last, and starts a job unless the agent is running, paused or interrupted |
| ChildTurns.TakingClaimsTheFirstOpen | src/lightworker/continuation.py:190-203 | the first turn that is not completed is claimed; when there is none the agent goes idle |
| ChildTurns.ResultIsTheReported | src/lightworker/continuation.py:256-263 | in every run a completed turn keeps the result that was last reported for it |
| ContextCompaction.LatestUser | src/lightworker/context.py:92 | the last user message, if there is one |
| ContextCompaction.Group | src/lightworker/context.py:93-102 | the groups, put together, are the droppable messages; each opens with the only message in it that is not a tool result, except that the first may open with one |
| ContextCompaction.CompactToBudget | src/lightworker/context.py:57-115 | what fits is returned as it is; otherwise the request is the mandatory part and the longest suffix of groups that fits, the rest is reported as removed, and the call fails exactly when no cut in front of a group fits |
| ContextCompaction.RequestInOrder | src/lightworker/context.py:108-112 | the request is the system messages, the state, the latest user message, and what is left of the others, in this order |
| ContextCompaction.ToolResultsStay | src/lightworker/context.py:98-115 | a tool result stays directly behind the message it followed, or is dropped together with it |
| ContextCompaction.NothingIsLost | src/lightworker/context.py:91-115 | every message is sent or reported as removed exactly as often as it was there, and only the state message is added |
| ContextCompaction.SystemsAt | src/lightworker/context.py:91 | every system message is kept, in order, in front |
| RagChunks.Strip | src/lightworker/rag.py:385 | what is left is empty or starts and ends with a character that is not blank |
| RagChunks.StripKeeps | src/lightworker/rag.py:385 | no character that is not blank is stripped |
| RagChunks.RFindIsLast | src/lightworker/rag.py:395 | no later place of the pattern lies within the bounds |
| RagChunks.WindowEndsAtLastSeparator | src/lightworker/rag.py:393-397 | an inner window is cut behind the first character of the last separator in its second half, and is full when there is none |
| RagChunks.WindowsOverlap | src/lightworker/rag.py:391-403 | the windows start at the cursor, end at the end of the text, are not empty, at most `size` long, move forward, leave no gap and share at most `overlap` |
| RagChunks.EachWindowEndsAtLastSeparator | src/lightworker/rag.py:391-397 | every window of a text that could be full, at four characters a token, is cut at the last separator, and the last ends with the text |
| RagChunks.WindowsShareTheOverlap | src/lightworker/rag.py:401-403 | a window begins the overlap before the end of the one before, or one character on |
| RagChunks.ChunksComeInOrder | src/lightworker/rag.py:398-400 | the chunks come in the order of their places in the text |
| RagChunks.FewWindows | src/lightworker/rag.py:391-403 | with an overlap of at most half the size, n windows mean (n-1)(size/2+2-overlap) is less than the length |
| RagChunks.NoCharacterIsLost | src/lightworker/rag.py:384-404 | every character that is not blank is in some chunk, at its own place in the text |
| RagChunks.ChunksAreShort | src/lightworker/rag.py:398-400 | every chunk is stripped, not empty, and at most `size` long |
| RagChunks.Chunk | src/lightworker/rag.py:384-404 | the cursor loop terminates and yields exactly the stripped windows that are not empty |
| RagIndex.AddChunksIsGood | src/lightworker/rag.py:163-187 | inserting the chunks of a document gives it exactly these chunks, numbered from 1, with their full-text rows |
| RagIndex.IngestedIsGood | src/lightworker/rag.py:136-187 | the second transaction keeps the tables in agreement with chunking every document's content anew |
| RagIndex.IngestedEmbeds | src/lightworker/rag.py:163-187 | after an ingest chunk k has vector k of this ingest, and no embedding when there is none |
| RagIndex.RemovedIsGood | src/lightworker/rag.py:362-382 | so does a removal |
| RagIndex.TablesAfter | src/lightworker/rag.py:98-195 | in every run of ingests and removals of any scopes the tables agree with the last content of each path, have no orphan rows, full-text ids equal to chunk ids and embeddings only for chunks, and stand for the simple map from scope and path to content |
| RagIndex.OtherDocumentsUntouched | src/lightworker/rag.py:136-187 | every row of every other document, of this or another scope, stays as it was |
| RagIndex.ChunkCount | src/lightworker/rag.py:111-114 | a document has exactly as many chunk rows as its content has chunks |
| RagIndex.UnchangedWhen | src/lightworker/rag.py:106-128 | a document counts as unchanged exactly when its content is, and each of its chunks has an embedding of this model if embeddings are on |
| RagIndex.SkippingIsSafe | src/lightworker/rag.py:106-128 | when the first transaction reports "unchanged", the chunks are those of this content and, if embeddings are on, every one of them has one of this model |
| RagIndex.Database.Check | src/lightworker/rag.py:106-128 | the counts are reported exactly when the content is the stored one and embeddings are complete or off |
| RagIndex.Database.Clear | src/lightworker/rag.py:143-153 | the row-by-row deletion leaves nothing of the document's chunks |
| RagIndex.Database.Insert | src/lightworker/rag.py:163-187 | the insertion loop adds all chunks, with a vector where the provider gave one |
| RagIndex.Database.Replace | src/lightworker/rag.py:136-187 | the second transaction on the tables |
| RagIndex.Database.Remove | src/lightworker/rag.py:362-382 | removal on the tables, and whether there was anything to remove |
| RagIngest.FileIndex.IngestFile | src/lightworker/rag.py:98-195 | after ingesting a file, skipped or not, the index agrees with chunking anew, stands for the map with this content under this path, and the reported count is the number of its chunks; it is skipped exactly when nothing has changed, and otherwise chunk k has the provider's vector k |

## Left out

- Keyword arguments, `for ... else`, several or tuple targets of one assignment, and subscript assignment, which `ptc_eval` accepts; `**` in a dictionary is a primitive operator. Byte strings, complex numbers, `...`, strings with surrogates and integers too long to print are not among the values; json.dumps or the output stream refuses them in a call.
- ReplayLoop.ReplayMeansDirectRun: that operators and built-ins compute the same in every process, of values without `call` and `range`, is taken as a fact about Python; a program that names these two otherwise may still be harmless, which `ReplayLoop.SteadyReplayMeansDirectRun` leaves to its evaluations.
- The text of a program: programs are syntax trees; parsing and the size limit of 32768 characters are not modelled.
- CodeCrashes.CrashSafety: for invocations that follow one another; overlapping ones are the subject of `CodeOverlap.OverlapIsSafeIffNoCall`.
- SHA-256, uuids and redaction: a hash is what it is taken of, a uuid is a fresh id, redaction changes nothing.
- SQL, files, threads and leases in real time: a transaction is one step, clock readings are arbitrary arguments, a heartbeat is one more renewal.
- Job ids are positions of creation; a parent id that is not yet a job is stored as no parent. The run record that `_drive` updates for an interrupted run is not modelled, and the control state it asks for is an argument.
- ChildTurns.TurnsCompleteInOrder: drivers may report whatever they took, whether or not their lease checks would let them; the theorem is therefore about more behaviours than the source has. What a child does within a turn, and the message path of the web layer that bypasses the service, are left out.
- QueueStore.ConversationQueue.EnsureMigrated: legacy items without an id, which get a uuid, are taken to have theirs; what the inbox does with a repeated message id, run ids, timestamps and errors of queue items are not modelled.
- WorkflowLock.WorkflowTools.WorkflowRun: an unknown tool, which stops the invocation before the claim, is not modelled; the comparison with the stored list is in `WorkflowRuns`.
- JobOutput.OutputRefinesLog: an output is its text; the log file of a job, to which every output is appended whole, is not modelled.
- WorkflowRuns.SafeIffIdsAgree: Python's `==` on step lists is any reflexive relation that relates only lists of equal length, so lists with a NaN are left out.
- QueueRefinement.RunRefinesQueue: `release` and `complete` check no status; the theorem is for callers that release only running items and complete only running or pending ones, as the web layer does.
- Storage.LogRefinesMap: stale copies carry no state update of their own, because state updates are only appended inside transactions; a last value of null is the case of `Storage.ReadSurvivesFileLossIffNotNull`; Python's `==` is any relation that keeps None apart.
- Schedules.FailureIsRetriedIffItHasAText: for clock readings that are not negative, since settling sets the lease to time zero.
- ContextCompaction.CompactToBudget: the budget is any predicate on messages and the state message is an argument; spilling large tool results, writing checkpoints and `ContextCompressor` are left out, and equal messages at different positions are told apart by position.
- RagChunks.Chunk: which characters count as blank is a parameter.
- RagIngest.FileIndex.IngestFile: stated for a call that nothing interrupts between its two transactions; `RagIndex.TablesAfter` covers transactions of different calls in any order.
- RagIndex.TablesAfter: a chunk has one full-text row by construction of the table as a map; search, rank fusion, embedding requests, file extraction, the check of suffix and size, and path safety are left out.
- LightAgent's runtime, inbox and goals, approvals, HTTP, Docker, the browser, the command line and the user interface are not part of this model.
