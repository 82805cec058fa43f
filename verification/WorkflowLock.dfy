/**
 `WorkflowTools.workflow_run` (src/lightworker/loop_modes.py): resumable steps whose `running` marker
 serves as a lock between concurrent invocations and crashes.

 Every transaction on workflow-state.json is one atomic step; between two transactions any other
 invocation may run, and any invocation may die.
 */
module WorkflowLock {
  import opened Prelude
  import opened StartLog

  /** One workflow of workflow-state.json; results are JSON texts. */
  datatype Workflow = Workflow(completed: seq<string>, results: map<string, string>, running: Option<string>)

  const EMPTY := Workflow([], map[], None)

  datatype Step = Step(id: string, readOnly: bool)

  /** The steps started so far, with the value that each successful tool returned. */
  type Marks = seq<Mark<string>>

  /** A tool's reply: `Failure` is a result whose "ok" is False. */
  datatype Reply = Success(value: string) | Failure | ApprovalRequired | Raised

  /** The tools answer as any function of what has been started before. */
  type Tools = (Marks, Step) -> Reply

  /** What the caller is told; an error of the source is one of the first three. */
  datatype Response = Invalid | Unfinished | ToolRaised | StepFailed(id: string) | Results(results: map<string, string>)

  /** Accepted by the checks on entry. */
  predicate Acceptable(steps: seq<Step>) {
    && 1 <= |steps| <= 24
    && forall i, j | 0 <= i < j < |steps| :: steps[i].id != steps[j].id
  }

  function Ids(steps: seq<Step>, n: nat): (ids: seq<string>)
    requires n <= |steps|
    ensures |ids| == n && forall i | 0 <= i < n :: ids[i] == steps[i].id
  {
    seq(n, i requires 0 <= i < n => steps[i].id)
  }

  /** Python's truth of `workflow.get("running")`: an empty step id does not lock. */
  predicate Locked(wf: Workflow) {
    wf.running.Some? && wf.running.value != ""
  }

  datatype Claim = AlreadyCompleted | Refused | Claimed

  function ClaimOutcome(wf: Workflow, id: string): Claim {
    if id in wf.completed then AlreadyCompleted else if Locked(wf) then Refused else Claimed
  }

  function Claiming(wf: Workflow, id: string): Workflow {
    if ClaimOutcome(wf, id).Claimed? then wf.(running := Some(id)) else wf
  }

  /** Recorded in the invocation's own copy, then published as a whole. */
  function Completing(wf: Workflow, id: string, value: string): Workflow {
    Workflow(wf.completed + [id], wf.results[id := value], None)
  }

  /** Whether a reply that is not a success hands the step back. */
  predicate Releases(step: Step, reply: Reply) {
    reply.ApprovalRequired? || (reply.Failure? && step.readOnly)
  }

  function OutcomeOf(step: Step, reply: Reply): (outcome: Outcome<string>)
    ensures outcome.Succeeded? <==> reply.Success?
    ensures reply.Success? ==> outcome.value == reply.value
    ensures Mark(0, outcome).Cleared() <==> Releases(step, reply)
  {
    match reply
    case Success(value) => Succeeded(value)
    case Failure => if step.readOnly then FailedReading else Failed
    case ApprovalRequired => NeedsApproval
    case Raised => Unheard
  }

  /** The positions among the first `n` whose step is not completed. */
  function Todo(steps: seq<Step>, completed: seq<string>, n: nat): (todo: seq<nat>)
    requires n <= |steps|
    ensures forall t | 0 <= t < |todo| :: todo[t] < n && steps[todo[t]].id !in completed
  {
    if n == 0 then []
    else
      var before := Todo(steps, completed, n - 1);
      if steps[n - 1].id in completed then before else before + [n - 1]
  }

  function IdsAt(steps: seq<Step>, positions: seq<nat>): (ids: seq<string>)
    requires forall t | 0 <= t < |positions| :: positions[t] < |steps|
    ensures |ids| == |positions| && forall t | 0 <= t < |ids| :: ids[t] == steps[positions[t]].id
  {
    seq(|positions|, t requires 0 <= t < |positions| => steps[positions[t]].id)
  }

  lemma {:induction false} TodoGrows(steps: seq<Step>, completed: seq<string>, n: nat, n': nat)
    requires n <= n' <= |steps|
    ensures Todo(steps, completed, n) <= Todo(steps, completed, n')
    decreases n'
  {
    if n < n' {
      TodoGrows(steps, completed, n, n' - 1);
    }
  }

  /** What this invocation has completed does not change whether a later step is completed. */
  lemma LaterStepIsUntouched(steps: seq<Step>, completed: seq<string>, n: nat)
    requires Acceptable(steps) && n < |steps|
    ensures steps[n].id in completed + IdsAt(steps, Todo(steps, completed, n)) <==> steps[n].id in completed
  {
    var ids := IdsAt(steps, Todo(steps, completed, n));
    assert steps[n].id !in ids;
  }

  lemma TodoOneMore(steps: seq<Step>, completed: seq<string>, n: nat)
    requires n < |steps| && steps[n].id !in completed
    ensures Todo(steps, completed, n + 1) == Todo(steps, completed, n) + [n]
    ensures IdsAt(steps, Todo(steps, completed, n + 1)) == IdsAt(steps, Todo(steps, completed, n)) + [steps[n].id]
  {
  }

  /** How far an invocation is that found `wf0` and `before` and has come to position `i`. */
  ghost predicate Progressed(steps: seq<Step>, wf0: Workflow, before: Marks, i: nat, wf: Workflow, log: Marks)
    requires i <= |steps|
  {
    var todo := Todo(steps, wf0.completed, i);
    && wf.completed == wf0.completed + IdsAt(steps, todo)
    && (if todo == [] then wf == wf0 else !Locked(wf0) && !Locked(wf))
    && before <= log && |log| - |before| == |todo|
    && forall t | |before| <= t < |log| :: log[t].position == todo[t - |before|]
  }

  /** What an invocation has done in the end. */
  ghost predicate RunsTheRest(steps: seq<Step>, wf0: Workflow, before: Marks, wf: Workflow, log: Marks,
                              finished: bool)
  {
    var todo, k := Todo(steps, wf0.completed, |steps|), |wf.completed| - |wf0.completed|;
    && 0 <= k <= |todo| && wf.completed == wf0.completed + IdsAt(steps, todo[..k])
    && (finished <==> k == |todo|)
    && if todo != [] && Locked(wf0) then
         wf == wf0 && log == before
       else
         && before <= log
         && |log| - |before| == k + (if finished then 0 else 1)
         && forall t | |before| <= t < |log| :: log[t].position == todo[t - |before|]
  }

  lemma StepSucceeds(steps: seq<Step>, wf0: Workflow, before: Marks, i: nat, wf: Workflow, log: Marks,
                     value: string, mark: Mark<string>)
    requires i < |steps| && Acceptable(steps) && Progressed(steps, wf0, before, i, wf, log)
    requires steps[i].id !in wf.completed && !Locked(wf) && mark.position == i
    ensures Progressed(steps, wf0, before, i + 1, Completing(wf, steps[i].id, value), log + [mark])
  {
    LaterStepIsUntouched(steps, wf0.completed, i);
    TodoOneMore(steps, wf0.completed, i);
  }

  lemma StepIsSkipped(steps: seq<Step>, wf0: Workflow, before: Marks, i: nat, wf: Workflow, log: Marks)
    requires i < |steps| && Acceptable(steps) && Progressed(steps, wf0, before, i, wf, log)
    requires steps[i].id in wf.completed
    ensures Progressed(steps, wf0, before, i + 1, wf, log)
  {
    LaterStepIsUntouched(steps, wf0.completed, i);
  }

  /** The invocation stops at a step: the marker is set, or the tool was started without success. */
  lemma StepStops(steps: seq<Step>, wf0: Workflow, before: Marks, i: nat, wf: Workflow, log: Marks,
                  wf': Workflow, log': Marks)
    requires i < |steps| && Acceptable(steps) && Progressed(steps, wf0, before, i, wf, log)
    requires steps[i].id !in wf.completed
    requires if Locked(wf) then wf' == wf && log' == log
             else wf'.completed == wf.completed && |log'| == |log| + 1 && log <= log' && log'[|log|].position == i
    ensures RunsTheRest(steps, wf0, before, wf', log', false)
  {
    LaterStepIsUntouched(steps, wf0.completed, i);
    TodoOneMore(steps, wf0.completed, i);
    var todo, all := Todo(steps, wf0.completed, i), Todo(steps, wf0.completed, |steps|);
    TodoGrows(steps, wf0.completed, i + 1, |steps|);
    assert all[..|todo|] == todo && all[|todo|] == i;
  }

  lemma AllStepsDone(steps: seq<Step>, wf0: Workflow, before: Marks, wf: Workflow, log: Marks)
    requires Progressed(steps, wf0, before, |steps|, wf, log)
    ensures RunsTheRest(steps, wf0, before, wf, log, true)
  {
    var all := Todo(steps, wf0.completed, |steps|);
    assert all[..|all|] == all;
  }

  /** When the first `m` steps were completed, an invocation skips these and no other. */
  lemma SkipsThePrefix(steps: seq<Step>, wf0: Workflow, before: Marks, m: nat, i: nat, wf: Workflow, log: Marks)
    requires i < |steps| && m <= |steps| && Acceptable(steps) && Progressed(steps, wf0, before, i, wf, log)
    requires wf0.completed == Ids(steps, m)
    ensures steps[i].id in wf.completed <==> i < m
  {
    LaterStepIsUntouched(steps, wf0.completed, i);
    if i < m {
      assert wf0.completed[i] == steps[i].id;
    }
  }

  /** The log shows a success of the step with this id, from entry `n` on. */
  ghost predicate SucceededIn(steps: seq<Step>, log: Marks, n: nat, id: string) {
    exists t | n <= t < |log| ::
      log[t].outcome.Succeeded? && log[t].position < |steps| && steps[log[t].position].id == id
  }

  /** The results are those of before, and for each step that has succeeded since the value its tool returned. */
  ghost predicate ResultsHeard(steps: seq<Step>, wf0: Workflow, before: Marks, wf: Workflow,
                               log: Marks)
  {
    && (forall id :: id in wf.results <==> id in wf0.results || SucceededIn(steps, log, |before|, id))
    && (forall id | id in wf0.results && !SucceededIn(steps, log, |before|, id) ::
          id in wf.results && wf.results[id] == wf0.results[id])
    && (forall t | |before| <= t < |log| && log[t].outcome.Succeeded? ::
          log[t].position < |steps| && steps[log[t].position].id in wf.results
          && wf.results[steps[log[t].position].id] == log[t].outcome.value)
  }

  /** Every start since then has the outcome that its tool's reply means. */
  ghost predicate AsAnswered(steps: seq<Step>, tools: Tools, before: Marks, log: Marks) {
    forall t | |before| <= t < |log| ::
      log[t].position < |steps|
      && log[t].outcome == OutcomeOf(steps[log[t].position], tools(log[..t], steps[log[t].position]))
  }

  lemma SuccessIsAResult(steps: seq<Step>, wf0: Workflow, before: Marks, i: nat, wf: Workflow,
                         log: Marks, value: string)
    requires i < |steps| && Acceptable(steps) && Progressed(steps, wf0, before, i, wf, log)
    requires ResultsHeard(steps, wf0, before, wf, log)
    ensures var results := wf.results[steps[i].id := value];
            ResultsHeard(steps, wf0, before, Workflow(wf.completed, results, None), log + [Mark(i, Succeeded(value))])
  {
    var id, log' := steps[i].id, log + [Mark(i, Succeeded(value))];
    forall x ensures SucceededIn(steps, log', |before|, x) <==> SucceededIn(steps, log, |before|, x) || x == id {
      if SucceededIn(steps, log, |before|, x) {
        var t :| |before| <= t < |log| && log[t].outcome.Succeeded? && log[t].position < |steps|
                 && steps[log[t].position].id == x;
        assert log'[t] == log[t];
      }
      assert log'[|log|] == Mark(i, Succeeded(value));
    }
    forall t | |before| <= t < |log| ensures log[t].position != i {
      assert log[t].position == Todo(steps, wf0.completed, i)[t - |before|];
    }
  }

  /** A start without success changes no result. */
  lemma FailureIsNoResult(steps: seq<Step>, wf0: Workflow, before: Marks, wf: Workflow,
                          log: Marks, mark: Mark<string>)
    requires |before| <= |log| && ResultsHeard(steps, wf0, before, wf, log) && !mark.outcome.Succeeded?
    ensures ResultsHeard(steps, wf0, before, wf, log + [mark])
  {
    var log' := log + [mark];
    forall x ensures SucceededIn(steps, log', |before|, x) <==> SucceededIn(steps, log, |before|, x) {
      if SucceededIn(steps, log, |before|, x) {
        var t :| |before| <= t < |log| && log[t].outcome.Succeeded? && log[t].position < |steps|
                 && steps[log[t].position].id == x;
        assert log'[t] == log[t];
      }
    }
  }

  lemma StopIsNoResult(steps: seq<Step>, wf0: Workflow, before: Marks, wf: Workflow,
                       log: Marks, wf': Workflow, log': Marks)
    requires |before| <= |log| && ResultsHeard(steps, wf0, before, wf, log) && wf'.results == wf.results
    requires log' == log || (|log'| == |log| + 1 && log' == log + [log'[|log|]] && !log'[|log|].outcome.Succeeded?)
    ensures ResultsHeard(steps, wf0, before, wf', log')
  {
    if log' != log {
      FailureIsNoResult(steps, wf0, before, wf, log, log'[|log|]);
    }
  }

  lemma OneMoreAnswer(steps: seq<Step>, tools: Tools, before: Marks, log: Marks, i: nat)
    requires i < |steps| && AsAnswered(steps, tools, before, log)
    ensures AsAnswered(steps, tools, before, log + [Mark(i, OutcomeOf(steps[i], tools(log, steps[i])))])
  {
    var log' := log + [Mark(i, OutcomeOf(steps[i], tools(log, steps[i])))];
    forall t | |before| <= t < |log'|
      ensures log'[t].position < |steps|
      ensures log'[t].outcome == OutcomeOf(steps[log'[t].position], tools(log'[..t], steps[log'[t].position]))
    {
      assert log'[..t] == if t < |log| then log[..t] else log;
    }
  }

  /** All that is known of an invocation that has come to position `i`. */
  ghost predicate Going(steps: seq<Step>, tools: Tools, wf0: Workflow, before: Marks, i: nat, wf: Workflow,
                        log: Marks)
    requires i <= |steps|
  {
    && Progressed(steps, wf0, before, i, wf, log)
    && ResultsHeard(steps, wf0, before, wf, log)
    && AsAnswered(steps, tools, before, log)
  }

  lemma TurnSucceeds(steps: seq<Step>, tools: Tools, wf0: Workflow, before: Marks, i: nat, wf: Workflow,
                     log: Marks, value: string)
    requires i < |steps| && Acceptable(steps) && Going(steps, tools, wf0, before, i, wf, log)
    requires steps[i].id !in wf.completed && !Locked(wf) && tools(log, steps[i]) == Success(value)
    ensures Going(steps, tools, wf0, before, i + 1, Completing(wf, steps[i].id, value),
                  log + [Mark(i, Succeeded(value))])
  {
    StepSucceeds(steps, wf0, before, i, wf, log, value, Mark(i, Succeeded(value)));
    SuccessIsAResult(steps, wf0, before, i, wf, log, value);
    OneMoreAnswer(steps, tools, before, log, i);
  }

  lemma TurnStops(steps: seq<Step>, tools: Tools, wf0: Workflow, before: Marks, i: nat, wf: Workflow,
                  log: Marks, wf': Workflow, log': Marks)
    requires i < |steps| && Acceptable(steps) && Going(steps, tools, wf0, before, i, wf, log)
    requires steps[i].id !in wf.completed && wf'.completed == wf.completed && wf'.results == wf.results
    requires if Locked(wf) then wf' == wf && log' == log
             else !tools(log, steps[i]).Success? && log' == log + [Mark(i, OutcomeOf(steps[i], tools(log, steps[i])))]
    ensures RunsTheRest(steps, wf0, before, wf', log', false)
    ensures ResultsHeard(steps, wf0, before, wf', log') && AsAnswered(steps, tools, before, log')
  {
    StepStops(steps, wf0, before, i, wf, log, wf', log');
    StopIsNoResult(steps, wf0, before, wf, log, wf', log');
    OneMoreAnswer(steps, tools, before, log, i);
  }

  /** The transactions as methods of the store, and one whole invocation. */
  class WorkflowTools {
    var state: Workflow
    var log: Marks

    constructor ()
      ensures state == EMPTY && log == []
    {
      state := EMPTY;
      log := [];
    }

    method ClaimStep(id: string) returns (outcome: Claim, local: Workflow)
      modifies this`state
      ensures outcome == ClaimOutcome(old(state), id) && state == Claiming(old(state), id) && local == state
    {
      local := state;
      if id in local.completed {
        return AlreadyCompleted, local;
      }
      if Locked(local) {
        return Refused, local;
      }
      local := local.(running := Some(id));
      state := local;
      return Claimed, local;
    }

    method ReleaseStep(step: Step, reply: Reply)
      modifies this`state
      ensures state == if Releases(step, reply) then old(state).(running := None) else old(state)
    {
      if reply.ApprovalRequired? || (reply.Failure? && step.readOnly) {
        state := state.(running := None);
      }
    }

    method Publish(local: Workflow)
      modifies this`state
      ensures state == local
    {
      state := local;
    }

    /** The steps before position `i` have been started, each once, and nothing else counts. */
    ghost predicate AtStep(i: nat)
      reads this
    {
      Orderly(log) && Started(log) == UpTo(i)
    }

    /** One turn of the loop, for a step that is not completed; `stop` is the answer if the invocation stops there. */
    method RunStep(steps: seq<Step>, i: nat, tools: Tools) returns (stop: Option<Response>)
      requires i < |steps| && steps[i].id !in state.completed
      modifies this
      ensures Locked(old(state)) ==> stop == Some(Unfinished) && state == old(state) && log == old(log)
      ensures !Locked(old(state)) ==>
                var reply, id := tools(old(log), steps[i]), steps[i].id;
                && log == old(log) + [Mark(i, OutcomeOf(steps[i], reply))]
                && match reply
                   case Success(value) =>
                     && stop.None? && state.completed == old(state.completed) + [id] && state.running.None?
                     && state.results == old(state.results)[id := value]
                   case Raised =>
                     && stop == Some(ToolRaised) && state.running == Some(id)
                     && state.completed == old(state.completed) && state.results == old(state.results)
                   case _ =>
                     && stop == Some(StepFailed(id))
                     && state.running == (if reply.ApprovalRequired? || steps[i].readOnly then None else Some(id))
                     && state.completed == old(state.completed) && state.results == old(state.results)
      ensures old(AtStep(i)) ==> Orderly(log) && (stop.None? ==> AtStep(i + 1))
    {
      ghost var atStep := AtStep(i);
      var outcome, local := ClaimStep(steps[i].id);
      if !outcome.Claimed? {
        return Some(Unfinished);
      }
      var reply := tools(log, steps[i]);
      if atStep {
        StartKeepsOrder(log, Mark(i, OutcomeOf(steps[i], reply)));
      }
      log := log + [Mark(i, OutcomeOf(steps[i], reply))];
      match reply {
        case Success(value) =>
          Publish(Completing(local, steps[i].id, value));
          return None;
        case Raised =>
          return Some(ToolRaised);
        case _ =>
          ReleaseStep(steps[i], reply);
          return Some(StepFailed(steps[i].id));
      }
    }

    /** The same turn within an invocation that began with `wf0` and `before`. */
    method Turn(steps: seq<Step>, i: nat, tools: Tools, ghost wf0: Workflow, ghost before: Marks)
      returns (stop: Option<Response>)
      requires i < |steps| && Acceptable(steps) && steps[i].id !in state.completed
      requires Going(steps, tools, wf0, before, i, state, log)
      modifies this
      ensures stop.None? ==> Going(steps, tools, wf0, before, i + 1, state, log)
      ensures stop.Some? ==> RunsTheRest(steps, wf0, before, state, log, false) && !stop.value.Results?
      ensures stop.Some? ==> ResultsHeard(steps, wf0, before, state, log) && AsAnswered(steps, tools, before, log)
      ensures stop.Some? ==> !stop.value.Invalid?
      ensures old(AtStep(i)) ==> Orderly(log) && (stop.None? ==> AtStep(i + 1))
    {
      ghost var wf, marks := state, log;
      stop := RunStep(steps, i, tools);
      if stop.Some? {
        TurnStops(steps, tools, wf0, before, i, wf, marks, state, log);
      } else {
        TurnSucceeds(steps, tools, wf0, before, i, wf, marks, tools(marks, steps[i]).value);
      }
    }

    /**
     One invocation that nobody interferes with starts the steps that are not completed, each once and in order, and
     stops at the first that does not succeed.  When an earlier invocation has left the marker behind, wherever it
     died, nothing is done.  Each step that succeeds leaves the value its tool returned, and nothing else does.
     */
    method WorkflowRun(steps: seq<Step>, tools: Tools) returns (response: Response)
      modifies this
      ensures response.Invalid?
         <==> !(1 <= |steps| <= 24 && forall i, j | 0 <= i < j < |steps| :: steps[i].id != steps[j].id)
      ensures response.Invalid? ==> state == old(state) && log == old(log)
      ensures !response.Invalid? ==> RunsTheRest(steps, old(state), old(log), state, log, response.Results?)
      ensures !response.Invalid? ==> ResultsHeard(steps, old(state), old(log), state, log)
      ensures AsAnswered(steps, tools, old(log), log)
      ensures response.Results? ==> response.results == state.results
      ensures !response.Invalid? && old(InOrder(steps)) ==> Orderly(log) && (response.Results? ==> AtStep(|steps|))
    {
      if !Acceptable(steps) {
        return Invalid;
      }
      ghost var wf0, before, m, inOrder := state, log, |state.completed|, InOrder(steps);
      for i := 0 to |steps|
        invariant Going(steps, tools, wf0, before, i, state, log)
        invariant inOrder ==> AtStep(if i < m then m else i)
      {
        if inOrder {
          SkipsThePrefix(steps, wf0, before, m, i, state, log);
        }
        if steps[i].id in state.completed {
          StepIsSkipped(steps, wf0, before, i, state, log);
        } else {
          var stop := Turn(steps, i, tools, wf0, before);
          if stop.Some? {
            return stop.value;
          }
        }
      }
      AllStepsDone(steps, wf0, before, state, log);
      return Results(state.results);
    }

    /** The completed steps are the first ones, and exactly these have been started. */
    ghost predicate InOrder(steps: seq<Step>)
      reads this
    {
      var m := |state.completed|;
      m <= |steps| && state.completed == Ids(steps, m) && AtStep(m)
    }
  }
}
