/**
 The turns of one continuable child agent (src/lightworker/continuation.py).

 Any number of drivers work on the same agent: fresh ones, ones whose lease is gone, and ones that
 crash.  A driver may report a turn at any time after it took it; the lease checks of the source only
 make fewer reports possible.
 */
module ChildTurns {
  import opened Prelude

  datatype TurnStatus = Pending | Claimed | Completed

  datatype Message = Message(id: string, status: TurnStatus, result: string)

  datatype AgentStatus = New | Running | Idle | Paused | Cancelled | Interrupted | Failed

  datatype Agent = Agent(status: AgentStatus, messages: seq<Message>, job: nat)

  /** The first turn that is not completed, or the number of turns. */
  function FirstOpen(messages: seq<Message>): (i: nat)
    ensures i <= |messages|
    ensures forall k | 0 <= k < i :: messages[k].status.Completed?
    ensures i < |messages| ==> !messages[i].status.Completed?
  {
    if messages == [] || !messages[0].status.Completed? then 0 else 1 + FirstOpen(messages[1..])
  }

  /** An agent in one of these states is left alone by a new message. */
  predicate Held(status: AgentStatus) {
    status.Running? || status.Paused? || status.Interrupted?
  }

  function Activated(agent: Agent, job: nat): Agent {
    agent.(status := Running, job := job)
  }

  function Sent(agent: Agent, id: string, job: nat): Agent {
    var queued := agent.(messages := agent.messages + [Message(id, Pending, "")]);
    if Held(agent.status) then queued else Activated(queued, job)
  }

  /** The transaction at the head of the drive loop: idle, or the first open turn claimed. */
  function Taken(agent: Agent): Agent {
    var i := FirstOpen(agent.messages);
    if i == |agent.messages| then
      agent.(status := Idle)
    else
      agent.(messages := agent.messages[i := agent.messages[i].(status := Claimed)])
  }

  function Reported(agent: Agent, id: string, result: string): (r: Agent)
    ensures |r.messages| == |agent.messages|
  {
    agent.(messages := seq(|agent.messages|, i requires 0 <= i < |agent.messages| =>
      if agent.messages[i].id == id then Message(id, Completed, result) else agent.messages[i]))
  }

  function AfterInterrupt(agent: Agent, job: nat, jobStatus: AgentStatus): Agent {
    if agent.job == job then
      agent.(status := if jobStatus.Paused? || jobStatus.Cancelled? then jobStatus else Interrupted)
    else
      agent
  }

  predicate DistinctIds(messages: seq<Message>) {
    forall i, j | 0 <= i < j < |messages| :: messages[i].id != messages[j].id
  }

  predicate KnownId(messages: seq<Message>, id: string) {
    exists i | 0 <= i < |messages| :: messages[i].id == id
  }

  class ChildAgent {
    var agent: Agent

    constructor ()
      ensures agent == Agent(New, [], 0)
    {
      agent := Agent(New, [], 0);
    }

    method SendMessage(id: string, job: nat)
      modifies this
      ensures agent == Sent(old(agent), id, job)
    {
      agent := agent.(messages := agent.messages + [Message(id, Pending, "")]);
      if agent.status != Running && agent.status != Paused && agent.status != Interrupted {
        agent := Activated(agent, job);
      }
    }

    method TakeTurn() returns (id: Option<string>)
      modifies this
      ensures agent == Taken(old(agent))
      ensures var i := FirstOpen(old(agent).messages);
              id == if i < |old(agent).messages| then Some(old(agent).messages[i].id) else None
    {
      var i := 0;
      assert agent.messages[0..] == agent.messages;
      while i < |agent.messages| && agent.messages[i].status.Completed?
        invariant i <= |agent.messages| && FirstOpen(agent.messages) == i + FirstOpen(agent.messages[i..])
      {
        assert agent.messages[i..][1..] == agent.messages[i + 1..];
        i := i + 1;
      }
      if i == |agent.messages| {
        agent := agent.(status := Idle);
        return None;
      }
      var message := agent.messages[i];
      agent := agent.(messages := agent.messages[i := message.(status := Claimed)]);
      return Some(message.id);
    }

    method ReportTurn(id: string, result: string)
      requires KnownId(agent.messages, id) && DistinctIds(agent.messages)
      modifies this
      ensures agent == Reported(old(agent), id, result)
    {
      var i := 0;
      while agent.messages[i].id != id
        invariant 0 <= i < |agent.messages|
        invariant forall k | 0 <= k < i :: agent.messages[k].id != id
        decreases |agent.messages| - i
      {
        i := i + 1;
      }
      agent := agent.(messages := agent.messages[i := Message(id, Completed, result)]);
    }

    method HandleInterrupt(job: nat, jobStatus: AgentStatus)
      modifies this
      ensures agent == AfterInterrupt(old(agent), job, jobStatus)
    {
      if agent.job == job {
        agent := agent.(status := if jobStatus == Paused || jobStatus == Cancelled then jobStatus else Interrupted);
      }
    }
  }

  // ---------- Any interleaving of the transactions ----------

  datatype Op =
    | Send(id: string, job: nat)
    | Take
    | Report(id: string, result: string)
    | Interrupt(job: nat, jobStatus: AgentStatus)
    | Fail
    | Pause
    | Resume(job: nat)

  /** The agent, and the ids some driver has ever taken. */
  datatype State = State(agent: Agent, taken: set<string>)

  const INITIAL := State(Agent(New, [], 0), {})

  /** Ids of messages are drawn fresh, and a driver only reports a turn it took. */
  predicate Possible(s: State, op: Op) {
    match op
    case Send(id, _) => !KnownId(s.agent.messages, id)
    case Report(id, _) => id in s.taken
    case _ => true
  }

  function Apply(s: State, op: Op): State {
    match op
    case Send(id, job) => s.(agent := Sent(s.agent, id, job))
    case Take =>
      var i := FirstOpen(s.agent.messages);
      State(Taken(s.agent), if i < |s.agent.messages| then s.taken + {s.agent.messages[i].id} else s.taken)
    case Report(id, result) => s.(agent := Reported(s.agent, id, result))
    case Interrupt(job, jobStatus) => s.(agent := AfterInterrupt(s.agent, job, jobStatus))
    case Fail => s.(agent := s.agent.(status := Failed))
    case Pause => s.(agent := s.agent.(status := Paused))
    case Resume(job) => s.(agent := Activated(s.agent, job))
  }

  function After(ops: seq<Op>): State {
    if ops == [] then INITIAL else Apply(After(ops[..|ops| - 1]), ops[|ops| - 1])
  }

  ghost predicate IsRun(ops: seq<Op>) {
    forall i | 0 <= i < |ops| :: Possible(After(ops[..i]), ops[i])
  }

  /** completed*, at most one claimed, then pending* */
  ghost predicate InOrder(messages: seq<Message>) {
    var c := FirstOpen(messages);
    forall i | c < i < |messages| :: messages[i].status.Pending?
  }

  /** The turn is completed, or it is the claimed one. */
  ghost predicate Open(messages: seq<Message>, id: string, i: nat) {
    var c := FirstOpen(messages);
    i < |messages| && messages[i].id == id && (i < c || (i == c && messages[i].status.Claimed?))
  }

  ghost predicate Invariant(s: State) {
    var messages := s.agent.messages;
    && DistinctIds(messages) && InOrder(messages)
    && (forall id | id in s.taken :: exists i :: Open(messages, id, i))
    && (s.agent.status.Idle? ==> FirstOpen(messages) == |messages|)
  }

  /** Nothing that was completed becomes open again, and turns stay where they are. */
  ghost predicate Extends(before: seq<Message>, after: seq<Message>) {
    && |before| <= |after|
    && (forall i | 0 <= i < |before| :: after[i].id == before[i].id)
    && FirstOpen(before) <= FirstOpen(after)
  }

  lemma FirstOpenIs(messages: seq<Message>, c: nat)
    requires c <= |messages| && forall k | 0 <= k < c :: messages[k].status.Completed?
    requires c < |messages| ==> !messages[c].status.Completed?
    ensures FirstOpen(messages) == c
  {
  }

  lemma SendKeepsInvariant(s: State, id: string, job: nat)
    requires Invariant(s) && !KnownId(s.agent.messages, id)
    ensures Invariant(Apply(s, Send(id, job)))
    ensures FirstOpen(Apply(s, Send(id, job)).agent.messages) == FirstOpen(s.agent.messages)
  {
    var messages, after := s.agent.messages, Apply(s, Send(id, job)).agent.messages;
    FirstOpenIs(after, FirstOpen(messages));
    forall x | x in s.taken ensures exists i :: Open(after, x, i) {
      var i :| Open(messages, x, i);
      assert Open(after, x, i);
    }
  }

  lemma TakeKeepsInvariant(s: State)
    requires Invariant(s)
    ensures Invariant(Apply(s, Take))
    ensures FirstOpen(Apply(s, Take).agent.messages) == FirstOpen(s.agent.messages)
  {
    var messages, after, c := s.agent.messages, Apply(s, Take).agent.messages, FirstOpen(s.agent.messages);
    FirstOpenIs(after, c);
    forall x | x in Apply(s, Take).taken ensures exists i :: Open(after, x, i) {
      if x in s.taken {
        var i :| Open(messages, x, i);
        assert Open(after, x, i);
      } else {
        assert Open(after, x, c);
      }
    }
  }

  lemma ReportKeepsInvariant(s: State, id: string, result: string)
    requires Invariant(s) && id in s.taken
    ensures Invariant(Apply(s, Report(id, result)))
    ensures FirstOpen(s.agent.messages) <= FirstOpen(Apply(s, Report(id, result)).agent.messages)
  {
    var messages, after := s.agent.messages, Apply(s, Report(id, result)).agent.messages;
    var c := FirstOpen(messages);
    var k :| Open(messages, id, k);
    FirstOpenIs(after, if k == c then c + 1 else c);
    forall x | x in s.taken ensures exists i :: Open(after, x, i) {
      var i :| Open(messages, x, i);
      assert Open(after, x, i);
    }
  }

  lemma ApplyKeepsInvariant(s: State, op: Op)
    requires Invariant(s) && Possible(s, op)
    ensures Invariant(Apply(s, op))
    ensures Extends(s.agent.messages, Apply(s, op).agent.messages)
  {
    match op
    case Send(id, job) => SendKeepsInvariant(s, id, job);
    case Take => TakeKeepsInvariant(s);
    case Report(id, result) => ReportKeepsInvariant(s, id, result);
    case _ =>
  }

  lemma {:induction false} RunKeepsInvariant(ops: seq<Op>)
    requires IsRun(ops)
    ensures Invariant(After(ops))
  {
    if ops != [] {
      var init := ops[..|ops| - 1];
      assert forall i | 0 <= i < |init| :: init[..i] == ops[..i];
      RunKeepsInvariant(init);
      assert Possible(After(ops[..|ops| - 1]), ops[|ops| - 1]);
      ApplyKeepsInvariant(After(init), ops[|ops| - 1]);
    }
  }

  /** In every reachable state the turns read completed*, at most one claimed, pending*. */
  lemma TurnsCompleteInOrder(ops: seq<Op>, i: nat, j: nat)
    requires IsRun(ops) && i < j < |After(ops).agent.messages|
    ensures var m := After(ops).agent.messages;
            && (m[j].status.Completed? ==> m[i].status.Completed?)
            && (m[j].status.Claimed? ==> m[i].status.Completed?)
  {
    RunKeepsInvariant(ops);
  }

  /** A message is queued behind the others; it starts a job unless the agent is running, paused or interrupted. */
  lemma SendingActivates(agent: Agent, id: string, job: nat)
    ensures var after := Sent(agent, id, job);
            && after.messages == agent.messages + [Message(id, Pending, "")]
            && if agent.status.Running? || agent.status.Paused? || agent.status.Interrupted? then
                 after.status == agent.status && after.job == agent.job
               else
                 after.status == Running && after.job == job
  {
  }

  /** A driver claims the first turn that is not completed; when there is none the agent goes idle. */
  lemma TakingClaimsTheFirstOpen(agent: Agent, i: nat)
    requires i <= |agent.messages| && forall k | 0 <= k < i :: agent.messages[k].status.Completed?
    requires i < |agent.messages| ==> !agent.messages[i].status.Completed?
    ensures Taken(agent)
         == if i == |agent.messages| then
              agent.(status := Idle)
            else
              agent.(messages := agent.messages[i := agent.messages[i].(status := Claimed)])
  {
    FirstOpenIs(agent.messages, i);
  }

  /** A driver that lost its lease marks the agent only while the job is its own. */
  lemma InterruptMarks(agent: Agent, job: nat, jobStatus: AgentStatus)
    ensures var after := AfterInterrupt(agent, job, jobStatus);
            && after.messages == agent.messages && after.job == agent.job
            && after.status == if agent.job != job then agent.status
                               else if jobStatus == Paused then Paused
                               else if jobStatus == Cancelled then Cancelled
                               else Interrupted
  {
  }

  /** Operation `k` is the last report of this turn, with this result. */
  predicate ReportedLast(ops: seq<Op>, k: nat, id: string, result: string) {
    && k < |ops| && ops[k] == Report(id, result)
    && forall l | k < l < |ops| && ops[l].Report? :: ops[l].id != id
  }

  /** Only a report completes a turn or changes a result. */
  lemma ApplyKeepsResult(s: State, op: Op, i: nat)
    requires i < |Apply(s, op).agent.messages| && Apply(s, op).agent.messages[i].status.Completed?
    requires !(op.Report? && op.id == Apply(s, op).agent.messages[i].id)
    ensures i < |s.agent.messages| && Apply(s, op).agent.messages[i] == s.agent.messages[i]
  {
    match op
    case Send(_, _) =>
    case Take =>
    case Report(_, _) =>
    case _ =>
  }

  /** In every run a completed turn keeps the result that was reported last for it. */
  lemma {:induction false} ResultIsTheReported(ops: seq<Op>, i: nat) returns (k: nat)
    requires i < |After(ops).agent.messages| && After(ops).agent.messages[i].status.Completed?
    ensures ReportedLast(ops, k, After(ops).agent.messages[i].id, After(ops).agent.messages[i].result)
  {
    var last := |ops| - 1;
    var init, message := ops[..last], After(ops).agent.messages[i];
    if ops[last].Report? && ops[last].id == message.id {
      k := last;
    } else {
      ApplyKeepsResult(After(init), ops[last], i);
      k := ResultIsTheReported(init, i);
    }
  }

  /** No lost wake-up: an idle agent has no turn left to do. */
  lemma IdleMeansDone(ops: seq<Op>, i: nat)
    requires IsRun(ops) && After(ops).agent.status.Idle? && i < |After(ops).agent.messages|
    ensures After(ops).agent.messages[i].status.Completed?
  {
    RunKeepsInvariant(ops);
  }

  /** The completed prefix never shrinks, and no turn is dropped or moved. */
  lemma {:induction false} CompletedPrefixGrows(ops: seq<Op>, i: nat)
    requires IsRun(ops) && i <= |ops|
    ensures Extends(After(ops[..i]).agent.messages, After(ops).agent.messages)
    decreases |ops|
  {
    if i == |ops| {
      assert ops[..i] == ops;
    } else {
      var init := ops[..|ops| - 1];
      assert forall k | 0 <= k <= |init| :: init[..k] == ops[..k];
      CompletedPrefixGrows(init, i);
      RunKeepsInvariant(init);
      assert Possible(After(ops[..|ops| - 1]), ops[|ops| - 1]);
      ApplyKeepsInvariant(After(init), ops[|ops| - 1]);
    }
  }
}
