/**
 `CodeModeTools.run_code` (src/lightworker/loop_modes.py): the loop that re-runs a program from the
 start with a growing, persisted history until it needs no further call.
 */
module CodeMode {
  import opened Prelude
  import opened CodeLanguage
  import opened QuietPrograms
  import opened ReplayTheorem
  import opened StartLog

  datatype Evaluation = Request(name: string, arguments: Value) | Result(value: Value) | Error(failure: Failure)

  /** `response.get("result")`, or the suspended request, or the reported error. */
  function Conclude(r: Res<Env>): Evaluation {
    match r
    case Ok(env, _) =>
      var result := if "result" in env then env["result"] else Null;
      if Encodable(result) then Result(Wire(result)) else Error(Unserializable)
    case Halt(Pending(name, arguments), _) => Request(name, arguments)
    case Halt(Failed(failure), _) => Error(failure)
    case Halt(Stopped(_, name, arguments), _) => Request(name, arguments)
  }

  const NO_CALLS := Calls([], [])

  function PtcEval(ops: Ops, p: Program, history: seq<Entry>): Evaluation {
    if Accepted(p) then
      Conclude(ExecBlock(Machine(ops, Replay(history)), p, NAMESPACE, NO_CALLS))
    else
      Error(Rejected)
  }

  /** The program run once, each call going straight to the tools. */
  function DirectRun(ops: Ops, p: Program, w: World): Res<Env> {
    if Accepted(p) then
      ExecBlock(Machine(ops, Direct(w)), p, NAMESPACE, NO_CALLS)
    else
      Halt(Stop.Failed(Rejected), NO_CALLS)
  }

  function Trace(ops: Ops, p: Program, w: World): seq<Entry> {
    DirectRun(ops, p, w).c.trace
  }

  /** The calls of the direct run up to the first one whose arguments are not plain. */
  function StableCalls(ops: Ops, p: Program, w: World): nat {
    StableCount(DirectRun(ops, p, w).c.sent)
  }

  /**
   What one evaluation makes of the first `k` entries of the direct run's trace: it asks for exactly
   entry `k`, or ends as the direct run ends, unless the arguments of a recorded call are not plain.
   */
  lemma EvaluationOfPrefix(ops: Ops, p: Program, w: World, k: nat)
    requires k <= |Trace(ops, p, w)|
    ensures |DirectRun(ops, p, w).c.sent| == |Trace(ops, p, w)|
    ensures PtcEval(ops, p, Trace(ops, p, w)[..k]) ==
            if StableCalls(ops, p, w) < k then
              Error(ReplayChanged)
            else if k < |Trace(ops, p, w)| then
              Request(Trace(ops, p, w)[k].name, Trace(ops, p, w)[k].arguments)
            else
              Conclude(DirectRun(ops, p, w))
  {
    if Accepted(p) {
      ExecBlockMirrors(ops, w, Trace(ops, p, w)[..k], p, NAMESPACE, NO_CALLS);
    }
  }

  /**
   The program does the same on both: they compute the same, or they compute the same of values without `call` and
   `range`, and the program names these two only to call them.
   */
  ghost predicate Agrees(ops: Ops, p: Program, host: Ops) {
    host == ops || (Quiet(p) && Alike(ops, host))
  }

  /** The answers in the direct run's trace have come through JSON. */
  lemma TraceIsAnswered(ops: Ops, p: Program, w: World, k: nat)
    requires k < |Trace(ops, p, w)|
    ensures Answered(w, Trace(ops, p, w), k) && Closed(Trace(ops, p, w)[k].value)
  {
    assert Grows(Direct(w), NO_CALLS, DirectRun(ops, p, w).c);
    assert Answered(w, Trace(ops, p, w), k);
    var entry := Trace(ops, p, w)[k];
    WireIsClosed(Ask(w, Trace(ops, p, w)[..k], entry.name, entry.arguments).value);
  }

  /** Processes that agree evaluate the program alike, against every history that JSON can hold. */
  lemma EvaluationsAgree(ops: Ops, p: Program, host: Ops, history: seq<Entry>)
    requires Agrees(ops, p, host) && ClosedHistory(history)
    ensures PtcEval(host, p, history) == PtcEval(ops, p, history)
  {
    if host != ops && Accepted(p) {
      ExecBlockAlike(ops, host, Replay(history), p, NAMESPACE, NO_CALLS);
    }
  }

  /** So do the direct runs. */
  lemma DirectRunsAgree(ops: Ops, p: Program, host: Ops, w: World)
    requires Agrees(ops, p, host)
    ensures DirectRun(host, p, w) == DirectRun(ops, p, w)
  {
    if host != ops && Accepted(p) {
      ExecBlockAlike(ops, host, Direct(w), p, NAMESPACE, NO_CALLS);
    }
  }

  lemma PrefixOfTraceAgrees(ops: Ops, p: Program, host: Ops, w: World, results: seq<Entry>)
    requires Agrees(ops, p, host) && results <= Trace(ops, p, w)
    ensures PtcEval(host, p, results) == PtcEval(ops, p, results)
  {
    forall i | 0 <= i < |results| ensures Closed(results[i].value) {
      TraceIsAnswered(ops, p, w, i);
      assert results[i] == Trace(ops, p, w)[i];
    }
    EvaluationsAgree(ops, p, host, results);
  }

  datatype Response =
    | Finished(result: Value, calls: nat)
    | EvalError(failure: Failure)
    | UnavailableTool(name: string)
    | ApprovalRequired(value: Value)
    | UnfinishedCall
    | LimitReached
    | ToolException

  datatype Status =
    | Idle
    | Running(name: string, arguments: Value)
    | AwaitingApproval(name: string, arguments: Value)
    | Completed(response: Response)

  /** One entry of code-state.json. */
  datatype Execution = Execution(results: seq<Entry>, status: Status)

  const FRESH := Execution([], Idle)

  /** A tool was called, for the call at this position of the program, and what came of it. */
  datatype Attempt = Attempt(position: nat, name: string, arguments: Value, outcome: Outcome<Value>)

  /** The persisted execution, what the caller is told, and every attempt made so far. */
  datatype Run = Run(exec: Execution, response: Response, performed: seq<Attempt>)

  const SUBCALLS := 24

  /** The requested call is made; `LimitReached` stands for a loop that goes on. */
  function Delegate(w: World, exec: Execution, done: seq<Attempt>, name: string, arguments: Value): Run {
    var n := |exec.results|;
    match Ask(w, exec.results, name, arguments)
    case Unavailable => Run(exec, UnavailableTool(name), done)
    case Raised =>
      Run(Execution(exec.results, Running(name, arguments)), ToolException,
          done + [Attempt(n, name, arguments, Unheard)])
    case Refusal(value) =>
      Run(Execution(exec.results, AwaitingApproval(name, arguments)), ApprovalRequired(value),
          done + [Attempt(n, name, arguments, NeedsApproval)])
    case Answer(value) =>
      Run(Execution(exec.results + [Entry(name, arguments, Wire(value))], Idle), LimitReached,
          done + [Attempt(n, name, arguments, Succeeded(Wire(value)))])
  }

  /** One round of the loop: evaluate, then make the requested call. */
  function Round(ops: Ops, p: Program, w: World, exec: Execution, done: seq<Attempt>): Run {
    match PtcEval(ops, p, exec.results)
    case Error(failure) => Run(exec, EvalError(failure), done)
    case Result(value) =>
      var response := Finished(value, |exec.results|);
      Run(Execution(exec.results, Completed(response)), response, done)
    case Request(name, arguments) => Delegate(w, exec, done, name, arguments)
  }

  /** What operators and built-ins compute in round `n`: every evaluation has a process of its own. */
  type Hosts = nat -> Ops

  /** What round `n` makes of an execution and the attempts so far. */
  type Turns = (nat, Execution, seq<Attempt>) -> Run

  function TurnsOf(hosts: Hosts, p: Program, w: World): Turns {
    (n: nat, exec, done) => Round(hosts(n), p, w, exec, done)
  }

  /** At most `fuel` rounds, from round `n` on and from a persisted execution. */
  function Drive(turns: Turns, exec: Execution, done: seq<Attempt>, n: nat, fuel: nat): Run
    decreases fuel, exec
  {
    if fuel == 0 then
      Run(exec, LimitReached, done)
    else
      var run := turns(n, exec, done);
      if run.response != LimitReached then
        run
      else
        Drive(turns, run.exec, run.performed, n + 1, fuel - 1)
  }

  /** One invocation. */
  function Invocation(turns: Turns, exec: Execution, done: seq<Attempt>): Run {
    match exec.status
    case Completed(response) => Run(exec, response, done)
    case Running(_, _) => Run(exec, UnfinishedCall, done)
    case _ => Drive(turns, exec, done, 0, SUBCALLS)
  }

  /** code-state.json, and beside it every attempt made for each source. */
  datatype Store = Store(state: map<Program, Execution>, performed: map<Program, seq<Attempt>>) {
    function Stored(source: Program): Execution {
      if source in state then state[source] else FRESH
    }

    function Done(source: Program): seq<Attempt> {
      if source in performed then performed[source] else []
    }

    /** What a part of the loop that ends in `run` leaves behind. */
    function With(source: Program, run: Run): Store {
      Store(state[source := run.exec], performed[source := run.performed])
    }
  }

  const NO_STORE := Store(map[], map[])

  lemma LaterPartCounts(store: Store, source: Program, first: Run, second: Run)
    ensures store.With(source, first).With(source, second) == store.With(source, second)
    ensures store.With(source, first).Stored(source) == first.exec
    ensures store.With(source, first).Done(source) == first.performed
  {
  }

  lemma OtherSourcesStay(store: Store, source: Program, run: Run, other: Program)
    requires other != source
    ensures store.With(source, run).Stored(other) == store.Stored(other)
    ensures store.With(source, run).Done(other) == store.Done(other)
  {
  }

  lemma NothingDone(store: Store, source: Program, response: Response)
    requires source in store.state && source in store.performed
    ensures store.With(source, Run(store.Stored(source), response, store.Done(source))) == store
  {
  }

  lemma RoundCounts(store: Store, source: Program, first: Run, host: Ops, w: World)
    ensures
      var found, next := store.With(source, first), Round(host, source, w, first.exec, first.performed);
      && source in found.state && source in found.performed
      && found.With(source, Round(host, source, w, found.Stored(source), found.Done(source)))
         == store.With(source, next)
  {
    LaterPartCounts(store, source, first, Round(host, source, w, first.exec, first.performed));
  }

  lemma OneTurn(hosts: Hosts, source: Program, w: World, exec: Execution, done: seq<Attempt>, n: nat, fuel: nat)
    requires fuel > 0
    ensures var turns, run := TurnsOf(hosts, source, w), Round(hosts(n), source, w, exec, done);
            Drive(turns, exec, done, n, fuel)
            == if run.response != LimitReached then run else Drive(turns, run.exec, run.performed, n + 1, fuel - 1)
  {
  }

  /** What one call of `run_code` makes of its source. */
  function RunOf(store: Store, source: Program, hosts: Hosts, w: World): Run {
    Invocation(TurnsOf(hosts, source, w), store.Stored(source), store.Done(source))
  }

  class CodeModeTools {
    var store: Store

    constructor ()
      ensures store == NO_STORE
    {
      store := NO_STORE;
    }

    /** The loop has begun: the source has its entry. */
    predicate Begun(source: Program)
      reads this
    {
      source in store.state && source in store.performed
    }

    method Checkpoint(source: Program, results: seq<Entry>, status: Status)
      modifies this
      ensures store == old(store).(state := old(store).state[source := Execution(results, status)])
    {
      store := store.(state := store.state[source := Execution(results, status)]);
    }

    /** One more attempt, or what became of the last one. */
    method Note(source: Program, attempts: seq<Attempt>)
      modifies this
      ensures store == old(store).(performed := old(store).performed[source := attempts])
    {
      store := store.(performed := store.performed[source := attempts]);
    }

    /** One tool call of the loop, between its two checkpoints. */
    method Bridge(w: World, source: Program, name: string, arguments: Value) returns (stop: Option<Response>)
      requires Begun(source)
      modifies this
      ensures var run := Delegate(w, old(store).Stored(source), old(store).Done(source), name, arguments);
              && store == old(store).With(source, run)
              && stop == if run.response == LimitReached then None else Some(run.response)
    {
      var results, done := store.state[source].results, store.performed[source];
      var reply := Ask(w, results, name, arguments);
      if reply.Unavailable? {
        NothingDone(store, source, LimitReached);
        return Some(UnavailableTool(name));
      }
      Checkpoint(source, results, Running(name, arguments));
      Note(source, done + [Attempt(|results|, name, arguments, Unheard)]);
      match reply {
        case Raised =>
          return Some(ToolException);
        case Refusal(value) =>
          Note(source, done + [Attempt(|results|, name, arguments, NeedsApproval)]);
          Checkpoint(source, results, AwaitingApproval(name, arguments));
          return Some(ApprovalRequired(value));
        case Answer(value) =>
          Note(source, done + [Attempt(|results|, name, arguments, Succeeded(Wire(value)))]);
          Checkpoint(source, results + [Entry(name, arguments, Wire(value))], Idle);
          return None;
      }
    }

    method OneRound(host: Ops, source: Program, w: World) returns (stop: Option<Response>)
      requires Begun(source)
      modifies this
      ensures var run := Round(host, source, w, old(store).Stored(source), old(store).Done(source));
              && store == old(store).With(source, run)
              && stop == if run.response == LimitReached then None else Some(run.response)
    {
      var results := store.state[source].results;
      match PtcEval(host, source, results) {
        case Error(failure) =>
          NothingDone(store, source, LimitReached);
          stop := Some(EvalError(failure));
        case Result(value) =>
          Checkpoint(source, results, Completed(Finished(value, |results|)));
          assert store.performed == store.performed[source := store.performed[source]];
          stop := Some(Finished(value, |results|));
        case Request(name, arguments) =>
          stop := Bridge(w, source, name, arguments);
      }
    }

    /** Round `n` of a loop that found `before` and has come to `run`; the loop ends with it if there is an answer. */
    method NextTurn(hosts: Hosts, source: Program, w: World, n: nat, ghost before: Store, ghost run: Run,
                    ghost fuel: nat)
      returns (stop: Option<Response>, ghost next: Run)
      requires store == before.With(source, run) && fuel > 0
      modifies this
      ensures store == before.With(source, next)
      ensures var left := Drive(TurnsOf(hosts, source, w), run.exec, run.performed, n, fuel);
              if stop.Some? then
                left == next && stop.value == next.response
              else
                && next.response == LimitReached
                && left == Drive(TurnsOf(hosts, source, w), next.exec, next.performed, n + 1, fuel - 1)
    {
      next := Round(hosts(n), source, w, run.exec, run.performed);
      RoundCounts(before, source, run, hosts(n), w);
      OneTurn(hosts, source, w, run.exec, run.performed, n, fuel);
      stop := OneRound(hosts(n), source, w);
    }

    method Rounds(hosts: Hosts, source: Program, w: World, fuel: nat) returns (response: Response)
      requires Begun(source)
      modifies this
      ensures var run := Drive(TurnsOf(hosts, source, w), old(store).Stored(source), old(store).Done(source), 0, fuel);
              store == old(store).With(source, run) && response == run.response
    {
      ghost var before, run := store, Run(store.Stored(source), LimitReached, store.Done(source));
      ghost var whole := Drive(TurnsOf(hosts, source, w), run.exec, run.performed, 0, fuel);
      NothingDone(store, source, LimitReached);
      for i := 0 to fuel
        invariant store == before.With(source, run) && run.response == LimitReached
        invariant whole == Drive(TurnsOf(hosts, source, w), run.exec, run.performed, i, fuel - i)
      {
        var stop: Option<Response>;
        stop, run := NextTurn(hosts, source, w, i, before, run, fuel - i);
        if stop.Some? {
          return stop.value;
        }
      }
      return LimitReached;
    }

    /**
     One call.  A completed execution gives its stored answer, and one with an unfinished call is refused: nothing is
     evaluated, called or stored then.  Other sources are never touched.
     */
    method RunCode(hosts: Hosts, source: Program, w: World) returns (response: Response)
      modifies this
      ensures var run := RunOf(old(store), source, hosts, w);
              store == old(store).With(source, run) && response == run.response
      ensures forall r | old(store).Stored(source).status == Completed(r) ::
                response == r && store.Stored(source) == old(store).Stored(source)
                && store.Done(source) == old(store).Done(source)
      ensures old(store).Stored(source).status.Running? ==>
                response == UnfinishedCall && store.Stored(source) == old(store).Stored(source)
                && store.Done(source) == old(store).Done(source)
      ensures forall other | other != source ::
                store.Stored(other) == old(store).Stored(other) && store.Done(other) == old(store).Done(other)
    {
      var exec := store.Stored(source);
      ghost var found, run := Run(exec, LimitReached, store.Done(source)), RunOf(store, source, hosts, w);
      LaterPartCounts(store, source, found, run);
      forall other | other != source
        ensures store.With(source, run).Stored(other) == store.Stored(other)
        ensures store.With(source, run).Done(other) == store.Done(other)
      {
        OtherSourcesStay(store, source, run, other);
      }
      Note(source, store.Done(source));
      Checkpoint(source, exec.results, exec.status);
      assert store == old(store).With(source, found);
      match exec.status {
        case Completed(stored) => response := stored;
        case Running(_, _) => response := UnfinishedCall;
        case _ => response := Rounds(hosts, source, w, SUBCALLS);
      }
    }
  }
}
