/**
 Driving a program through its evaluations means the same as running it directly: what every round, every
 invocation and all invocations together do to the persisted history, to the tools and to the answer.
 */
module ReplayLoop {
  import opened CodeLanguage
  import opened CodeMode
  import opened QuietPrograms
  import opened ReplayTheorem
  import opened StartLog

  /** How many calls the loop ever performs: all of them, or up to and including the first unstable one. */
  function Reach(ops: Ops, p: Program, w: World): nat {
    if StableCalls(ops, p, w) < |Trace(ops, p, w)| then StableCalls(ops, p, w) + 1 else |Trace(ops, p, w)|
  }

  /** The call during which the host stopped the direct run: it was made, and not answered. */
  function Stopping(d: Res<Env>): seq<Attempt> {
    if d.Halt? && d.stop.Stopped? && !d.stop.reply.Unavailable? then
      [Attempt(|d.c.trace|, d.stop.name, d.stop.arguments, if d.stop.reply.Refusal? then NeedsApproval else Unheard)]
    else
      []
  }

  /** What the loop still calls when it has recorded all it ever records. */
  function Tail(ops: Ops, p: Program, w: World): seq<Attempt> {
    if StableCalls(ops, p, w) < |Trace(ops, p, w)| then [] else Stopping(DirectRun(ops, p, w))
  }

  /** The answer the loop ends with. */
  function FinalResponse(ops: Ops, p: Program, w: World): Response {
    if StableCalls(ops, p, w) < |Trace(ops, p, w)| then
      EvalError(ReplayChanged)
    else
      DirectResponse(ops, p, w)
  }

  /** The answer of the program run directly. */
  function DirectResponse(ops: Ops, p: Program, w: World): Response {
    var d := DirectRun(ops, p, w);
    if d.Halt? && d.stop.Stopped? then
      match d.stop.reply
      case Refusal(value) => ApprovalRequired(value)
      case Unavailable => UnavailableTool(d.stop.name)
      case _ => ToolException
    else
      match Conclude(d)
      case Result(value) => Finished(value, |d.c.trace|)
      case Error(failure) => EvalError(failure)
      case Request(_, _) => LimitReached
  }

  /** Calls `i` to `j` of the direct run, as attempts. */
  function Attempts(trace: seq<Entry>, i: nat, j: nat): (a: seq<Attempt>)
    requires i <= j <= |trace|
  {
    seq(j - i, k requires 0 <= k < j - i =>
      Attempt(i + k, trace[i + k].name, trace[i + k].arguments, Succeeded(trace[i + k].value)))
  }

  /** The state after `n` more calls of the direct run. */
  function Advanced(trace: seq<Entry>, exec: Execution, done: seq<Attempt>, n: nat): Run
    requires |exec.results| + n <= |trace|
  {
    var k := |exec.results|;
    Run(Execution(trace[..k + n], if n == 0 then exec.status else Idle), LimitReached, done + Attempts(trace, k, k + n))
  }

  lemma AdvancedStep(trace: seq<Entry>, exec: Execution, done: seq<Attempt>, n: nat)
    requires 0 < n && |exec.results| + n <= |trace|
    ensures var next := Advanced(trace, exec, done, 1);
            Advanced(trace, next.exec, next.performed, n - 1) == Advanced(trace, exec, done, n)
  {
    var k := |exec.results|;
    assert Attempts(trace, k, k + n) == Attempts(trace, k, k + 1) + Attempts(trace, k + 1, k + n);
  }

  lemma AdvancedByNone(trace: seq<Entry>, exec: Execution, done: seq<Attempt>)
    requires exec.results <= trace
    ensures Advanced(trace, exec, done, 0) == Run(exec, LimitReached, done)
  {
    assert Attempts(trace, |exec.results|, |exec.results|) == [];
    assert trace[..|exec.results|] == exec.results;
  }

  lemma AdvancedByOne(trace: seq<Entry>, exec: Execution, done: seq<Attempt>)
    requires |exec.results| < |trace|
    ensures var next := Advanced(trace, exec, done, 1);
            next.response == LimitReached && next.exec.results <= trace && |next.exec.results| == |exec.results| + 1
  {
  }

  // ---------- The loop, whatever its rounds evaluate ----------

  /** While fewer than `reach` calls are recorded, every round makes and records the next call of `trace`. */
  ghost predicate Follows(turns: Turns, trace: seq<Entry>, reach: nat) {
    && reach <= |trace|
    && forall n, exec: Execution, done | exec.results <= trace && |exec.results| < reach ::
         turns(n, exec, done) == Advanced(trace, exec, done, 1)
  }

  /** When `reach` calls are recorded, every round ends the loop with this response, after the calls of `tail`. */
  ghost predicate Closes(turns: Turns, trace: seq<Entry>, reach: nat, response: Response, tail: seq<Attempt>) {
    && response != LimitReached
    && forall n, exec: Execution, done | exec.results <= trace && |exec.results| == reach ::
         && turns(n, exec, done).response == response
         && turns(n, exec, done).exec.results == exec.results
         && turns(n, exec, done).performed == done + tail
  }

  /** With too few rounds to finish, the loop has performed and recorded one more call each round. */
  lemma {:induction false} DriveAdvances(
      turns: Turns, trace: seq<Entry>, reach: nat, exec: Execution, done: seq<Attempt>, n: nat, fuel: nat)
    requires Follows(turns, trace, reach) && exec.results <= trace && |exec.results| + fuel <= reach
    ensures Drive(turns, exec, done, n, fuel) == Advanced(trace, exec, done, fuel)
    decreases fuel
  {
    if fuel == 0 {
      AdvancedByNone(trace, exec, done);
    } else {
      var next := Advanced(trace, exec, done, 1);
      AdvancedByOne(trace, exec, done);
      DriveAdvances(turns, trace, reach, next.exec, next.performed, n + 1, fuel - 1);
      AdvancedStep(trace, exec, done, fuel);
    }
  }

  lemma {:induction false} DriveInTwo(turns: Turns, exec: Execution, done: seq<Attempt>, n: nat, a: nat, b: nat)
    ensures var first := Drive(turns, exec, done, n, a);
            first.response == LimitReached ==>
              Drive(turns, exec, done, n, a + b) == Drive(turns, first.exec, first.performed, n + a, b)
    decreases a
  {
    if a > 0 {
      var run := turns(n, exec, done);
      DriveInTwo(turns, run.exec, run.performed, n + 1, a - 1, b);
    }
  }

  /** With enough rounds it performs every remaining call once, then those of `tail`, and ends. */
  lemma DriveFinishes(turns: Turns, trace: seq<Entry>, reach: nat, response: Response, tail: seq<Attempt>,
                      exec: Execution, done: seq<Attempt>, n: nat, fuel: nat)
    requires Follows(turns, trace, reach) && Closes(turns, trace, reach, response, tail)
    requires exec.results <= trace && |exec.results| <= reach < |exec.results| + fuel
    ensures var run := Drive(turns, exec, done, n, fuel);
            && run.response == response && run.exec.results == trace[..reach]
            && run.performed == done + Attempts(trace, |exec.results|, reach) + tail
  {
    var left := reach - |exec.results|;
    DriveAdvances(turns, trace, reach, exec, done, n, left);
    DriveInTwo(turns, exec, done, n, left, fuel - left);
    var advanced := Advanced(trace, exec, done, left);
    assert turns(n + left, advanced.exec, advanced.performed).response == response;
  }

  /** A request that the world answers as recorded is the next call of the trace. */
  lemma RecordedRequest(w: World, trace: seq<Entry>, exec: Execution, done: seq<Attempt>)
    requires exec.results <= trace && |exec.results| < |trace| && Answered(w, trace, |exec.results|)
    ensures var next := trace[|exec.results|];
            Delegate(w, exec, done, next.name, next.arguments) == Advanced(trace, exec, done, 1)
  {
    var k := |exec.results|;
    assert exec.results == trace[..k];
    assert exec.results + [trace[k]] == trace[..k + 1];
  }

  /** A round before the end of the trace performs exactly the next call of the direct run. */
  lemma NextRound(ops: Ops, host: Ops, p: Program, w: World, exec: Execution, done: seq<Attempt>)
    requires Agrees(ops, p, host) && exec.results <= Trace(ops, p, w) && |exec.results| < Reach(ops, p, w)
    ensures Round(host, p, w, exec, done) == Advanced(Trace(ops, p, w), exec, done, 1)
  {
    var k := |exec.results|;
    PrefixOfTraceAgrees(ops, p, host, w, exec.results);
    EvaluationOfPrefix(ops, p, w, k);
    assert exec.results == Trace(ops, p, w)[..k];
    TraceIsAnswered(ops, p, w, k);
    RecordedRequest(w, Trace(ops, p, w), exec, done);
  }

  /** The round after the last call ends the loop. */
  lemma LastRound(ops: Ops, host: Ops, p: Program, w: World, exec: Execution, done: seq<Attempt>)
    requires Agrees(ops, p, host)
    requires exec.results <= Trace(ops, p, w) && |exec.results| == Reach(ops, p, w)
    ensures var run := Round(host, p, w, exec, done);
            && run.response == FinalResponse(ops, p, w) != LimitReached
            && run.exec.results == exec.results
            && run.performed == done + Tail(ops, p, w)
  {
    PrefixOfTraceAgrees(ops, p, host, w, exec.results);
    EvaluationOfPrefix(ops, p, w, |exec.results|);
    var trace := Trace(ops, p, w);
    assert exec.results == trace[..|exec.results|];
    if |exec.results| == |trace| {
      assert exec.results == trace;
      assert Honest(Direct(w), DirectRun(ops, p, w));
    }
  }

  // ---------- The rounds of a program ----------

  /** All evaluations agree with the process in which the program is run directly. */
  ghost predicate Steady(ops: Ops, p: Program, hosts: Hosts) {
    forall n :: Agrees(ops, p, hosts(n))
  }

  lemma TurnsFollow(ops: Ops, hosts: Hosts, p: Program, w: World)
    requires Steady(ops, p, hosts)
    ensures Follows(TurnsOf(hosts, p, w), Trace(ops, p, w), Reach(ops, p, w))
  {
    var turns, trace, reach := TurnsOf(hosts, p, w), Trace(ops, p, w), Reach(ops, p, w);
    forall n, exec: Execution, done | exec.results <= trace && |exec.results| < reach
      ensures turns(n, exec, done) == Advanced(trace, exec, done, 1)
    {
      NextRound(ops, hosts(n), p, w, exec, done);
    }
  }

  lemma TurnsClose(ops: Ops, hosts: Hosts, p: Program, w: World)
    requires Steady(ops, p, hosts)
    ensures Closes(TurnsOf(hosts, p, w), Trace(ops, p, w), Reach(ops, p, w), FinalResponse(ops, p, w), Tail(ops, p, w))
  {
    var turns, trace, reach := TurnsOf(hosts, p, w), Trace(ops, p, w), Reach(ops, p, w);
    FinalResponseIsFinal(ops, p, w);
    forall n, exec: Execution, done | exec.results <= trace && |exec.results| == reach
      ensures turns(n, exec, done).response == FinalResponse(ops, p, w)
      ensures turns(n, exec, done).exec.results == exec.results
      ensures turns(n, exec, done).performed == done + Tail(ops, p, w)
    {
      LastRound(ops, hosts(n), p, w, exec, done);
    }
  }

  lemma FinalResponseIsFinal(ops: Ops, p: Program, w: World)
    ensures FinalResponse(ops, p, w) != LimitReached
  {
    var trace, reach := Trace(ops, p, w), Reach(ops, p, w);
    LastRound(ops, ops, p, w, Execution(trace[..reach], Idle), []);
  }

  /** The loop has ended with its answer, having performed exactly `calls` and recorded all it records. */
  ghost predicate Ends(ops: Ops, p: Program, w: World, calls: seq<Attempt>, run: Run) {
    && run.response == FinalResponse(ops, p, w)
    && run.exec.results == Trace(ops, p, w)[..Reach(ops, p, w)]
    && run.performed == calls
  }

  // ---------- Invocations ----------

  /** The processes of every invocation. */
  type Fleet = nat -> Hosts

  ghost predicate AllSteady(ops: Ops, p: Program, fleet: Fleet) {
    forall j :: Steady(ops, p, fleet(j))
  }

  /** `j` uninterrupted invocations of one source, from an empty state; the response is the last one's. */
  function Invocations(fleet: Fleet, p: Program, w: World, j: nat): Run {
    if j == 0 then
      Run(FRESH, LimitReached, [])
    else
      var before := Invocations(fleet, p, w, j - 1);
      Invocation(TurnsOf(fleet(j), p, w), before.exec, before.performed)
  }

  /** An invocation with at least 24 calls left makes exactly the next 24. */
  lemma InvocationAdvances(turns: Turns, trace: seq<Entry>, reach: nat, exec: Execution, done: seq<Attempt>)
    requires Follows(turns, trace, reach)
    requires exec.status == Idle && exec.results <= trace && |exec.results| + SUBCALLS <= reach
    ensures Invocation(turns, exec, done) == Advanced(trace, exec, done, SUBCALLS)
  {
    DriveAdvances(turns, trace, reach, exec, done, 0, SUBCALLS);
  }

  lemma AttemptsOf(trace: seq<Entry>, m: nat, n: nat)
    requires m <= n <= |trace|
    ensures Advanced(trace, FRESH, [], m) == Run(Execution(trace[..m], Idle), LimitReached, Attempts(trace, 0, m))
    ensures |trace[..m]| == m && trace[..m] <= trace
    ensures Attempts(trace, 0, m) + Attempts(trace, m, n) == Attempts(trace, 0, n)
  {
    AttemptsSplit(trace, m, n);
    assert [] + Attempts(trace, 0, m) == Attempts(trace, 0, m);
  }

  lemma AdvancedInTwo(trace: seq<Entry>, m: nat, n: nat)
    requires m + n <= |trace|
    ensures var first := Advanced(trace, FRESH, [], m);
            Advanced(trace, first.exec, first.performed, n) == Advanced(trace, FRESH, [], m + n)
  {
    AttemptsOf(trace, m, m + n);
    AttemptsOf(trace, m + n, m + n);
  }

  lemma OneMoreInvocation(turns: Turns, trace: seq<Entry>, reach: nat, m: nat)
    requires Follows(turns, trace, reach) && m + SUBCALLS <= reach
    ensures var before := Advanced(trace, FRESH, [], m);
            Invocation(turns, before.exec, before.performed) == Advanced(trace, FRESH, [], m + SUBCALLS)
  {
    AttemptsOf(trace, m, m);
    InvocationAdvances(turns, trace, reach, Execution(trace[..m], Idle), Attempts(trace, 0, m));
    AdvancedInTwo(trace, m, SUBCALLS);
  }

  /** Every invocation that does not reach the end makes exactly the next 24 calls. */
  lemma {:induction false} InvocationsAdvance(ops: Ops, fleet: Fleet, p: Program, w: World, j: nat)
    requires AllSteady(ops, p, fleet) && SUBCALLS * j <= Reach(ops, p, w)
    ensures Invocations(fleet, p, w, j) == Advanced(Trace(ops, p, w), FRESH, [], SUBCALLS * j)
  {
    var trace := Trace(ops, p, w);
    if j > 0 {
      InvocationsAdvance(ops, fleet, p, w, j - 1);
      TurnsFollow(ops, fleet(j), p, w);
      OneMoreInvocation(TurnsOf(fleet(j), p, w), trace, Reach(ops, p, w), SUBCALLS * (j - 1));
    }
  }

  lemma AttemptsSplit(trace: seq<Entry>, m: nat, n: nat)
    requires m <= n <= |trace|
    ensures [] + Attempts(trace, 0, m) + Attempts(trace, m, n) == [] + Attempts(trace, 0, n) == Attempts(trace, 0, n)
    ensures Attempts(trace, 0, m) + Attempts(trace, m, n) == Attempts(trace, 0, n)
  {
  }

  /** The number of invocations a program needs when it makes `n` calls is n/24 + 1. */
  function InvocationsNeeded(ops: Ops, p: Program, w: World): (j: nat)
    ensures 24 * (j - 1) <= Reach(ops, p, w) < 24 * j
  {
    Reach(ops, p, w) / SUBCALLS + 1
  }

  /** Every tool call the loop ever makes. */
  function AllAttempts(ops: Ops, p: Program, w: World): seq<Attempt> {
    Attempts(Trace(ops, p, w), 0, Reach(ops, p, w)) + Tail(ops, p, w)
  }

  lemma LastInvocation(ops: Ops, fleet: Fleet, p: Program, w: World, i: nat)
    requires AllSteady(ops, p, fleet) && SUBCALLS * i <= Reach(ops, p, w) < SUBCALLS * i + SUBCALLS
    ensures Ends(ops, p, w, AllAttempts(ops, p, w), Invocations(fleet, p, w, i + 1))
  {
    var turns, trace, reach, m := TurnsOf(fleet(i + 1), p, w), Trace(ops, p, w), Reach(ops, p, w), SUBCALLS * i;
    InvocationsAdvance(ops, fleet, p, w, i);
    AttemptsOf(trace, m, reach);
    TurnsFollow(ops, fleet(i + 1), p, w);
    TurnsClose(ops, fleet(i + 1), p, w);
    DriveFinishes(turns, trace, reach, FinalResponse(ops, p, w), Tail(ops, p, w),
                  Execution(trace[..m], Idle), Attempts(trace, 0, m), 0, SUBCALLS);
  }

  /**
   The last of these answers, and over all of them each call of the direct run was performed once
   and in order.
   */
  lemma InvocationsFinish(ops: Ops, fleet: Fleet, p: Program, w: World)
    requires AllSteady(ops, p, fleet)
    ensures Ends(ops, p, w, AllAttempts(ops, p, w), Invocations(fleet, p, w, InvocationsNeeded(ops, p, w)))
  {
    LastInvocation(ops, fleet, p, w, InvocationsNeeded(ops, p, w) - 1);
  }

  /** No earlier invocation answers anything but the subcall limit. */
  lemma InvocationsNeededIsLeast(ops: Ops, fleet: Fleet, p: Program, w: World, i: nat)
    requires AllSteady(ops, p, fleet) && i < InvocationsNeeded(ops, p, w)
    ensures Invocations(fleet, p, w, i).response == LimitReached
  {
    InvocationsAdvance(ops, fleet, p, w, i);
  }

  /** Every tool call of the direct run, in order, with the one that stopped it. */
  function DirectAttempts(ops: Ops, p: Program, w: World): seq<Attempt> {
    Attempts(Trace(ops, p, w), 0, |Trace(ops, p, w)|) + Stopping(DirectRun(ops, p, w))
  }

  /** What one evaluation after another makes of the program, compared with running it directly. */
  ghost predicate MeansDirectRun(ops: Ops, fleet: Fleet, p: Program, w: World) {
    var run, sent := Invocations(fleet, p, w, InvocationsNeeded(ops, p, w)), DirectRun(ops, p, w).c.sent;
    && (run.response == DirectResponse(ops, p, w) <==> forall i | 0 <= i < |sent| :: Plain(sent[i]))
    && (run.response == DirectResponse(ops, p, w) ==>
          run.exec.results == Trace(ops, p, w) && run.performed == DirectAttempts(ops, p, w))
  }

  /** All calls are reached, and the answer is that of the direct run, exactly when all arguments are plain. */
  lemma EndsDirectlyIffPlain(ops: Ops, p: Program, w: World)
    ensures var sent := DirectRun(ops, p, w).c.sent;
            FinalResponse(ops, p, w) == DirectResponse(ops, p, w) <==> forall i | 0 <= i < |sent| :: Plain(sent[i])
    ensures FinalResponse(ops, p, w) == DirectResponse(ops, p, w) ==>
              Reach(ops, p, w) == |Trace(ops, p, w)| && AllAttempts(ops, p, w) == DirectAttempts(ops, p, w)
  {
    var sent := DirectRun(ops, p, w).c.sent;
    EvaluationOfPrefix(ops, p, w, 0);
    assert Honest(Direct(w), DirectRun(ops, p, w));
    forall i | 0 <= i < |sent| ensures Stable(sent[i]) <==> Plain(sent[i]) {
      StableIffPlain(sent[i]);
    }
  }

  /**
   Meaning preservation, as long as the evaluations agree.  The replaying loop ends with the answer of the direct run
   exactly when the arguments of every call of the direct run are plain: no tuple, no key that is not a string, no NaN
   of the program's own.  Then it has also made exactly the calls of the direct run, each once and in order.
   */
  lemma SteadyReplayMeansDirectRun(ops: Ops, fleet: Fleet, p: Program, w: World)
    requires AllSteady(ops, p, fleet)
    ensures MeansDirectRun(ops, fleet, p, w)
  {
    InvocationsFinish(ops, fleet, p, w);
    EndsDirectlyIffPlain(ops, p, w);
    assert Trace(ops, p, w)[..|Trace(ops, p, w)|] == Trace(ops, p, w);
  }

  /** Every process computes the same of values without `call` and `range`. */
  ghost predicate AllAlike(ops: Ops, fleet: Fleet) {
    forall j, n :: Alike(ops, fleet(j)(n))
  }

  /**
   For a program that names `call` and `range` only to call them, every evaluation may run in a process of its own:
   the loop means the direct run exactly when the arguments of every call are plain.
   */
  lemma ReplayMeansDirectRun(ops: Ops, fleet: Fleet, p: Program, w: World)
    requires Quiet(p) && AllAlike(ops, fleet)
    ensures MeansDirectRun(ops, fleet, p, w)
  {
    forall j, n ensures Agrees(ops, p, fleet(j)(n)) {
      assert Alike(ops, fleet(j)(n));
    }
    SteadyReplayMeansDirectRun(ops, fleet, p, w);
  }
}
